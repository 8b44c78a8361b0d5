/** The completed-task counter protocol that runs around every task save:
    before the write, the status stored for the task is captured; after
    it, the creator's completed-task count moves by at most one. The store
    (module Views) applies these two steps in SaveTask. */
module Signals {
  import opened Models

  /** The status the database holds for the task about to be saved: None
      for a task without a primary key, and None when the key names no
      stored row. */
  function PrevStatus(tasks: map<TaskId, Task>, pk: Option<TaskId>): (prev: Option<TaskStatus>)
    ensures prev.Some? <==> pk.Some? && pk.value in tasks
    ensures prev.Some? ==> prev.value == tasks[pk.value].status
  {
    match pk
    case None => None
    case Some(id) => if id in tasks then Some(tasks[id].status) else None
  }

  /** The creator's completed-task count after a save, given whether the
      row was created, the captured previous status, the saved status and
      the count before. */
  function CounterAfter(created: bool, prev: Option<TaskStatus>, curr: TaskStatus, count: nat): (r: nat)
    ensures count - 1 <= r <= count + 1
    ensures created && prev.None? ==> r == count + (if curr == Complete then 1 else 0)
    ensures !created && prev == Some(curr) ==> r == count
    ensures !created && prev != Some(Complete) && curr == Complete ==> r == count + 1
    ensures !created && prev == Some(Complete) && curr == Pending ==> r == (if count > 0 then count - 1 else 0)
  {
    if created && curr == Complete then count + 1
    else if prev != Some(curr) then
      if prev != Some(Complete) && curr == Complete then count + 1
      else if prev == Some(Complete) && curr != Complete && count > 0 then count - 1
      else count
    else count
  }

  // ---------------------------------------------------------------------
  // The counter stays equal to the number of complete tasks across saves.

  /** The tasks of user u that are currently complete. */
  function CompletedBy(tasks: map<TaskId, Task>, u: UserId): (s: set<TaskId>)
    ensures forall t :: t in s <==> t in tasks && tasks[t].createdBy == u && tasks[t].status == Complete
  {
    set t | t in tasks && tasks[t].createdBy == u && tasks[t].status == Complete
  }

  /** Writing row `id` changes the creator's complete tasks at most in
      `id` itself. */
  lemma CompletedAfterWrite(tasks: map<TaskId, Task>, id: TaskId, t: Task)
    ensures CompletedBy(tasks[id := t], t.createdBy)
            == (CompletedBy(tasks, t.createdBy) - {id}) + (if t.status == Complete then {id} else {})
  {
  }

  /** Taking one key out of a set and putting it back. */
  lemma SizeAroundKey(s: set<TaskId>, id: TaskId)
    ensures |s| == |s - {id}| + (if id in s then 1 else 0)
    ensures |(s - {id}) + {id}| == |s - {id}| + 1
  {
    if id in s {
      assert s == (s - {id}) + {id};
    } else {
      assert s == s - {id};
    }
  }

  /** If the creator's count equals the number of their complete tasks
      before a save, it still does after it: a create inserts a fresh key,
      an update rewrites an existing one without changing its creator. */
  lemma SaveKeepsCountConsistent(tasks: map<TaskId, Task>, pk: Option<TaskId>, id: TaskId, t: Task, count: nat)
    requires pk.None? ==> id !in tasks
    requires pk.Some? ==> pk.value == id && id in tasks && tasks[id].createdBy == t.createdBy
    requires count == |CompletedBy(tasks, t.createdBy)|
    ensures CounterAfter(pk.None?, PrevStatus(tasks, pk), t.status, count)
            == |CompletedBy(tasks[id := t], t.createdBy)|
  {
    var before := CompletedBy(tasks, t.createdBy);
    var rest := |before - {id}|;
    CompletedAfterWrite(tasks, id, t);
    SizeAroundKey(before, id);
    assert |CompletedBy(tasks[id := t], t.createdBy)| == rest + Weight(t.status);
    if pk.Some? {
      var prev := tasks[id].status;
      assert count == rest + Weight(prev);
      assert CounterAfter(false, Some(prev), t.status, count) == rest + Weight(t.status);
    }
  }

  /** Saves of one existing task with the given successive statuses,
      starting from the stored status `current`. */
  function Replay(count: nat, current: TaskStatus, edits: seq<TaskStatus>): nat
    decreases |edits|
  {
    if edits == [] then count
    else Replay(CounterAfter(false, Some(current), edits[0], count), edits[0], edits[1..])
  }

  function LastStatus(current: TaskStatus, edits: seq<TaskStatus>): TaskStatus
  {
    if edits == [] then current else edits[|edits| - 1]
  }

  function Weight(s: TaskStatus): nat { if s == Complete then 1 else 0 }

  /** Any run of edits to one task leaves the count at what it was before
      the task counted, plus one exactly when the last status is complete:
      no edit sequence double-counts or loses a completion. */
  lemma {:induction false} ReplayCounts(base: nat, current: TaskStatus, edits: seq<TaskStatus>)
    ensures Replay(base + Weight(current), current, edits) == base + Weight(LastStatus(current, edits))
    decreases |edits|
  {
    if edits != [] {
      assert CounterAfter(false, Some(current), edits[0], base + Weight(current)) == base + Weight(edits[0]);
      ReplayCounts(base, edits[0], edits[1..]);
      assert LastStatus(edits[0], edits[1..]) == LastStatus(current, edits);
    }
  }

  /** The scenario of creating a task pending and editing it to complete,
      back to pending, then to complete twice: the count ends one higher. */
  lemma CreateThenEdit(count: nat)
    ensures Replay(CounterAfter(true, None, Pending, count), Pending, [Complete, Pending, Complete, Complete]) == count + 1
  {
    ReplayCounts(count, Pending, [Complete, Pending, Complete, Complete]);
  }
}
