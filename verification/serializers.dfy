/** Input validation and computed read-only fields of the serializers:
    the registration checks, the session time check, and the counts shown
    on a profile and on a session. */
module Serializers {
  import opened Models

  /** Shortest password registration accepts. */
  const MinPasswordLength: nat := 6

  /** The characters Python's str.strip() removes: the ASCII controls tab
      to carriage return, the file/group/record/unit separators, space,
      next-line, no-break space and the Unicode space separators. */
  predicate IsSpace(c: char)
  {
    var n := c as int;
    || (9 <= n <= 13) || (28 <= n <= 32) || n == 0x85 || n == 0xA0 || n == 0x1680
    || (0x2000 <= n <= 0x200A) || n == 0x2028 || n == 0x2029 || n == 0x202F
    || n == 0x205F || n == 0x3000
  }

  /** The text without its leading whitespace. */
  function TrimStart(s: string): (r: string)
    ensures |r| <= |s| && r == s[|s| - |r|..]
    ensures forall i :: 0 <= i < |s| - |r| ==> IsSpace(s[i])
    ensures r == [] || !IsSpace(r[0])
  {
    if s != [] && IsSpace(s[0]) then TrimStart(s[1..]) else s
  }

  /** The text without its trailing whitespace. */
  function TrimEnd(s: string): (r: string)
    ensures |r| <= |s| && r == s[..|r|]
    ensures forall i :: |r| <= i < |s| ==> IsSpace(s[i])
    ensures r == [] || !IsSpace(r[|r| - 1])
  {
    if s != [] && IsSpace(s[|s| - 1]) then TrimEnd(s[..|s| - 1]) else s
  }

  /** What a text field keeps of its input (trim_whitespace): the text
      between the first and the last non-whitespace character; nothing
      when the input is blank. */
  function Trim(s: string): (r: string)
    ensures |r| <= |s|
    ensures r == [] || (!IsSpace(r[0]) && !IsSpace(r[|r| - 1]))
    ensures r == [] <==> forall i :: 0 <= i < |s| ==> IsSpace(s[i])
  {
    var t := TrimStart(s);
    var r := TrimEnd(t);
    assert r == [] ==> forall i :: 0 <= i < |s| ==> IsSpace(s[i]) by {
      if r == [] {
        assert t == [];
      }
    }
    assert r != [] ==> !IsSpace(r[0]) by {
      if r != [] {
        assert r[0] == t[0];
      }
    }
    r
  }

  /** What the field keeps is a piece of the input, and everything cut off
      on either side of it is whitespace. */
  lemma TrimIsInfix(s: string)
    ensures var r := Trim(s);
            exists i :: && 0 <= i <= |s| && r <= s[i..]
                        && (forall k :: 0 <= k < i ==> IsSpace(s[k]))
                        && (forall k :: i + |r| <= k < |s| ==> IsSpace(s[k]))
  {
    var t := TrimStart(s);
    var r := TrimEnd(t);
    var front := |s| - |t|;
    assert r <= s[front..];
    forall k | front + |r| <= k < |s|
      ensures IsSpace(s[k])
    {
      assert s[k] == t[k - front];
    }
  }

  /** What an optional text field passes on: the stripped text when one
      was sent, nothing otherwise. */
  function TrimmedOption(s: Option<string>): Option<string>
  {
    if s.Some? then Some(Trim(s.value)) else None
  }

  /** Whitespace put in front is stripped. */
  lemma {:induction false} TrimStartPadded(pad: string, s: string)
    requires forall i :: 0 <= i < |pad| ==> IsSpace(pad[i])
    ensures TrimStart(pad + s) == TrimStart(s)
    decreases |pad|
  {
    if pad != [] {
      assert (pad + s)[1..] == pad[1..] + s;
      TrimStartPadded(pad[1..], s);
    } else {
      assert pad + s == s;
    }
  }

  /** Whitespace put behind is stripped. */
  lemma {:induction false} TrimEndPadded(s: string, pad: string)
    requires forall i :: 0 <= i < |pad| ==> IsSpace(pad[i])
    ensures TrimEnd(s + pad) == TrimEnd(s)
    decreases |pad|
  {
    if pad != [] {
      var init := pad[..|pad| - 1];
      assert (s + pad)[..|s + pad| - 1] == s + init;
      TrimEndPadded(s, init);
    } else {
      assert s + pad == s;
    }
  }

  /** Leading whitespace is stripped from the front only: a text that is
      not blank keeps what follows it. */
  lemma {:induction false} TrimStartBeforePad(s: string, pad: string)
    requires forall i :: 0 <= i < |pad| ==> IsSpace(pad[i])
    ensures TrimStart(s) != [] ==> TrimStart(s + pad) == TrimStart(s) + pad
    ensures TrimStart(s) == [] ==> TrimStart(s + pad) == []
    decreases |s|
  {
    if s == [] {
      assert s + pad == pad;
      TrimStartPadded(pad, []);
      assert pad + [] == pad;
    } else if IsSpace(s[0]) {
      assert (s + pad)[1..] == s[1..] + pad;
      TrimStartBeforePad(s[1..], pad);
    }
  }

  /** Surrounding a text with whitespace does not change what the field keeps. */
  lemma TrimPadded(pad: string, s: string)
    requires forall i :: 0 <= i < |pad| ==> IsSpace(pad[i])
    ensures Trim(pad + s + pad) == Trim(s)
  {
    assert pad + s + pad == pad + (s + pad);
    TrimStartPadded(pad, s + pad);
    TrimStartBeforePad(s, pad);
    if TrimStart(s) != [] {
      TrimEndPadded(TrimStart(s), pad);
    }
  }

  /** Some stored user already has this username (the user model's
      uniqueness validator, which compares exactly). */
  predicate UsernameTaken(users: map<UserId, User>, username: string)
  {
    exists id :: id in users && users[id].username == username
  }

  /** Registration input is accepted exactly when the password, stripped
      of surrounding whitespace, has at least six characters, and the
      stripped username is not blank and not taken. */
  function RegistrationValid(users: map<UserId, User>, username: string, password: string): (ok: bool)
    ensures ok ==> Trim(username) != [] && forall id :: id in users ==> users[id].username != Trim(username)
    ensures ok ==> |Trim(password)| >= MinPasswordLength
    ensures (&& Trim(username) != [] && |Trim(password)| >= MinPasswordLength
             && (forall id :: id in users ==> users[id].username != Trim(username))) ==> ok
    ensures (forall i :: 0 <= i < |username| ==> IsSpace(username[i])) ==> !ok
  {
    |Trim(password)| >= MinPasswordLength && Trim(username) != [] && !UsernameTaken(users, Trim(username))
  }

  /** Whitespace around the username or the password changes nothing:
      a padded copy of a taken name is refused, a padded short password
      is still short. */
  lemma RegistrationIgnoresPadding(users: map<UserId, User>, username: string, password: string, pad: string)
    requires forall i :: 0 <= i < |pad| ==> IsSpace(pad[i])
    ensures RegistrationValid(users, pad + username + pad, pad + password + pad)
            == RegistrationValid(users, username, password)
  {
    TrimPadded(pad, username);
    TrimPadded(pad, password);
  }

  /** The session check: rejects a start that is not before the end, and
      passes whenever either time is missing (a partial update). */
  function ValidateSessionTimes(start: Option<int>, end: Option<int>): (ok: bool)
    ensures !ok <==> start.Some? && end.Some? && start.value >= end.value
    ensures start.None? || end.None? ==> ok
  {
    !(start.Some? && end.Some? && start.value >= end.value)
  }

  /** The groups the user created. */
  function CreatedGroups(groups: map<GroupId, Group>, u: UserId): set<GroupId>
  {
    set g | g in groups && groups[g].createdBy == u
  }

  /** The membership rows of the user. */
  function UserMemberships(ms: map<MembershipId, Membership>, u: UserId): set<MembershipId>
  {
    set m | m in ms && ms[m].user == u
  }

  /** The tasks of a session. */
  function SessionTasks(tasks: map<TaskId, Task>, s: SessionId): set<TaskId>
  {
    set t | t in tasks && tasks[t].session == s
  }

  /** A subset is no larger than its superset. */
  lemma {:induction false} SubsetSize(a: set<nat>, b: set<nat>)
    requires a <= b
    ensures |a| <= |b|
    decreases |a|
  {
    if a != {} {
      var x :| x in a;
      SubsetSize(a - {x}, b - {x});
    }
  }

  /** Number of groups the user created: at most the number of groups,
      and zero exactly when no group names the user as its creator. */
  function GroupsCreatedCount(groups: map<GroupId, Group>, u: UserId): (n: nat)
    ensures n <= |groups|
    ensures n == 0 <==> forall g :: g in groups ==> groups[g].createdBy != u
  {
    var s := CreatedGroups(groups, u);
    SubsetSize(s, groups.Keys);
    assert s == {} <==> forall g :: g in groups ==> groups[g].createdBy != u by {
      if s != {} {
        var w :| w in s;
        assert groups[w].createdBy == u;
      } else {
        forall g | g in groups ensures groups[g].createdBy != u {
          assert g !in s;
        }
      }
    }
    |s|
  }

  /** Number of membership rows of the user: at most the number of rows,
      and zero exactly when the user is in no group. */
  function GroupsJoinedCount(ms: map<MembershipId, Membership>, u: UserId): (n: nat)
    ensures n <= |ms|
    ensures n == 0 <==> forall m :: m in ms ==> ms[m].user != u
  {
    var s := UserMemberships(ms, u);
    SubsetSize(s, ms.Keys);
    assert s == {} <==> forall m :: m in ms ==> ms[m].user != u by {
      if s != {} {
        var w :| w in s;
        assert ms[w].user == u;
      } else {
        forall m | m in ms ensures ms[m].user != u {
          assert m !in s;
        }
      }
    }
    |s|
  }

  /** Number of tasks in the session: at most the number of tasks, and
      zero exactly when no task belongs to the session. */
  function TasksCount(tasks: map<TaskId, Task>, s: SessionId): (n: nat)
    ensures n <= |tasks|
    ensures n == 0 <==> forall t :: t in tasks ==> tasks[t].session != s
  {
    var ts := SessionTasks(tasks, s);
    SubsetSize(ts, tasks.Keys);
    assert ts == {} <==> forall t :: t in tasks ==> tasks[t].session != s by {
      if ts != {} {
        var w :| w in ts;
        assert tasks[w].session == s;
      } else {
        forall t | t in tasks ensures tasks[t].session != s {
          assert t !in ts;
        }
      }
    }
    |ts|
  }

  /** Creating a group raises both of the creator's profile counts by one:
      one more group created, and one more membership (the admin row). */
  lemma CreateGroupRaisesCounts(groups: map<GroupId, Group>, ms: map<MembershipId, Membership>,
                                g: GroupId, m: MembershipId, u: UserId, name: string, description: string)
    requires g !in groups && m !in ms
    ensures GroupsCreatedCount(groups[g := Group(name, description, u)], u) == GroupsCreatedCount(groups, u) + 1
    ensures GroupsJoinedCount(ms[m := Membership(u, g, Admin)], u) == GroupsJoinedCount(ms, u) + 1
  {
    NewGroupRaisesCreated(groups, g, u, name, description);
    NewAdminRowRaisesJoined(ms, m, u, g);
  }

  /** A new group created by the user adds one to their created count. */
  lemma NewGroupRaisesCreated(groups: map<GroupId, Group>, g: GroupId, u: UserId, name: string, description: string)
    requires g !in groups
    ensures GroupsCreatedCount(groups[g := Group(name, description, u)], u) == GroupsCreatedCount(groups, u) + 1
  {
    assert g !in CreatedGroups(groups, u);
    assert CreatedGroups(groups[g := Group(name, description, u)], u) == CreatedGroups(groups, u) + {g};
  }

  /** A new membership row of the user adds one to their joined count. */
  lemma NewAdminRowRaisesJoined(ms: map<MembershipId, Membership>, m: MembershipId, u: UserId, g: GroupId)
    requires m !in ms
    ensures GroupsJoinedCount(ms[m := Membership(u, g, Admin)], u) == GroupsJoinedCount(ms, u) + 1
  {
    assert m !in UserMemberships(ms, u);
    assert UserMemberships(ms[m := Membership(u, g, Admin)], u) == UserMemberships(ms, u) + {m};
  }

  /** Other users' counts do not move when someone creates a group. */
  lemma CreateGroupLeavesOthers(groups: map<GroupId, Group>, ms: map<MembershipId, Membership>,
                                g: GroupId, m: MembershipId, u: UserId, v: UserId, name: string, description: string)
    requires g !in groups && m !in ms && u != v
    ensures GroupsCreatedCount(groups[g := Group(name, description, u)], v) == GroupsCreatedCount(groups, v)
    ensures GroupsJoinedCount(ms[m := Membership(u, g, Admin)], v) == GroupsJoinedCount(ms, v)
  {
    assert CreatedGroups(groups[g := Group(name, description, u)], v) == CreatedGroups(groups, v);
    assert UserMemberships(ms[m := Membership(u, g, Admin)], v) == UserMemberships(ms, v);
  }

  /** Adding a task to a session raises that session's task count by one. */
  lemma NewTaskRaisesTasksCount(tasks: map<TaskId, Task>, id: TaskId, t: Task)
    requires id !in tasks
    ensures TasksCount(tasks[id := t], t.session) == TasksCount(tasks, t.session) + 1
  {
    assert SessionTasks(tasks[id := t], t.session) == SessionTasks(tasks, t.session) + {id};
  }
}
