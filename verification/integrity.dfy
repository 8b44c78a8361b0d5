/** The integrity the database keeps: keys are issued once and never
    reused, every foreign key names a stored row, and a user has at most
    one membership row per group. */
module Integrity {
  import opened Models
  import opened Rules

  // Referential integrity, table by table: every foreign key names a
  // stored row.

  ghost predicate Issued(keys: set<nat>, next: nat)
  {
    forall k :: k in keys ==> k < next
  }

  ghost predicate GroupsRefer(groups: map<GroupId, Group>, users: map<UserId, User>)
  {
    forall k :: k in groups ==> groups[k].createdBy in users
  }

  ghost predicate MembershipsRefer(ms: map<MembershipId, Membership>, users: map<UserId, User>, groups: map<GroupId, Group>)
  {
    forall k :: k in ms ==> ms[k].user in users && ms[k].group in groups
  }

  ghost predicate SessionsRefer(ss: map<SessionId, StudySession>, groups: map<GroupId, Group>)
  {
    forall k :: k in ss ==> ss[k].group in groups
  }

  ghost predicate TasksRefer(ts: map<TaskId, Task>, ss: map<SessionId, StudySession>, users: map<UserId, User>)
  {
    forall k :: k in ts ==> ts[k].session in ss && ts[k].createdBy in users
  }

  ghost predicate DocumentsRefer(ds: map<DocumentId, Document>, groups: map<GroupId, Group>, users: map<UserId, User>)
  {
    forall k :: k in ds ==> ds[k].group in groups && ds[k].uploadedBy in users
  }

  ghost predicate CommentsRefer(cs: map<CommentId, DocumentComment>, ds: map<DocumentId, Document>, users: map<UserId, User>)
  {
    forall k :: k in cs ==> cs[k].document in ds && cs[k].user in users
  }

  ghost predicate TimersRefer(ts: map<TimerId, TimerSession>, users: map<UserId, User>)
  {
    forall k :: k in ts ==> ts[k].user in users
  }

  ghost predicate NotificationsRefer(ns: map<NotificationId, Notification>, users: map<UserId, User>)
  {
    forall k :: k in ns ==> ns[k].user in users
  }

  /** The store invariant over the tables' values. Under it the next key
      is free in every table. */
  ghost function StoreValid(users: map<UserId, User>, profiles: map<UserId, Profile>, groups: map<GroupId, Group>,
                            ms: map<MembershipId, Membership>, ss: map<SessionId, StudySession>,
                            ts: map<TaskId, Task>, ds: map<DocumentId, Document>,
                            cs: map<CommentId, DocumentComment>, timers: map<TimerId, TimerSession>,
                            ns: map<NotificationId, Notification>, next: nat): (valid: bool)
    ensures valid ==> && next !in users && next !in groups && next !in ms && next !in ss && next !in ts
                      && next !in ds && next !in cs && next !in timers && next !in ns
  {
    && Issued(users.Keys, next) && Issued(groups.Keys, next) && Issued(ms.Keys, next)
    && Issued(ss.Keys, next) && Issued(ts.Keys, next) && Issued(ds.Keys, next)
    && Issued(cs.Keys, next) && Issued(timers.Keys, next) && Issued(ns.Keys, next)
    && profiles.Keys <= users.Keys
    && GroupsRefer(groups, users)
    && MembershipsRefer(ms, users, groups) && UniqueMemberships(ms)
    && SessionsRefer(ss, groups)
    && TasksRefer(ts, ss, users)
    && DocumentsRefer(ds, groups, users)
    && CommentsRefer(cs, ds, users)
    && TimersRefer(timers, users)
    && NotificationsRefer(ns, users)
  }

  /** In a valid store every task and every comment reaches a stored group,
      through its session or its document. */
  lemma ValidStoreReachesGroups(users: map<UserId, User>, profiles: map<UserId, Profile>, groups: map<GroupId, Group>,
                                ms: map<MembershipId, Membership>, ss: map<SessionId, StudySession>,
                                ts: map<TaskId, Task>, ds: map<DocumentId, Document>,
                                cs: map<CommentId, DocumentComment>, timers: map<TimerId, TimerSession>,
                                ns: map<NotificationId, Notification>, next: nat)
    requires StoreValid(users, profiles, groups, ms, ss, ts, ds, cs, timers, ns, next)
    ensures forall k :: k in ts ==> ts[k].session in ss && ss[ts[k].session].group in groups
    ensures forall k :: k in cs ==> cs[k].document in ds && ds[cs[k].document].group in groups
  {
  }

  // Inserting a row under the next key keeps the invariant when the row's
  // references resolve.

  lemma UserInsertKeepsValid(users: map<UserId, User>, profiles: map<UserId, Profile>, groups: map<GroupId, Group>,
                             ms: map<MembershipId, Membership>, ss: map<SessionId, StudySession>,
                             ts: map<TaskId, Task>, ds: map<DocumentId, Document>,
                             cs: map<CommentId, DocumentComment>, timers: map<TimerId, TimerSession>,
                             ns: map<NotificationId, Notification>, next: nat, u: User, p: Profile)
    requires StoreValid(users, profiles, groups, ms, ss, ts, ds, cs, timers, ns, next)
    ensures next !in users
    ensures StoreValid(users[next := u], profiles[next := p], groups, ms, ss, ts, ds, cs, timers, ns, next + 1)
  {
  }

  lemma DocumentInsertKeepsValid(users: map<UserId, User>, profiles: map<UserId, Profile>, groups: map<GroupId, Group>,
                                 ms: map<MembershipId, Membership>, ss: map<SessionId, StudySession>,
                                 ts: map<TaskId, Task>, ds: map<DocumentId, Document>,
                                 cs: map<CommentId, DocumentComment>, timers: map<TimerId, TimerSession>,
                                 ns: map<NotificationId, Notification>, next: nat, doc: Document)
    requires StoreValid(users, profiles, groups, ms, ss, ts, ds, cs, timers, ns, next)
    requires doc.group in groups && doc.uploadedBy in users
    ensures next !in ds
    ensures StoreValid(users, profiles, groups, ms, ss, ts, ds[next := doc], cs, timers, ns, next + 1)
  {
  }

  /** Rewriting a stored document keeps the invariant when its new group
      and its uploader exist: its comments still find it. */
  lemma DocumentWriteKeepsValid(users: map<UserId, User>, profiles: map<UserId, Profile>, groups: map<GroupId, Group>,
                                ms: map<MembershipId, Membership>, ss: map<SessionId, StudySession>,
                                ts: map<TaskId, Task>, ds: map<DocumentId, Document>,
                                cs: map<CommentId, DocumentComment>, timers: map<TimerId, TimerSession>,
                                ns: map<NotificationId, Notification>, next: nat, id: DocumentId, doc: Document)
    requires StoreValid(users, profiles, groups, ms, ss, ts, ds, cs, timers, ns, next)
    requires id in ds && doc.group in groups && doc.uploadedBy in users
    ensures StoreValid(users, profiles, groups, ms, ss, ts, ds[id := doc], cs, timers, ns, next)
  {
  }

  lemma NotificationInsertKeepsValid(users: map<UserId, User>, profiles: map<UserId, Profile>, groups: map<GroupId, Group>,
                                     ms: map<MembershipId, Membership>, ss: map<SessionId, StudySession>,
                                     ts: map<TaskId, Task>, ds: map<DocumentId, Document>,
                                     cs: map<CommentId, DocumentComment>, timers: map<TimerId, TimerSession>,
                                     ns: map<NotificationId, Notification>, next: nat, note: Notification)
    requires StoreValid(users, profiles, groups, ms, ss, ts, ds, cs, timers, ns, next)
    requires note.user in users
    ensures next !in ns
    ensures StoreValid(users, profiles, groups, ms, ss, ts, ds, cs, timers, ns[next := note], next + 1)
  {
  }

  lemma GroupInsertKeepsValid(users: map<UserId, User>, profiles: map<UserId, Profile>, groups: map<GroupId, Group>,
                              ms: map<MembershipId, Membership>, ss: map<SessionId, StudySession>,
                              ts: map<TaskId, Task>, ds: map<DocumentId, Document>,
                              cs: map<CommentId, DocumentComment>, timers: map<TimerId, TimerSession>,
                              ns: map<NotificationId, Notification>, next: nat, grp: Group)
    requires StoreValid(users, profiles, groups, ms, ss, ts, ds, cs, timers, ns, next)
    requires grp.createdBy in users
    ensures next !in groups && next + 1 !in ms
    ensures StoreValid(users, profiles, groups[next := grp], ms[next + 1 := Membership(grp.createdBy, next, Admin)],
                       ss, ts, ds, cs, timers, ns, next + 2)
  {
  }

  /** Writing a task row under a key below the next one (an existing row,
      or the key about to be issued) keeps the invariant. */
  lemma TaskWriteKeepsValid(users: map<UserId, User>, profiles: map<UserId, Profile>, groups: map<GroupId, Group>,
                            ms: map<MembershipId, Membership>, ss: map<SessionId, StudySession>,
                            ts: map<TaskId, Task>, ds: map<DocumentId, Document>,
                            cs: map<CommentId, DocumentComment>, timers: map<TimerId, TimerSession>,
                            ns: map<NotificationId, Notification>, next: nat, next': nat, id: TaskId, t: Task)
    requires StoreValid(users, profiles, groups, ms, ss, ts, ds, cs, timers, ns, next)
    requires next <= next' && id < next'
    requires t.session in ss && t.createdBy in users
    ensures StoreValid(users, profiles, groups, ms, ss, ts[id := t], ds, cs, timers, ns, next')
  {
  }
}
