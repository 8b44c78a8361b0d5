/** The membership facts the viewsets consult, and the row filters their
    get_queryset methods apply: which tasks, sessions, documents, comments,
    timers and notifications a user can see, and who may create or delete
    what. Everything here is a pure predicate or set over the stored rows. */
module Rules {
  import opened Models

  /** The user holds some membership row in the group, whatever its role. */
  predicate IsMember(ms: map<MembershipId, Membership>, u: UserId, g: GroupId)
  {
    exists id :: id in ms && ms[id].user == u && ms[id].group == g
  }

  /** The user holds a membership row with role admin in the group. */
  predicate HasAdminRole(ms: map<MembershipId, Membership>, u: UserId, g: GroupId)
  {
    exists id :: id in ms && ms[id] == Membership(u, g, Admin)
  }

  /** At most one row per (user, group) pair: the unique_together
      constraint. Under it a user's role in a group is a single value, so
      nobody holds both a member row and an admin row in one group. */
  function UniqueMemberships(ms: map<MembershipId, Membership>): (unique: bool)
    ensures unique ==> forall id :: id in ms && ms[id].role == Member ==> !HasAdminRole(ms, ms[id].user, ms[id].group)
  {
    forall a, b :: a in ms && b in ms && ms[a].user == ms[b].user && ms[a].group == ms[b].group ==> a == b
  }

  /** The groups in which the user holds any membership. */
  function MemberGroups(ms: map<MembershipId, Membership>, u: UserId): (gs: set<GroupId>)
    ensures forall g :: g in gs <==> IsMember(ms, u, g)
  {
    set id | id in ms && ms[id].user == u :: ms[id].group
  }

  /** The groups in which the user holds an admin membership. */
  function AdminGroups(ms: map<MembershipId, Membership>, u: UserId): (gs: set<GroupId>)
    ensures forall g :: g in gs <==> HasAdminRole(ms, u, g)
    ensures gs <= MemberGroups(ms, u)
  {
    set id | id in ms && ms[id].user == u && ms[id].role == Admin :: ms[id].group
  }

  /** The group a task belongs to, through its session. */
  function TaskGroup(sessions: map<SessionId, StudySession>, t: Task): Option<GroupId>
  {
    if t.session in sessions then Some(sessions[t.session].group) else None
  }

  // ---------------------------------------------------------------------
  // get_queryset filters.

  /** Tasks listed to u: those whose session lies in a group where u is a
      member, narrowed to one session when the filter is given. */
  function TaskQuery(ms: map<MembershipId, Membership>, sessions: map<SessionId, StudySession>,
                     tasks: map<TaskId, Task>, u: UserId, session: Option<SessionId>): (r: set<TaskId>)
    ensures forall t :: t in r <==>
      t in tasks && tasks[t].session in sessions && IsMember(ms, u, sessions[tasks[t].session].group)
      && (session.Some? ==> tasks[t].session == session.value)
  {
    var groups := MemberGroups(ms, u);
    var scoped := set t | t in tasks && TaskGroup(sessions, tasks[t]).Some? && TaskGroup(sessions, tasks[t]).value in groups;
    match session
    case None => scoped
    case Some(s) => set t | t in scoped && tasks[t].session == s
  }

  /** Sessions listed to u: those in groups where u is a member, narrowed
      to one group when the filter is given. */
  function SessionQuery(ms: map<MembershipId, Membership>, sessions: map<SessionId, StudySession>,
                        u: UserId, group: Option<GroupId>): (r: set<SessionId>)
    ensures forall s :: s in r <==>
      s in sessions && IsMember(ms, u, sessions[s].group) && (group.Some? ==> sessions[s].group == group.value)
  {
    var scoped := set s | s in sessions && sessions[s].group in MemberGroups(ms, u);
    match group
    case None => scoped
    case Some(g) => set s | s in scoped && sessions[s].group == g
  }

  /** Documents listed to u: the union of u's own uploads, the approved
      documents of u's member groups and every document of u's admin groups. */
  function DocumentQuery(ms: map<MembershipId, Membership>, docs: map<DocumentId, Document>, u: UserId): (r: set<DocumentId>)
    ensures forall d :: d in r <==>
      d in docs && (docs[d].uploadedBy == u
                    || (IsMember(ms, u, docs[d].group) && docs[d].approved)
                    || HasAdminRole(ms, u, docs[d].group))
  {
    var own := set d | d in docs && docs[d].uploadedBy == u;
    var approvedInMemberGroups := set d | d in docs && docs[d].group in MemberGroups(ms, u) && docs[d].approved;
    var inAdminGroups := set d | d in docs && docs[d].group in AdminGroups(ms, u);
    own + approvedInMemberGroups + inAdminGroups
  }

  /** Comments listed to u: those on documents of u's member groups,
      narrowed to one document when the filter is given. */
  function CommentQuery(ms: map<MembershipId, Membership>, docs: map<DocumentId, Document>,
                        comments: map<CommentId, DocumentComment>, u: UserId, document: Option<DocumentId>): (r: set<CommentId>)
    ensures forall c :: c in r <==>
      c in comments && comments[c].document in docs && IsMember(ms, u, docs[comments[c].document].group)
      && (document.Some? ==> comments[c].document == document.value)
  {
    var groups := MemberGroups(ms, u);
    var scoped := set c | c in comments && comments[c].document in docs && docs[comments[c].document].group in groups;
    match document
    case None => scoped
    case Some(d) => set c | c in scoped && comments[c].document == d
  }

  /** Timers listed to u: u's own. */
  function TimerQuery(timers: map<TimerId, TimerSession>, u: UserId): (r: set<TimerId>)
    ensures forall t :: t in r <==> t in timers && timers[t].user == u
  {
    set t | t in timers && timers[t].user == u
  }

  /** Notifications listed to u: u's own. */
  function NotificationQuery(notes: map<NotificationId, Notification>, u: UserId): (r: set<NotificationId>)
    ensures forall n :: n in r <==> n in notes && notes[n].user == u
  {
    set n | n in notes && notes[n].user == u
  }

  // ---------------------------------------------------------------------
  // Delete rules.

  /** Task delete: the creator, or an admin member of the task's group.
      There is no superuser clause, and a plain member row is not enough. */
  function MayDeleteTask(ms: map<MembershipId, Membership>, group: GroupId, t: Task, u: UserId): (allowed: bool)
    ensures allowed <==> t.createdBy == u || group in AdminGroups(ms, u)
    ensures UniqueMemberships(ms) && (exists id :: id in ms && ms[id] == Membership(u, group, Member)) ==>
              (allowed <==> t.createdBy == u)
  {
    t.createdBy == u || HasAdminRole(ms, u, group)
  }

  /** Comment delete: the author, or an admin member of the document's
      group; a plain member row is not enough. */
  function MayDeleteComment(ms: map<MembershipId, Membership>, group: GroupId, c: DocumentComment, u: UserId): (allowed: bool)
    ensures allowed <==> c.user == u || group in AdminGroups(ms, u)
    ensures UniqueMemberships(ms) && (exists id :: id in ms && ms[id] == Membership(u, group, Member)) ==>
              (allowed <==> c.user == u)
  {
    c.user == u || HasAdminRole(ms, u, group)
  }

  /** Document delete: an admin member of the document's group or a
      superuser; being the uploader is not enough. */
  function MayDeleteDocument(ms: map<MembershipId, Membership>, d: Document, u: UserId, superuser: bool): (allowed: bool)
    ensures allowed <==> d.group in AdminGroups(ms, u) || superuser
    ensures (&& !superuser && d.uploadedBy == u && UniqueMemberships(ms)
             && (exists id :: id in ms && ms[id] == Membership(u, d.group, Member)))
            ==> !allowed
  {
    HasAdminRole(ms, u, d.group) || superuser
  }

  // ---------------------------------------------------------------------
  // Lemmas about the filters.

  /** The optional filters of the task, session and comment listings only
      narrow the membership-scoped set, never widen it. */
  lemma FiltersOnlyNarrow(ms: map<MembershipId, Membership>, sessions: map<SessionId, StudySession>,
                          tasks: map<TaskId, Task>, docs: map<DocumentId, Document>,
                          comments: map<CommentId, DocumentComment>, u: UserId,
                          s: SessionId, g: GroupId, d: DocumentId)
    ensures TaskQuery(ms, sessions, tasks, u, Some(s)) <= TaskQuery(ms, sessions, tasks, u, None)
    ensures SessionQuery(ms, sessions, u, Some(g)) <= SessionQuery(ms, sessions, u, None)
    ensures CommentQuery(ms, docs, comments, u, Some(d)) <= CommentQuery(ms, docs, comments, u, None)
  {
  }

  /** Everything listed is scoped to a group where the user is a member. */
  lemma ListedOnlyInMemberGroups(ms: map<MembershipId, Membership>, sessions: map<SessionId, StudySession>,
                                 tasks: map<TaskId, Task>, u: UserId, filter: Option<SessionId>, t: TaskId)
    requires t in TaskQuery(ms, sessions, tasks, u, filter)
    ensures TaskGroup(sessions, tasks[t]).Some? && TaskGroup(sessions, tasks[t]).value in MemberGroups(ms, u)
  {
  }

  /** An uploader always sees their own document, approved or not. */
  lemma UploaderSeesOwnDocument(ms: map<MembershipId, Membership>, docs: map<DocumentId, Document>, d: DocumentId)
    requires d in docs
    ensures d in DocumentQuery(ms, docs, docs[d].uploadedBy)
  {
  }

  /** A member who is neither the uploader nor an admin of the group does
      not see an unapproved document. */
  lemma PlainMemberMissesUnapproved(ms: map<MembershipId, Membership>, docs: map<DocumentId, Document>,
                                    d: DocumentId, u: UserId)
    requires UniqueMemberships(ms)
    requires d in docs && !docs[d].approved && docs[d].uploadedBy != u
    requires exists id :: id in ms && ms[id] == Membership(u, docs[d].group, Member)
    ensures d !in DocumentQuery(ms, docs, u)
  {
  }

  /** An admin member sees every document of the group, approved or not. */
  lemma AdminSeesAllGroupDocuments(ms: map<MembershipId, Membership>, docs: map<DocumentId, Document>,
                                   d: DocumentId, u: UserId)
    requires d in docs && HasAdminRole(ms, u, docs[d].group)
    ensures d in DocumentQuery(ms, docs, u)
  {
  }

  /** Approval is what opens a document to the plain members of its group. */
  lemma ApprovalOpensToMembers(ms: map<MembershipId, Membership>, docs: map<DocumentId, Document>,
                               d: DocumentId, u: UserId)
    requires d in docs && IsMember(ms, u, docs[d].group)
    ensures d in DocumentQuery(ms, docs[d := docs[d].(approved := true)], u)
  {
  }
}
