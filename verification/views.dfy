/** The database behind the viewsets and the actions that write to it.
    Each table is a map from primary key to row; each action is a method
    that checks what its view checks, in the same order, and then inserts,
    rewrites or removes rows. An action answers either with a plain
    response status or by raising an exception, which the exception
    handler (module Exceptions) turns into an error envelope.

    Every action is performed by an authenticated, stored user: all
    viewsets require authentication before any of this runs. */
module Views {
  import opened Models
  import opened Rules
  import Permissions
  import Signals
  import Timers
  import opened Serializers
  import opened Exceptions
  import opened Integrity

  // Texts the views put into exceptions and notifications.
  const RegistrationRefused := "A user with that username already exists, or the password is shorter than 6 characters."
  const NotGroupCreator := "Only the group creator can delete this group."
  const SessionRequired := "session field is required"
  const NoSuchPk := "Invalid pk - object does not exist."
  const NotMemberForTask := "You must be a member of the group to create a session task"
  const GroupAndFileRequired := "A stored group and a file are required."
  const NotMemberForUpload := "You must be a member of the group to upload documents"
  const NoPermission := "You do not have permission to perform this action."
  const NotAdminForDocument := "Only group admins can delete documents."
  const SessionFieldsRequired := "group, start_time and end_time are required."
  const StartNotBeforeEnd := "Start time must be before end time."
  const NotMemberForSession := "You must be a group member to schedule a session"
  const NoCreatedBy := "'StudySession' object has no attribute 'created_by'"
  const DocumentRequired := "A stored document is required."
  const BlankField := "This field may not be blank."
  const FileRefused := "The submitted file is empty or has no name."
  const UploadKind := "document_upload"
  const UploadedWord := " uploaded '"
  const InWord := "' in '"
  const AwaitingWord := "' awaiting approval."

  datatype Reply = Respond(status: int) | Raise(exc: Exc)

  /** The notification text sent to a group's creator about an upload. */
  function UploadNotice(username: string, title: string, groupName: string): string
  {
    username + UploadedWord + title + InWord + groupName + AwaitingWord
  }

  /** The upload serializer's field checks: a stored group, a title that
      is not blank, and a file with a name and at least one byte. */
  predicate UploadFieldsValid(groups: map<GroupId, Group>, group: Option<GroupId>, title: string, file: Option<FileBlob>)
  {
    && group.Some? && group.value in groups
    && Trim(title) != []
    && file.Some? && file.value.name != [] && file.value.size > 0
  }

  /** The row an upload stores. Document.save captures the size and the
      type from the client's file name; committing the file then replaces
      the name by the storage key. The row is unapproved. */
  function StoredUpload(g: GroupId, actor: UserId, title: string, file: Option<FileBlob>): (r: Document)
    ensures r.group == g && r.uploadedBy == actor && r.title == title && !r.approved
    ensures r.file == StoredFile(g, file)
    ensures file.Some? ==> r.fileSize == file.value.size && r.fileType == FileType(file.value.name)
  {
    CaptureFileFields(Document(g, actor, title, file, false, 0, "")).(file := StoredFile(g, file))
  }

  /** Approving an uploaded document saves it again, so its type is
      recaptured from the storage key: approval keeps the type of a file
      whose name has a dot and turns the type of a dot-free name into the
      whole key. The size is kept. */
  lemma ApprovalRetypes(g: GroupId, actor: UserId, title: string, f: FileBlob)
    ensures var stored := StoredUpload(g, actor, title, Some(f));
            var approved := CaptureFileFields(stored.(approved := true));
            && approved.approved && approved.fileSize == f.size
            && approved.fileType == FileType(UploadPath(g, f.name))
            && (approved.fileType == stored.fileType <==> '.' in f.name)
  {
    StorageKeyType(g, f.name);
  }

  /** A partial update of a document through the generic update route:
      the title, the group and the approval flag the client sent replace
      the stored ones, and the save recaptures the file fields. */
  function PatchDocument(d: Document, title: Option<string>, group: Option<GroupId>, approved: Option<bool>): (r: Document)
    ensures r.title == (if title.Some? then title.value else d.title)
    ensures r.group == (if group.Some? then group.value else d.group)
    ensures r.approved == (if approved.Some? then approved.value else d.approved)
    ensures r.uploadedBy == d.uploadedBy && r.file == d.file
    ensures d.file.Some? ==> r.fileSize == d.file.value.size && r.fileType == FileType(d.file.value.name)
    ensures d.file.None? ==> r.fileSize == d.fileSize && r.fileType == d.fileType
  {
    CaptureFileFields(d.(title := if title.Some? then title.value else d.title,
                         group := if group.Some? then group.value else d.group,
                         approved := if approved.Some? then approved.value else d.approved))
  }

  /** As written, the update route lets an uploader who administers
      nothing approve their own document, and it then shows to every plain
      member of the group. */
  lemma PatchSelfApproves(users: map<UserId, User>, ms: map<MembershipId, Membership>,
                          docs: map<DocumentId, Document>, d: DocumentId, v: UserId)
    requires d in docs && !docs[d].approved
    requires docs[d].uploadedBy in users && !users[docs[d].uploadedBy].isSuperuser
    requires !HasAdminRole(ms, docs[d].uploadedBy, docs[d].group)
    requires IsMember(ms, v, docs[d].group)
    ensures var u := docs[d].uploadedBy;
            && d in DocumentQuery(ms, docs, u)
            && !Permissions.IsGroupAdmin(users, ms, u, docs[d].group)
            && d in DocumentQuery(ms, docs[d := PatchDocument(docs[d], None, None, Some(true))], v)
  {
  }

  /** The update the approval gate calls for: the approval flag is read
      only, everything else is patched as before. */
  function PatchDocumentIntended(d: Document, title: Option<string>, group: Option<GroupId>): (r: Document)
    ensures r.approved == d.approved
    ensures r.title == (if title.Some? then title.value else d.title)
    ensures r.group == (if group.Some? then group.value else d.group)
    ensures r.uploadedBy == d.uploadedBy && r.file == d.file
    ensures d.file.Some? ==> r.fileSize == d.file.value.size && r.fileType == FileType(d.file.value.name)
    ensures d.file.None? ==> r.fileSize == d.fileSize && r.fileType == d.fileType
  {
    PatchDocument(d, title, group, None)
  }

  /** With the intended update, an unapproved document stays hidden from
      every plain member of the group it ends up in who did not upload it,
      whatever title and group the uploader patches. */
  lemma UploaderCannotSelfApprove(ms: map<MembershipId, Membership>, docs: map<DocumentId, Document>,
                                  d: DocumentId, v: UserId, title: Option<string>, group: Option<GroupId>)
    requires UniqueMemberships(ms)
    requires d in docs && !docs[d].approved && docs[d].uploadedBy != v
    requires exists id :: id in ms && ms[id] == Membership(v, if group.Some? then group.value else docs[d].group, Member)
    ensures d !in DocumentQuery(ms, docs[d := PatchDocumentIntended(docs[d], title, group)], v)
  {
    var docs' := docs[d := PatchDocumentIntended(docs[d], title, group)];
    PlainMemberMissesUnapproved(ms, docs', d, v);
  }

  /** The effect of an accepted upload: the document is stored unapproved
      under a fresh key with its file fields captured, and the group's
      creator gets a fresh unread notification unless the creator is the
      uploader. */
  ghost predicate Uploaded(docs0: map<DocumentId, Document>, notes0: map<NotificationId, Notification>,
                           docs: map<DocumentId, Document>, notes: map<NotificationId, Notification>,
                           users: map<UserId, User>, groups: map<GroupId, Group>,
                           actor: UserId, g: GroupId, title: string, file: Option<FileBlob>,
                           d: DocumentId, n: Option<NotificationId>)
    requires g in groups && actor in users
  {
    var creator := groups[g].createdBy;
    && d !in docs0
    && docs == docs0[d := StoredUpload(g, actor, title, file)]
    && !docs[d].approved
    && (creator != actor ==>
          n.Some? && n.value !in notes0
          && notes == notes0[n.value := Notification(creator,
               UploadNotice(users[actor].username, title, groups[g].name), UploadKind, false)])
    && (creator == actor ==> n.None? && notes == notes0)
  }

  /** Approving an approved document again stores the same row. */
  lemma ApproveIdempotent(d: Document)
    ensures var once := CaptureFileFields(d.(approved := true));
            CaptureFileFields(once.(approved := true)) == once
  {
  }

  // The rows a group deletion leaves behind, table by table. Rows whose
  // parent goes are removed with it (on_delete=CASCADE); all other rows
  // stay as they were.

  /** The rows whose group, as `groupOf` reads it, is not g. */
  function OutsideGroup<K(!new), V>(rows: map<K, V>, groupOf: V -> GroupId, g: GroupId): (r: map<K, V>)
    ensures forall k :: k in r <==> k in rows && groupOf(rows[k]) != g
    ensures forall k :: k in r ==> r[k] == rows[k]
  {
    map k | k in rows && groupOf(rows[k]) != g :: rows[k]
  }

  function MembershipGroup(m: Membership): GroupId { m.group }
  function SessionGroup(s: StudySession): GroupId { s.group }
  function DocumentGroup(d: Document): GroupId { d.group }

  function TasksWithin(ts: map<TaskId, Task>, ss: map<SessionId, StudySession>): (r: map<TaskId, Task>)
    ensures forall k :: k in r <==> k in ts && ts[k].session in ss
    ensures forall k :: k in r ==> r[k] == ts[k]
  {
    map k | k in ts && ts[k].session in ss :: ts[k]
  }

  function CommentsWithin(cs: map<CommentId, DocumentComment>, ds: map<DocumentId, Document>): (r: map<CommentId, DocumentComment>)
    ensures forall k :: k in r <==> k in cs && cs[k].document in ds
    ensures forall k :: k in r ==> r[k] == cs[k]
  {
    map k | k in cs && cs[k].document in ds :: cs[k]
  }

  /** Deleting a group and cascading keeps the store invariant: no
      dangling reference, no duplicate membership, no unissued key. */
  lemma CascadeKeepsIntegrity(users: map<UserId, User>, profiles: map<UserId, Profile>, groups: map<GroupId, Group>,
                              ms: map<MembershipId, Membership>, ss: map<SessionId, StudySession>,
                              ts: map<TaskId, Task>, ds: map<DocumentId, Document>,
                              cs: map<CommentId, DocumentComment>, timers: map<TimerId, TimerSession>,
                              ns: map<NotificationId, Notification>, next: nat, g: GroupId)
    requires StoreValid(users, profiles, groups, ms, ss, ts, ds, cs, timers, ns, next)
    ensures var ss' := OutsideGroup(ss, SessionGroup, g);
            var ds' := OutsideGroup(ds, DocumentGroup, g);
            StoreValid(users, profiles, groups - {g}, OutsideGroup(ms, MembershipGroup, g), ss', TasksWithin(ts, ss'),
                       ds', CommentsWithin(cs, ds'), timers, ns, next)
  {
  }

  class Store {
    var users: map<UserId, User>
    var profiles: map<UserId, Profile>          // keyed by the profile's user
    var groups: map<GroupId, Group>
    var memberships: map<MembershipId, Membership>
    var sessions: map<SessionId, StudySession>
    var tasks: map<TaskId, Task>
    var documents: map<DocumentId, Document>
    var comments: map<CommentId, DocumentComment>
    var timers: map<TimerId, TimerSession>
    var notifications: map<NotificationId, Notification>
    var nextId: nat                              // next primary key to hand out

    /** Keys are issued once and never reused; every row's references
        resolve; a user has at most one membership row per group. */
    ghost predicate Valid()
      reads this
    {
      StoreValid(users, profiles, groups, memberships, sessions, tasks, documents, comments, timers, notifications, nextId)
    }

    constructor ()
      ensures Valid()
      ensures users == map[] && profiles == map[] && groups == map[] && memberships == map[]
      ensures sessions == map[] && tasks == map[] && documents == map[] && comments == map[]
      ensures timers == map[] && notifications == map[]
    {
      users, profiles, groups, memberships := map[], map[], map[], map[];
      sessions, tasks, documents, comments := map[], map[], map[], map[];
      timers, notifications := map[], map[];
      nextId := 1;
    }

    // -------------------------------------------------------------------
    // Identity and profile.

    /** Registration: the fields strip surrounding whitespace first; a
        short password or a blank or taken username is refused, otherwise
        the stripped username and email are stored for a non-superuser,
        with exactly one default profile. */
    method Register(username: string, email: Option<string>, password: string) returns (reply: Reply, id: UserId)
      requires Valid()
      modifies this`users, this`profiles, this`nextId
      ensures Valid()
      ensures !RegistrationValid(old(users), username, password) ==>
                reply.Raise? && ValidationErrorClass in reply.exc.classes
                && users == old(users) && profiles == old(profiles)
      ensures RegistrationValid(old(users), username, password) ==>
                reply == Respond(201) && id !in old(users)
                && users == old(users)[id := User(Trim(username), if email.Some? then Trim(email.value) else "", false)]
                && profiles == old(profiles)[id := DefaultProfile]
    {
      if !RegistrationValid(users, username, password) {
        reply, id := Raise(ValidationError(RegistrationRefused)), 0;
        return;
      }
      id := AddUser(User(Trim(username), if email.Some? then Trim(email.value) else "", false));
      reply := Respond(201);
    }

    /** Stores a user under a fresh key, with a default profile. */
    method AddUser(u: User) returns (id: UserId)
      requires Valid()
      modifies this`users, this`profiles, this`nextId
      ensures Valid()
      ensures id !in old(users) && users == old(users)[id := u]
      ensures profiles == old(profiles)[id := DefaultProfile]
    {
      UserInsertKeepsValid(users, profiles, groups, memberships, sessions, tasks, documents, comments,
                           timers, notifications, nextId, u, DefaultProfile);
      id := nextId;
      users, profiles, nextId := users[id := u], profiles[id := DefaultProfile], nextId + 1;
    }

    /** The profile page fetches the actor's profile, creating a default
        one when the account has none. */
    method GetOrCreateProfile(actor: UserId) returns (p: Profile)
      requires Valid() && actor in users
      modifies this`profiles
      ensures Valid()
      ensures actor in profiles && p == profiles[actor]
      ensures actor in old(profiles) ==> profiles == old(profiles)
      ensures actor !in old(profiles) ==> profiles == old(profiles)[actor := DefaultProfile]
    {
      if actor !in profiles {
        profiles := profiles[actor := DefaultProfile];
      }
      p := profiles[actor];
    }

    /** A profile update first fetches (or creates) the actor's profile,
        then validates: a blank theme is refused. Otherwise it sets the
        stripped theme and bio; the study time and the completed-task
        count are read-only and keep their values. */
    method UpdateProfile(actor: UserId, themeMode: string, bio: Option<string>) returns (reply: Reply)
      requires Valid() && actor in users
      modifies this`profiles
      ensures Valid()
      ensures var before := if actor in old(profiles) then old(profiles)[actor] else DefaultProfile;
              && (Trim(themeMode) == [] ==>
                    reply.Raise? && ValidationErrorClass in reply.exc.classes
                    && profiles == old(profiles)[actor := before])
              && (Trim(themeMode) != [] ==>
                    reply == Respond(200)
                    && profiles == old(profiles)[actor := before.(themeMode := Trim(themeMode), bio := TrimmedOption(bio))])
      ensures actor in old(profiles) ==>
                profiles[actor].totalStudyTime == old(profiles)[actor].totalStudyTime
                && profiles[actor].completedTasksCount == old(profiles)[actor].completedTasksCount
    {
      var p := GetOrCreateProfile(actor);
      var theme := Trim(themeMode);
      if theme == [] {
        return Raise(ValidationError(BlankField));
      }
      PutProfile(actor, p.(themeMode := theme, bio := TrimmedOption(bio)));
      reply := Respond(200);
    }

    /** Stores the profile of a stored user. */
    method PutProfile(u: UserId, p: Profile)
      requires Valid() && u in users
      modifies this`profiles
      ensures Valid()
      ensures profiles == old(profiles)[u := p]
    {
      profiles := profiles[u := p];
    }

    // -------------------------------------------------------------------
    // Groups and memberships.

    /** Creating a group refuses a blank name; otherwise it stores the
        group, name and description stripped, with the actor as creator,
        and gives the actor an admin membership in it. */
    method CreateGroup(actor: UserId, name: string, description: string) returns (reply: Reply, g: GroupId, m: MembershipId)
      requires Valid() && actor in users
      modifies this`groups, this`memberships, this`nextId
      ensures Valid()
      ensures Trim(name) == [] ==>
                reply.Raise? && ValidationErrorClass in reply.exc.classes
                && groups == old(groups) && memberships == old(memberships)
      ensures Trim(name) != [] ==>
                && reply == Respond(201)
                && g !in old(groups) && groups == old(groups)[g := Group(Trim(name), Trim(description), actor)]
                && m !in old(memberships) && memberships == old(memberships)[m := Membership(actor, g, Admin)]
                && HasAdminRole(memberships, actor, g)
    {
      g, m := 0, 0;
      var clean := Trim(name);
      if clean == [] {
        return Raise(ValidationError(BlankField)), g, m;
      }
      g, m := AddGroup(Group(clean, Trim(description), actor));
      reply := Respond(201);
    }

    /** Stores a group under a fresh key, with an admin row for its creator
        under the next one. */
    method AddGroup(grp: Group) returns (g: GroupId, m: MembershipId)
      requires Valid() && grp.createdBy in users
      modifies this`groups, this`memberships, this`nextId
      ensures Valid()
      ensures g !in old(groups) && groups == old(groups)[g := grp]
      ensures m !in old(memberships) && memberships == old(memberships)[m := Membership(grp.createdBy, g, Admin)]
      ensures HasAdminRole(memberships, grp.createdBy, g)
    {
      var actor := grp.createdBy;
      GroupInsertKeepsValid(users, profiles, groups, memberships, sessions, tasks, documents, comments,
                            timers, notifications, nextId, grp);
      g, m := nextId, nextId + 1;
      groups, memberships, nextId := groups[g := grp], memberships[m := Membership(actor, g, Admin)], nextId + 2;
      assert memberships[m] == Membership(actor, g, Admin);
    }

    /** Joining adds one member row unless the actor already has a row in
        the group (of either role), in which case nothing changes. */
    method JoinGroup(actor: UserId, g: GroupId) returns (reply: Reply, m: MembershipId)
      requires Valid() && actor in users
      modifies this`memberships, this`nextId
      ensures Valid()
      ensures g !in groups ==> reply == Raise(Http404()) && memberships == old(memberships)
      ensures g in groups && IsMember(old(memberships), actor, g) ==>
                reply == Respond(200) && memberships == old(memberships)
      ensures g in groups && !IsMember(old(memberships), actor, g) ==>
                reply == Respond(201) && m !in old(memberships)
                && memberships == old(memberships)[m := Membership(actor, g, Member)]
      ensures g in groups ==> IsMember(memberships, actor, g)
    {
      m := 0;
      if g !in groups {
        reply := Raise(Http404());
      } else if IsMember(memberships, actor, g) {
        reply := Respond(200);
      } else {
        m := nextId;
        nextId := nextId + 1;
        memberships := memberships[m := Membership(actor, g, Member)];
        assert memberships[m].user == actor && memberships[m].group == g;
        reply := Respond(201);
      }
    }

    /** Leaving removes exactly the actor's row in the group, if any. */
    method LeaveGroup(actor: UserId, g: GroupId) returns (reply: Reply)
      requires Valid() && actor in users
      modifies this`memberships
      ensures Valid()
      ensures g !in groups ==> reply == Raise(Http404()) && memberships == old(memberships)
      ensures g in groups ==>
                reply == Respond(200) && !IsMember(memberships, actor, g)
                && memberships == map id | id in old(memberships)
                                           && !(old(memberships)[id].user == actor && old(memberships)[id].group == g)
                                        :: old(memberships)[id]
    {
      if g !in groups {
        reply := Raise(Http404());
        return;
      }
      memberships := map id | id in memberships && !(memberships[id].user == actor && memberships[id].group == g)
                       :: memberships[id];
      reply := Respond(200);
    }

    /** Removes the group and every row that depends on it: its
        memberships, sessions and documents, the tasks of those sessions
        and the comments on those documents. */
    method RemoveGroup(g: GroupId)
      requires Valid() && g in groups
      modifies this`groups, this`memberships, this`sessions, this`tasks, this`documents, this`comments
      ensures Valid()
      ensures groups == old(groups) - {g}
      ensures memberships == OutsideGroup(old(memberships), MembershipGroup, g)
      ensures sessions == OutsideGroup(old(sessions), SessionGroup, g)
      ensures tasks == TasksWithin(old(tasks), sessions)
      ensures documents == OutsideGroup(old(documents), DocumentGroup, g)
      ensures comments == CommentsWithin(old(comments), documents)
    {
      CascadeKeepsIntegrity(users, profiles, groups, memberships, sessions, tasks, documents, comments,
                            timers, notifications, nextId, g);
      var ss := OutsideGroup(sessions, SessionGroup, g);
      var ds := OutsideGroup(documents, DocumentGroup, g);
      var gs, ms, ts, cs := groups - {g}, OutsideGroup(memberships, MembershipGroup, g), TasksWithin(tasks, ss), CommentsWithin(comments, ds);
      groups, memberships, sessions, tasks, documents, comments := gs, ms, ss, ts, ds, cs;
    }

    /** Only the creator may delete a group; deleting it cascades as
        RemoveGroup says. */
    method DeleteGroup(actor: UserId, g: GroupId) returns (reply: Reply)
      requires Valid() && actor in users
      modifies this`groups, this`memberships, this`sessions, this`tasks, this`documents, this`comments
      ensures Valid()
      ensures reply.Raise? ==>
                groups == old(groups) && memberships == old(memberships) && sessions == old(sessions)
                && tasks == old(tasks) && documents == old(documents) && comments == old(comments)
      ensures g !in old(groups) ==> reply == Raise(Http404())
      ensures g in old(groups) && old(groups)[g].createdBy != actor ==>
                reply.Raise? && PermissionDeniedClass in reply.exc.classes
      ensures g in old(groups) && old(groups)[g].createdBy == actor ==>
                reply == Respond(204)
                && groups == old(groups) - {g}
                && memberships == OutsideGroup(old(memberships), MembershipGroup, g)
                && sessions == OutsideGroup(old(sessions), SessionGroup, g)
                && tasks == TasksWithin(old(tasks), sessions)
                && documents == OutsideGroup(old(documents), DocumentGroup, g)
                && comments == CommentsWithin(old(comments), documents)
    {
      if g !in groups {
        return Raise(Http404());
      }
      if groups[g].createdBy != actor {
        return Raise(PermissionDenied(NotGroupCreator));
      }
      RemoveGroup(g);
      reply := Respond(204);
    }

    // -------------------------------------------------------------------
    // Tasks, with the completed-task counter protocol around every save.

    /** One task save: capture the stored status, write the row, then move
        the creator's completed-task count (only when the creator has a
        profile; nobody else's profile, and no other profile field). */
    method SaveTask(pk: Option<TaskId>, t: Task) returns (id: TaskId)
      requires Valid() && t.session in sessions && t.createdBy in users
      requires pk.Some? ==> pk.value in tasks && tasks[pk.value].createdBy == t.createdBy
      modifies this`tasks, this`profiles, this`nextId
      ensures Valid()
      ensures pk.Some? ==> id == pk.value
      ensures pk.None? ==> id !in old(tasks)
      ensures tasks == old(tasks)[id := t]
      ensures t.createdBy in old(profiles) ==>
                var p := old(profiles)[t.createdBy];
                profiles == old(profiles)[t.createdBy := p.(completedTasksCount :=
                  Signals.CounterAfter(pk.None?, Signals.PrevStatus(old(tasks), pk), t.status, p.completedTasksCount))]
      ensures t.createdBy !in old(profiles) ==> profiles == old(profiles)
    {
      var prev := Signals.PrevStatus(tasks, pk);
      id := if pk.Some? then pk.value else nextId;
      var next := if pk.Some? then nextId else nextId + 1;
      TaskWriteKeepsValid(users, profiles, groups, memberships, sessions, tasks, documents, comments,
                          timers, notifications, nextId, next, id, t);
      tasks, nextId := tasks[id := t], next;
      CountCompletion(t.createdBy, pk.None?, prev, t.status);
    }

    /** The post-save step of the counter protocol: the owner's completed
        count moves as CounterAfter says, when the owner has a profile. */
    method CountCompletion(owner: UserId, created: bool, prev: Option<TaskStatus>, curr: TaskStatus)
      requires Valid()
      modifies this`profiles
      ensures Valid()
      ensures owner in old(profiles) ==>
                var p := old(profiles)[owner];
                profiles == old(profiles)[owner := p.(completedTasksCount :=
                  Signals.CounterAfter(created, prev, curr, p.completedTasksCount))]
      ensures owner !in old(profiles) ==> profiles == old(profiles)
    {
      profiles := if owner in profiles
                  then profiles[owner := profiles[owner].(completedTasksCount :=
                         Signals.CounterAfter(created, prev, curr, profiles[owner].completedTasksCount))]
                  else profiles;
    }

    /** Creating a task needs a stored session and a title that is not
        blank (both checked by the serializer, first), then a membership of
        the actor in that session's group; the actor becomes the creator
        and the title is stored stripped. */
    method CreateTask(actor: UserId, session: Option<SessionId>, title: string, status: Option<TaskStatus>)
      returns (reply: Reply, id: TaskId)
      requires Valid() && actor in users
      modifies this`tasks, this`profiles, this`nextId
      ensures Valid()
      ensures reply.Raise? ==> tasks == old(tasks) && profiles == old(profiles)
      ensures session.None? || session.value !in sessions || Trim(title) == [] ==>
                reply.Raise? && ValidationErrorClass in reply.exc.classes
      ensures session.Some? && session.value in sessions && Trim(title) != []
              && !IsMember(memberships, actor, sessions[session.value].group) ==>
                reply.Raise? && PermissionDeniedClass in reply.exc.classes
      ensures session.Some? && session.value in sessions && Trim(title) != []
              && IsMember(memberships, actor, sessions[session.value].group) ==>
                reply == Respond(201) && id !in old(tasks)
                && tasks == old(tasks)[id := Task(session.value, actor, Trim(title), StatusOrDefault(status))]
                && (actor in old(profiles) ==>
                      var p := old(profiles)[actor];
                      profiles == old(profiles)[actor := p.(completedTasksCount :=
                        Signals.CounterAfter(true, None, StatusOrDefault(status), p.completedTasksCount))])
                && (actor !in old(profiles) ==> profiles == old(profiles))
    {
      id := 0;
      if session.None? {
        return Raise(ValidationError(SessionRequired)), id;
      }
      if session.value !in sessions {
        return Raise(ValidationError(NoSuchPk)), id;
      }
      if Trim(title) == [] {
        return Raise(ValidationError(BlankField)), id;
      }
      if !IsMember(memberships, actor, sessions[session.value].group) {
        return Raise(PermissionDenied(NotMemberForTask)), id;
      }
      id := SaveTask(None, Task(session.value, actor, Trim(title), StatusOrDefault(status)));
      reply := Respond(201);
    }

    /** Editing the status of a visible task; the counter of the task's
        creator (not the editor's) follows the transition. */
    method UpdateTaskStatus(actor: UserId, id: TaskId, status: TaskStatus) returns (reply: Reply)
      requires Valid() && actor in users
      modifies this`tasks, this`profiles, this`nextId
      ensures Valid()
      ensures id !in TaskQuery(memberships, sessions, old(tasks), actor, None) ==>
                reply == Raise(Http404()) && tasks == old(tasks) && profiles == old(profiles)
      ensures id in TaskQuery(memberships, sessions, old(tasks), actor, None) ==>
                var t := old(tasks)[id];
                reply == Respond(200) && tasks == old(tasks)[id := t.(status := status)]
                && (t.createdBy in old(profiles) ==>
                      var p := old(profiles)[t.createdBy];
                      profiles == old(profiles)[t.createdBy := p.(completedTasksCount :=
                        Signals.CounterAfter(false, Some(t.status), status, p.completedTasksCount))])
                && (t.createdBy !in old(profiles) ==> profiles == old(profiles))
    {
      if id !in TaskQuery(memberships, sessions, tasks, actor, None) {
        return Raise(Http404());
      }
      var saved := SaveTask(Some(id), tasks[id].(status := status));
      reply := Respond(200);
    }

    /** Deleting a visible task: allowed to its creator or an admin member
        of its group, answered 403 otherwise. The counter is not touched. */
    method DeleteTask(actor: UserId, id: TaskId) returns (reply: Reply)
      requires Valid() && actor in users
      modifies this`tasks
      ensures Valid()
      ensures id !in TaskQuery(memberships, sessions, old(tasks), actor, None) ==>
                reply == Raise(Http404()) && tasks == old(tasks)
      ensures id in TaskQuery(memberships, sessions, old(tasks), actor, None) ==>
                var allowed := MayDeleteTask(memberships, sessions[old(tasks)[id].session].group, old(tasks)[id], actor);
                (allowed ==> reply == Respond(204) && tasks == old(tasks) - {id})
                && (!allowed ==> reply == Respond(403) && tasks == old(tasks))
    {
      if id !in TaskQuery(memberships, sessions, tasks, actor, None) {
        return Raise(Http404());
      }
      if MayDeleteTask(memberships, sessions[tasks[id].session].group, tasks[id], actor) {
        tasks := tasks - {id};
        reply := Respond(204);
      } else {
        reply := Respond(403);
      }
    }

    // -------------------------------------------------------------------
    // Documents.

    /** Stores a document under a fresh key. */
    method AddDocument(doc: Document) returns (d: DocumentId)
      requires Valid() && doc.group in groups && doc.uploadedBy in users
      modifies this`documents, this`nextId
      ensures Valid()
      ensures d !in old(documents) && documents == old(documents)[d := doc]
    {
      DocumentInsertKeepsValid(users, profiles, groups, memberships, sessions, tasks, documents, comments,
                               timers, notifications, nextId, doc);
      d := nextId;
      documents, nextId := documents[d := doc], nextId + 1;
    }

    /** Uploading needs a stored group, a title that is not blank and a
        file with a name and at least one byte (all checked by the
        serializer, first), then a membership of the actor in the group.
        The document is stored unapproved with its title stripped and its
        file fields captured, and the group's creator is notified unless
        the creator is the uploader. */
    method UploadDocument(actor: UserId, group: Option<GroupId>, title: string, file: Option<FileBlob>)
      returns (reply: Reply, d: DocumentId, n: Option<NotificationId>)
      requires Valid() && actor in users
      modifies this`documents, this`notifications, this`nextId
      ensures Valid()
      ensures reply.Raise? ==> documents == old(documents) && notifications == old(notifications)
      ensures !UploadFieldsValid(groups, group, title, file) ==>
                reply.Raise? && ValidationErrorClass in reply.exc.classes
      ensures UploadFieldsValid(groups, group, title, file) && !IsMember(memberships, actor, group.value) ==>
                reply.Raise? && PermissionDeniedClass in reply.exc.classes
      ensures UploadFieldsValid(groups, group, title, file) && IsMember(memberships, actor, group.value) ==>
                reply == Respond(201) && file.value.size > 0
                && Uploaded(old(documents), old(notifications), documents, notifications, users, groups,
                            actor, group.value, Trim(title), file, d, n)
    {
      d, n := 0, None;
      if group.None? || group.value !in groups || file.None? {
        return Raise(ValidationError(GroupAndFileRequired)), d, n;
      }
      if Trim(title) == [] {
        return Raise(ValidationError(BlankField)), d, n;
      }
      if file.value.name == [] || file.value.size == 0 {
        return Raise(ValidationError(FileRefused)), d, n;
      }
      if !IsMember(memberships, actor, group.value) {
        return Raise(PermissionDenied(NotMemberForUpload)), d, n;
      }
      d, n := PublishUpload(actor, group.value, Trim(title), file);
      reply := Respond(201);
    }

    method PublishUpload(actor: UserId, g: GroupId, title: string, file: Option<FileBlob>)
      returns (d: DocumentId, n: Option<NotificationId>)
      requires Valid() && actor in users && g in groups
      modifies this`documents, this`notifications, this`nextId
      ensures Valid()
      ensures Uploaded(old(documents), old(notifications), documents, notifications, users, groups,
                       actor, g, title, file, d, n)
    {
      var doc := StoredUpload(g, actor, title, file);
      var creator := groups[g].createdBy;
      var notice := UploadNotice(users[actor].username, title, groups[g].name);
      d := AddDocument(doc);
      n := NotifyOther(creator, actor, notice, UploadKind);
    }

    /** Stores the document again with its approval flag set; the save
        recaptures the size and the type from the stored file, whose name
        is the storage key. */
    method MarkApproved(pk: DocumentId)
      requires Valid() && pk in documents
      modifies this`documents
      ensures Valid()
      ensures documents == old(documents)[pk := CaptureFileFields(old(documents)[pk].(approved := true))]
      ensures documents[pk].approved
      ensures old(documents)[pk].file.Some? ==>
                documents[pk].fileType == FileType(old(documents)[pk].file.value.name)
                && documents[pk].fileSize == old(documents)[pk].file.value.size
    {
      documents := documents[pk := CaptureFileFields(documents[pk].(approved := true))];
    }

    /** Approval passes the request-level group-admin check (group taken
        from the body, else from the document), then the lookup through
        the visible documents, then the object-level check on the
        document's own group; only then is the document marked approved. */
    method ApproveDocument(actor: UserId, pk: DocumentId, bodyGroup: Option<GroupId>) returns (reply: Reply)
      requires Valid() && actor in users
      modifies this`documents
      ensures Valid()
      ensures reply.Raise? ==> documents == old(documents)
      ensures !Permissions.HasPermission(users, memberships, old(documents), Permissions.Request(Some(actor), None, bodyGroup, Some(pk))) ==>
                reply.Raise? && PermissionDeniedClass in reply.exc.classes
      ensures Permissions.HasPermission(users, memberships, old(documents), Permissions.Request(Some(actor), None, bodyGroup, Some(pk)))
              && pk !in DocumentQuery(memberships, old(documents), actor) ==>
                reply == Raise(Http404())
      ensures reply == Respond(200) ==>
                pk in old(documents)
                && Permissions.IsGroupAdmin(users, memberships, actor, old(documents)[pk].group)
                && documents == old(documents)[pk := CaptureFileFields(old(documents)[pk].(approved := true))]
      ensures Permissions.HasPermission(users, memberships, old(documents), Permissions.Request(Some(actor), None, bodyGroup, Some(pk)))
              && pk in DocumentQuery(memberships, old(documents), actor)
              && Permissions.IsGroupAdmin(users, memberships, actor, old(documents)[pk].group) ==>
                reply == Respond(200)
      ensures Permissions.HasPermission(users, memberships, old(documents), Permissions.Request(Some(actor), None, bodyGroup, Some(pk)))
              && pk in DocumentQuery(memberships, old(documents), actor)
              && !Permissions.IsGroupAdmin(users, memberships, actor, old(documents)[pk].group) ==>
                reply.Raise? && PermissionDeniedClass in reply.exc.classes
    {
      var req := Permissions.Request(Some(actor), None, bodyGroup, Some(pk));
      if !Permissions.HasPermission(users, memberships, documents, req) {
        return Raise(PermissionDenied(NoPermission));
      }
      if pk !in DocumentQuery(memberships, documents, actor) {
        return Raise(Http404());
      }
      if !Permissions.HasObjectPermission(users, memberships, actor, Some(documents[pk].group)) {
        return Raise(PermissionDenied(NoPermission));
      }
      MarkApproved(pk);
      reply := Respond(200);
    }

    /** Removes a document and the comments on it. */
    method RemoveDocument(d: DocumentId)
      requires Valid()
      modifies this`documents, this`comments
      ensures Valid()
      ensures documents == old(documents) - {d}
      ensures comments == map k | k in old(comments) && old(comments)[k].document != d :: old(comments)[k]
    {
      documents := documents - {d};
      comments := map k | k in comments && comments[k].document != d :: comments[k];
    }

    /** Deleting a visible document needs an admin membership in its group
        or a superuser; its comments go with it. */
    method DeleteDocument(actor: UserId, d: DocumentId) returns (reply: Reply)
      requires Valid() && actor in users
      modifies this`documents, this`comments
      ensures Valid()
      ensures reply.Raise? ==> documents == old(documents) && comments == old(comments)
      ensures d !in DocumentQuery(memberships, old(documents), actor) ==> reply == Raise(Http404())
      ensures d in DocumentQuery(memberships, old(documents), actor)
              && !MayDeleteDocument(memberships, old(documents)[d], actor, users[actor].isSuperuser) ==>
                reply.Raise? && PermissionDeniedClass in reply.exc.classes
      ensures d in DocumentQuery(memberships, old(documents), actor)
              && MayDeleteDocument(memberships, old(documents)[d], actor, users[actor].isSuperuser) ==>
                reply == Respond(204) && documents == old(documents) - {d}
                && comments == map k | k in old(comments) && old(comments)[k].document != d :: old(comments)[k]
    {
      if d !in DocumentQuery(memberships, documents, actor) {
        return Raise(Http404());
      }
      if !MayDeleteDocument(memberships, documents[d], actor, users[actor].isSuperuser) {
        return Raise(PermissionDenied(NotAdminForDocument));
      }
      RemoveDocument(d);
      reply := Respond(204);
    }

    /** The generic partial update of a visible document. Only
        authentication is checked: any field the serializer leaves
        writable is replaced, the approval flag included; a group that is
        not stored or a blank title is a validation error, and a title is
        stored stripped. */
    method UpdateDocument(actor: UserId, pk: DocumentId, title: Option<string>, group: Option<GroupId>,
                          approved: Option<bool>) returns (reply: Reply)
      requires Valid() && actor in users
      modifies this`documents
      ensures Valid()
      ensures reply.Raise? ==> documents == old(documents)
      ensures pk !in DocumentQuery(memberships, old(documents), actor) ==> reply == Raise(Http404())
      ensures pk in DocumentQuery(memberships, old(documents), actor)
              && ((group.Some? && group.value !in groups) || (title.Some? && Trim(title.value) == [])) ==>
                reply.Raise? && ValidationErrorClass in reply.exc.classes
      ensures pk in DocumentQuery(memberships, old(documents), actor)
              && (group.None? || group.value in groups) && (title.None? || Trim(title.value) != []) ==>
                reply == Respond(200)
                && documents == old(documents)[pk := PatchDocument(old(documents)[pk], TrimmedOption(title), group, approved)]
    {
      if pk !in DocumentQuery(memberships, documents, actor) {
        return Raise(Http404());
      }
      if group.Some? && group.value !in groups {
        return Raise(ValidationError(NoSuchPk));
      }
      if title.Some? && Trim(title.value) == [] {
        return Raise(ValidationError(BlankField));
      }
      var doc := PatchDocument(documents[pk], TrimmedOption(title), group, approved);
      DocumentWriteKeepsValid(users, profiles, groups, memberships, sessions, tasks, documents, comments,
                              timers, notifications, nextId, pk, doc);
      documents := documents[pk := doc];
      reply := Respond(200);
    }

    // -------------------------------------------------------------------
    // Study sessions.

    /** Scheduling needs a stored group, both times with the start before
        the end, and a membership of the actor in the group. */
    method CreateSession(actor: UserId, group: Option<GroupId>, title: string, start: Option<int>, end: Option<int>)
      returns (reply: Reply, s: SessionId)
      requires Valid() && actor in users
      modifies this`sessions, this`nextId
      ensures Valid()
      ensures reply.Raise? ==> sessions == old(sessions)
      ensures group.None? || group.value !in groups || start.None? || end.None? || Trim(title) == []
              || !ValidateSessionTimes(start, end) ==>
                reply.Raise? && ValidationErrorClass in reply.exc.classes
      ensures group.Some? && group.value in groups && start.Some? && end.Some? && Trim(title) != []
              && ValidateSessionTimes(start, end) ==>
                (!IsMember(memberships, actor, group.value) ==> reply.Raise? && PermissionDeniedClass in reply.exc.classes)
                && (IsMember(memberships, actor, group.value) ==>
                      reply == Respond(201) && s !in old(sessions)
                      && sessions == old(sessions)[s := StudySession(group.value, Trim(title), start.value, end.value)])
      ensures reply == Respond(201) ==> sessions[s].startTime < sessions[s].endTime
    {
      s := 0;
      if group.None? || group.value !in groups || start.None? || end.None? {
        return Raise(ValidationError(SessionFieldsRequired)), s;
      }
      var clean := Trim(title);
      if clean == [] {
        return Raise(ValidationError(BlankField)), s;
      }
      if !ValidateSessionTimes(start, end) {
        return Raise(ValidationError(StartNotBeforeEnd)), s;
      }
      if !IsMember(memberships, actor, group.value) {
        return Raise(PermissionDenied(NotMemberForSession)), s;
      }
      s := AddSession(StudySession(group.value, clean, start.value, end.value));
      reply := Respond(201);
    }

    /** Stores a session of a stored group under a fresh key. */
    method AddSession(session: StudySession) returns (s: SessionId)
      requires Valid() && session.group in groups
      modifies this`sessions, this`nextId
      ensures Valid()
      ensures s !in old(sessions) && sessions == old(sessions)[s := session]
    {
      s := nextId;
      nextId := nextId + 1;
      sessions := sessions[s := session];
    }

    /** Deleting a visible session reads a creator field the session model
        does not have, so it always fails with an attribute error (a 500
        envelope, with either handler) and deletes nothing; a session the
        actor cannot see is not found. */
    method DestroySession(actor: UserId, s: SessionId) returns (reply: Reply)
      requires Valid() && actor in users
      ensures reply.Raise?
      ensures s !in SessionQuery(memberships, sessions, actor, None) ==>
                reply == Raise(Http404()) && HandleIntended(reply.exc).status == 404
      ensures s in SessionQuery(memberships, sessions, actor, None) ==>
                AttributeErrorClass in reply.exc.classes
                && Handle(reply.exc).status == 500 && HandleIntended(reply.exc).status == 500
    {
      if s !in SessionQuery(memberships, sessions, actor, None) {
        return Raise(Http404());
      }
      reply := Raise(AttributeError(NoCreatedBy));
    }

    // -------------------------------------------------------------------
    // Personal timers.

    /** Creating a timer: the actor owns it and it starts now; the other
        fields are whatever the client sent, an omitted pause flag being
        false. */
    method CreateTimer(actor: UserId, mode: TimerMode, duration: nat, endedAt: Option<int>, isPaused: Option<bool>,
                       pausedAt: Option<int>, now: int) returns (reply: Reply, id: TimerId)
      requires Valid() && actor in users
      modifies this`timers, this`nextId
      ensures Valid()
      ensures reply == Respond(201) && id !in old(timers)
      ensures timers == old(timers)[id := TimerSession(actor, mode, duration, now, endedAt, isPaused == Some(true), pausedAt)]
    {
      id := nextId;
      nextId := nextId + 1;
      timers := timers[id := TimerSession(actor, mode, duration, now, endedAt, isPaused == Some(true), pausedAt)];
      reply := Respond(201);
    }

    method PauseTimer(actor: UserId, id: TimerId, now: int) returns (reply: Reply)
      requires Valid() && actor in users
      modifies this`timers
      ensures Valid()
      ensures id !in TimerQuery(old(timers), actor) ==> reply == Raise(Http404()) && timers == old(timers)
      ensures id in TimerQuery(old(timers), actor) && Timers.Pause(old(timers)[id], now).None? ==>
                reply == Respond(400) && timers == old(timers)
      ensures id in TimerQuery(old(timers), actor) && Timers.Pause(old(timers)[id], now).Some? ==>
                reply == Respond(200) && timers == old(timers)[id := Timers.Pause(old(timers)[id], now).value]
    {
      if id !in TimerQuery(timers, actor) {
        return Raise(Http404());
      }
      var next := Timers.Pause(timers[id], now);
      if next.None? {
        return Respond(400);
      }
      timers := timers[id := next.value];
      reply := Respond(200);
    }

    method ResumeTimer(actor: UserId, id: TimerId) returns (reply: Reply)
      requires Valid() && actor in users
      modifies this`timers
      ensures Valid()
      ensures id !in TimerQuery(old(timers), actor) ==> reply == Raise(Http404()) && timers == old(timers)
      ensures id in TimerQuery(old(timers), actor) && Timers.Resume(old(timers)[id]).None? ==>
                reply == Respond(400) && timers == old(timers)
      ensures id in TimerQuery(old(timers), actor) && Timers.Resume(old(timers)[id]).Some? ==>
                reply == Respond(200) && timers == old(timers)[id := Timers.Resume(old(timers)[id]).value]
    {
      if id !in TimerQuery(timers, actor) {
        return Raise(Http404());
      }
      var next := Timers.Resume(timers[id]);
      if next.None? {
        return Respond(400);
      }
      timers := timers[id := next.value];
      reply := Respond(200);
    }

    /** Stopping records the end time and credits the whole minutes since
        the start to the actor's profile, when positive and when the actor
        has a profile. The minutes are reported either way. */
    method StopTimer(actor: UserId, id: TimerId, now: int) returns (reply: Reply, minutes: int)
      requires Valid() && actor in users
      modifies this`timers, this`profiles
      ensures Valid()
      ensures reply != Respond(200) ==> timers == old(timers) && profiles == old(profiles)
      ensures id !in TimerQuery(old(timers), actor) ==> reply == Raise(Http404())
      ensures id in TimerQuery(old(timers), actor) && Timers.Stop(old(timers)[id], now).None? ==> reply == Respond(400)
      ensures id in TimerQuery(old(timers), actor) && Timers.Stop(old(timers)[id], now).Some? ==>
                reply == Respond(200)
                && timers == old(timers)[id := Timers.Stop(old(timers)[id], now).value]
                && minutes == Timers.ElapsedMinutes(old(timers)[id].startedAt, now)
                && (actor in old(profiles) ==>
                      var p := old(profiles)[actor];
                      profiles == old(profiles)[actor := p.(totalStudyTime := Timers.CreditStudyTime(p.totalStudyTime, minutes))])
                && (actor !in old(profiles) ==> profiles == old(profiles))
    {
      minutes := 0;
      if id !in TimerQuery(timers, actor) {
        return Raise(Http404()), minutes;
      }
      var next := Timers.Stop(timers[id], now);
      if next.None? {
        return Respond(400), minutes;
      }
      timers := timers[id := next.value];
      minutes := Timers.ElapsedMinutes(next.value.startedAt, next.value.endedAt.value);
      if actor in profiles && minutes > 0 {
        var p := profiles[actor];
        profiles := profiles[actor := p.(totalStudyTime := Timers.CreditStudyTime(p.totalStudyTime, minutes))];
      }
      reply := Respond(200);
    }

    method RestartTimer(actor: UserId, id: TimerId, now: int) returns (reply: Reply)
      requires Valid() && actor in users
      modifies this`timers
      ensures Valid()
      ensures id !in TimerQuery(old(timers), actor) ==> reply == Raise(Http404()) && timers == old(timers)
      ensures id in TimerQuery(old(timers), actor) ==>
                reply == Respond(200) && timers == old(timers)[id := Timers.Restart(old(timers)[id], now)]
    {
      if id !in TimerQuery(timers, actor) {
        return Raise(Http404());
      }
      timers := timers[id := Timers.Restart(timers[id], now)];
      reply := Respond(200);
    }

    // -------------------------------------------------------------------
    // Notifications and comments.

    /** Marking one of the actor's notifications read; nothing else changes. */
    method MarkRead(actor: UserId, n: NotificationId) returns (reply: Reply)
      requires Valid() && actor in users
      modifies this`notifications
      ensures Valid()
      ensures n !in NotificationQuery(old(notifications), actor) ==>
                reply == Raise(Http404()) && notifications == old(notifications)
      ensures n in NotificationQuery(old(notifications), actor) ==>
                reply == Respond(200)
                && notifications == old(notifications)[n := old(notifications)[n].(readStatus := true)]
    {
      if n !in NotificationQuery(notifications, actor) {
        return Raise(Http404());
      }
      notifications := notifications[n := notifications[n].(readStatus := true)];
      reply := Respond(200);
    }

    /** Stores a fresh, unread notification for a stored user. */
    method Notify(recipient: UserId, message: string, kind: string) returns (n: NotificationId)
      requires Valid() && recipient in users
      modifies this`notifications, this`nextId
      ensures Valid()
      ensures n !in old(notifications)
      ensures notifications == old(notifications)[n := Notification(recipient, message, kind, false)]
    {
      var note := Notification(recipient, message, kind, false);
      NotificationInsertKeepsValid(users, profiles, groups, memberships, sessions, tasks, documents, comments,
                                   timers, notifications, nextId, note);
      n := nextId;
      notifications, nextId := notifications[n := note], nextId + 1;
    }

    /** Notifies the recipient unless the recipient is the one acting. */
    method NotifyOther(recipient: UserId, actor: UserId, message: string, kind: string) returns (n: Option<NotificationId>)
      requires Valid() && recipient in users
      modifies this`notifications, this`nextId
      ensures Valid()
      ensures recipient == actor ==> n.None? && notifications == old(notifications)
      ensures recipient != actor ==>
                n.Some? && n.value !in old(notifications)
                && notifications == old(notifications)[n.value := Notification(recipient, message, kind, false)]
    {
      if recipient == actor {
        return None;
      }
      var k := Notify(recipient, message, kind);
      n := Some(k);
    }

    /** Commenting needs only a stored document (the document is not looked
        up through the visible ones, and no membership is checked); the
        actor becomes the author. */
    method CreateComment(actor: UserId, document: Option<DocumentId>, text: string) returns (reply: Reply, c: CommentId)
      requires Valid() && actor in users
      modifies this`comments, this`nextId
      ensures Valid()
      ensures document.None? || document.value !in documents || Trim(text) == [] ==>
                reply.Raise? && ValidationErrorClass in reply.exc.classes && comments == old(comments)
      ensures document.Some? && document.value in documents && Trim(text) != [] ==>
                reply == Respond(201) && c !in old(comments)
                && comments == old(comments)[c := DocumentComment(document.value, actor, Trim(text))]
    {
      c := 0;
      if document.None? || document.value !in documents {
        return Raise(ValidationError(DocumentRequired)), c;
      }
      var clean := Trim(text);
      if clean == [] {
        return Raise(ValidationError(BlankField)), c;
      }
      c := AddComment(DocumentComment(document.value, actor, clean));
      reply := Respond(201);
    }

    /** Stores a comment on a stored document under a fresh key. */
    method AddComment(comment: DocumentComment) returns (c: CommentId)
      requires Valid() && comment.document in documents && comment.user in users
      modifies this`comments, this`nextId
      ensures Valid()
      ensures c !in old(comments) && comments == old(comments)[c := comment]
    {
      c := nextId;
      nextId := nextId + 1;
      comments := comments[c := comment];
    }

    /** Deleting a visible comment: allowed to its author or an admin
        member of the document's group, answered 403 otherwise. */
    method DeleteComment(actor: UserId, c: CommentId) returns (reply: Reply)
      requires Valid() && actor in users
      modifies this`comments
      ensures Valid()
      ensures c !in CommentQuery(memberships, documents, old(comments), actor, None) ==>
                reply == Raise(Http404()) && comments == old(comments)
      ensures c in CommentQuery(memberships, documents, old(comments), actor, None) ==>
                var allowed := MayDeleteComment(memberships, documents[old(comments)[c].document].group, old(comments)[c], actor);
                (allowed ==> reply == Respond(204) && comments == old(comments) - {c})
                && (!allowed ==> reply == Respond(403) && comments == old(comments))
    {
      if c !in CommentQuery(memberships, documents, comments, actor, None) {
        return Raise(Http404());
      }
      if MayDeleteComment(memberships, documents[comments[c].document].group, comments[c], actor) {
        comments := comments - {c};
        reply := Respond(204);
      } else {
        reply := Respond(403);
      }
    }
  }
}
