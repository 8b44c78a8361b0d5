/** The group-admin permission: a request-level check that first resolves
    which group the request is about, and an object-level check on the
    group of the object the view fetched. Both are pure: they only look
    rows up. */
module Permissions {
  import opened Models
  import opened Rules

  /** What the request-level check can see of a request: the acting user
      (None when anonymous), the `group_pk` of the URL, the `group` of the
      request body, and the `pk` of the URL. */
  datatype Request = Request(
    user: Option<UserId>,
    urlGroupPk: Option<GroupId>,
    bodyGroup: Option<GroupId>,
    pk: Option<DocumentId>)

  /** How the group of a request is found. */
  datatype Resolution = Resolved(group: GroupId) | UnknownDocument | NoGroup

  /** URL group first, then body group, then the group of the document the
      URL's pk names. A pk naming no document ends the search. */
  function ResolveGroup(docs: map<DocumentId, Document>, req: Request): (r: Resolution)
    ensures req.urlGroupPk.Some? ==> r == Resolved(req.urlGroupPk.value)
    ensures req.urlGroupPk.None? && req.bodyGroup.Some? ==> r == Resolved(req.bodyGroup.value)
    ensures req.urlGroupPk.None? && req.bodyGroup.None? && req.pk.Some? ==>
      r == (if req.pk.value in docs then Resolved(docs[req.pk.value].group) else UnknownDocument)
    ensures req.urlGroupPk.None? && req.bodyGroup.None? && req.pk.None? ==> r == NoGroup
  {
    if req.urlGroupPk.Some? then Resolved(req.urlGroupPk.value)
    else if req.bodyGroup.Some? then Resolved(req.bodyGroup.value)
    else if req.pk.Some? then
      if req.pk.value in docs then Resolved(docs[req.pk.value].group) else UnknownDocument
    else NoGroup
  }

  /** The actor administers the group through a membership row, or is a superuser. */
  function IsGroupAdmin(users: map<UserId, User>, ms: map<MembershipId, Membership>, u: UserId, g: GroupId): (admin: bool)
    requires u in users
    ensures admin <==> g in AdminGroups(ms, u) || users[u].isSuperuser
    ensures !users[u].isSuperuser && g !in MemberGroups(ms, u) ==> !admin
  {
    HasAdminRole(ms, u, g) || users[u].isSuperuser
  }

  /** The request-level check: an authenticated user who administers the
      resolved group (or is a superuser). */
  function HasPermission(users: map<UserId, User>, ms: map<MembershipId, Membership>,
                         docs: map<DocumentId, Document>, req: Request): (granted: bool)
    requires req.user.Some? ==> req.user.value in users
    ensures granted <==>
      req.user.Some? && ResolveGroup(docs, req).Resolved?
      && IsGroupAdmin(users, ms, req.user.value, ResolveGroup(docs, req).group)
  {
    if req.user.None? then false
    else
      match ResolveGroup(docs, req)
      case UnknownDocument => false
      case NoGroup => false
      case Resolved(g) => HasAdminRole(ms, req.user.value, g) || users[req.user.value].isSuperuser
  }

  /** The object-level check: the object has a group and the user
      administers it (or is a superuser). */
  function HasObjectPermission(users: map<UserId, User>, ms: map<MembershipId, Membership>,
                               u: UserId, objGroup: Option<GroupId>): (granted: bool)
    requires u in users
    ensures granted <==> objGroup.Some? && IsGroupAdmin(users, ms, u, objGroup.value)
  {
    match objGroup
    case None => false
    case Some(g) => HasAdminRole(ms, u, g) || users[u].isSuperuser
  }

  /** A plain member role never suffices: with only a member row in the
      resolved group, a non-superuser is refused. */
  lemma MemberRoleNeverSuffices(users: map<UserId, User>, ms: map<MembershipId, Membership>,
                                docs: map<DocumentId, Document>, req: Request)
    requires UniqueMemberships(ms)
    requires req.user.Some? && req.user.value in users && !users[req.user.value].isSuperuser
    requires ResolveGroup(docs, req).Resolved?
    requires exists id :: id in ms && ms[id] == Membership(req.user.value, ResolveGroup(docs, req).group, Member)
    ensures !HasPermission(users, ms, docs, req)
  {
  }

  /** Approving goes through both checks. The object-level one pins the
      decision to the document's own group, so administering the group a
      request body names does not let a non-superuser approve a document
      of another group. */
  lemma ApprovalNeedsAdminOfDocumentGroup(users: map<UserId, User>, ms: map<MembershipId, Membership>,
                                          docs: map<DocumentId, Document>, u: UserId, d: DocumentId, body: GroupId)
    requires u in users && !users[u].isSuperuser && d in docs
    requires HasAdminRole(ms, u, body) && !HasAdminRole(ms, u, docs[d].group)
    ensures HasPermission(users, ms, docs, Request(Some(u), None, Some(body), Some(d)))
    ensures !HasObjectPermission(users, ms, u, Some(docs[d].group))
  {
  }
}
