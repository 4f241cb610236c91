/** The two query resolvers with logic of their own. Both only read the store,
    so they are functions over it. */
module Query {
  import opened Seqs
  import opened Records
  import opened Mutation

  /** me: nothing without a session; otherwise the user whose id is the
      session's, or nothing when no such user exists. */
  function Me(b: Backend, req: Request): (r: Option<User>)
    reads b
    ensures req.userId.None? ==> r == None
    ensures r.Some? ==> r.value in b.users && Some(r.value.id) == req.userId
    ensures req.userId.Some? && (exists j :: 0 <= j < |b.users| && b.users[j].id == req.userId.value) ==> r.Some?
  {
    if req.userId.None? then None
    else
      match UserWithId(b.users, req.userId.value)
      case None => None
      case Some(k) => Some(b.users[k])
  }

  /** users: the whole user table, and only for a signed-in caller who holds
      ADMIN or PERMISSIONUPDATE. */
  function Users(b: Backend, req: Request): (r: Result<seq<User>>)
    reads b
    ensures req.userId.None? ==> r == Err(NotSignedIn)
    ensures r.Ok? ==> r.value == b.users
    ensures r.Ok? <==>
      && CurrentUser(b.users, req).Some?
      && HasPermission(b.users[CurrentUser(b.users, req).value], [ADMIN, PERMISSIONUPDATE])
  {
    if req.userId.None? then Err(NotSignedIn)
    else
      match CurrentUser(b.users, req)
      case None => Err(NoCurrentUser)
      case Some(k) =>
        if HasPermission(b.users[k], [ADMIN, PERMISSIONUPDATE]) then Ok(b.users)
        else Err(InsufficientPermissions)
  }
}
