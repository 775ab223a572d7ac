/** The permission gate every handler passes first (`hasPermission`, config/auth.php).
    Sessions, roles and the users table are not modelled: the acting user is given
    as an `Actor`, and a handler whose permission check fails redirects before
    touching the store. Every page checks twice: its view permission at the top
    of the page, then the posted action's own permission. */
module Auth {
  import opened Base

  /** The logged-in user: the session's `user_id` (absent for no session), whether the
      role is admin, and the permission names granted to the session. */
  datatype Actor = Actor(userId: Option<Id>, isAdmin: bool, permissions: set<string>)

  /** An admin holds every permission; anyone else holds the ones granted. */
  predicate HasPermission(a: Actor, p: string) {
    a.isAdmin || p in a.permissions
  }

  /** A POST reaches its handler only past both `checkPermissionOrRedirect` calls: the
      page's view permission, then the action's permission. */
  predicate MayPost(a: Actor, view: string, action: string) {
    HasPermission(a, view) && HasPermission(a, action)
  }
}
