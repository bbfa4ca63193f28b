/** The signed-in user as the client sees it (`useAuth().user`); `None` when nobody is signed in. */
module Roles {
  import opened Wrappers

  datatype Role = Owner | Manager | Staff

  datatype User = User(name: string, role: Role)

  /** `['Owner', 'Manager'].includes(user?.role)`: the test every page uses to offer editing. */
  predicate CanManage(user: Option<User>)
  {
    user.Some? && (user.value.role == Owner || user.value.role == Manager)
  }

  /** `user?.role === 'Owner'`. */
  predicate IsOwner(user: Option<User>)
  {
    user.Some? && user.value.role == Owner
  }
}
