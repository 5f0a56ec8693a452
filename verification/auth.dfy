/** The authenticated principal the front end holds: its id, e-mail and role. */
module Auth {
  import opened Schema

  /** The two roles a user registers with: `user` (participant) and `admin`. */
  datatype Role = User | Admin

  datatype AuthUser = AuthUser(id: UserId, email: string, role: Role)
}
