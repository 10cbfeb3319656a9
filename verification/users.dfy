/** The gateway's user record (`internal/domain/user.go`). */
module Users {
  datatype User = User(
    id: string,
    login: string,
    email: string,
    fullName: string,
    firstName: string,
    lastName: string,
    permissions: seq<string>)

  /** The zero `domain.User` a decoder starts from. */
  const EmptyUser: User := User("", "", "", "", "", "", [])
}
