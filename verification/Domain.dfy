/** The user entity and the errors shared by every layer. */
module Domain {
  datatype User = User(id: int, name: string, email: string)

  /** Why the database refused a command. */
  datatype Cause = UniqueEmail | DuplicateKey | Unavailable

  datatype Error = Validation | NotFound | AlreadyExists | Internal(cause: Cause)
}
