/** The two stored records, after models/User.ts and models/PasswordEntry.ts. */
module Models {
  import opened Wrappers

  /** A MongoDB ObjectId; the store hands out fresh ones. */
  type Id = nat

  /** `password` holds the hash, never the plaintext; the reset fields are absent until requested. */
  datatype User = User(
    id: Id,
    email: string,
    password: string,
    resetToken: Option<string>,
    resetTokenExpiry: Option<int>)

  /** `password` holds the stored form written by `encrypt`. */
  datatype PasswordEntry = PasswordEntry(
    id: Id,
    userId: Id,
    website: string,
    username: string,
    password: string,
    note: Option<string>)
}
