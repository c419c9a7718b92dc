/** The persisted entities the core reads and writes (src/entity), and the
    role names a principal may carry. */
module Entities {
  import opened Common

  /** Role names, as listed by the user-creation validator. */
  const CUSTOMER: string := "customer"
  const MANAGER: string := "manager"
  const ADMIN: string := "admin"

  /** A row of the `users` table. `password` holds the hash, never the
      plaintext; `tenant` is the optional tenant reference. */
  datatype User = User(
    id: nat,
    firstname: string,
    lastname: string,
    email: string,
    password: string,
    role: string,
    tenant: Option<nat>)

  /** A row of the refresh-token table: one active refresh session. */
  datatype RefreshTokenRecord = RefreshTokenRecord(id: nat, userId: nat, expireAt: int)

  /** Every row sits under its own primary key. */
  ghost predicate WellKeyed(records: map<nat, RefreshTokenRecord>) {
    forall k :: k in records ==> records[k].id == k
  }
}
