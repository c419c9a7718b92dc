/** src/services/userService.ts: the user table, creation with a duplicate
    email check and a hashed password, and the two read-only lookups. */
module UserService {
  import opened Common
  import opened Entities

  const EMAIL_TAKEN: string := "Email is already exist!"
  const SAVE_FAILED: string := "Failed to store data in database."

  /** The fields `create` receives; `tenantId` is accepted but not stored. */
  datatype UserData = UserData(
    firstname: string,
    lastname: string,
    email: string,
    password: string,
    role: string,
    tenantId: Option<nat>)

  /** No two users share an email (the column is unique). */
  ghost predicate UniqueEmails(users: map<nat, User>) {
    forall i, j :: i in users && j in users && i != j ==> users[i].email != users[j].email
  }

  ghost predicate EmailTaken(users: map<nat, User>, email: string) {
    exists k :: k in users && users[k].email == email
  }

  /** A (possibly NaN) id names an existing user. */
  predicate HasId(users: map<nat, User>, id: Option<nat>) {
    id.Some? && id.value in users
  }

  class UserService {
    var users: map<nat, User>
    var nextId: nat
    /** The one-way password hash (bcrypt), left uninterpreted. */
    const hash: string -> string

    ghost predicate Valid()
      reads this
    {
      && (forall k :: k in users ==> users[k].id == k && k < nextId)
      && UniqueEmails(users)
    }

    constructor (hash: string -> string)
      ensures Valid() && users == map[] && this.hash == hash
    {
      users := map[];
      nextId := 1;
      this.hash := hash;
    }

    /** `create(data)`: refuses an email already present with 400; otherwise
        saves a new user under a fresh id with the password replaced by its
        hash and the given role, and no tenant. `readFails` says whether the
        duplicate-email lookup throws (the exception passes through as it
        is); `saved` is the repository's answer to the save, and a failed
        save yields 500. No failure changes anything. */
    method Create(data: UserData, readFails: bool, saved: bool) returns (r: Result<User, Error>)
      requires Valid()
      modifies this
      ensures Valid()
      ensures readFails ==> r == Err(StoreError)
      ensures !readFails && EmailTaken(old(users), data.email) ==>
                r == Err(HttpError(400, EMAIL_TAKEN))
      ensures !readFails && !EmailTaken(old(users), data.email) && !saved ==>
                r == Err(HttpError(500, SAVE_FAILED))
      ensures r.Err? ==> unchanged(this)
      ensures r.Ok? <==> !readFails && !EmailTaken(old(users), data.email) && saved
      ensures r.Ok? ==>
                && r.value.id == old(nextId) && r.value.id !in old(users)
                && nextId == old(nextId) + 1
                && users == old(users)[r.value.id := r.value]
                && r.value.email == data.email
                && r.value.password == hash(data.password)
                && r.value.role == data.role
                && r.value.firstname == data.firstname
                && r.value.lastname == data.lastname
                && r.value.tenant == None
    {
      if readFails {
        return Err(StoreError);
      }
      var existing := FindByEmail(data.email);
      if existing.Some? {
        return Err(HttpError(400, EMAIL_TAKEN));
      }
      if !saved {
        return Err(HttpError(500, SAVE_FAILED));
      }
      var user := User(nextId, data.firstname, data.lastname, data.email,
                       hash(data.password), data.role, None);
      users := users[nextId := user];
      nextId := nextId + 1;
      r := Ok(user);
    }

    /** `findByEmail(email)`: the one user with that email, if any. */
    method FindByEmail(email: string) returns (u: Option<User>)
      requires Valid()
      ensures u.Some? <==> EmailTaken(users, email)
      ensures u.Some? ==> u.value.id in users && users[u.value.id] == u.value && u.value.email == email
      ensures u.Some? ==> forall k :: k in users && users[k].email == email ==> k == u.value.id
    {
      if k :| k in users && users[k].email == email {
        u := Some(users[k]);
      } else {
        u := None;
      }
    }

    /** `findbyId(id)`: the user with that primary key, if any (a NaN id
        finds nobody). */
    method FindById(id: Option<nat>) returns (u: Option<User>)
      requires Valid()
      ensures u.Some? <==> HasId(users, id)
      ensures u.Some? ==> u.value == users[id.value] && u.value.id == id.value
    {
      if id.Some? && id.value in users {
        u := Some(users[id.value]);
      } else {
        u := None;
      }
    }
  }
}
