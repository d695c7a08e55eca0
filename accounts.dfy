/** The `users` table the authentication code reads and writes: the User model
    (backend/app/Models/User.ts is not part of this model) as a record, and the
    table as an in-memory sequence whose row i has id i + 1. */
module Accounts {
  import opened Common

  const CandidateRole := "candidate"
  const ManagerRole := "manager"

  /** A user row. `password` is the stored credential; hashing is opaque here. */
  datatype User = User(
    id: int,
    name: string,
    email: string,
    password: string,
    role: string,
    emailVerified: bool,
    verificationToken: Option<string>,
    createdAt: int) // milliseconds since the epoch

  /** `User.findOrFail(id)`. */
  function FindUser(users: seq<User>, id: int): (r: Option<User>)
    ensures r.Some? ==> r.value in users && r.value.id == id
    ensures r.None? ==> forall i :: 0 <= i < |users| ==> users[i].id != id
  {
    match FirstIndex(users, (u: User) => u.id == id)
    case None => None
    case Some(i) => Some(users[i])
  }

  /** `User.findBy('email', email)`. */
  function IndexByEmail(users: seq<User>, email: string): (r: Option<nat>) {
    FirstIndex(users, (u: User) => u.email == email)
  }

  /** `User.findBy('verificationToken', token)`. */
  function IndexByToken(users: seq<User>, token: string): (r: Option<nat>) {
    FirstIndex(users, (u: User) => u.verificationToken == Some(token))
  }

  class UserTable {
    var users: seq<User>

    /** Ids are positions, e-mails are unique (register refuses a duplicate), and
        no two users hold the same pending verification token (tokens are uuids). */
    ghost predicate Valid()
      reads this
    {
      && (forall i :: 0 <= i < |users| ==> users[i].id == i + 1)
      && (forall i, j :: 0 <= i < j < |users| ==> users[i].email != users[j].email)
      && (forall i, j :: 0 <= i < j < |users| && users[i].verificationToken.Some? ==>
            users[i].verificationToken != users[j].verificationToken)
    }

    constructor ()
      ensures Valid() && users == []
    {
      users := [];
    }

    /** `User.create(...)`: the new row gets the next id. */
    method Create(name: string, email: string, password: string, role: string,
                  verificationToken: string, createdAt: int) returns (u: User)
      requires Valid()
      requires IndexByEmail(users, email) == None
      requires IndexByToken(users, verificationToken) == None
      modifies this
      ensures Valid()
      ensures u == User(|old(users)| + 1, name, email, password, role, false, Some(verificationToken), createdAt)
      ensures users == old(users) + [u]
    {
      u := User(|users| + 1, name, email, password, role, false, Some(verificationToken), createdAt);
      users := users + [u];
    }

    /** `user.save()` for a row that keeps its id and e-mail and whose token is
        cleared. */
    method SaveVerified(u: User)
      requires Valid()
      requires 1 <= u.id <= |users| && u.email == users[u.id - 1].email
      requires u.verificationToken == None
      modifies this
      ensures Valid()
      ensures users == old(users)[u.id - 1 := u]
    {
      users := users[u.id - 1 := u];
    }
  }
}
