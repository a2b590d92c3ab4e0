/** `UserController` (src/main/java/com/example/skillswap/controller/UserController.java):
    creating a user and the partial update that copies only non-null fields. */
module UserController {
  import opened Wrappers
  import opened Text
  import opened ServerModel

  /** A non-null incoming value replaces the stored one. */
  function Patch<T>(stored: Option<T>, incoming: Option<T>): (r: Option<T>)
    ensures incoming.Some? ==> r == incoming
    ensures incoming.None? ==> r == stored
  {
    if incoming.Some? then incoming else stored
  }

  /** The four fields `updateUser` copies, each only when non-null. */
  function ApplyDetails(user: User, details: User): User {
    user.(firstName := Patch(user.firstName, details.firstName),
          lastName := Patch(user.lastName, details.lastName),
          university := Patch(user.university, details.university),
          email := Patch(user.email, details.email))
  }

  function NotFound(id: int): ServerError {
    Unhandled("User not found for this id :: " + IntText(id))
  }

  /** `updateUser`: an unknown id is an error; otherwise each of first name,
      last name, university and email is overwritten iff the incoming value
      is non-null, and nothing else about the user or the table changes. */
  function UpdateUser(users: map<int, User>, id: int, details: User): (r: Result<(User, map<int, User>)>)
    ensures id !in users <==> r.Err?
    ensures r.Err? ==> r.error == NotFound(id)
    ensures r.Ok? ==>
      var (saved, table) := r.value;
      var before := users[id];
      && (details.firstName.Some? ==> saved.firstName == details.firstName)
      && (details.firstName.None? ==> saved.firstName == before.firstName)
      && (details.lastName.Some? ==> saved.lastName == details.lastName)
      && (details.lastName.None? ==> saved.lastName == before.lastName)
      && (details.university.Some? ==> saved.university == details.university)
      && (details.university.None? ==> saved.university == before.university)
      && (details.email.Some? ==> saved.email == details.email)
      && (details.email.None? ==> saved.email == before.email)
      && saved.(firstName := before.firstName, lastName := before.lastName,
                university := before.university, email := before.email) == before
      && table == users[id := saved]
  {
    if id !in users then Err(NotFound(id))
    else
      var saved := ApplyDetails(users[id], details);
      Ok((saved, users[id := saved]))
  }

  /** Sending the same update twice leaves the same user as sending it once. */
  lemma UpdateUserIdempotent(users: map<int, User>, id: int, details: User)
    requires id in users
    ensures var once := UpdateUser(users, id, details).value.1;
            UpdateUser(once, id, details) == Ok((once[id], once))
  {
    var once := UpdateUser(users, id, details).value.1;
    assert ApplyDetails(once[id], details) == once[id];
    assert once[id := once[id]] == once;
  }

  /** An update keeps every row under its own key. */
  lemma UpdateUserKeepsKeys(users: map<int, User>, id: int, details: User)
    requires KeyedByUserId(users) && id in users
    ensures KeyedByUserId(UpdateUser(users, id, details).value.1)
  {
  }

  /** `addUser` (`repo.save`): a user without an id is stored under the id
      the database generates (`freshId`); a user with an id is written
      under that id. */
  function AddUser(users: map<int, User>, user: User, freshId: int): (r: (User, map<int, User>))
    requires freshId !in users
    ensures r.0.userId.Some? && r.1 == users[r.0.userId.value := r.0]
    ensures user.userId.None? ==> r.0 == user.(userId := Some(freshId))
    ensures user.userId.Some? ==> r.0 == user
    ensures KeyedByUserId(users) ==> KeyedByUserId(r.1)
  {
    var saved := if user.userId.None? then user.(userId := Some(freshId)) else user;
    (saved, users[saved.userId.value := saved])
  }
}
