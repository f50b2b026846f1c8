/**
 * The `users` table: the record the authentication service writes, with
 * the uniqueness the table declares and the flag defaults.
 */
module UserModel {
  import opened Wrappers

  /**
   * A user as the authentication service builds one: `externalId` is the
   * identity provider's user id, or a locally generated UUID.
   */
  datatype User = User(
    id: int,
    email: string,
    username: string,
    fullName: Option<string>,
    externalId: string,
    isActive: bool,
    isSuperuser: bool,
    createdAt: int)

  const DefaultIsActive := true
  const DefaultIsSuperuser := false

  /** `id` is the primary key; `email` and `username` are unique. */
  predicate UniqueUsers(users: seq<User>) {
    forall i, j :: 0 <= i < j < |users| ==>
      && users[i].id != users[j].id
      && users[i].email != users[j].email
      && users[i].username != users[j].username
  }

  /** The mapped attributes of the `User` class, the keywords its constructor accepts. */
  const UserColumns: set<string> := {
    "id", "email", "username", "hashed_password", "full_name",
    "is_active", "is_superuser", "created_at", "updated_at"
  }

  /** A new user would clash with a stored one on the email or the username. */
  predicate Clashes(users: seq<User>, email: string, username: string) {
    exists i :: 0 <= i < |users| && (users[i].email == email || users[i].username == username)
  }

  /** Appending a user that clashes with nobody keeps the table's uniqueness. */
  lemma AppendKeepsUnique(users: seq<User>, u: User)
    requires UniqueUsers(users)
    requires !Clashes(users, u.email, u.username)
    requires forall i :: 0 <= i < |users| ==> users[i].id != u.id
    ensures UniqueUsers(users + [u])
  {
    var s := users + [u];
    forall i, j | 0 <= i < j < |s|
      ensures s[i].id != s[j].id && s[i].email != s[j].email && s[i].username != s[j].username
    {
      if j == |users| {
        assert s[i] == users[i];
        assert !(users[i].email == u.email || users[i].username == u.username);
      }
    }
  }
}
