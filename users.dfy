/** A user account as the server holds it: a record of the "users" table. */
module Users {
  import opened Wrappers
  import opened Records

  const UserTable := "users"

  /** The columns a user record carries. */
  const UserKeys: set<string> := {"id", "username", "password", "name", "createdate", "admin", "banned"}

  /** The constructor's seed: every user column, each null. */
  function Seed(): (p: Params)
    ensures p.Keys == UserKeys && forall k :: k in p ==> p[k] == None
  {
    map k | k in UserKeys :: None
  }

  /** The parameters of `new User(name)` whose username lookup gave `id`, and whose row is `row`. */
  function UserParams(id: int, row: Row): (p: Params)
    ensures p.Keys == UserKeys
    ensures id < 1 ==> forall k :: k in p ==> p[k] == None
    ensures id >= 1 ==> forall k :: k in p ==> p[k] == row(k)
  {
    LoadParams(Seed(), id, row)
  }

  /** String.equals against the stored password: exact, case-sensitive, and false against null. */
  function ValidatePassword(params: Params, password: string): (ok: bool)
    ensures ok <==> ("password" in params && params["password"] == Some(password))
  {
    Some(password) == Lookup(params, "password")
  }

  /** A name the lookup does not know leaves the password null, so no password is accepted. */
  lemma UnknownUserRejectsAll(id: int, row: Row, password: string)
    requires id < 1
    ensures !ValidatePassword(UserParams(id, row), password)
  {
    assert "password" in UserKeys;
  }

  /** A known user is accepted with exactly the password of its row. */
  lemma KnownUserPassword(id: int, row: Row, password: string)
    requires id >= 1
    ensures ValidatePassword(UserParams(id, row), password) <==> row("password") == Some(password)
  {
    assert "password" in UserKeys;
  }

  /**
   * new User(username): a record for the id the username lookup answers,
   * seeded with the user columns, tied to the "users" table, then loaded.
   */
  method NewUser(username: string, idOf: string -> int, row: Row) returns (u: DatabaseObject)
    ensures fresh(u)
    ensures u.id == idOf(username) && u.table == Some(UserTable)
    ensures u.params == UserParams(u.id, row)
  {
    u := new DatabaseObject(idOf(username));
    u.Set("id", None);
    u.Set("username", None);
    u.Set("password", None);
    u.Set("name", None);
    u.Set("createdate", None);
    u.Set("admin", None);
    u.Set("banned", None);
    assert u.params == Seed();
    u.SetTableName(Some(UserTable));
    u.Load(u.GetID(), row);
  }
}
