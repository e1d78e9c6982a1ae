/**
 * The user directory: building a new user row, looking a user up by one of
 * its identifying columns, the uniqueness check run before registration,
 * the password comparison and the deletion of a user's data. The username
 * and password hashes and the conversion of a query value to a balance are
 * collaborators the model does not open; they are passed in as functions.
 */
module UserbaseHelper {
  import opened Wrappers
  import opened Text
  import opened Databases

  /** The hashing and conversion functions the directory relies on. */
  datatype Codecs = Codecs(
    encodeUsername: string -> string,
    encodePassword: string -> string,
    parseBalance: string -> Option<real>)

  // ---------------------------------------------------------------------
  // create_user_model

  /** A user row before insertion: uuid and balance are column defaults filled in by the database. */
  datatype UserModel = UserModel(email: Option<string>, username: string, password: string)

  /**
   * A model is built only when both username and password are given. The
   * email guard of the source holds for every email that is not None, the
   * empty one included, so any given email is stored, lower-cased.
   */
  function CreateUserModel(codecs: Codecs, email: Option<string>, username: Option<string>, password: Option<string>): (r: Option<UserModel>)
    ensures r.None? <==> username.None? || password.None?
    ensures r.Some? ==> r.value.username == codecs.encodeUsername(username.value)
    ensures r.Some? ==> r.value.password == codecs.encodePassword(password.value)
    ensures r.Some? ==> (r.value.email.Some? <==> email.Some?)
  {
    if username.None? || password.None? then None
    else
      var e := if email.Some? then Some(Lower(email.value)) else None;
      Some(UserModel(e, codecs.encodeUsername(username.value), codecs.encodePassword(password.value)))
  }

  /** A stored email is the given one lower-cased, so it is its own lower-case form. */
  lemma CreatedEmailIsLowerCase(codecs: Codecs, email: Option<string>, username: Option<string>, password: Option<string>)
    requires CreateUserModel(codecs, email, username, password).Some?
    ensures var m := CreateUserModel(codecs, email, username, password).value;
      && (email.Some? ==> m.email == Some(Lower(email.value)))
      && (m.email.Some? ==> Lower(m.email.value) == m.email.value)
  {
    if email.Some? {
      LowerIdempotent(email.value);
    }
  }

  // ---------------------------------------------------------------------
  // get_user_from_userbase

  /** The members of `UserIdentifiers`: the columns of the userbase table. */
  datatype UserIdentifier = UuidId | EmailId | UsernameId | PasswordId | BalanceId

  function IdentifierFromValue(s: string): (r: Option<UserIdentifier>)
    ensures r.Some? <==> s in {"uuid", "email", "username", "password", "balance"}
  {
    if s == "uuid" then Some(UuidId)
    else if s == "email" then Some(EmailId)
    else if s == "username" then Some(UsernameId)
    else if s == "password" then Some(PasswordId)
    else if s == "balance" then Some(BalanceId)
    else None
  }

  /** The filter `getattr(Userbase, identifier) == value` on one row. */
  predicate Matches(codecs: Codecs, u: User, id: UserIdentifier, value: string) {
    match id
    case UuidId => u.uuid == value
    case EmailId => u.email == value
    case UsernameId => u.username == value
    case PasswordId => u.password == value
    case BalanceId => codecs.parseBalance(value) == Some(u.balance)
  }

  /** The rows the filter selects, in table order. */
  function MatchingUsers(codecs: Codecs, users: seq<User>, id: UserIdentifier, value: string): (r: seq<User>)
    ensures |r| <= |users|
    ensures forall u :: u in r <==> u in users && Matches(codecs, u, id, value)
    ensures (forall u :: u in users ==> !Matches(codecs, u, id, value)) ==> r == []
  {
    if users == [] then []
    else
      var rest := MatchingUsers(codecs, users[1..], id, value);
      if Matches(codecs, users[0], id, value) then [users[0]] + rest else rest
  }

  /**
   * The lookup: refused for the password column and for names that are not
   * identifiers, and otherwise the row the filter selects when it selects
   * exactly one (`.one()` raises for none and for several, and both errors
   * become None).
   */
  function GetUserFromUserbase(codecs: Codecs, users: seq<User>, identifier: string, value: string): (r: Option<User>)
    ensures identifier == "password" ==> r.None?
    ensures IdentifierFromValue(identifier).None? ==> r.None?
    ensures r.Some? ==> r.value in users && Matches(codecs, r.value, IdentifierFromValue(identifier).value, value)
    ensures r.Some? <==> (identifier != "password" && IdentifierFromValue(identifier).Some?
      && |MatchingUsers(codecs, users, IdentifierFromValue(identifier).value, value)| == 1)
  {
    if identifier == "password" then None
    else
      match IdentifierFromValue(identifier)
      case None => None
      case Some(id) =>
        var found := MatchingUsers(codecs, users, id, value);
        if |found| == 1 then
          assert found[0] in found;
          Some(found[0])
        else None
  }

  /** The uuid column is the primary key. */
  ghost predicate UniqueUuids(users: seq<User>) {
    forall i, j :: 0 <= i < j < |users| ==> users[i].uuid != users[j].uuid
  }

  /** With unique uuids the only row selected by a uuid is the row holding it. */
  lemma {:induction false} MatchingUniqueUuid(codecs: Codecs, users: seq<User>, i: nat)
    requires UniqueUuids(users) && i < |users|
    ensures MatchingUsers(codecs, users, UuidId, users[i].uuid) == [users[i]]
    decreases |users|
  {
    var rest := users[1..];
    if i == 0 {
      assert forall u :: u in rest ==> u.uuid != users[0].uuid by {
        forall u | u in rest ensures u.uuid != users[0].uuid {
          var k :| 0 <= k < |rest| && rest[k] == u;
          assert users[k + 1] == u;
        }
      }
      assert MatchingUsers(codecs, rest, UuidId, users[0].uuid) == [];
    } else {
      assert UniqueUuids(rest) by {
        forall a, b | 0 <= a < b < |rest| ensures rest[a].uuid != rest[b].uuid {
          assert rest[a] == users[a + 1] && rest[b] == users[b + 1];
        }
      }
      assert rest[i - 1] == users[i];
      MatchingUniqueUuid(codecs, rest, i - 1);
    }
  }

  /** Looking an existing user up by uuid finds exactly that user. */
  lemma LookupByUuidFindsTheUser(codecs: Codecs, users: seq<User>, i: nat)
    requires UniqueUuids(users) && i < |users|
    ensures GetUserFromUserbase(codecs, users, "uuid", users[i].uuid) == Some(users[i])
  {
    MatchingUniqueUuid(codecs, users, i);
  }

  // ---------------------------------------------------------------------
  // check_uniqueness_of_email_and_or_username

  predicate EmailTaken(users: seq<User>, email: string) {
    exists u :: u in users && u.email == email
  }

  predicate UsernameTaken(users: seq<User>, username: string) {
    exists u :: u in users && u.username == username
  }

  /**
   * The uniqueness check: (False, None) when neither field is given;
   * otherwise the list of clashing fields, "email" before "username", the
   * email compared as given and the username compared hashed. An empty
   * string counts as not given.
   */
  method CheckUniqueness(codecs: Codecs, users: seq<User>, email: Option<string>, username: Option<string>)
    returns (unique: bool, reasons: Option<seq<string>>)
    ensures email.None? && username.None? ==> !unique && reasons.None?
    ensures !(email.None? && username.None?) ==> (unique <==> reasons.None?)
    ensures reasons.Some? ==> reasons.value == ["email"] || reasons.value == ["username"] || reasons.value == ["email", "username"]
    ensures reasons.Some? ==> ("email" in reasons.value <==> email.Some? && email.value != "" && EmailTaken(users, email.value))
    ensures reasons.Some? ==> ("username" in reasons.value <==>
      username.Some? && username.value != "" && UsernameTaken(users, codecs.encodeUsername(username.value)))
    ensures unique ==> !(email.Some? && email.value != "" && EmailTaken(users, email.value))
    ensures unique ==> !(username.Some? && username.value != "" && UsernameTaken(users, codecs.encodeUsername(username.value)))
    ensures !unique && !(email.None? && username.None?) ==>
      (email.Some? && email.value != "" && EmailTaken(users, email.value))
      || (username.Some? && username.value != "" && UsernameTaken(users, codecs.encodeUsername(username.value)))
  {
    if email.None? && username.None? {
      return false, None;
    }
    var notUnique: seq<string> := [];
    if email.Some? && email.value != "" {
      if EmailTaken(users, email.value) {
        notUnique := notUnique + ["email"];
      }
    }
    assert notUnique == [] || notUnique == ["email"];
    if username.Some? && username.value != "" {
      if UsernameTaken(users, codecs.encodeUsername(username.value)) {
        notUnique := notUnique + ["username"];
      }
    }
    if notUnique != [] {
      return false, Some(notUnique);
    }
    return true, None;
  }

  // ---------------------------------------------------------------------
  // password_matches

  /** False when the lookup finds no user, otherwise whether the stored hash is the hash of `password`. */
  function PasswordMatches(codecs: Codecs, users: seq<User>, identifier: string, identifierValue: string, password: string): (r: bool)
    ensures r ==> GetUserFromUserbase(codecs, users, identifier, identifierValue).Some?
    ensures r <==> (exists u :: (GetUserFromUserbase(codecs, users, identifier, identifierValue) == Some(u)
                                 && u.password == codecs.encodePassword(password)))
  {
    match GetUserFromUserbase(codecs, users, identifier, identifierValue)
    case None => false
    case Some(u) => u.password == codecs.encodePassword(password)
  }

  /** A user whose row stores the hash of `password` is recognised by uuid with that password. */
  lemma StoredPasswordMatches(codecs: Codecs, users: seq<User>, i: nat, password: string)
    requires UniqueUuids(users) && i < |users|
    requires users[i].password == codecs.encodePassword(password)
    ensures PasswordMatches(codecs, users, "uuid", users[i].uuid, password)
  {
    LookupByUuidFindsTheUser(codecs, users, i);
  }

  // ---------------------------------------------------------------------
  // delete_user_data_from_database

  /** The exception that escapes when the database name is unknown (`session` is unbound in `finally`). */
  datatype DeleteError = UnboundLocalError

  /** The rows of the userbase that survive `DELETE WHERE uuid = uuid`, in order. */
  function WithoutUser(users: seq<User>, uuid: string): (r: seq<User>)
    ensures forall u :: u in r <==> u in users && u.uuid != uuid
    ensures |r| <= |users|
  {
    if users == [] then []
    else
      var rest := WithoutUser(users[1..], uuid);
      if users[0].uuid == uuid then rest else [users[0]] + rest
  }

  /** The database a name selects for the table branch, after lower-casing. */
  function DynamicDbOfName(name: string): (r: Option<DynamicDb>)
    ensures r == Some(TransactionsDb) <==> Lower(name) == "transactions"
    ensures r == Some(PortfoliosDb) <==> Lower(name) == "portfolios"
  {
    var n := Lower(name);
    if n == "transactions" then Some(TransactionsDb)
    else if n == "portfolios" then Some(PortfoliosDb)
    else None
  }

  /**
   * The effect of the deletion and its result. For "userbase" (compared
   * exactly) the user's row goes. For a name whose lower-case form is a
   * per-user database, every row of the user's table goes, the table itself
   * stays, and a missing table gives False. Any other name raises.
   */
  function Deleted(s: DbState, uuid: string, databaseName: string): (r: (DbState, Result<bool, DeleteError>))
  {
    if databaseName == "userbase" then (s.(userbase := WithoutUser(s.userbase, uuid)), Success(true))
    else
      match DynamicDbOfName(databaseName)
      case None => (s, Failure(UnboundLocalError))
      case Some(db) =>
        var tables := s.Tables(db);
        if uuid in tables then (s.WithTables(db, tables[uuid := map[]]), Success(true))
        else (s, Success(false))
  }

  method DeleteUserData(db: Databases, uuid: string, databaseName: string) returns (r: Result<bool, DeleteError>)
    modifies db
    ensures (db.State(), r) == Deleted(old(db.State()), uuid, databaseName)
  {
    if databaseName == "userbase" {
      db.SetUserbase(WithoutUser(db.userbase, uuid));
      return Success(true);
    }
    var which := DynamicDbOfName(databaseName);
    if which.None? {
      return Failure(UnboundLocalError);
    }
    var tables := db.State().Tables(which.value);
    if uuid !in tables {
      return Success(false);
    }
    db.SetTables(which.value, tables[uuid := map[]]);
    return Success(true);
  }

  /**
   * Deleting from the userbase removes exactly that user's rows; deleting
   * from a per-user database empties only that user's table; a missing
   * table or an unknown name changes nothing.
   */
  lemma DeletedTouchesOnlyThatUser(s: DbState, uuid: string, databaseName: string)
    ensures var (s', r) := Deleted(s, uuid, databaseName);
      && (databaseName == "userbase" ==>
            r == Success(true) && s'.transactions == s.transactions && s'.portfolios == s.portfolios
            && (forall u :: u in s'.userbase <==> u in s.userbase && u.uuid != uuid))
      && (databaseName != "userbase" && DynamicDbOfName(databaseName).Some? ==>
            var db := DynamicDbOfName(databaseName).value;
            s'.userbase == s.userbase
            && s'.Tables(db).Keys == s.Tables(db).Keys
            && (uuid in s.Tables(db) <==> r == Success(true))
            && (uuid in s.Tables(db) ==> s'.Tables(db)[uuid] == map[])
            && (forall n :: n in s.Tables(db) && n != uuid ==> s'.Tables(db)[n] == s.Tables(db)[n]))
      && (r != Success(true) ==> s' == s)
  {
  }
}
