/** backend/api/helpers/user_helper.py: accounts, passwords and logins. */
module UserModel {

  import opened Outcomes
  import opened Text
  import opened Tables
  import opened Models

  /** The role a user gets when none is given (the column default). */
  const DefaultRole: UserRole := UserRole.Donor

  /** No two users share a username, and no two share an email. */
  ghost predicate Unique(t: Table<User>) {
    forall i, j :: i in t.rows && j in t.rows && i != j ==>
      t.rows[i].username != t.rows[j].username && t.rows[i].email != t.rows[j].email
  }

  /** Storing `u` under key `id` would break a unique constraint. */
  predicate Clashes(t: Table<User>, id: Id, u: User) {
    exists k :: k in t.rows && k != id && (t.rows[k].username == u.username || t.rows[k].email == u.email)
  }

  lemma PutKeepsUnique(t: Table<User>, id: Id, u: User)
    requires Unique(t) && !Clashes(t, id, u)
    ensures Unique(Table(t.rows[id := u], t.next))
  {
  }

  /** `if role:` — an empty or missing role leaves the default. */
  function RoleArg(role: Option<string>): Result<UserRole> {
    if role.None? || role.value == "" then Ok(DefaultRole)
    else match ParseUserRole(role.value)
      case None => Err(ValueError(NotAMember(role.value, "UserRole")))
      case Some(r) => Ok(r)
  }

  const DuplicateOnCreate: string := "User with username or email already exists."

  function CreateUser(t: Table<User>, kdf: Kdf, salt: nat, username: string, password: string, email: string,
                      role: Option<string>, profileImage: Option<string>, commit: Commit)
    : (r: Outcome<Result<Row<User>>, Table<User>>)
    ensures r.reply.Err? ==> r.state == t
    ensures RoleArg(role).Err? ==> r.reply == Err(RoleArg(role).error)
    // the password is hashed before anything is stored: bcrypt refuses an empty one
    ensures RoleArg(role).Ok? && password == "" ==> r.reply == Err(ValueError(EmptyPassword))
    // a username or email already in use is rejected and nothing is stored
    ensures (&& Tables.Valid(t) && RoleArg(role).Ok? && password != ""
             && (exists k :: k in t.rows && (t.rows[k].username == username || t.rows[k].email == email))) ==>
      r.reply == Err(ValueError(DuplicateOnCreate))
    ensures r.reply.Ok? ==>
      && RoleArg(role).Ok? && password != "" && commit == Committed && |email| <= 255
      && r.reply.value.id == t.next
      && r.reply.value.rec == User(username, email, SetPasswordHash(kdf, salt, password).value, RoleArg(role).value, profileImage)
      && r.state == Table(t.rows[t.next := r.reply.value.rec], t.next + 1)
    ensures (&& RoleArg(role).Ok? && password != "" && commit == Committed && |email| <= 255
             && (forall k :: k in t.rows ==> t.rows[k].username != username && t.rows[k].email != email)) ==> r.reply.Ok?
    ensures Tables.Valid(t) ==> Tables.Valid(r.state)
    ensures Tables.Valid(t) && Unique(t) ==> Unique(r.state)
  {
    match RoleArg(role)
    case Err(e) => Outcome(Err(e), t)
    case Ok(rl) =>
      match SetPasswordHash(kdf, salt, password)
      case Err(e) => Outcome(Err(e), t)
      case Ok(h) =>
        var u := User(username, email, h, rl, profileImage);
        if Clashes(t, t.next, u) || commit == IntegrityViolation then Outcome(Err(ValueError(DuplicateOnCreate)), t)
        else if commit == StoreFailure || !StorableUser(u) then Outcome(Err(RuntimeError("Could not create a new user:")), t)
        else
          assert commit == Committed;
          var (t', id) := Insert(t, u);
          Outcome(Ok(Row(id, u)), t')
  }

  function ChangePassword(t: Table<User>, kdf: Kdf, salt: nat, id: Id, newPassword: string, commit: Commit)
    : (r: Outcome<Result<(string, Id)>, Table<User>>)
    ensures r.reply.Err? ==> r.state == t
    ensures id !in t.rows ==> r.reply == Err(ValueError("User not found."))
    ensures id in t.rows && newPassword == "" ==> r.reply == Err(ValueError(EmptyPassword))
    ensures r.reply.Ok? <==> id in t.rows && newPassword != "" && commit == Committed
    ensures r.reply.Ok? ==>
      && r.reply.value == ("Password updated successfully", id)
      && r.state == Table(t.rows[id := t.rows[id].(passwordHash := SetPasswordHash(kdf, salt, newPassword).value)], t.next)
    ensures Unique(t) ==> Unique(r.state)
  {
    if id !in t.rows then Outcome(Err(ValueError("User not found.")), t)
    else match SetPasswordHash(kdf, salt, newPassword)
      case Err(e) => Outcome(Err(e), t)
      case Ok(h) =>
        if commit != Committed then Outcome(Err(RuntimeError("Could not change the password")), t)
        else Outcome(Ok(("Password updated successfully", id)), Put(t, id, t.rows[id].(passwordHash := h)))
  }

  // ---------------------------------------------------------------------
  // Lookups

  /** `username.ilike('%k%') | email.ilike('%k%')`. */
  predicate KeywordMatches(u: User, keyword: string) {
    ILike(u.username, Surround(keyword)) || ILike(u.email, Surround(keyword))
  }

  function SearchUsers(t: Table<User>, keyword: string): (r: seq<Row<User>>)
    ensures forall i :: 0 <= i < |r| ==> r[i].id in t.rows && t.rows[r[i].id] == r[i].rec && KeywordMatches(r[i].rec, keyword)
    ensures Tables.Valid(t) ==> forall id :: id in t.rows && KeywordMatches(t.rows[id], keyword) ==> Row(id, t.rows[id]) in r
  {
    Select(t, (u: User) => KeywordMatches(u, keyword))
  }

  /** For a keyword without LIKE wildcards: exactly the users whose username or
      email contains it, ignoring case. */
  lemma SearchUsersIsSubstring(t: Table<User>, keyword: string)
    requires Tables.Valid(t) && NoWildcards(keyword)
    ensures forall i :: 0 <= i < |SearchUsers(t, keyword)| ==>
      var u := SearchUsers(t, keyword)[i].rec;
      Contains(Lower(u.username), Lower(keyword)) || Contains(Lower(u.email), Lower(keyword))
    ensures forall id :: (id in t.rows &&
      (Contains(Lower(t.rows[id].username), Lower(keyword)) || Contains(Lower(t.rows[id].email), Lower(keyword)))) ==>
      Row(id, t.rows[id]) in SearchUsers(t, keyword)
  {
    var r := SearchUsers(t, keyword);
    forall i | 0 <= i < |r|
      ensures Contains(Lower(r[i].rec.username), Lower(keyword)) || Contains(Lower(r[i].rec.email), Lower(keyword))
    {
      ILikeSurroundIsContains(r[i].rec.username, keyword);
      ILikeSurroundIsContains(r[i].rec.email, keyword);
    }
    forall id | id in t.rows &&
      (Contains(Lower(t.rows[id].username), Lower(keyword)) || Contains(Lower(t.rows[id].email), Lower(keyword)))
      ensures Row(id, t.rows[id]) in r
    {
      ILikeSurroundIsContains(t.rows[id].username, keyword);
      ILikeSurroundIsContains(t.rows[id].email, keyword);
    }
  }

  function GetAllUsers(t: Table<User>): (r: seq<Row<User>>)
    ensures forall i :: 0 <= i < |r| ==> r[i].id in t.rows && t.rows[r[i].id] == r[i].rec
    ensures Tables.Valid(t) ==> forall id :: id in t.rows ==> Row(id, t.rows[id]) in r
  {
    Select(t, All<User>)
  }

  function GetUserByUsername(t: Table<User>, username: string): (r: Option<Row<User>>)
    ensures r.Some? ==> r.value.id in t.rows && t.rows[r.value.id] == r.value.rec && r.value.rec.username == username
    ensures Tables.Valid(t) ==> (r.None? <==> forall id :: id in t.rows ==> t.rows[id].username != username)
  {
    First(t, (u: User) => u.username == username)
  }

  function GetUserByEmail(t: Table<User>, email: string): (r: Option<Row<User>>)
    ensures r.Some? ==> r.value.id in t.rows && t.rows[r.value.id] == r.value.rec && r.value.rec.email == email
    ensures Tables.Valid(t) ==> (r.None? <==> forall id :: id in t.rows ==> t.rows[id].email != email)
  {
    First(t, (u: User) => u.email == email)
  }

  function ViewUser(t: Table<User>, id: Id): (r: Result<Row<User>>)
    ensures r.Ok? <==> id in t.rows
    ensures r.Ok? ==> r.value == Row(id, t.rows[id])
    ensures r.Err? ==> r.error == ValueError("User not found.")
  {
    if id in t.rows then Ok(Row(id, t.rows[id])) else Err(ValueError("User not found."))
  }

  // ---------------------------------------------------------------------
  // checkLoginCredentials

  const BadLogin: string := "Incorrect username/email or password"

  predicate Identifies(u: User, identifier: string) { u.username == identifier || u.email == identifier }

  function CheckLoginCredentials(t: Table<User>, kdf: Kdf, identifier: string, password: string): (r: Result<Row<User>>)
    // one error for both failures
    ensures r.Err? ==> r.error == ValueError(BadLogin)
    ensures r.Ok? ==>
      && r.value.id in t.rows && t.rows[r.value.id] == r.value.rec
      && Identifies(r.value.rec, identifier) && CheckHashedPassword(kdf, r.value.rec.passwordHash, password)
    ensures Tables.Valid(t) && (forall id :: id in t.rows ==> !Identifies(t.rows[id], identifier)) ==> r.Err?
  {
    match First(t, (u: User) => Identifies(u, identifier))
    case None => Err(ValueError(BadLogin))
    case Some(row) =>
      if !CheckHashedPassword(kdf, row.rec.passwordHash, password) then Err(ValueError(BadLogin))
      else Ok(row)
  }

  /** The only user `identifier` can name is `id`. */
  ghost predicate NamesOnly(t: Table<User>, identifier: string, id: Id) {
    id in t.rows && Identifies(t.rows[id], identifier) &&
    forall k :: k in t.rows && k != id ==> !Identifies(t.rows[k], identifier)
  }

  lemma LoginOfNamedUser(t: Table<User>, kdf: Kdf, identifier: string, password: string, id: Id)
    requires Tables.Valid(t) && NamesOnly(t, identifier, id)
    ensures CheckLoginCredentials(t, kdf, identifier, password).Ok? <==> CheckHashedPassword(kdf, t.rows[id].passwordHash, password)
    ensures CheckLoginCredentials(t, kdf, identifier, password).Ok? ==> CheckLoginCredentials(t, kdf, identifier, password).value.id == id
  {
  }

  /** After create_user, logging in with the new username (or email) and the
      password succeeds, provided no older user has that string in the other
      field; another password fails when the derivation is injective. */
  lemma LoginAfterCreate(t: Table<User>, kdf: Kdf, salt: nat, username: string, password: string, email: string,
                         role: Option<string>, profileImage: Option<string>, identifier: string, other: string)
    requires Tables.Valid(t) && Unique(t)
    requires CreateUser(t, kdf, salt, username, password, email, role, profileImage, Committed).reply.Ok?
    requires identifier == username || identifier == email
    requires forall k :: k in t.rows ==> !Identifies(t.rows[k], identifier)
    ensures var t' := CreateUser(t, kdf, salt, username, password, email, role, profileImage, Committed).state;
      && CheckLoginCredentials(t', kdf, identifier, password).Ok?
      && CheckLoginCredentials(t', kdf, identifier, password).value.id == t.next
      && (Injective(kdf) && other != password ==> CheckLoginCredentials(t', kdf, identifier, other).Err?)
  {
    var t' := CreateUser(t, kdf, salt, username, password, email, role, profileImage, Committed).state;
    assert NamesOnly(t', identifier, t.next);
    LoginOfNamedUser(t', kdf, identifier, password, t.next);
    LoginOfNamedUser(t', kdf, identifier, other, t.next);
  }

  /** After change_password, logging in as that user with the new password
      succeeds, and with any other password fails for an injective
      derivation. */
  lemma LoginAfterChangePassword(t: Table<User>, kdf: Kdf, salt: nat, id: Id, newPassword: string, identifier: string, other: string)
    requires Tables.Valid(t) && NamesOnly(t, identifier, id)
    requires newPassword != ""
    ensures var t' := ChangePassword(t, kdf, salt, id, newPassword, Committed).state;
      && CheckLoginCredentials(t', kdf, identifier, newPassword).Ok?
      && CheckLoginCredentials(t', kdf, identifier, newPassword).value.id == id
      && (Injective(kdf) && other != newPassword ==> CheckLoginCredentials(t', kdf, identifier, other).Err?)
  {
    var t' := ChangePassword(t, kdf, salt, id, newPassword, Committed).state;
    assert NamesOnly(t', identifier, id);
    LoginOfNamedUser(t', kdf, identifier, newPassword, id);
    LoginOfNamedUser(t', kdf, identifier, other, id);
  }

  /** A username equal to an older user's email makes the login pick the
      older user: the lookup matches either column and takes the first row. */
  lemma CrossFieldCollision(kdf: Kdf)
    requires kdf(0, "b") != kdf(0, "a")
    ensures var t := Table(map[1 := User("alice", "bob", PasswordHash(0, kdf(0, "a")), UserRole.Donor, None),
                               2 := User("bob", "bob@x", PasswordHash(1, kdf(1, "b")), UserRole.Donor, None)], 3);
      Unique(t) && CheckLoginCredentials(t, kdf, "bob", "b").Err?
  {
    var t := Table(map[1 := User("alice", "bob", PasswordHash(0, kdf(0, "a")), UserRole.Donor, None),
                       2 := User("bob", "bob@x", PasswordHash(1, kdf(1, "b")), UserRole.Donor, None)], 3);
    var first := First(t, (u: User) => Identifies(u, "bob"));
    assert Identifies(t.rows[1], "bob");
    assert first.Some? && first.value.id <= 1;
    assert first.value.id == 1;
  }

  // ---------------------------------------------------------------------
  // update_user

  datatype UserKwarg =
    | Email(email: string)
    | Username(username: string)
    | Role(role: string)
    | ProfileImage(image: Option<string>)
    | Other(key: string)

  /** One pass of the loop: a role must name a UserRole member. */
  function ApplyKwarg(u: User, kw: UserKwarg): Result<User> {
    match kw
    case Email(e) => Ok(u.(email := e))
    case Username(n) => Ok(u.(username := n))
    case Role(v) =>
      (match ParseUserRole(v)
       case None => Err(ValueError(NotAMember(v, "UserRole")))
       case Some(rl) => Ok(u.(role := rl)))
    case ProfileImage(img) => Ok(u.(profileImage := img))
    case Other(_) => Ok(u)
  }

  function ApplyKwargs(u: User, kwargs: seq<UserKwarg>): Result<User>
    decreases |kwargs|
  {
    if kwargs == [] then Ok(u)
    else match ApplyKwarg(u, kwargs[0])
      case Err(e) => Err(e)
      case Ok(u') => ApplyKwargs(u', kwargs[1..])
  }

  /** The loop never touches the password hash, and fails exactly when some
      role names no member. */
  lemma {:induction false} ApplyKwargsKeepsPassword(u: User, kwargs: seq<UserKwarg>)
    ensures ApplyKwargs(u, kwargs).Ok? ==> ApplyKwargs(u, kwargs).value.passwordHash == u.passwordHash
    ensures ApplyKwargs(u, kwargs).Err? <==> exists i :: 0 <= i < |kwargs| && kwargs[i].Role? && ParseUserRole(kwargs[i].role).None?
    decreases |kwargs|
  {
    if kwargs != [] {
      var rest := kwargs[1..];
      assert forall i :: 0 <= i < |rest| ==> rest[i] == kwargs[i + 1];
      match ApplyKwarg(u, kwargs[0])
      case Err(_) =>
      case Ok(u') =>
        ApplyKwargsKeepsPassword(u', rest);
        if exists i :: 0 <= i < |kwargs| && kwargs[i].Role? && ParseUserRole(kwargs[i].role).None? {
          var i :| 0 <= i < |kwargs| && kwargs[i].Role? && ParseUserRole(kwargs[i].role).None?;
          assert i != 0;
          assert rest[i - 1] == kwargs[i];
        }
    }
  }

  /** Without keyword arguments for a field, the field keeps its value. */
  lemma {:induction false} ApplyKwargsUntouched(u: User, kwargs: seq<UserKwarg>)
    requires ApplyKwargs(u, kwargs).Ok?
    ensures (forall i :: 0 <= i < |kwargs| ==> !kwargs[i].Email?) ==> ApplyKwargs(u, kwargs).value.email == u.email
    ensures (forall i :: 0 <= i < |kwargs| ==> !kwargs[i].Username?) ==> ApplyKwargs(u, kwargs).value.username == u.username
    ensures (forall i :: 0 <= i < |kwargs| ==> !kwargs[i].Role?) ==> ApplyKwargs(u, kwargs).value.role == u.role
    ensures (forall i :: 0 <= i < |kwargs| ==> !kwargs[i].ProfileImage?) ==> ApplyKwargs(u, kwargs).value.profileImage == u.profileImage
    decreases |kwargs|
  {
    if kwargs != [] {
      var rest := kwargs[1..];
      assert forall i :: 0 <= i < |rest| ==> rest[i] == kwargs[i + 1];
      ApplyKwargsUntouched(ApplyKwarg(u, kwargs[0]).value, rest);
    }
  }

  const DuplicateOnUpdate: string := "User with email or username already exists."

  function UpdateUser(t: Table<User>, id: Id, kwargs: seq<UserKwarg>, commit: Commit)
    : (r: Outcome<Result<Row<User>>, Table<User>>)
    ensures r.reply.Err? ==> r.state == t
    ensures id !in t.rows ==> r.reply == Err(ValueError("User not found."))
    ensures id in t.rows && ApplyKwargs(t.rows[id], kwargs).Err? ==> r.reply == Err(ApplyKwargs(t.rows[id], kwargs).error)
    // a change that would duplicate another user's username or email is rejected
    ensures id in t.rows && ApplyKwargs(t.rows[id], kwargs).Ok? && Clashes(t, id, ApplyKwargs(t.rows[id], kwargs).value) ==>
      r.reply == Err(ValueError(DuplicateOnUpdate))
    ensures r.reply.Ok? <==>
      && id in t.rows && ApplyKwargs(t.rows[id], kwargs).Ok? && commit == Committed
      && !Clashes(t, id, ApplyKwargs(t.rows[id], kwargs).value) && StorableUser(ApplyKwargs(t.rows[id], kwargs).value)
    ensures r.reply.Ok? ==>
      var u := ApplyKwargs(t.rows[id], kwargs).value;
      r.reply.value == Row(id, u) && r.state == Table(t.rows[id := u], t.next) && u.passwordHash == t.rows[id].passwordHash
    ensures Tables.Valid(t) ==> Tables.Valid(r.state)
    ensures Unique(t) ==> Unique(r.state)
  {
    if id !in t.rows then Outcome(Err(ValueError("User not found.")), t)
    else match ApplyKwargs(t.rows[id], kwargs)
      case Err(e) => Outcome(Err(e), t)
      case Ok(u) =>
        if Clashes(t, id, u) || commit == IntegrityViolation then Outcome(Err(ValueError(DuplicateOnUpdate)), t)
        else if commit == StoreFailure || !StorableUser(u) then Outcome(Err(RuntimeError("Could not update the user")), t)
        else
          ApplyKwargsKeepsPassword(t.rows[id], kwargs);
          assert commit == Committed;
          Outcome(Ok(Row(id, u)), Put(t, id, u))
  }

  // ---------------------------------------------------------------------
  // delete_user, delete_all_users

  /** The user table and the like relation that `delete_user` also clears. */
  datatype UserTables = UserTables(users: Table<User>, likes: set<Like>)

  function DeleteUser(s: UserTables, id: Id, commit: Commit): (r: Outcome<Result<Id>, UserTables>)
    ensures r.reply.Err? ==> r.state == s
    ensures id !in s.users.rows ==> r.reply == Err(ValueError("No user found."))
    ensures r.reply.Ok? <==> id in s.users.rows && commit == Committed
    ensures r.reply.Ok? ==>
      && r.reply.value == id
      && r.state.users.next == s.users.next && r.state.users.rows.Keys == s.users.rows.Keys - {id}
      && (forall k :: k in r.state.users.rows ==> r.state.users.rows[k] == s.users.rows[k])
      && r.state.likes == set l | l in s.likes && l.userId != id
    ensures Unique(s.users) ==> Unique(r.state.users)
  {
    if id !in s.users.rows then Outcome(Err(ValueError("No user found.")), s)
    else if commit != Committed then Outcome(Err(RuntimeError("Could not delete user with id " + IntToString(id))), s)
    else Outcome(Ok(id), UserTables(Remove(s.users, id), set l | l in s.likes && l.userId != id))
  }

  /** `query(Users).delete()`: every row goes and the count is reported. */
  function DeleteAllUsers(t: Table<User>, commit: Commit): (r: Outcome<Result<string>, Table<User>>)
    ensures r.reply.Err? ==> r.state == t && commit != Committed
    ensures commit == Committed ==>
      r.reply == Ok("Successfully deleted " + NatToString(|t.rows|) + " users") && r.state.rows == map[] && r.state.next == t.next
    ensures Tables.Valid(t) ==> Tables.Valid(r.state)
  {
    if commit != Committed then Outcome(Err(RuntimeError("Could not delete all users")), t)
    else Outcome(Ok("Successfully deleted " + NatToString(|t.rows|) + " users"), Table(map[], t.next))
  }
}

/** The user helpers as methods on the shared database. */
module UserHelper {

  import opened Outcomes
  import opened Text
  import opened Tables
  import opened Models
  import opened Database
  import M = UserModel

  method CreateUser(db: Db, kdf: Kdf, salt: nat, username: string, password: string, email: string,
                    role: Option<string>, profileImage: Option<string>, commit: Commit)
    returns (r: Result<Row<User>>)
    requires db.Valid()
    modifies db`users
    ensures db.Valid()
    ensures Outcome(r, db.users) == M.CreateUser(old(db.users), kdf, salt, username, password, email, role, profileImage, commit)
  {
    var role' := M.RoleArg(role);
    if role'.Err? {
      return Err(role'.error);
    }
    var hash := SetPasswordHash(kdf, salt, password);
    if hash.Err? {
      return Err(hash.error);
    }
    var user := User(username, email, hash.value, role'.value, profileImage);
    var id := db.users.next;
    if M.Clashes(db.users, id, user) || commit == IntegrityViolation {
      return Err(ValueError(M.DuplicateOnCreate));
    }
    if commit == StoreFailure || !StorableUser(user) {
      return Err(RuntimeError("Could not create a new user:"));
    }
    db.users := Table(db.users.rows[id := user], id + 1);
    r := Ok(Row(id, user));
  }

  method ChangePassword(db: Db, kdf: Kdf, salt: nat, id: Id, newPassword: string, commit: Commit)
    returns (r: Result<(string, Id)>)
    requires db.Valid()
    modifies db`users
    ensures db.Valid()
    ensures Outcome(r, db.users) == M.ChangePassword(old(db.users), kdf, salt, id, newPassword, commit)
  {
    if id !in db.users.rows {
      return Err(ValueError("User not found."));
    }
    var hash := SetPasswordHash(kdf, salt, newPassword);
    if hash.Err? {
      return Err(hash.error);
    }
    if commit != Committed {
      return Err(RuntimeError("Could not change the password"));
    }
    var user := db.users.rows[id].(passwordHash := hash.value);
    db.users := Put(db.users, id, user);
    r := Ok(("Password updated successfully", id));
  }

  /** The `for field, value in kwargs.items()` loop of update_user. */
  method ApplyUserKwargs(user: User, kwargs: seq<M.UserKwarg>) returns (r: Result<User>)
    ensures r == M.ApplyKwargs(user, kwargs)
  {
    var current := user;
    var i := 0;
    while i < |kwargs|
      invariant 0 <= i <= |kwargs|
      invariant M.ApplyKwargs(current, kwargs[i..]) == M.ApplyKwargs(user, kwargs)
    {
      assert kwargs[i..][0] == kwargs[i] && kwargs[i..][1..] == kwargs[i + 1..];
      match kwargs[i] {
        case Email(e) => current := current.(email := e);
        case Username(n) => current := current.(username := n);
        case Role(v) =>
          var role := ParseUserRole(v);
          if role.None? {
            return Err(ValueError(NotAMember(v, "UserRole")));
          }
          current := current.(role := role.value);
        case ProfileImage(img) => current := current.(profileImage := img);
        case Other(_) =>
      }
      i := i + 1;
    }
    r := Ok(current);
  }

  method UpdateUser(db: Db, id: Id, kwargs: seq<M.UserKwarg>, commit: Commit) returns (r: Result<Row<User>>)
    requires db.Valid()
    modifies db`users
    ensures db.Valid()
    ensures Outcome(r, db.users) == M.UpdateUser(old(db.users), id, kwargs, commit)
  {
    if id !in db.users.rows {
      return Err(ValueError("User not found."));
    }
    var edited := ApplyUserKwargs(db.users.rows[id], kwargs);
    if edited.Err? {
      return Err(edited.error);
    }
    var user := edited.value;
    if M.Clashes(db.users, id, user) || commit == IntegrityViolation {
      return Err(ValueError(M.DuplicateOnUpdate));
    }
    if commit == StoreFailure || !StorableUser(user) {
      return Err(RuntimeError("Could not update the user"));
    }
    db.users := Put(db.users, id, user);
    r := Ok(Row(id, user));
  }

  method DeleteUser(db: Db, id: Id, commit: Commit) returns (r: Result<Id>)
    requires db.Valid()
    modifies db`users, db`likes
    ensures db.Valid()
    ensures Outcome(r, M.UserTables(db.users, db.likes)) == M.DeleteUser(M.UserTables(old(db.users), old(db.likes)), id, commit)
  {
    if id !in db.users.rows {
      return Err(ValueError("No user found."));
    }
    if commit != Committed {
      return Err(RuntimeError("Could not delete user with id " + IntToString(id)));
    }
    db.users := Remove(db.users, id);
    db.likes := set l | l in db.likes && l.userId != id;
    r := Ok(id);
  }

  method DeleteAllUsers(db: Db, commit: Commit) returns (r: Result<string>)
    requires db.Valid()
    modifies db`users
    ensures db.Valid()
    ensures Outcome(r, db.users) == M.DeleteAllUsers(old(db.users), commit)
  {
    if commit != Committed {
      return Err(RuntimeError("Could not delete all users"));
    }
    var deleted := |db.users.rows|;
    db.users := Table(map[], db.users.next);
    r := Ok("Successfully deleted " + NatToString(deleted) + " users");
  }
}
