/** UserRepository: the user table's statements. Insert classifies the driver's error by
    looking for the name of the email constraint in its message. */
module UserRepo {
  import opened Base
  import opened Domain
  import opened Store
  import opened Strconv
  import Text

  const ErrDuplicateEmail := Text("email already exists")
  const ErrUserNotFound := Text("user not found")

  /** Some stored user has that email. */
  predicate EmailTaken(users: map<string, UserRow>, email: string)
  {
    exists key :: key in users && users[key].email == email
  }

  /** The driver's unique-violation message names the email constraint. */
  lemma DuplicateNamesEmailKey()
    ensures Text.Contains(Message(UniqueViolation(UserEmailKey)), UserEmailKey)
  {
    var prefix := "pq: duplicate key value violates unique constraint \"";
    var message := Message(UniqueViolation(UserEmailKey));
    assert message == prefix + UserEmailKey + "\"";
    assert message[|prefix|..|prefix| + |UserEmailKey|] == UserEmailKey;
    assert Text.OccursAt(message, UserEmailKey, |prefix|);
  }

  /** The connection error's message does not name the email constraint. */
  lemma ConnDoneNamesNoEmailKey()
    ensures !Text.Contains(Message(ErrConnDone), UserEmailKey)
  {
    assert UserEmailKey[4] == '_';
    Text.MissingCharacterRulesOut(Message(ErrConnDone), UserEmailKey, '_');
  }

  class UserRepository {
    const db: Database

    constructor (db: Database)
      ensures this.db == db
    {
      this.db := db;
    }

    /** The INSERT statement: the driver's error, or the row under a fresh id. */
    method InsertRow(user: User, now: Time) returns (failure: Option<Error>)
      requires db.Valid()
      modifies db`users, db`nextUserKey
      ensures db.Valid()
      ensures !db.connected ==> failure == Some(ErrConnDone) && unchanged(db)
      ensures db.connected && EmailTaken(old(db.users), user.email) ==>
        failure == Some(UniqueViolation(UserEmailKey)) && unchanged(db)
      ensures db.connected && !EmailTaken(old(db.users), user.email) ==>
        && failure.None?
        && var key := Decimal(old(db.nextUserKey));
        && key !in old(db.users)
        && db.users == old(db.users)[key := UserRow(user.email, user.name, user.surname, user.passwordHash, now)]
        && EmailTaken(db.users, user.email)
    {
      if !db.connected {
        return Some(ErrConnDone);
      }
      if EmailTaken(db.users, user.email) {
        return Some(UniqueViolation(UserEmailKey));
      }
      var key := Decimal(db.nextUserKey);
      var row := UserRow(user.email, user.name, user.surname, user.passwordHash, now);
      FreshKeysStayFresh(db.users, db.nextUserKey, db.nextUserKey, row);
      db.users := db.users[key := row];
      db.nextUserKey := db.nextUserKey + 1;
      assert db.users[key].email == user.email;
      return None;
    }

    /** Inserts email, names and password hash under a fresh id; an email already stored
        violates user_email_key, which is reported as ErrDuplicateEmail. The id is not written
        back into the user. */
    method Insert(user: User, now: Time) returns (err: Option<Error>)
      requires db.Valid()
      modifies db`users, db`nextUserKey
      ensures db.Valid()
      ensures !db.connected ==> err == Some(ErrConnDone) && unchanged(db)
      ensures db.connected && EmailTaken(old(db.users), user.email) ==> err == Some(ErrDuplicateEmail) && unchanged(db)
      ensures db.connected && !EmailTaken(old(db.users), user.email) ==>
        && err.None?
        && var key := Decimal(old(db.nextUserKey));
        && key !in old(db.users)
        && db.users == old(db.users)[key := UserRow(user.email, user.name, user.surname, user.passwordHash, now)]
        && EmailTaken(db.users, user.email)
    {
      var failure := InsertRow(user, now);
      match failure {
        case None => return None;
        case Some(e) =>
          DuplicateNamesEmailKey();
          ConnDoneNamesNoEmailKey();
          if Text.Contains(Message(e), UserEmailKey) {
            return Some(ErrDuplicateEmail);
          }
          return failure;
      }
    }

    /** Sets first_name and surname of the row with the user's id and copies the row's id,
        names and email back into the user; sql.ErrNoRows when there is no such row. */
    method Update(user: User) returns (err: Option<Error>)
      requires db.Valid()
      modifies user`email, db`users
      ensures db.Valid()
      ensures !db.connected ==> err == Some(ErrConnDone) && unchanged(db) && unchanged(user)
      ensures db.connected && user.id !in old(db.users) ==> err == Some(ErrNoRows) && unchanged(db) && unchanged(user)
      ensures db.connected && user.id in old(db.users) ==>
        && err.None?
        && db.users == old(db.users)[user.id := old(db.users[user.id]).(firstName := user.name, surname := user.surname)]
        && user.email == old(db.users[user.id].email)
    {
      if !db.connected {
        return Some(ErrConnDone);
      }
      if user.id !in db.users {
        return Some(ErrNoRows);
      }
      var row := db.users[user.id].(firstName := user.name, surname := user.surname);
      db.users := db.users[user.id := row];
      user.email := row.email;
      err := None;
    }

    /** The user with that id, without its creation time (which is not selected). */
    method FindByID(id: string) returns (r: Result<User>)
      ensures !db.connected ==> r == Failure(ErrConnDone)
      ensures db.connected && id !in db.users ==> r == Failure(ErrUserNotFound)
      ensures db.connected && id in db.users ==> r.Success?
      ensures r.Success? ==>
        && fresh(r.value) && id in db.users
        && r.value.id == id && r.value.email == db.users[id].email
        && r.value.name == db.users[id].firstName && r.value.surname == db.users[id].surname
        && r.value.passwordHash == db.users[id].passwordHash && r.value.createdAt == ZeroTime
    {
      if !db.connected {
        return Failure(ErrConnDone);
      }
      if id !in db.users {
        return Failure(ErrUserNotFound);
      }
      var row := db.users[id];
      var user := new User.Of(id, row.email, row.firstName, row.surname, row.passwordHash, ZeroTime);
      return Success(user);
    }

    /** The user with that email (there is at most one), without its creation time. */
    method FindByEmail(email: string) returns (r: Result<User>)
      requires db.Valid()
      ensures !db.connected ==> r == Failure(ErrConnDone)
      ensures db.connected && !EmailTaken(db.users, email) ==> r == Failure(ErrUserNotFound)
      ensures db.connected && EmailTaken(db.users, email) ==> r.Success?
      ensures r.Success? ==>
        && fresh(r.value) && r.value.id in db.users && r.value.email == email
        && (forall key :: key in db.users && db.users[key].email == email ==> key == r.value.id)
        && r.value.name == db.users[r.value.id].firstName && r.value.surname == db.users[r.value.id].surname
        && r.value.passwordHash == db.users[r.value.id].passwordHash && r.value.createdAt == ZeroTime
    {
      if !db.connected {
        return Failure(ErrConnDone);
      }
      if !exists key :: key in db.users && db.users[key].email == email {
        return Failure(ErrUserNotFound);
      }
      var id :| id in db.users && db.users[id].email == email;
      var row := db.users[id];
      var user := new User.Of(id, row.email, row.firstName, row.surname, row.passwordHash, ZeroTime);
      return Success(user);
    }
  }
}
