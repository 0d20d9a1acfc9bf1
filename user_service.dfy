/** UserService: the user repository with lookup and registration errors wrapped; the
    wrapping keeps the repository's error underneath, so a duplicate email stays
    recognisable with errors.Is. */
module UserService {
  import opened Base
  import opened Domain
  import opened Store
  import opened Strconv
  import UserRepo

  const RegisterContext := "Failed to register user"
  const RetrieveContext := "Failed to retrieve user"

  class UserService {
    const userRepo: UserRepo.UserRepository

    constructor (userRepo: UserRepo.UserRepository)
      ensures this.userRepo == userRepo
    {
      this.userRepo := userRepo;
    }

    /** Inserts the user; the error, if any, is the repository's wrapped, and it is a
        duplicate email exactly when the email was already stored. */
    method RegisterUser(user: User, now: Time) returns (err: Option<Error>)
      requires userRepo.db.Valid()
      modifies userRepo.db`users, userRepo.db`nextUserKey
      ensures userRepo.db.Valid()
      ensures err.Some? ==> err.value.Wrapped? && err.value.context == RegisterContext && unchanged(userRepo.db)
      ensures err.Some? ==>
        (Is(err.value, UserRepo.ErrDuplicateEmail) <==> userRepo.db.connected && UserRepo.EmailTaken(old(userRepo.db.users), user.email))
      ensures err.None? <==> userRepo.db.connected && !UserRepo.EmailTaken(old(userRepo.db.users), user.email)
      ensures err.None? ==>
        && var key := Decimal(old(userRepo.db.nextUserKey));
        && userRepo.db.users == old(userRepo.db.users)[key := UserRow(user.email, user.name, user.surname, user.passwordHash, now)]
        && UserRepo.EmailTaken(userRepo.db.users, user.email)
    {
      var e := userRepo.Insert(user, now);
      match e {
        case Some(failure) => return Some(Wrapped(failure, RegisterContext));
        case None => return None;
      }
    }

    /** The user with that id, or the wrapped repository error. */
    method FindByID(id: string) returns (r: Result<User>)
      ensures r.Success? <==> userRepo.db.connected && id in userRepo.db.users
      ensures userRepo.db.connected && id !in userRepo.db.users ==> r == Failure(Wrapped(UserRepo.ErrUserNotFound, RetrieveContext))
      ensures !userRepo.db.connected ==> r == Failure(Wrapped(ErrConnDone, RetrieveContext))
      ensures r.Success? ==> fresh(r.value) && r.value.id == id && r.value.email == userRepo.db.users[id].email
    {
      r := userRepo.FindByID(id);
      if r.Failure? {
        return Failure(Wrapped(r.error, RetrieveContext));
      }
    }

    /** The user with that email, or the wrapped repository error. A user registered
        without error is found again: RegisterUser leaves EmailTaken true. */
    method FindByEmail(email: string) returns (r: Result<User>)
      requires userRepo.db.Valid()
      ensures r.Success? <==> userRepo.db.connected && UserRepo.EmailTaken(userRepo.db.users, email)
      ensures userRepo.db.connected && !UserRepo.EmailTaken(userRepo.db.users, email) ==>
        r == Failure(Wrapped(UserRepo.ErrUserNotFound, RetrieveContext))
      ensures !userRepo.db.connected ==> r == Failure(Wrapped(ErrConnDone, RetrieveContext))
      ensures r.Success? ==> fresh(r.value) && r.value.email == email && r.value.id in userRepo.db.users
    {
      r := userRepo.FindByEmail(email);
      if r.Failure? {
        return Failure(Wrapped(r.error, RetrieveContext));
      }
    }

    /** The repository's Update, its error passed on as it is. */
    method Update(user: User) returns (err: Option<Error>)
      requires userRepo.db.Valid()
      modifies user`email, userRepo.db`users
      ensures userRepo.db.Valid()
      ensures !userRepo.db.connected ==> err == Some(ErrConnDone) && unchanged(userRepo.db) && unchanged(user)
      ensures userRepo.db.connected && user.id !in old(userRepo.db.users) ==> err == Some(ErrNoRows) && unchanged(userRepo.db) && unchanged(user)
      ensures userRepo.db.connected && user.id in old(userRepo.db.users) ==>
        && err.None?
        && userRepo.db.users == old(userRepo.db.users)[user.id := old(userRepo.db.users[user.id]).(firstName := user.name, surname := user.surname)]
        && user.email == old(userRepo.db.users[user.id].email)
    {
      err := userRepo.Update(user);
    }
  }
}
