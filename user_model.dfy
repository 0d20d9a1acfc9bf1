/** The JSON shape of a user and its conversions from and to the domain user. The password
    hash is never copied out of a domain user. */
module UserModel {
  import opened Base
  import opened Domain

  class UserModel {
    var id: string
    var email: string
    var name: string
    var surname: string
    var passwordHash: string
    var createdAt: Time

    /** &UserModel{}: every field zero. */
    constructor ()
      ensures id == "" && email == "" && name == "" && surname == "" && passwordHash == "" && createdAt == ZeroTime
    {
      id, email, name, surname, passwordHash, createdAt := "", "", "", "", "", ZeroTime;
    }

    /** Copies id, email, names and creation time of the user into the model; the model's
        password hash is left as it was. A nil user changes nothing. */
    method FromDomain(user: User?)
      modifies this
      ensures user == null ==> unchanged(this)
      ensures user != null ==>
        && id == user.id && email == user.email && name == user.name && surname == user.surname
        && createdAt == user.createdAt
      ensures passwordHash == old(passwordHash)
    {
      if user == null {
        return;
      }
      id := user.id;
      email := user.email;
      name := user.name;
      surname := user.surname;
      createdAt := user.createdAt;
    }

    /** A new user with every field of the model, the password hash included; a nil model
        gives the zero user. */
    static method ToDomain(e: UserModel?) returns (user: User)
      ensures fresh(user)
      ensures e == null ==>
        user.id == "" && user.email == "" && user.name == "" && user.surname == ""
        && user.passwordHash == "" && user.createdAt == ZeroTime
      ensures e != null ==>
        && user.id == e.id && user.email == e.email && user.name == e.name && user.surname == e.surname
        && user.passwordHash == e.passwordHash && user.createdAt == e.createdAt
    {
      if e == null {
        user := new User.Of("", "", "", "", "", ZeroTime);
        return;
      }
      user := new User.Of(e.id, e.email, e.name, e.surname, e.passwordHash, e.createdAt);
    }

    /** A user taken through a new model and back: everything but the password hash, which
        comes back empty. */
    static method RoundTrip(user: User) returns (copy: User)
      ensures fresh(copy)
      ensures copy.id == user.id && copy.email == user.email && copy.name == user.name
      ensures copy.surname == user.surname && copy.createdAt == user.createdAt
      ensures copy.passwordHash == ""
    {
      var model := new UserModel();
      model.FromDomain(user);
      copy := ToDomain(model);
    }
  }
}
