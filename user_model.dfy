/**
  The user record, the view of it that responses carry, and the two password
  operations attached to a user document.
*/
module UserModel {
  import opened Wrappers
  import opened TransactionModel

  /** A non-empty string: what the hex encodings of a salt and a digest always are. */
  type HexString = s: string | s != "" witness "0"

  /**
    The key-derivation function `pbkdf2(password, salt)` rendered in hex. The
    model knows only that it is a deterministic total function.
  */
  type Kdf = (string, string) -> HexString

  datatype User = User(
    id: Id,
    name: string,
    email: string,
    balance: real,
    sampatirli: Option<string>,
    color: string,
    passwordHash: string,
    passwordSalt: string)
  {
    /**
      `validatePassword`: recompute the digest with the stored salt and
      compare. A document whose password was never set has empty password
      fields here, and then accepts no password, since a digest is never
      empty. That is a convention of the model: the source's unset salt makes
      the digest computation throw instead, and no handler validates such a
      document, as every stored user has both password fields.
    */
    function ValidatePassword(kdf: Kdf, password: string): (ok: bool)
      ensures passwordHash == "" ==> !ok
    {
      kdf(password, passwordSalt) == passwordHash
    }

    /** The user as responses show it: everything but the two password fields. */
    function Public(): PublicUser {
      PublicUser(id, name, email, balance, sampatirli, color)
    }

    /** `{ id, name, email }`, the fields a transaction listing attaches to its record. */
    function Ref(): UserRef {
      UserRef(id, name, email)
    }
  }

  datatype PublicUser = PublicUser(
    id: Id,
    name: string,
    email: string,
    balance: real,
    sampatirli: Option<string>,
    color: string)

  datatype UserRef = UserRef(id: Id, name: string, email: string)

  /** The schema's required-field validation for a stored user. */
  predicate SatisfiesSchema(u: User) {
    u.name != "" && u.email != "" && u.color != "" && u.passwordHash != "" && u.passwordSalt != ""
  }

  /** The public view drops exactly the two password fields and nothing else. */
  lemma PublicForgetsOnlySecrets(u: User, v: User)
    ensures u.Public() == v.Public() <==> u.(passwordHash := v.passwordHash, passwordSalt := v.passwordSalt) == v
  {
  }

  /** A user document whose fields `setPassword` updates in place. */
  class UserDocument {
    const id: Id
    var name: string
    var email: string
    var balance: real
    var sampatirli: Option<string>
    var color: string
    var passwordHash: string
    var passwordSalt: string

    function Value(): User
      reads this
    {
      User(id, name, email, balance, sampatirli, color, passwordHash, passwordSalt)
    }

    /**
      `new User({ name, email, balance, sampatirli, color })`: balance defaults
      to 0; the password fields stay unset until `SetPassword`.
    */
    constructor (id: Id, name: string, email: string, balance: Option<real>, sampatirli: Option<string>,
                 color: string)
      ensures Value() == User(id, name, email, if balance.Some? then balance.value else 0.0, sampatirli,
                              color, "", "")
    {
      this.id := id;
      this.name := name;
      this.email := email;
      this.balance := if balance.Some? then balance.value else 0.0;
      this.sampatirli := sampatirli;
      this.color := color;
      this.passwordHash := "";
      this.passwordSalt := "";
    }

    /**
      `setPassword`: store a fresh salt and the digest of the password under
      it. The frame says that no other field changes.
    */
    method SetPassword(kdf: Kdf, password: string, salt: HexString)
      modifies this`passwordSalt, this`passwordHash
      ensures passwordSalt == salt && passwordHash == kdf(password, salt)
      ensures Value() == old(Value()).(passwordSalt := salt, passwordHash := kdf(password, salt))
      ensures Value().ValidatePassword(kdf, password)
    {
      passwordSalt := salt;
      passwordHash := kdf(password, salt);
    }
  }

  /** After `setPassword(p)` with any salt, `validatePassword(p)` holds. */
  lemma SetThenValidate(u: User, kdf: Kdf, password: string, salt: HexString)
    ensures u.(passwordSalt := salt, passwordHash := kdf(password, salt)).ValidatePassword(kdf, password)
  {
  }

  /**
    Another password is accepted only if it collides with the first under the
    stored salt.
  */
  lemma OtherPasswordNeedsCollision(u: User, kdf: Kdf, password: string, other: string, salt: HexString)
    requires u.(passwordSalt := salt, passwordHash := kdf(password, salt)).ValidatePassword(kdf, other)
    ensures kdf(other, salt) == kdf(password, salt)
  {
  }
}
