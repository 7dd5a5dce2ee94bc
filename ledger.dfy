/**
  The service's state, a table of users keyed by id and the list of
  transactions in insertion order, and the request handlers that change or
  read it: register, login, get by id, list users, overwrite a balance and
  create a transaction.
*/
module Ledger {
  import opened Wrappers
  import opened JsValues
  import opened Http
  import opened ObjectIds
  import opened TransactionModel
  import opened UserModel
  import TransactionRoutes
  import TransactionListing

  /** The body of POST /api/users/register; "" stands for an absent string. */
  datatype RegisterRequest = RegisterRequest(
    name: string,
    email: string,
    balance: Option<real>,
    sampatirli: Option<string>,
    color: string,
    password: string)

  const UsersRetrieved := "Users retrieved successfully"
  const InvalidUserId := "Invalid user ID"
  const NoSuchUser := "User not found"
  const UserRetrieved := "User retrieved successfully"
  const MissingFields := "Missing required fields"
  const EmailRegistered := "Email already registered"
  const UserRegistered := "User registered successfully"
  const MissingCredentials := "Missing email or password"
  const InvalidCredentials := "Invalid email or password"
  const LoginSucceeded := "Login successful"
  const BalanceNotNumber := "Balance must be a number"
  const BalanceUpdated := "Balance updated successfully"

  predicate RegisterFieldsPresent(req: RegisterRequest) {
    req.name != "" && req.email != "" && req.color != "" && req.password != ""
  }

  /** `User.findOne({ email })` finds someone. */
  predicate EmailTaken(users: map<Id, User>, email: string) {
    exists id :: id in users && users[id].email == email
  }

  /** The schema's unique index on email. */
  ghost predicate EmailsUnique(users: map<Id, User>) {
    forall a, b :: a in users && b in users && users[a].email == users[b].email ==> a == b
  }

  /**
    The user a successful registration stores: balance 0 and sampatirli ""
    when omitted, and the password digested under the fresh salt. It
    satisfies the schema when the required fields are present, and the
    password it was registered with validates.
  */
  function NewUser(req: RegisterRequest, id: Id, kdf: Kdf, salt: HexString): (u: User)
    ensures u.id == id && u.email == req.email
    ensures u.balance == if req.balance.Some? then req.balance.value else 0.0
    ensures RegisterFieldsPresent(req) ==> UserModel.SatisfiesSchema(u)
    ensures u.ValidatePassword(kdf, req.password)
  {
    User(id, req.name, req.email, if req.balance.Some? then req.balance.value else 0.0,
         Some(if req.sampatirli.Some? then req.sampatirli.value else ""), req.color,
         kdf(req.password, salt), salt)
  }

  /**
    Every user is stored under its own id, which is a generated identifier
    in canonical spelling, and satisfies the schema.
  */
  ghost predicate UsersWellFormed(users: map<Id, User>) {
    forall id :: id in users ==> CanonicalId(id) && users[id].id == id && UserModel.SatisfiesSchema(users[id])
  }

  /** Every record belongs to a stored user and satisfies the schema. */
  ghost predicate RecordsWellFormed(txs: seq<Transaction>, users: map<Id, User>) {
    forall i :: 0 <= i < |txs| ==> txs[i].user in users && TransactionModel.SatisfiesSchema(txs[i])
  }

  /** Overwriting one user's balance keeps the users and the records well-formed. */
  lemma SetBalanceKeepsWellFormed(users: map<Id, User>, txs: seq<Transaction>, id: Id, b: real)
    requires id in users && UsersWellFormed(users) && EmailsUnique(users) && RecordsWellFormed(txs, users)
    ensures UsersWellFormed(users[id := users[id].(balance := b)])
    ensures EmailsUnique(users[id := users[id].(balance := b)])
    ensures RecordsWellFormed(txs, users[id := users[id].(balance := b)])
  {
  }

  /**
    Adding a well-formed user under a fresh canonical id, with an email no one
    holds, keeps the users and the records well-formed.
  */
  lemma AddUserKeepsWellFormed(users: map<Id, User>, txs: seq<Transaction>, u: User)
    requires UsersWellFormed(users) && EmailsUnique(users) && RecordsWellFormed(txs, users)
    requires u.id !in users && CanonicalId(u.id) && UserModel.SatisfiesSchema(u) && !EmailTaken(users, u.email)
    ensures UsersWellFormed(users[u.id := u])
    ensures EmailsUnique(users[u.id := u])
    ensures RecordsWellFormed(txs, users[u.id := u])
  {
  }

  /** The sum of the totals the records credited to user `id`. */
  function Credited(txs: seq<Transaction>, id: Id): int {
    if txs == [] then 0
    else (if txs[0].user == id then txs[0].total else 0) + Credited(txs[1..], id)
  }

  lemma {:induction false} CreditedAppend(txs: seq<Transaction>, t: Transaction, id: Id)
    ensures Credited(txs + [t], id) == Credited(txs, id) + (if t.user == id then t.total else 0)
  {
    if txs != [] {
      assert (txs + [t])[1..] == txs[1..] + [t];
      CreditedAppend(txs[1..], t, id);
    }
  }

  lemma {:induction false} CreditedNothing(txs: seq<Transaction>, id: Id)
    requires forall i :: 0 <= i < |txs| ==> txs[i].user != id
    ensures Credited(txs, id) == 0
  {
    if txs != [] {
      CreditedNothing(txs[1..], id);
    }
  }

  class Store {
    /** The key-derivation function behind `setPassword` and `validatePassword`. */
    const kdf: Kdf
    var users: map<Id, User>
    var transactions: seq<Transaction>

    /** The users and the records are well-formed and no two users share an email. */
    ghost predicate Valid()
      reads this
    {
      UsersWellFormed(users) && EmailsUnique(users) && RecordsWellFormed(transactions, users)
    }

    /**
      What user `id` holds beyond the sum of the records credited to it. Only
      a balance overwrite changes it.
    */
    ghost function Opening(id: Id): real
      reads this
      requires id in users
    {
      users[id].balance - Credited(transactions, id) as real
    }

    constructor (kdf: Kdf)
      ensures Valid() && this.kdf == kdf && users == map[] && transactions == []
    {
      this.kdf := kdf;
      users := map[];
      transactions := [];
    }

    /** GET /api/users: every user, without the password fields. */
    method AllUsers() returns (res: Response, view: map<Id, PublicUser>)
      ensures res == Response(200, UsersRetrieved)
      ensures view.Keys == users.Keys
      ensures forall id :: id in view ==> view[id] == users[id].Public()
    {
      view := map id | id in users :: users[id].Public();
      res := Response(200, UsersRetrieved);
    }

    /** GET /api/users/:id, the id read without regard to the case of its hex letters. */
    method GetUser(id: string) returns (res: Response, user: Option<PublicUser>)
      ensures !ValidId(id) ==> res == Response(400, InvalidUserId) && user == None
      ensures ValidId(id) && Canonical(id) !in users ==> res == Response(404, NoSuchUser) && user == None
      ensures ValidId(id) && Canonical(id) in users ==>
        res == Response(200, UserRetrieved) && user == Some(users[Canonical(id)].Public())
    {
      if id == "" || !ValidId(id) {
        return Response(400, InvalidUserId), None;
      }
      var key := Canonical(id);
      if key !in users {
        return Response(404, NoSuchUser), None;
      }
      res, user := Response(200, UserRetrieved), Some(users[key].Public());
    }

    /**
      POST /api/users/register. `newId` is the identifier the new document is
      given, always a generated one in canonical spelling; `salt` is the
      random salt `setPassword` draws.
    */
    method Register(req: RegisterRequest, newId: Id, salt: HexString) returns (res: Response, user: Option<PublicUser>)
      requires Valid() && CanonicalId(newId)
      modifies this`users
      ensures Valid() && transactions == old(transactions)
      ensures !RegisterFieldsPresent(req) ==>
        res == Response(400, MissingFields) && user == None && users == old(users)
      ensures RegisterFieldsPresent(req) && EmailTaken(old(users), req.email) ==>
        res == Response(400, EmailRegistered) && user == None && users == old(users)
      ensures RegisterFieldsPresent(req) && !EmailTaken(old(users), req.email) && newId in old(users) ==>
        res == Response(500, InternalError) && user == None && users == old(users)
      ensures RegisterFieldsPresent(req) && !EmailTaken(old(users), req.email) && newId !in old(users) ==>
        && res == Response(201, UserRegistered)
        && users == old(users)[newId := NewUser(req, newId, kdf, salt)]
        && user == Some(users[newId].Public())
        && users[newId].ValidatePassword(kdf, req.password)
        && Opening(newId) == users[newId].balance
      ensures forall id :: id in old(users) ==> id in users && Opening(id) == old(Opening(id))
    {
      if req.name == "" || req.email == "" || req.color == "" || req.password == "" {
        return Response(400, MissingFields), None;
      }
      if EmailTaken(users, req.email) {
        return Response(400, EmailRegistered), None;
      }
      var balance := if req.balance.Some? then req.balance.value else 0.0;
      var sampatirli := if req.sampatirli.Some? then req.sampatirli.value else "";
      var doc := new UserDocument(newId, req.name, req.email, Some(balance), Some(sampatirli), req.color);
      doc.SetPassword(kdf, req.password, salt);
      if newId in users {
        // saving a second document under an existing _id fails
        return Response(500, InternalError), None;
      }
      var u := doc.Value();
      assert u == NewUser(req, newId, kdf, salt);
      SaveUser(u);
      res, user := Response(201, UserRegistered), Some(u.Public());
    }

    /**
      `newUser.save()`: a well-formed user with a fresh id and an email no one
      holds is stored. No record credits the new user, so its opening balance
      is its balance; everyone else's is unchanged.
    */
    method SaveUser(u: User)
      requires Valid() && u.id !in users && CanonicalId(u.id) && UserModel.SatisfiesSchema(u)
      requires !EmailTaken(users, u.email)
      modifies this`users
      ensures Valid()
      ensures users == old(users)[u.id := u]
      ensures Opening(u.id) == u.balance
      ensures forall id :: id in old(users) ==> Opening(id) == old(Opening(id))
    {
      AddUserKeepsWellFormed(users, transactions, u);
      users := users[u.id := u];
      forall i | 0 <= i < |transactions|
        ensures transactions[i].user != u.id
      {
        assert transactions[i].user in old(users);
      }
      CreditedNothing(transactions, u.id);
    }

    /** POST /api/users/login: read-only. */
    method Login(email: string, password: string) returns (res: Response, user: Option<PublicUser>)
      requires Valid()
      ensures email == "" || password == "" ==> res == Response(400, MissingCredentials) && user == None
      ensures email != "" && password != "" ==>
        (res.code == 200 <==>
           exists id :: id in users && users[id].email == email && users[id].ValidatePassword(kdf, password))
      ensures res.code == 200 ==>
        res.message == LoginSucceeded
        && exists id :: id in users && users[id].email == email && user == Some(users[id].Public())
      ensures res.code != 200 ==>
        res.code == 400 && user == None
        && (email != "" && password != "" ==> res.message == InvalidCredentials)
    {
      if email == "" || password == "" {
        return Response(400, MissingCredentials), None;
      }
      if !EmailTaken(users, email) {
        return Response(400, InvalidCredentials), None;
      }
      var id :| id in users && users[id].email == email;
      if !users[id].ValidatePassword(kdf, password) {
        return Response(400, InvalidCredentials), None;
      }
      res, user := Response(200, LoginSucceeded), Some(users[id].Public());
    }

    /**
      PUT /api/users/:id/balance: overwrite, not add. The id is read without
      regard to the case of its hex letters.
    */
    method PutBalance(id: string, balance: Json) returns (res: Response, user: Option<PublicUser>)
      requires Valid()
      modifies this`users
      ensures Valid() && transactions == old(transactions)
      ensures !ValidId(id) ==> res == Response(400, InvalidUserId) && user == None && users == old(users)
      ensures ValidId(id) && !IsNumber(balance) ==>
        res == Response(400, BalanceNotNumber) && user == None && users == old(users)
      ensures ValidId(id) && IsNumber(balance) && Canonical(id) !in old(users) ==>
        res == Response(404, NoSuchUser) && user == None && users == old(users)
      ensures ValidId(id) && IsNumber(balance) && Canonical(id) in old(users) ==>
        var key := Canonical(id);
        && res == Response(200, BalanceUpdated)
        && users == old(users)[key := old(users)[key].(balance := balance.x)]
        && user == Some(users[key].Public())
      ensures forall other :: other in old(users) && other != Canonical(id) ==>
        other in users && Opening(other) == old(Opening(other))
    {
      if id == "" || !ValidId(id) {
        return Response(400, InvalidUserId), None;
      }
      if !balance.Num? {
        return Response(400, BalanceNotNumber), None;
      }
      var key := Canonical(id);
      if key !in users {
        return Response(404, NoSuchUser), None;
      }
      var u := users[key].(balance := balance.x);
      users := users[key := u];
      res, user := Response(200, BalanceUpdated), Some(u.Public());
    }

    /**
      POST /api/transactions: the checks of `TransactionRoutes.CreateOutcome`
      in order; on success one record is appended and its user's balance is
      credited with the total. Nothing is debited from anyone.
    */
    method CreateTransaction(req: TransactionRoutes.CreateRequest, now: Date) returns (res: Response)
      requires Valid()
      modifies this`users, this`transactions
      ensures Valid()
      ensures users.Keys == old(users).Keys
      ensures TransactionRoutes.CreateOutcome(old(users), req, now).Rejected? ==>
        && res == TransactionRoutes.CreateOutcome(old(users), req, now).response
        && users == old(users) && transactions == old(transactions)
      ensures TransactionRoutes.CreateOutcome(old(users), req, now).Created? ==>
        var t := TransactionRoutes.CreateOutcome(old(users), req, now).record;
        && res == Response(201, TransactionRoutes.TransactionCreated)
        && transactions == old(transactions) + [t]
        && users == old(users)[t.user := old(users)[t.user].(balance := old(users)[t.user].balance + t.total as real)]
      ensures forall id :: id in users ==> Opening(id) == old(Opening(id))
    {
      if !TransactionRoutes.HasRequiredFields(req) {
        return Response(400, TransactionRoutes.MissingFields);
      }
      if !IsInteger(req.total) {
        return Response(400, TransactionRoutes.TotalNotWhole);
      }
      if !IsArray(req.items) {
        return Response(400, TransactionRoutes.ItemsIncomplete);
      }
      var scan := TransactionRoutes.ScanItems(req.items.elems);
      if scan == TransactionRoutes.Threw {
        return Response(500, InternalError);
      }
      if scan == TransactionRoutes.SomeMissing {
        return Response(400, TransactionRoutes.ItemsIncomplete);
      }
      if !ValidId(req.user) {
        // casting a malformed user to an identifier throws
        return Response(500, InternalError);
      }
      var key := Canonical(req.user);
      if key !in users {
        return Response(400, TransactionRoutes.UserNotFound);
      }
      var items := TransactionRoutes.ToItems(req.items.elems);
      if items.None? {
        // the schema cannot cast an item, so saving the record fails
        return Response(500, InternalError);
      }
      var record := NewTransaction(key, req.total.x.Floor, req.description, req.date, now, req.business,
                                   items.value);
      assert record == TransactionRoutes.CreateOutcome(users, req, now).record;
      SaveAndCredit(record);
      res := Response(201, TransactionRoutes.TransactionCreated);
    }

    /**
      The two writes of a successful create: `transactionDoc.save()` appends
      the record, then `userDoc.balance += total` credits its user.
    */
    method SaveAndCredit(t: Transaction)
      requires Valid() && t.user in users && TransactionModel.SatisfiesSchema(t)
      modifies this`users, this`transactions
      ensures Valid()
      ensures transactions == old(transactions) + [t]
      ensures users == old(users)[t.user := old(users)[t.user].(balance := old(users)[t.user].balance + t.total as real)]
      ensures forall id :: id in users ==> Opening(id) == old(Opening(id))
    {
      SaveRecord(t);
      Credit(t.user, t.total);
    }

    /**
      `transactionDoc.save()`: the record is appended. Until its user is
      credited, that user's opening balance reads lower by the total.
    */
    method SaveRecord(t: Transaction)
      requires Valid() && t.user in users && TransactionModel.SatisfiesSchema(t)
      modifies this`transactions
      ensures Valid()
      ensures transactions == old(transactions) + [t]
      ensures forall id :: id in users ==> Opening(id) == old(Opening(id)) - (if id == t.user then t.total as real else 0.0)
    {
      ghost var before := transactions;
      transactions := transactions + [t];
      forall id | id in users
        ensures Credited(transactions, id) == Credited(before, id) + (if t.user == id then t.total else 0)
      {
        CreditedAppend(before, t, id);
      }
    }

    /** `userDoc.balance += total; userDoc.save()`: one user's balance grows by `amount`. */
    method Credit(id: Id, amount: int)
      requires Valid() && id in users
      modifies this`users
      ensures Valid()
      ensures users == old(users)[id := old(users)[id].(balance := old(users)[id].balance + amount as real)]
      ensures forall other :: other in users ==>
        Opening(other) == old(Opening(other)) + (if other == id then amount as real else 0.0)
    {
      var userDoc := users[id];
      SetBalanceKeepsWellFormed(users, transactions, id, userDoc.balance + amount as real);
      users := users[id := userDoc.(balance := userDoc.balance + amount as real)];
    }

    /**
      GET /api/transactions over the stored records: one page of the listing.
      Since every record belongs to a stored user, every listed record comes
      with its user's id, name and email, never with null.
    */
    method ListTransactions(q: TransactionListing.ListQuery) returns (r: TransactionListing.ListResult)
      requires Valid()
      ensures r == TransactionListing.List(transactions, users, q)
      ensures r.Page? ==>
        forall i :: 0 <= i < |r.entries| ==>
          r.entries[i].record.user in users && r.entries[i].user == Some(users[r.entries[i].record.user].Ref())
    {
      r := TransactionListing.List(transactions, users, q);
      TransactionListing.ListedUsersPopulated(transactions, users, q);
    }
  }
}
