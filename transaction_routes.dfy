/**
  POST /api/transactions: the validation chain of the create handler, stated
  as a function from the request and the users table to the handler's
  outcome. The handler itself is `Ledger.Store.CreateTransaction`.
*/
module TransactionRoutes {
  import opened Wrappers
  import opened JsValues
  import opened Http
  import opened ObjectIds
  import opened TransactionModel
  import opened UserModel

  /**
    The request body. The string fields are typed as the handler declares
    them, with the empty string standing for an absent field (both are
    falsy); `date` arrives already read as an instant. `total` and `items`
    are raw values because the handler tests their runtime type.
  */
  datatype CreateRequest = CreateRequest(
    user: Id,
    total: Json,
    description: string,
    date: Option<Date>,
    business: string,
    items: Json)

  datatype Outcome = Rejected(response: Response) | Created(record: Transaction)

  const MissingFields := "Missing required fields"
  const TotalNotWhole := "Total must be a whole number (in INR)"
  const ItemsIncomplete := "Items must have title, quantity, and price"
  const UserNotFound := "User not found"
  const TransactionCreated := "Transaction created successfully"

  /** None of user, total, description, date, business, items is falsy. */
  predicate HasRequiredFields(req: CreateRequest) {
    && req.user != ""
    && Truthy(req.total)
    && req.description != ""
    && req.date.Some?
    && req.business != ""
    && Truthy(req.items)
  }

  predicate Nullish(e: Json) {
    e.Undefined? || e.Null?
  }

  function Field(fields: map<string, Json>, key: string): Json {
    if key in fields then fields[key] else Undefined
  }

  /** An item whose title, quantity and price are all truthy. */
  predicate HasItemFields(e: Json) {
    && e.Obj?
    && Truthy(Field(e.fields, "title"))
    && Truthy(Field(e.fields, "quantity"))
    && Truthy(Field(e.fields, "price"))
  }

  datatype ItemScan = NoneMissing | SomeMissing | Threw

  /**
    `items.some(i => !i.title || !i.quantity || !i.price)`, scanning left to
    right: it stops at the first item lacking a field, and reading a field
    of a null or undefined item throws.
  */
  function ScanItems(elems: seq<Json>): (r: ItemScan)
    ensures r == NoneMissing <==> forall k :: 0 <= k < |elems| ==> HasItemFields(elems[k])
    ensures r != NoneMissing ==>
      exists k :: 0 <= k < |elems| && !HasItemFields(elems[k])
        && (forall j :: 0 <= j < k ==> HasItemFields(elems[j]))
        && (r == Threw <==> Nullish(elems[k]))
  {
    if elems == [] then NoneMissing
    else
      var e := elems[0];
      match Property(e, "title")
      case None => assert !HasItemFields(elems[0]); Threw
      case Some(title) =>
        if !Truthy(title) || !Truthy(Property(e, "quantity").value) || !Truthy(Property(e, "price").value) then
          SomeMissing
        else
          var r := ScanItems(elems[1..]);
          assert forall k :: 1 <= k < |elems| ==> elems[k] == elems[1..][k - 1];
          if r != NoneMissing then
            var k :| 0 <= k < |elems[1..]| && !HasItemFields(elems[1..][k])
              && (forall j :: 0 <= j < k ==> HasItemFields(elems[1..][j]))
              && (r == Threw <==> Nullish(elems[1..][k]));
            assert !HasItemFields(elems[k + 1]) && (forall j :: 0 <= j < k + 1 ==> HasItemFields(elems[j]));
            r
          else
            r
  }

  /**
    The schema's cast of one item: a string title and numeric price and
    quantity are stored as they are; anything else fails the cast.
  */
  function ToItem(e: Json): Option<Item> {
    if e.Obj? && Field(e.fields, "title").Str? && Field(e.fields, "price").Num?
       && Field(e.fields, "quantity").Num?
    then Some(Item(Field(e.fields, "title").s, Field(e.fields, "price").x, Field(e.fields, "quantity").x))
    else None
  }

  /** The cast of a whole items array, which fails if any item fails. */
  function ToItems(elems: seq<Json>): (r: Option<seq<Item>>)
    ensures r.Some? <==> forall k :: 0 <= k < |elems| ==> ToItem(elems[k]).Some?
    ensures r.Some? ==> |r.value| == |elems|
    ensures r.Some? ==> forall k :: 0 <= k < |elems| ==> r.value[k] == ToItem(elems[k]).value
  {
    if elems == [] then Some([])
    else
      var rest := ToItems(elems[1..]);
      assert forall k :: 1 <= k < |elems| ==> elems[k] == elems[1..][k - 1];
      match ToItem(elems[0])
      case None => None
      case Some(item) => if rest.None? then None else Some([item] + rest.value)
  }

  /** The items that pass the scan and the cast all keep a non-empty title. */
  lemma CastItemsHaveTitles(elems: seq<Json>, items: seq<Item>)
    requires forall k :: 0 <= k < |elems| ==> HasItemFields(elems[k])
    requires ToItems(elems) == Some(items)
    ensures forall i :: 0 <= i < |items| ==> items[i].title != ""
  {
    forall i | 0 <= i < |items|
      ensures items[i].title != ""
    {
      assert HasItemFields(elems[i]);
      assert items[i] == ToItem(elems[i]).value;
    }
  }

  /**
    The outcome of the create handler on `req` against the users table `users`.
    The checks run in a fixed order and the first failing one decides:
    required fields, integer total, items, the user lookup. The lookup casts
    the user to an identifier, which throws for a malformed one, and finds
    the user under its canonical spelling, which the record then stores. A
    record that passes them all is cast by the schema on save.
  */
  function CreateOutcome(users: map<Id, User>, req: CreateRequest, now: Date): (o: Outcome)
    ensures o.Created? ==>
      && o.record.user == Canonical(req.user) && o.record.user in users
      && o.record.status == Pending && o.record.paymentMethod == Cash
      && req.date == Some(o.record.date) && req.total == Num(o.record.total as real)
      && TransactionModel.SatisfiesSchema(o.record)
    ensures o.Rejected? ==> o.response.code in {400, 500}
  {
    if !HasRequiredFields(req) then Rejected(Response(400, MissingFields))
    else if !IsInteger(req.total) then Rejected(Response(400, TotalNotWhole))
    else if !IsArray(req.items) then Rejected(Response(400, ItemsIncomplete))
    else
      var scan := ScanItems(req.items.elems);
      if scan == Threw then Rejected(Response(500, InternalError))
      else if scan == SomeMissing then Rejected(Response(400, ItemsIncomplete))
      else if !ValidId(req.user) then Rejected(Response(500, InternalError))
      else if Canonical(req.user) !in users then Rejected(Response(400, UserNotFound))
      else
        match ToItems(req.items.elems)
        case None => Rejected(Response(500, InternalError))
        case Some(items) =>
          CastItemsHaveTitles(req.items.elems, items);
          Created(NewTransaction(Canonical(req.user), req.total.x.Floor, req.description, req.date, now,
                                 req.business, items))
  }

  /** A falsy field is reported as missing before anything else is checked. */
  lemma MissingFieldsFirst(users: map<Id, User>, req: CreateRequest, now: Date)
    requires !HasRequiredFields(req)
    ensures CreateOutcome(users, req, now) == Rejected(Response(400, MissingFields))
  {
  }

  /** A total of 0 is falsy, so it counts as a missing field. */
  lemma ZeroTotalIsMissing(users: map<Id, User>, req: CreateRequest, now: Date)
    requires req.total == Num(0.0)
    ensures CreateOutcome(users, req, now) == Rejected(Response(400, MissingFields))
  {
  }

  /** A present total that is not an integer is refused with its own message. */
  lemma FractionalTotalRejected(users: map<Id, User>, req: CreateRequest, now: Date)
    requires HasRequiredFields(req) && req.total.Num? && req.total.x.Floor as real != req.total.x
    ensures CreateOutcome(users, req, now) == Rejected(Response(400, TotalNotWhole))
  {
  }

  /** A truthy total of another type (a string, say) fails the integer check too. */
  lemma NonNumericTotalRejected(users: map<Id, User>, req: CreateRequest, now: Date)
    requires HasRequiredFields(req) && !req.total.Num?
    ensures CreateOutcome(users, req, now) == Rejected(Response(400, TotalNotWhole))
  {
  }

  /** A truthy `items` that is not an array is refused as incomplete items. */
  lemma ItemsNotArrayRejected(users: map<Id, User>, req: CreateRequest, now: Date)
    requires HasRequiredFields(req) && IsInteger(req.total) && !req.items.Arr?
    ensures CreateOutcome(users, req, now) == Rejected(Response(400, ItemsIncomplete))
  {
  }

  /**
    The first item that is not null and lacks a truthy title, quantity or
    price (a quantity or price of 0 included) gets the request refused, if no
    null item comes before it.
  */
  lemma IncompleteItemRejected(users: map<Id, User>, req: CreateRequest, now: Date, k: nat)
    requires HasRequiredFields(req) && IsInteger(req.total) && req.items.Arr?
    requires k < |req.items.elems| && !Nullish(req.items.elems[k]) && !HasItemFields(req.items.elems[k])
    requires forall j :: 0 <= j < k ==> HasItemFields(req.items.elems[j])
    ensures CreateOutcome(users, req, now) == Rejected(Response(400, ItemsIncomplete))
  {
    var elems := req.items.elems;
    var scan := ScanItems(elems);
    assert scan != NoneMissing;
    var k' :| 0 <= k' < |elems| && !HasItemFields(elems[k'])
      && (forall j :: 0 <= j < k' ==> HasItemFields(elems[j]))
      && (scan == Threw <==> Nullish(elems[k']));
    assert k' == k;
  }

  /** The empty items array passes the items check. */
  lemma EmptyItemsPass(users: map<Id, User>, req: CreateRequest, now: Date)
    requires HasRequiredFields(req) && IsInteger(req.total) && req.items == Arr([])
    ensures CreateOutcome(users, req, now) ==
      if !ValidId(req.user) then Rejected(Response(500, InternalError))
      else if Canonical(req.user) in users then
        Created(NewTransaction(Canonical(req.user), req.total.x.Floor, req.description, req.date, now,
                               req.business, []))
      else Rejected(Response(400, UserNotFound))
  {
  }

  /** A request that passes every other check but names an unknown user: 400, not 404. */
  lemma UnknownUserRejected(users: map<Id, User>, req: CreateRequest, now: Date)
    requires HasRequiredFields(req) && IsInteger(req.total) && req.items.Arr?
    requires forall k :: 0 <= k < |req.items.elems| ==> HasItemFields(req.items.elems[k])
    requires ValidId(req.user) && Canonical(req.user) !in users
    ensures CreateOutcome(users, req, now) == Rejected(Response(400, UserNotFound))
  {
  }

  /**
    A user that is not a well-formed identifier makes the lookup throw: the
    request passes every earlier check and then fails with 500, whatever the
    users table holds.
  */
  lemma MalformedUserFails(users: map<Id, User>, req: CreateRequest, now: Date)
    requires HasRequiredFields(req) && IsInteger(req.total) && req.items.Arr?
    requires forall k :: 0 <= k < |req.items.elems| ==> HasItemFields(req.items.elems[k])
    requires !ValidId(req.user)
    ensures CreateOutcome(users, req, now) == Rejected(Response(500, InternalError))
  {
  }

  /**
    The user is looked up without regard to the case of its hex letters:
    spelling it canonically changes nothing in the outcome.
  */
  lemma UserCaseIgnored(users: map<Id, User>, req: CreateRequest, now: Date)
    requires ValidId(req.user)
    ensures CreateOutcome(users, req, now) == CreateOutcome(users, req.(user := Canonical(req.user)), now)
  {
  }

  /**
    Every non-zero integer total is accepted, negative ones included: there
    is no positivity check. The created record carries the request's fields,
    its user in canonical spelling, the item list as cast, and the PENDING
    status and CASH method defaults.
  */
  lemma WellFormedRequestCreates(users: map<Id, User>, req: CreateRequest, now: Date, n: int, items: seq<Item>)
    requires req.user != "" && req.description != "" && req.date.Some? && req.business != ""
    requires req.total == Num(n as real) && n != 0
    requires req.items.Arr? && ValidId(req.user) && Canonical(req.user) in users
    requires forall k :: 0 <= k < |req.items.elems| ==> HasItemFields(req.items.elems[k])
    requires ToItems(req.items.elems) == Some(items)
    ensures CreateOutcome(users, req, now) ==
      Created(Transaction(req.description, n, req.date.value, Canonical(req.user), req.business, items, Cash,
                          Pending))
  {
    IntegersAreIntegers(n);
  }
}
