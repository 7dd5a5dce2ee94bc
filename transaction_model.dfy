/**
  The transaction record: its line items, its two enumerations with their
  defaults, and the schema's required fields.
*/
module TransactionModel {
  import opened Wrappers

  /** A document identifier, as the string of hex digits the API exchanges. */
  type Id = string

  /** An instant, in milliseconds since the epoch. */
  type Date = int

  datatype PaymentMethod = Cash | Card | Upi | OtherMethod

  datatype Status = Pending | Paid | Failed

  /** A line item; price is in whole rupees but the schema stores any number. */
  datatype Item = Item(title: string, price: real, quantity: real)

  datatype Transaction = Transaction(
    description: string,
    total: int,
    date: Date,
    user: Id,
    business: string,
    items: seq<Item>,
    paymentMethod: PaymentMethod,
    status: Status)

  /** The string the schema's enumeration stores for each payment method. */
  function PaymentMethodName(m: PaymentMethod): string {
    match m
    case Cash => "CASH"
    case Card => "CARD"
    case Upi => "UPI"
    case OtherMethod => "OTHER"
  }

  /** Enumeration validation: the payment method a stored string denotes, if any. */
  function ParsePaymentMethod(s: string): (r: Option<PaymentMethod>)
    ensures r.Some? ==> PaymentMethodName(r.value) == s
    ensures r.None? ==> s !in {"CASH", "CARD", "UPI", "OTHER"}
  {
    if s == "CASH" then Some(Cash)
    else if s == "CARD" then Some(Card)
    else if s == "UPI" then Some(Upi)
    else if s == "OTHER" then Some(OtherMethod)
    else None
  }

  function StatusName(st: Status): string {
    match st
    case Pending => "PENDING"
    case Paid => "PAID"
    case Failed => "FAILED"
  }

  function ParseStatus(s: string): (r: Option<Status>)
    ensures r.Some? ==> StatusName(r.value) == s
    ensures r.None? ==> s !in {"PENDING", "PAID", "FAILED"}
  {
    if s == "PENDING" then Some(Pending)
    else if s == "PAID" then Some(Paid)
    else if s == "FAILED" then Some(Failed)
    else None
  }

  /** The enumerations accept exactly the names of their members. */
  lemma PaymentMethodRoundTrip(m: PaymentMethod, s: string)
    ensures ParsePaymentMethod(s) == Some(m) <==> s == PaymentMethodName(m)
  {
  }

  lemma StatusRoundTrip(st: Status, s: string)
    ensures ParseStatus(s) == Some(st) <==> s == StatusName(st)
  {
  }

  /**
    The value a schema field of enumeration type takes: the default when the
    field is absent, the named member when present and valid, and a validation
    failure (`None`) otherwise.
  */
  function PaymentMethodField(raw: Option<string>): (r: Option<PaymentMethod>)
    ensures raw.None? ==> r == Some(Cash)
    ensures raw.Some? ==> (r.Some? <==> raw.value in {"CASH", "CARD", "UPI", "OTHER"})
  {
    if raw.None? then Some(Cash) else ParsePaymentMethod(raw.value)
  }

  function StatusField(raw: Option<string>): (r: Option<Status>)
    ensures raw.None? ==> r == Some(Pending)
    ensures raw.Some? ==> (r.Some? <==> raw.value in {"PENDING", "PAID", "FAILED"})
  {
    if raw.None? then Some(Pending) else ParseStatus(raw.value)
  }

  /**
    `new Transaction({...})` with the fields the create handler supplies: the
    date falls back to the clock reading `now`, and the payment method and
    status, which the handler never supplies, take their defaults.
  */
  function NewTransaction(user: Id, total: int, description: string, date: Option<Date>, now: Date,
                          business: string, items: seq<Item>): (t: Transaction)
    ensures t.paymentMethod == Cash && t.status == Pending
    ensures t.date == (if date.Some? then date.value else now)
    ensures t.user == user && t.total == total && t.description == description
    ensures t.business == business && t.items == items
  {
    Transaction(description, total, if date.Some? then date.value else now, user, business, items,
                PaymentMethodField(None).value, StatusField(None).value)
  }

  /**
    The schema's required-field validation: a required string may not be
    empty, and every item needs a title (its numbers are always present here).
  */
  predicate SatisfiesSchema(t: Transaction) {
    && t.description != ""
    && t.user != ""
    && t.business != ""
    && forall i :: 0 <= i < |t.items| ==> t.items[i].title != ""
  }
}
