/**
  GET /api/transactions: filter the records, order them newest first and
  return one page of ten, each record with its user's id, name and email
  attached.
*/
module TransactionListing {
  import opened Wrappers
  import opened Http
  import opened ObjectIds
  import opened TransactionModel
  import opened UserModel

  /**
    The query string, already read: `page` absent means page 1, an empty
    `user` means no user filter, and each bound is absent or the value it
    denotes.
  */
  datatype ListQuery = ListQuery(
    page: Option<int>,
    user: string,
    dateFrom: Option<Date>,
    dateTo: Option<Date>,
    totalFrom: Option<int>,
    totalTo: Option<int>)

  /** A listed record, its `user` populated with `{ id, name, email }` (null if the user is gone). */
  datatype Listed = Listed(record: Transaction, user: Option<UserRef>)

  datatype ListResult = Refused(response: Response) | Page(response: Response, entries: seq<Listed>)

  const PerPage := 10
  const Retrieved := "Transactions retrieved successfully"

  /** No user filter and no bound. */
  predicate NoFilters(q: ListQuery) {
    q.user == "" && q.dateFrom.None? && q.dateTo.None? && q.totalFrom.None? && q.totalTo.None?
  }

  /**
    The query object the handler builds: the user filter only for a
    well-formed id, compared as the identifier it casts to, and inclusive
    bounds, each only when given. An empty query keeps every record; crossed
    bounds keep none.
  */
  function Matches(q: ListQuery, t: Transaction): (ok: bool)
    ensures NoFilters(q) ==> ok
    ensures q.dateFrom.Some? && q.dateTo.Some? && q.dateFrom.value > q.dateTo.value ==> !ok
    ensures q.totalFrom.Some? && q.totalTo.Some? && q.totalFrom.value > q.totalTo.value ==> !ok
  {
    && (q.user != "" && ValidId(q.user) ==> t.user == Canonical(q.user))
    && (q.dateFrom.Some? ==> t.date >= q.dateFrom.value)
    && (q.dateTo.Some? ==> t.date <= q.dateTo.value)
    && (q.totalFrom.Some? ==> t.total >= q.totalFrom.value)
    && (q.totalTo.Some? ==> t.total <= q.totalTo.value)
  }

  /** The matching records, in their stored order. */
  function Filter(txs: seq<Transaction>, q: ListQuery): seq<Transaction> {
    if txs == [] then []
    else (if Matches(q, txs[0]) then [txs[0]] else []) + Filter(txs[1..], q)
  }

  /** Filtering keeps exactly the matching records, each as many times as it occurs. */
  lemma {:induction false} FilterCounts(txs: seq<Transaction>, q: ListQuery)
    ensures forall t :: multiset(Filter(txs, q))[t] == if Matches(q, t) then multiset(txs)[t] else 0
  {
    if txs != [] {
      assert txs == [txs[0]] + txs[1..];
      FilterCounts(txs[1..], q);
    }
  }

  /** `sort({ date: -1 })` */
  predicate NewestFirst(s: seq<Transaction>) {
    forall i, j :: 0 <= i < j < |s| ==> s[i].date >= s[j].date
  }

  /** Insert `t` before the first record that is not newer than it. */
  function Insert(t: Transaction, s: seq<Transaction>): seq<Transaction> {
    if s == [] then [t]
    else if t.date >= s[0].date then [t] + s
    else [s[0]] + Insert(t, s[1..])
  }

  /** Insertion into a newest-first sequence keeps it newest first and adds exactly `t`. */
  lemma {:induction false} InsertKeepsOrder(t: Transaction, s: seq<Transaction>)
    requires NewestFirst(s)
    ensures |Insert(t, s)| == |s| + 1
    ensures Insert(t, s)[0] == t || (s != [] && Insert(t, s)[0] == s[0])
    ensures NewestFirst(Insert(t, s))
    ensures multiset(Insert(t, s)) == multiset(s) + multiset{t}
  {
    if s != [] && t.date < s[0].date {
      var rest := Insert(t, s[1..]);
      InsertKeepsOrder(t, s[1..]);
      assert s == [s[0]] + s[1..];
      assert s[0].date >= rest[0].date;
      var r := [s[0]] + rest;
      forall i, j | 0 <= i < j < |r|
        ensures r[i].date >= r[j].date
      {
        if i > 0 {
          assert r[i] == rest[i - 1] && r[j] == rest[j - 1];
        } else {
          assert r[j] == rest[j - 1];
          assert rest[0].date >= rest[j - 1].date;
        }
      }
    }
  }

  /** Insertion sort, newest first. */
  function SortNewestFirst(s: seq<Transaction>): seq<Transaction> {
    if s == [] then [] else Insert(s[0], SortNewestFirst(s[1..]))
  }

  /** The sort orders newest first and is a permutation of its input. */
  lemma {:induction false} SortIsOrderedPermutation(s: seq<Transaction>)
    ensures NewestFirst(SortNewestFirst(s))
    ensures multiset(SortNewestFirst(s)) == multiset(s)
  {
    if s != [] {
      SortIsOrderedPermutation(s[1..]);
      InsertKeepsOrder(s[0], SortNewestFirst(s[1..]));
      assert s == [s[0]] + s[1..];
    }
  }

  /** `skip((page - 1) * perPage)` */
  function Skip(q: ListQuery): int {
    ((if q.page.Some? then q.page.value else 1) - 1) * PerPage
  }

  /** `skip(skip).limit(perPage)` */
  function Window(s: seq<Transaction>, skip: nat): (w: seq<Transaction>)
    ensures |w| <= PerPage
    ensures |w| == if skip >= |s| then 0 else if skip + PerPage <= |s| then PerPage else |s| - skip
    ensures forall i :: 0 <= i < |w| ==> w[i] == s[skip + i]
  {
    if skip >= |s| then [] else s[skip..if skip + PerPage <= |s| then skip + PerPage else |s|]
  }

  function Populate(users: map<Id, User>, t: Transaction): Listed {
    Listed(t, if t.user in users then Some(users[t.user].Ref()) else None)
  }

  /** `populate("user", "name email")` over a whole page. */
  function PopulateAll(users: map<Id, User>, s: seq<Transaction>): (r: seq<Listed>)
    ensures |r| == |s|
    ensures forall i :: 0 <= i < |s| ==> r[i] == Populate(users, s[i])
  {
    if s == [] then [] else [Populate(users, s[0])] + PopulateAll(users, s[1..])
  }

  /** The records of the listing, in order: the newest-first matches. */
  function Ordered(txs: seq<Transaction>, q: ListQuery): seq<Transaction> {
    SortNewestFirst(Filter(txs, q))
  }

  /** The listing's order is newest first and holds each matching record as often as it is stored. */
  lemma {:induction false} OrderedIsSortedMatches(txs: seq<Transaction>, q: ListQuery)
    ensures NewestFirst(Ordered(txs, q))
    ensures forall t :: multiset(Ordered(txs, q))[t] == if Matches(q, t) then multiset(txs)[t] else 0
  {
    FilterCounts(txs, q);
    SortIsOrderedPermutation(Filter(txs, q));
  }

  /** Every record of the newest-first order is a matching record of the collection. */
  lemma OrderedMatch(txs: seq<Transaction>, q: ListQuery, k: int)
    requires 0 <= k < |Ordered(txs, q)|
    ensures Matches(q, Ordered(txs, q)[k]) && Ordered(txs, q)[k] in txs
  {
    var t := Ordered(txs, q)[k];
    OrderedIsSortedMatches(txs, q);
    assert t in multiset(Ordered(txs, q));
    assert multiset(txs)[t] > 0;
  }

  /**
    The handler's result. A page below 1 gives a negative skip, which the
    database refuses, and the handler answers 500. Otherwise the page is the
    slice of the newest-first matches that starts at the skip, at most ten
    long, each record with its user attached.
  */
  function List(txs: seq<Transaction>, users: map<Id, User>, q: ListQuery): (r: ListResult)
    ensures Skip(q) < 0 <==> r == Refused(Response(500, InternalError))
    ensures r.Page? ==> r.response == Response(200, Retrieved)
    ensures r.Page? ==> |r.entries| <= PerPage
    ensures r.Page? ==> |r.entries| == if Skip(q) + PerPage <= |Ordered(txs, q)| then PerPage
                                      else if Skip(q) >= |Ordered(txs, q)| then 0
                                      else |Ordered(txs, q)| - Skip(q)
    ensures r.Page? ==> forall i :: 0 <= i < |r.entries| ==>
                          0 <= Skip(q) + i < |Ordered(txs, q)|
                          && r.entries[i] == Populate(users, Ordered(txs, q)[Skip(q) + i])
  {
    var skip := Skip(q);
    if skip < 0 then Refused(Response(500, InternalError))
    else Page(Response(200, Retrieved), PopulateAll(users, Window(Ordered(txs, q), skip)))
  }

  /** A populated window of a newest-first sequence is newest first. */
  lemma {:induction false} PageNewestFirst(users: map<Id, User>, s: seq<Transaction>, skip: nat)
    requires NewestFirst(s)
    ensures var e := PopulateAll(users, Window(s, skip));
            forall i, j :: 0 <= i < j < |e| ==> e[i].record.date >= e[j].record.date
  {
    var w := Window(s, skip);
    var e := PopulateAll(users, w);
    forall i, j | 0 <= i < j < |e|
      ensures e[i].record.date >= e[j].record.date
    {
      assert e[i].record == w[i] == s[skip + i];
      assert e[j].record == w[j] == s[skip + j];
    }
  }

  /** Every listed record matches the filters, and the page is ordered newest first. */
  lemma {:induction false} ListedRecordsMatchNewestFirst(txs: seq<Transaction>, users: map<Id, User>, q: ListQuery)
    ensures List(txs, users, q).Page? ==>
      var e := List(txs, users, q).entries;
      && (forall i :: 0 <= i < |e| ==> Matches(q, e[i].record))
      && (forall i, j :: 0 <= i < j < |e| ==> e[i].record.date >= e[j].record.date)
  {
    var r := List(txs, users, q);
    if r.Page? {
      var e := r.entries;
      var ordered := Ordered(txs, q);
      var skip := Skip(q);
      forall i | 0 <= i < |e|
        ensures Matches(q, e[i].record)
      {
        assert e[i].record == ordered[skip + i];
        OrderedMatch(txs, q, skip + i);
      }
      OrderedIsSortedMatches(txs, q);
      PageNewestFirst(users, ordered, skip);
      assert e == PopulateAll(users, Window(ordered, skip));
    }
  }

  /** The listing for `q` shows `t`. */
  predicate OnPage(txs: seq<Transaction>, users: map<Id, User>, q: ListQuery, t: Transaction) {
    var r := List(txs, users, q);
    r.Page? && exists i :: 0 <= i < |r.entries| && r.entries[i].record == t
  }

  /** A matching record has a position in the newest-first order. */
  lemma {:induction false} MatchIsOrdered(txs: seq<Transaction>, q: ListQuery, t: Transaction) returns (k: nat)
    requires t in txs && Matches(q, t)
    ensures k < |Ordered(txs, q)| && Ordered(txs, q)[k] == t
  {
    var sorted := Ordered(txs, q);
    OrderedIsSortedMatches(txs, q);
    assert multiset(sorted)[t] == multiset(txs)[t] > 0;
    k :| 0 <= k < |sorted| && sorted[k] == t;
  }

  /** Position k of the newest-first order is entry k mod 10 of page k / 10 + 1. */
  lemma {:induction false} PositionOnPage(txs: seq<Transaction>, users: map<Id, User>, q: ListQuery, k: nat)
    returns (p: int)
    requires k < |Ordered(txs, q)|
    ensures p >= 1 && OnPage(txs, users, q.(page := Some(p)), Ordered(txs, q)[k])
  {
    var d := k / 10;
    PageArithmetic(k);
    p := d + 1;
    var q' := q.(page := Some(p));
    FilterIgnoresPage(txs, q, q');
    assert Skip(q') == d * 10;
    var r := List(txs, users, q');
    assert r.entries[k - d * 10].record == Ordered(txs, q)[k];
  }

  /**
    Paging misses nothing: a record that matches the filters, and whose date
    no other matching record shares, is on some page of the listing. Its
    position is then the same in every newest-first order; among records of
    equal date the database fixes no order from one page query to the next,
    so without that condition a record could fall between two pages.
  */
  lemma {:induction false} EveryMatchOnSomePage(txs: seq<Transaction>, users: map<Id, User>, q: ListQuery,
                                                t: Transaction)
    requires t in txs && Matches(q, t)
    requires forall u :: u in txs && Matches(q, u) && u.date == t.date ==> u == t
    ensures exists p :: p >= 1 && OnPage(txs, users, q.(page := Some(p)), t)
  {
    var k := MatchIsOrdered(txs, q, t);
    var p := PositionOnPage(txs, users, q, k);
  }

  lemma PageArithmetic(k: nat)
    ensures 0 <= (k / 10) * 10 <= k < (k / 10) * 10 + 10
  {
  }

  /** Filtering depends only on the filters, not on the page. */
  lemma {:induction false} FilterIgnoresPage(txs: seq<Transaction>, q: ListQuery, q': ListQuery)
    requires q' == q.(page := q'.page)
    ensures Filter(txs, q') == Filter(txs, q)
  {
    if txs != [] {
      FilterIgnoresPage(txs[1..], q, q');
    }
  }

  lemma OrderedOwnerExists(txs: seq<Transaction>, users: map<Id, User>, q: ListQuery, k: int)
    requires forall i :: 0 <= i < |txs| ==> txs[i].user in users
    requires 0 <= k < |Ordered(txs, q)|
    ensures Ordered(txs, q)[k].user in users
  {
    OrderedMatch(txs, q, k);
    var j :| 0 <= j < |txs| && txs[j] == Ordered(txs, q)[k];
  }

  /**
    When every record's user exists, as the store guarantees, every listed
    record comes with its user's id, name and email.
  */
  lemma {:induction false} ListedUsersPopulated(txs: seq<Transaction>, users: map<Id, User>, q: ListQuery)
    requires forall i :: 0 <= i < |txs| ==> txs[i].user in users
    ensures List(txs, users, q).Page? ==>
      var e := List(txs, users, q).entries;
      forall i :: 0 <= i < |e| ==> e[i].record.user in users && e[i].user == Some(users[e[i].record.user].Ref())
  {
    var r := List(txs, users, q);
    if r.Page? {
      var e := r.entries;
      forall i | 0 <= i < |e|
        ensures e[i].record.user in users && e[i].user == Some(users[e[i].record.user].Ref())
      {
        var t := Ordered(txs, q)[Skip(q) + i];
        assert e[i] == Populate(users, t);
        OrderedOwnerExists(txs, users, q, Skip(q) + i);
      }
    }
  }

  /**
    A user filter that is not a well-formed id is dropped silently: the
    listing is the unfiltered one, not an empty one.
  */
  lemma {:induction false} MalformedUserFilterIgnored(txs: seq<Transaction>, users: map<Id, User>, q: ListQuery)
    requires !ValidId(q.user)
    ensures List(txs, users, q) == List(txs, users, q.(user := ""))
  {
    FilterSameWhenMatchesSame(txs, q, q.(user := ""));
  }

  /**
    The user filter ignores the case of the id's hex letters: any spelling
    of a well-formed id lists what its canonical spelling lists.
  */
  lemma UserFilterIgnoresCase(txs: seq<Transaction>, users: map<Id, User>, q: ListQuery)
    requires ValidId(q.user)
    ensures List(txs, users, q) == List(txs, users, q.(user := Canonical(q.user)))
  {
    FilterSameWhenMatchesSame(txs, q, q.(user := Canonical(q.user)));
  }

  lemma {:induction false} FilterSameWhenMatchesSame(txs: seq<Transaction>, q: ListQuery, q': ListQuery)
    requires forall t :: Matches(q, t) == Matches(q', t)
    ensures Filter(txs, q) == Filter(txs, q')
  {
    if txs != [] {
      FilterSameWhenMatchesSame(txs[1..], q, q');
    }
  }

  /** The bounds are inclusive: a record dated or totalled exactly at a bound is kept. */
  lemma BoundsInclusive(q: ListQuery, t: Transaction)
    requires q.user == "" && q.dateFrom == Some(t.date) && q.dateTo == Some(t.date)
    requires q.totalFrom == Some(t.total) && q.totalTo == Some(t.total)
    ensures Matches(q, t)
  {
  }
}
