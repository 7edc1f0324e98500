/** What the search statement of `find_client` returns, read off its text:
    clients `LEFT JOIN` their phone rows, the `WHERE` conditions applied to
    each joined row, and one result per client (`GROUP BY c.id`) whose
    phones are the `array_agg` of the numbers of its remaining rows.

    How `ILIKE` compares a value with a pattern is the database's business;
    it is the parameter `ilike` here, and every statement below holds for
    any such comparison. */
module ClientSearch {
  import opened Optional
  import opened Sequences
  import opened Schema
  import opened QueryBuilders

  /** One element of the list `find_client` returns (the dict of main.py:123-129).
      `None` in `phones` is the SQL `NULL` that `array_agg` gives for a
      client without phone rows. */
  datatype Found = Found(id: int, firstName: string, lastName: string, email: string, phones: seq<Option<string>>)

  /** A value passes the condition of an argument: trivially when the
      argument is falsy (no condition), otherwise when it is `ILIKE` the
      argument's pattern. */
  predicate Passes(ilike: (string, string) -> bool, value: string, arg: Option<string>) {
    Truthy(arg) ==> ilike(value, Pattern(arg.value))
  }

  /** The conditions on the columns of `clients`. */
  predicate ScalarMatch(c: Client, args: SearchArgs, ilike: (string, string) -> bool) {
    && Passes(ilike, c.firstName, args.firstName)
    && Passes(ilike, c.lastName, args.lastName)
    && Passes(ilike, c.email, args.email)
  }

  /** The condition on `p.number`. */
  function NumberPasses(args: SearchArgs, ilike: (string, string) -> bool): string -> bool {
    n => Passes(ilike, n, args.phone)
  }

  /** `array_agg` of a group's numbers; a client with no phone row joins a
      single row whose number is `NULL`. */
  function Aggregate(ns: seq<string>): seq<Option<string>> {
    if ns == [] then [None] else seq(|ns|, i requires 0 <= i < |ns| => Some(ns[i]))
  }

  /** The result for client `c`, or `None` when no joined row of `c` passes
      the `WHERE` clause. A `NULL` number never passes a phone condition. */
  function Group(c: Client, ps: seq<Phone>, args: SearchArgs, ilike: (string, string) -> bool): (r: Option<Found>)
    ensures r.Some? ==> r.value.id == c.id
  {
    var kept := Filter(Numbers(PhonesOf(ps, c.id)), NumberPasses(args, ilike));
    if !ScalarMatch(c, args, ilike) || (Truthy(args.phone) && kept == []) then None
    else Some(Found(c.id, c.firstName, c.lastName, c.email, Aggregate(kept)))
  }

  /** The result list, one element per client that has a passing row, in
      table order (the statement has no `ORDER BY`). */
  function SearchResults(cs: seq<Client>, ps: seq<Phone>, args: SearchArgs, ilike: (string, string) -> bool): (r: seq<Found>)
    ensures forall f :: f in r ==> exists c :: c in cs && Group(c, ps, args, ilike) == Some(f)
    ensures forall c :: c in cs && Group(c, ps, args, ilike).Some? ==> Group(c, ps, args, ilike).value in r
    decreases |cs|
  {
    if cs == [] then []
    else
      var rest := SearchResults(cs[1..], ps, args, ilike);
      assert forall c :: c in cs ==> c == cs[0] || c in cs[1..];
      match Group(cs[0], ps, args, ilike)
      case Some(f) => [f] + rest
      case None => rest
  }

  /** Every result is an existing client whose row passes the scalar
      conditions, reported with its own column values. */
  lemma SearchSound(cs: seq<Client>, ps: seq<Phone>, args: SearchArgs, ilike: (string, string) -> bool, f: Found)
    requires f in SearchResults(cs, ps, args, ilike)
    ensures exists c :: c in cs && ScalarMatch(c, args, ilike) &&
              c == Client(f.id, f.firstName, f.lastName, f.email)
    ensures f.id in ClientIds(cs)
  {
    var c :| c in cs && Group(c, ps, args, ilike) == Some(f);
  }

  /** With a phone argument, every listed number is one of the client's own
      numbers and passes the phone condition, and the list is not empty. */
  lemma SearchByPhone(cs: seq<Client>, ps: seq<Phone>, args: SearchArgs, ilike: (string, string) -> bool, f: Found)
    requires Truthy(args.phone)
    requires f in SearchResults(cs, ps, args, ilike)
    ensures f.phones != []
    ensures forall x :: x in f.phones ==> x.Some? && ilike(x.value, Pattern(args.phone.value))
    ensures forall x :: x in f.phones ==> x.Some? && x.value in Numbers(PhonesOf(ps, f.id))
  {
    var c :| c in cs && Group(c, ps, args, ilike) == Some(f);
    var own := Numbers(PhonesOf(ps, c.id));
    var kept := Filter(own, NumberPasses(args, ilike));
    forall x | x in f.phones
      ensures x.Some? && ilike(x.value, Pattern(args.phone.value)) && x.value in own
    {
      var k :| 0 <= k < |kept| && f.phones[k] == x;
      assert kept[k] in kept;
      FilterMember(own, NumberPasses(args, ilike), kept[k]);
    }
  }

  /** The value a joined row offers to the condition on criterion `k`:
      the client's column, or the phone row's number `n`. */
  function RowValue(c: Client, n: string, k: Criterion): string {
    match k
    case ByFirstName => c.firstName
    case ByLastName => c.lastName
    case ByEmail => c.email
    case ByPhone => n
  }

  /** The conditions `ScalarMatch` and `NumberPasses` apply to a joined row
      are exactly the conditions of the statement: the row passes both if
      and only if its value is `ILIKE` the pattern of every term. */
  lemma RowPassesWhere(c: Client, n: string, args: SearchArgs, ilike: (string, string) -> bool)
    ensures ScalarMatch(c, args, ilike) && NumberPasses(args, ilike)(n) <==>
              forall t :: t in Terms(args) ==> ilike(RowValue(c, n, t.criterion), Pattern(t.value))
  {
    RowPassesEach(c, n, args, ilike);
    TermsMembers(args);
    if forall t :: t in Terms(args) ==> ilike(RowValue(c, n, t.criterion), Pattern(t.value)) {
      forall k ensures Passes(ilike, RowValue(c, n, k), args.Get(k)) {
        if Truthy(args.Get(k)) {
          assert Term(k, args.Get(k).value) in Terms(args);
        }
      }
    }
  }

  /** The row passes the `WHERE` clause exactly when it passes the condition
      of every criterion. */
  lemma RowPassesEach(c: Client, n: string, args: SearchArgs, ilike: (string, string) -> bool)
    ensures ScalarMatch(c, args, ilike) && NumberPasses(args, ilike)(n) <==>
              forall k :: Passes(ilike, RowValue(c, n, k), args.Get(k))
  {
    if ScalarMatch(c, args, ilike) && NumberPasses(args, ilike)(n) {
      forall k ensures Passes(ilike, RowValue(c, n, k), args.Get(k)) {
      }
    } else {
      assert !Passes(ilike, RowValue(c, n, ByFirstName), args.Get(ByFirstName))
          || !Passes(ilike, RowValue(c, n, ByLastName), args.Get(ByLastName))
          || !Passes(ilike, RowValue(c, n, ByEmail), args.Get(ByEmail))
          || !Passes(ilike, RowValue(c, n, ByPhone), args.Get(ByPhone));
    }
  }

  /** Without a phone argument, every client whose row passes the scalar
      conditions is found, with all of its numbers in table order, or the
      single `NULL` when it has none. */
  lemma SearchComplete(cs: seq<Client>, ps: seq<Phone>, args: SearchArgs, ilike: (string, string) -> bool, c: Client)
    requires !Truthy(args.phone)
    requires c in cs && ScalarMatch(c, args, ilike)
    ensures Found(c.id, c.firstName, c.lastName, c.email, Aggregate(Numbers(PhonesOf(ps, c.id))))
              in SearchResults(cs, ps, args, ilike)
  {
    FilterKeepsAll(Numbers(PhonesOf(ps, c.id)), NumberPasses(args, ilike));
  }

  /** Once a client and its phones are deleted, no search returns it. */
  lemma DeletedClientNotFound(cs: seq<Client>, ps: seq<Phone>, id: int, args: SearchArgs, ilike: (string, string) -> bool)
    ensures forall f :: f in SearchResults(ClientsExcept(cs, id), PhonesExcept(ps, id), args, ilike) ==> f.id != id
  {
    forall f | f in SearchResults(ClientsExcept(cs, id), PhonesExcept(ps, id), args, ilike) ensures f.id != id {
      var c :| c in ClientsExcept(cs, id) && Group(c, PhonesExcept(ps, id), args, ilike) == Some(f);
      FilterMember(cs, NotThisClient(id), c);
    }
  }

  /** Once a number is deleted from a client, no search lists it for that client. */
  lemma DeletedNumberNotListed(cs: seq<Client>, ps: seq<Phone>, id: int, n: string, args: SearchArgs, ilike: (string, string) -> bool)
    ensures forall f :: f in SearchResults(cs, WithoutNumber(ps, id, n), args, ilike) && f.id == id ==> Some(n) !in f.phones
  {
    var ps' := WithoutNumber(ps, id, n);
    forall f | f in SearchResults(cs, ps', args, ilike) && f.id == id ensures Some(n) !in f.phones {
      var c :| c in cs && Group(c, ps', args, ilike) == Some(f);
      var own := Numbers(PhonesOf(ps', id));
      var kept := Filter(own, NumberPasses(args, ilike));
      if Some(n) in f.phones {
        var k :| 0 <= k < |kept| && f.phones[k] == Some(n);
        assert kept[k] == n;
        FilterMember(own, NumberPasses(args, ilike), n);
        NumberRemoved(ps, id, n);
        assert false;
      }
    }
  }
}
