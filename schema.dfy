/** The two tables that `create_db` declares (main.py:3-24), their column
    limits and constraints, and the row sets that the `WHERE` clauses of the
    client functions select. */
module Schema {
  import opened Optional
  import opened Sequences

  /** A row of `clients`; `id` is its `SERIAL` primary key. */
  datatype Client = Client(id: int, firstName: string, lastName: string, email: string)

  /** A row of `phones`; `clientId` references `clients(id)`. */
  datatype Phone = Phone(id: int, clientId: int, number: string)

  /** The scalar columns of `clients` besides its key. */
  datatype Column = FirstName | LastName | Email

  /** The errors the database raises for the statements of the client functions. */
  datatype DbError =
    | UniqueViolation      // a second client row with an email already in use
    | ForeignKeyViolation  // a phone row whose client does not exist
    | ValueTooLong         // a value the VARCHAR column refuses: too long, and not only spaces past the limit
    | SyntaxError          // a statement the database cannot parse

  function ColumnName(c: Column): string {
    match c
    case FirstName => "first_name"
    case LastName => "last_name"
    case Email => "email"
  }

  /** `VARCHAR(n)` limit of each column of `clients`. */
  function MaxLength(c: Column): nat {
    match c
    case FirstName => 100
    case LastName => 100
    case Email => 255
  }

  /** `VARCHAR(20)` limit of `phones.number`. */
  const NumberMax: nat := 20

  /** A stored value of a column of `clients` is within its limit. */
  predicate FitsColumn(c: Column, v: string) {
    |v| <= MaxLength(c)
  }

  /** A stored `phones.number` is within its limit. */
  predicate FitsNumber(n: string) {
    |n| <= NumberMax
  }

  /** A value a `VARCHAR(limit)` column accepts on `INSERT` or `UPDATE`: at
      most `limit` characters, or longer with nothing but spaces past the
      limit. Any other character past the limit raises an error. */
  predicate Accepts(limit: nat, v: string) {
    forall i :: limit <= i < |v| ==> v[i] == ' '
  }

  /** The value a `VARCHAR(limit)` column stores for an accepted value: the
      value cut to `limit` characters. */
  function Truncate(limit: nat, v: string): (r: string)
    ensures |r| <= limit && r <= v
  {
    if |v| <= limit then v else v[..limit]
  }

  /** Storing an accepted value drops nothing but the spaces past the limit,
      and keeps a value within the limit as it is. */
  lemma TruncateDropsOnlySpaces(limit: nat, v: string)
    requires Accepts(limit, v)
    ensures v == Truncate(limit, v) + v[|Truncate(limit, v)|..]
    ensures forall i :: |Truncate(limit, v)| <= i < |v| ==> v[i] == ' '
    ensures Truncate(limit, v) == v <==> |v| <= limit
  {
    var r := Truncate(limit, v);
    assert r == v[..|r|];
    assert v == v[..|r|] + v[|r|..];
  }

  predicate AcceptsColumn(c: Column, v: string) {
    Accepts(MaxLength(c), v)
  }

  function StoredColumn(c: Column, v: string): string {
    Truncate(MaxLength(c), v)
  }

  predicate AcceptsNumber(n: string) {
    Accepts(NumberMax, n)
  }

  function StoredNumber(n: string): string {
    Truncate(NumberMax, n)
  }

  function Get(c: Client, col: Column): string {
    match col
    case FirstName => c.firstName
    case LastName => c.lastName
    case Email => c.email
  }

  /** The row `c` with column `col` set to `v`. */
  function Set(c: Client, col: Column, v: string): (r: Client)
    ensures r.id == c.id && Get(r, col) == v
    ensures forall other :: other != col ==> Get(r, other) == Get(c, other)
  {
    match col
    case FirstName => c.(firstName := v)
    case LastName => c.(lastName := v)
    case Email => c.(email := v)
  }

  predicate FitsClient(c: Client) {
    FitsColumn(FirstName, c.firstName) && FitsColumn(LastName, c.lastName) && FitsColumn(Email, c.email)
  }

  function ClientKey(c: Client): int { c.id }
  function EmailKey(c: Client): string { c.email }
  function PhoneKey(p: Phone): int { p.id }

  function ClientIds(cs: seq<Client>): set<int> {
    set c | c in cs :: c.id
  }

  function Emails(cs: seq<Client>): set<string> {
    set c | c in cs :: c.email
  }

  /** The row `SELECT ... FROM clients WHERE id = id` returns. */
  function Lookup(cs: seq<Client>, id: int): (r: Option<Client>)
    ensures r.None? <==> id !in ClientIds(cs)
    ensures r.Some? ==> r.value in cs && r.value.id == id
    decreases |cs|
  {
    if cs == [] then None
    else if cs[0].id == id then Some(cs[0])
    else
      assert forall c :: c in cs && c.id == id ==> c == cs[0] || c in cs[1..];
      Lookup(cs[1..], id)
  }

  /** With distinct ids, the row found is the only one with that id. */
  lemma {:induction false} LookupUnique(cs: seq<Client>, k: nat)
    requires DistinctBy(cs, ClientKey)
    requires k < |cs|
    ensures Lookup(cs, cs[k].id) == Some(cs[k])
    decreases k
  {
    if k > 0 {
      assert ClientKey(cs[0]) != ClientKey(cs[k]);
      var tail := cs[1..];
      assert DistinctBy(tail, ClientKey) by {
        forall i, j | 0 <= i < j < |tail| ensures ClientKey(tail[i]) != ClientKey(tail[j]) {
          assert tail[i] == cs[i + 1] && tail[j] == cs[j + 1];
        }
      }
      assert tail[k - 1] == cs[k];
      LookupUnique(tail, k - 1);
    }
  }

  /** `WHERE client_id = id` */
  function OwnedBy(id: int): Phone -> bool {
    (p: Phone) => p.clientId == id
  }

  /** `WHERE client_id <> id`: the rows a `DELETE ... WHERE client_id = id` keeps. */
  function NotOwnedBy(id: int): Phone -> bool {
    (p: Phone) => p.clientId != id
  }

  /** The rows a `DELETE ... WHERE client_id = id AND number = n` keeps. */
  function NotThisNumber(id: int, n: string): Phone -> bool {
    (p: Phone) => !(p.clientId == id && p.number == n)
  }

  /** The rows a `DELETE FROM clients WHERE id = id` keeps. */
  function NotThisClient(id: int): Client -> bool {
    (c: Client) => c.id != id
  }

  function PhonesOf(ps: seq<Phone>, id: int): seq<Phone> {
    Filter(ps, OwnedBy(id))
  }

  function PhonesExcept(ps: seq<Phone>, id: int): seq<Phone> {
    Filter(ps, NotOwnedBy(id))
  }

  function Numbers(rows: seq<Phone>): seq<string> {
    seq(|rows|, i requires 0 <= i < |rows| => rows[i].number)
  }

  /** Appending one row adds it to its owner's list and to no other. */
  lemma PhonesAppend(ps: seq<Phone>, p: Phone, id: int)
    ensures PhonesOf(ps + [p], id) == PhonesOf(ps, id) + (if p.clientId == id then [p] else [])
    ensures PhonesExcept(ps + [p], id) == PhonesExcept(ps, id) + (if p.clientId == id then [] else [p])
    ensures Numbers(PhonesOf(ps + [p], id)) == Numbers(PhonesOf(ps, id)) + (if p.clientId == id then [p.number] else [])
  {
    OwnedAppend(ps, p, id);
    FilterAppend(ps, [p], NotOwnedBy(id));
    assert Filter([p], NotOwnedBy(id)) == (if p.clientId == id then [] else [p]) by {
      assert [p][1..] == [];
    }
  }

  lemma OwnedAppend(ps: seq<Phone>, p: Phone, id: int)
    ensures PhonesOf(ps + [p], id) == PhonesOf(ps, id) + (if p.clientId == id then [p] else [])
  {
    FilterAppend(ps, [p], OwnedBy(id));
    assert Filter([p], OwnedBy(id)) == (if p.clientId == id then [p] else []) by {
      assert [p][1..] == [];
    }
  }

  /** `DELETE FROM phones WHERE client_id = id AND number = n` keeps these rows. */
  function WithoutNumber(ps: seq<Phone>, id: int, n: string): seq<Phone> {
    Filter(ps, NotThisNumber(id, n))
  }

  /** After the delete, the client has no row with that number left. */
  lemma NumberRemoved(ps: seq<Phone>, id: int, n: string)
    ensures n !in Numbers(PhonesOf(WithoutNumber(ps, id, n), id))
  {
    var left := PhonesOf(WithoutNumber(ps, id, n), id);
    NumbersMember(left, n);
    if exists p :: p in left && p.number == n {
      var p :| p in left && p.number == n;
      FilterMember(WithoutNumber(ps, id, n), OwnedBy(id), p);
      FilterMember(ps, NotThisNumber(id, n), p);
    }
  }

  /** `DELETE FROM clients WHERE id = id` keeps these rows. */
  function ClientsExcept(cs: seq<Client>, id: int): seq<Client> {
    Filter(cs, NotThisClient(id))
  }

  lemma NumbersMember(rows: seq<Phone>, n: string)
    ensures n in Numbers(rows) <==> exists p :: p in rows && p.number == n
  {
    if n in Numbers(rows) {
      var k :| 0 <= k < |rows| && Numbers(rows)[k] == n;
      assert rows[k] in rows;
    }
    if exists p :: p in rows && p.number == n {
      var p :| p in rows && p.number == n;
      var k :| 0 <= k < |rows| && rows[k] == p;
      assert Numbers(rows)[k] == n;
    }
  }
}
