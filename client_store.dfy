/** The client functions of main.py as operations on an in-memory copy of
    the two tables. Each statement takes effect (and is committed) on its
    own, so an operation made of several statements that fails part way
    keeps the effect of the statements before the failing one. */
module ClientStore {
  import opened Optional
  import opened Sequences
  import opened Schema
  import opened QueryBuilders
  import opened ClientSearch

  /** How a statement sequence without a result ends. */
  datatype Outcome = Done | Failed(error: DbError)

  /** How a statement sequence with a result ends. */
  datatype Result<T> = Ok(value: T) | Err(error: DbError)

  // ---------------------------------------------------------------------
  // UPDATE clients SET ... WHERE id=%s
  // ---------------------------------------------------------------------

  /** The row after the `SET` list is applied to it; each column stores its
      value as its `VARCHAR` type keeps it. */
  function ApplyAll(c: Client, asg: seq<Assignment>): (r: Client)
    ensures r.id == c.id
    decreases |asg|
  {
    if asg == [] then c else ApplyAll(Set(c, asg[0].column, StoredColumn(asg[0].column, asg[0].value)), asg[1..])
  }

  /** The value column `col` has after `change_client`: the stored form of
      the argument when it is truthy, the old value otherwise. */
  function Pick(col: Column, arg: Option<string>, current: string): string {
    if Truthy(arg) then StoredColumn(col, arg.value) else current
  }

  /** `change_client` replaces exactly the columns whose argument is truthy. */
  lemma PatchedRow(c: Client, args: UpdateArgs)
    ensures ApplyAll(c, Assignments(args)) ==
              Client(c.id, Pick(FirstName, args.firstName, c.firstName), Pick(LastName, args.lastName, c.lastName),
                     Pick(Email, args.email, c.email))
  {
    AssignmentsCases(args);
    var a1 := AssignmentIf(args, FirstName);
    var a2 := AssignmentIf(args, LastName);
    var a3 := AssignmentIf(args, Email);
    ApplyAppend(c, a1 + a2, a3);
    ApplyAppend(c, a1, a2);
    var c1 := ApplyAll(c, a1);
    var c2 := ApplyAll(c1, a2);
    ApplyIf(c, args, FirstName);
    ApplyIf(c1, args, LastName);
    ApplyIf(c2, args, Email);
  }

  /** The `SET` item of one argument sets its column to the picked value. */
  lemma ApplyIf(c: Client, args: UpdateArgs, col: Column)
    ensures ApplyAll(c, AssignmentIf(args, col)) == Set(c, col, Pick(col, args.Get(col), Get(c, col)))
  {
    if Truthy(args.Get(col)) {
      var a := AssignmentIf(args, col);
      assert a[1..] == [];
    }
  }

  lemma {:induction false} ApplyAppend(c: Client, a: seq<Assignment>, b: seq<Assignment>)
    ensures ApplyAll(c, a + b) == ApplyAll(ApplyAll(c, a), b)
    decreases |a|
  {
    if a == [] {
      assert a + b == b;
    } else {
      var c' := Set(c, a[0].column, StoredColumn(a[0].column, a[0].value));
      assert (a + b)[0] == a[0] && (a + b)[1..] == a[1..] + b;
      assert ApplyAll(c, a + b) == ApplyAll(c', a[1..] + b);
      assert ApplyAll(c, a) == ApplyAll(c', a[1..]);
      ApplyAppend(c', a[1..], b);
    }
  }

  /** An `UPDATE` keeps a row within its limits: every value it stores is
      cut to its column's length. */
  lemma {:induction false} ApplyAllFits(c: Client, asg: seq<Assignment>)
    requires FitsClient(c)
    ensures FitsClient(ApplyAll(c, asg))
    decreases |asg|
  {
    if asg != [] {
      var c' := Set(c, asg[0].column, StoredColumn(asg[0].column, asg[0].value));
      assert FitsClient(c') by {
        assert forall col :: FitsColumn(col, Get(c', col)) by {
          assert forall col :: FitsColumn(col, Get(c, col));
        }
        assert Get(c', FirstName) == c'.firstName && Get(c', LastName) == c'.lastName && Get(c', Email) == c'.email;
      }
      ApplyAllFits(c', asg[1..]);
    }
  }

  /** `UPDATE clients SET <asg> WHERE id = id`: every row with that id is updated. */
  function UpdateRows(cs: seq<Client>, id: int, asg: seq<Assignment>): seq<Client> {
    seq(|cs|, i requires 0 <= i < |cs| => if cs[i].id == id then ApplyAll(cs[i], asg) else cs[i])
  }

  /** Some client other than `id` already has email `e`. */
  predicate EmailTaken(cs: seq<Client>, e: string, id: int) {
    exists c :: c in cs && c.id != id && c.email == e
  }

  /** The error the `UPDATE` raises, or `None`. A value its column refuses
      fails the statement; `UNIQUE(email)` fails it only when the
      client exists and its new email belongs to another client. With an
      empty `SET` list no statement is sent. */
  function UpdateError(cs: seq<Client>, id: int, asg: seq<Assignment>): Option<DbError> {
    if asg == [] then None
    else if exists a :: a in asg && !AcceptsColumn(a.column, a.value) then Some(ValueTooLong)
    else match Lookup(cs, id)
      case None => None
      case Some(row) => if EmailTaken(cs, ApplyAll(row, asg).email, id) then Some(UniqueViolation) else None
  }

  /** The `UPDATE` changes the row of `id` as `PatchedRow` says and no other
      row; the ids are unchanged. */
  lemma UpdateRowsEffect(cs: seq<Client>, id: int, args: UpdateArgs)
    requires DistinctBy(cs, ClientKey)
    ensures ClientIds(UpdateRows(cs, id, Assignments(args))) == ClientIds(cs)
    ensures forall other :: other != id ==> Lookup(UpdateRows(cs, id, Assignments(args)), other) == Lookup(cs, other)
    ensures Lookup(cs, id).Some? ==>
              var c := Lookup(cs, id).value;
              Lookup(UpdateRows(cs, id, Assignments(args)), id) ==
                Some(Client(id, Pick(FirstName, args.firstName, c.firstName), Pick(LastName, args.lastName, c.lastName),
                            Pick(Email, args.email, c.email)))
  {
    var asg := Assignments(args);
    var us := UpdateRows(cs, id, asg);
    UpdateRowsIds(cs, id, asg);
    forall other ensures Lookup(us, other) == Lookup(cs, other) || other == id {
      if other != id && other in ClientIds(cs) {
        var k :| 0 <= k < |cs| && cs[k].id == other;
        LookupUnique(cs, k);
        LookupUnique(us, k);
      }
    }
    if Lookup(cs, id).Some? {
      var k :| 0 <= k < |cs| && cs[k] == Lookup(cs, id).value;
      LookupUnique(cs, k);
      LookupUnique(us, k);
      PatchedRow(cs[k], args);
    }
  }

  lemma UpdateRowsIds(cs: seq<Client>, id: int, asg: seq<Assignment>)
    requires DistinctBy(cs, ClientKey)
    ensures ClientIds(UpdateRows(cs, id, asg)) == ClientIds(cs)
    ensures DistinctBy(UpdateRows(cs, id, asg), ClientKey)
  {
    var us := UpdateRows(cs, id, asg);
    forall x | x in ClientIds(cs) ensures x in ClientIds(us) {
      var k :| 0 <= k < |cs| && cs[k].id == x;
      assert us[k] in us;
    }
    forall x | x in ClientIds(us) ensures x in ClientIds(cs) {
      var k :| 0 <= k < |us| && us[k].id == x;
      assert cs[k] in cs;
    }
  }

  /** An `UPDATE` that raises no error keeps the table's constraints. */
  lemma UpdateRowsValid(cs: seq<Client>, id: int, asg: seq<Assignment>)
    requires DistinctBy(cs, ClientKey) && DistinctBy(cs, EmailKey)
    requires forall c :: c in cs ==> FitsClient(c)
    requires UpdateError(cs, id, asg).None?
    ensures DistinctBy(UpdateRows(cs, id, asg), ClientKey)
    ensures DistinctBy(UpdateRows(cs, id, asg), EmailKey)
    ensures forall c :: c in UpdateRows(cs, id, asg) ==> FitsClient(c)
  {
    var us := UpdateRows(cs, id, asg);
    UpdateRowsIds(cs, id, asg);
    if asg == [] {
      assert forall i :: 0 <= i < |cs| ==> ApplyAll(cs[i], asg) == cs[i];
      assert us == cs;
    } else {
      forall i, j | 0 <= i < j < |us| ensures EmailKey(us[i]) != EmailKey(us[j]) {
        if cs[i].id == id {
          LookupUnique(cs, i);
          assert cs[j].id != id && cs[j] in cs;
        } else if cs[j].id == id {
          LookupUnique(cs, j);
          assert cs[i].id != id && cs[i] in cs;
        }
      }
      forall c | c in us ensures FitsClient(c) {
        var k :| 0 <= k < |us| && us[k] == c;
        assert cs[k] in cs;
        if cs[k].id == id {
          ApplyAllFits(cs[k], asg);
        }
      }
    }
  }

  // ---------------------------------------------------------------------
  // INSERT INTO clients / INSERT INTO phones
  // ---------------------------------------------------------------------

  /** The error `INSERT INTO clients` raises, or `None`. `UNIQUE(email)`
      compares the email as the column stores it. */
  function ClientInsertError(cs: seq<Client>, firstName: string, lastName: string, email: string): Option<DbError> {
    if !AcceptsColumn(FirstName, firstName) || !AcceptsColumn(LastName, lastName) || !AcceptsColumn(Email, email) then Some(ValueTooLong)
    else if StoredColumn(Email, email) in Emails(cs) then Some(UniqueViolation)
    else None
  }

  /** The row `INSERT INTO clients` stores under id `id`. */
  function NewClient(id: int, firstName: string, lastName: string, email: string): Client {
    Client(id, StoredColumn(FirstName, firstName), StoredColumn(LastName, lastName), StoredColumn(Email, email))
  }

  /** The error `INSERT INTO phones` raises, or `None`. */
  function PhoneInsertError(cs: seq<Client>, clientId: int, number: string): Option<DbError> {
    if !AcceptsNumber(number) then Some(ValueTooLong)
    else if clientId !in ClientIds(cs) then Some(ForeignKeyViolation)
    else None
  }

  predicate AllAccepted(ns: seq<string>) {
    forall i :: 0 <= i < |ns| ==> AcceptsNumber(ns[i])
  }

  /** The numbers a loop of `add_phone` calls gets through for an existing
      client before the first number the column refuses stops it: the
      longest prefix of `ns` whose numbers are all accepted. */
  function AcceptedPrefix(ns: seq<string>): (r: seq<string>)
    ensures |r| <= |ns| && r == ns[..|r|]
    ensures forall i :: 0 <= i < |r| ==> AcceptsNumber(ns[i])
    ensures |r| < |ns| ==> !AcceptsNumber(ns[|r|])
    decreases |ns|
  {
    if ns == [] || !AcceptsNumber(ns[0]) then [] else [ns[0]] + AcceptedPrefix(ns[1..])
  }

  /** A loop that stopped at `i` got through exactly the accepted prefix. */
  lemma AcceptedPrefixAt(ns: seq<string>, i: nat)
    requires i <= |ns|
    requires forall j :: 0 <= j < i ==> AcceptsNumber(ns[j])
    requires i == |ns| || !AcceptsNumber(ns[i])
    ensures AcceptedPrefix(ns) == ns[..i]
    ensures AcceptedPrefix(ns) == ns <==> AllAccepted(ns)
  {
    assert |AcceptedPrefix(ns)| == i;
    if AcceptedPrefix(ns) == ns {
      assert AllAccepted(ns);
    }
  }

  /** The numbers as `phones.number` stores them. */
  function StoredNumbers(ns: seq<string>): seq<string> {
    seq(|ns|, i requires 0 <= i < |ns| => StoredNumber(ns[i]))
  }

  lemma StoredNumbersAppend(ns: seq<string>, n: string)
    ensures StoredNumbers(ns + [n]) == StoredNumbers(ns) + [StoredNumber(n)]
  {
    assert forall i :: 0 <= i < |ns| ==> (ns + [n])[i] == ns[i];
  }

  // ---------------------------------------------------------------------
  // The two tables
  // ---------------------------------------------------------------------

  /** The `clients` and `phones` tables with the next value of each
      `SERIAL` sequence. */
  class Store {
    var clients: seq<Client>
    var phones: seq<Phone>
    var nextClientId: int
    var nextPhoneId: int

    /** The constraints `create_db` declares: primary keys, `UNIQUE(email)`,
        the `VARCHAR` limits and the foreign key from `phones` to `clients`;
        every id is below the next value of its sequence. */
    ghost predicate Valid()
      reads this
    {
      && 0 < nextClientId && 0 < nextPhoneId
      && DistinctBy(clients, ClientKey)
      && DistinctBy(clients, EmailKey)
      && DistinctBy(phones, PhoneKey)
      && (forall c :: c in clients ==> 0 < c.id < nextClientId && FitsClient(c))
      && (forall p :: p in phones ==> 0 < p.id < nextPhoneId && FitsNumber(p.number) && p.clientId in ClientIds(clients))
    }

    /** `create_db` on a database without the two tables. */
    constructor CreateDb()
      ensures Valid()
      ensures clients == [] && phones == []
    {
      clients := [];
      phones := [];
      nextClientId := 1;
      nextPhoneId := 1;
    }

    /** `add_phone`: one `INSERT INTO phones`. */
    method AddPhone(clientId: int, number: string) returns (r: Outcome)
      requires Valid()
      modifies this`phones, this`nextPhoneId
      ensures Valid()
      ensures PhoneInsertError(old(clients), clientId, number).Some? ==>
                && r == Failed(PhoneInsertError(old(clients), clientId, number).value)
                && phones == old(phones) && nextPhoneId == old(nextPhoneId)
      ensures PhoneInsertError(old(clients), clientId, number).None? ==>
                && r == Done
                && phones == old(phones) + [Phone(old(nextPhoneId), clientId, StoredNumber(number))]
                && nextPhoneId == old(nextPhoneId) + 1
    {
      var e := PhoneInsertError(clients, clientId, number);
      if e.Some? {
        return Failed(e.value);
      }
      var row := Phone(nextPhoneId, clientId, StoredNumber(number));
      DistinctAppend(phones, row, PhoneKey);
      phones := phones + [row];
      nextPhoneId := nextPhoneId + 1;
      r := Done;
    }

    /** The loop `for phone in phones: add_phone(conn, client_id, phone)` of
        `add_client` and `change_client`: the numbers are stored in order
        until one fails, and that failure ends the loop. */
    method AddPhones(clientId: int, numbers: seq<string>) returns (r: Outcome)
      requires Valid()
      modifies this`phones, this`nextPhoneId
      ensures Valid()
      ensures PhonesExcept(phones, clientId) == PhonesExcept(old(phones), clientId)
      ensures clientId in ClientIds(clients) ==>
                && Numbers(PhonesOf(phones, clientId)) == Numbers(PhonesOf(old(phones), clientId)) + StoredNumbers(AcceptedPrefix(numbers))
                && (r == Done <==> AllAccepted(numbers))
                && (r.Failed? ==> r.error == ValueTooLong)
      ensures clientId !in ClientIds(clients) ==>
                && phones == old(phones)
                && (numbers == [] ==> r == Done)
                && (numbers != [] ==> r == Failed(PhoneInsertError(clients, clientId, numbers[0]).value))
    {
      var i := 0;
      while i < |numbers|
        invariant 0 <= i <= |numbers|
        invariant Valid()
        invariant forall j :: 0 <= j < i ==> AcceptsNumber(numbers[j])
        invariant PhonesExcept(phones, clientId) == PhonesExcept(old(phones), clientId)
        invariant Numbers(PhonesOf(phones, clientId)) == Numbers(PhonesOf(old(phones), clientId)) + StoredNumbers(numbers[..i])
        invariant clientId !in ClientIds(clients) ==> i == 0 && phones == old(phones)
      {
        ghost var before := phones;
        ghost var row := Phone(nextPhoneId, clientId, StoredNumber(numbers[i]));
        var o := AddPhone(clientId, numbers[i]);
        if o.Failed? {
          if clientId in ClientIds(clients) {
            AcceptedPrefixAt(numbers, i);
          }
          return o;
        }
        PhoneLoopStep(old(phones), before, row, clientId, numbers, i);
        i := i + 1;
      }
      AcceptedPrefixAt(numbers, i);
      assert numbers[..i] == numbers;
      r := Done;
    }

    /** The `INSERT INTO clients ... RETURNING id` of `add_client`. */
    method InsertClient(firstName: string, lastName: string, email: string) returns (r: Result<int>)
      requires Valid()
      modifies this`clients, this`nextClientId
      ensures Valid()
      ensures ClientInsertError(old(clients), firstName, lastName, email).Some? ==>
                && r == Err(ClientInsertError(old(clients), firstName, lastName, email).value)
                && clients == old(clients) && nextClientId == old(nextClientId)
      ensures ClientInsertError(old(clients), firstName, lastName, email).None? ==>
                && r == Ok(old(nextClientId))
                && old(nextClientId) !in ClientIds(old(clients))
                && clients == old(clients) + [NewClient(old(nextClientId), firstName, lastName, email)]
                && Lookup(clients, old(nextClientId)) == Some(NewClient(old(nextClientId), firstName, lastName, email))
                && PhonesOf(phones, old(nextClientId)) == [] && PhonesExcept(phones, old(nextClientId)) == phones
                && nextClientId == old(nextClientId) + 1
    {
      var e := ClientInsertError(clients, firstName, lastName, email);
      if e.Some? {
        return Err(e.value);
      }
      var id := nextClientId;
      var row := NewClient(id, firstName, lastName, email);
      NoPhonesOfNewClient(clients, phones, id);
      DistinctAppend(clients, row, ClientKey);
      DistinctAppend(clients, row, EmailKey);
      clients := clients + [row];
      nextClientId := nextClientId + 1;
      LookupUnique(clients, |clients| - 1);
      r := Ok(id);
    }

    /** `add_client`: the client row, then its phones under the new id when
        `phones` is truthy. Returns the new id. */
    method AddClient(firstName: string, lastName: string, email: string, newPhones: Option<seq<string>>) returns (r: Result<int>)
      requires Valid()
      modifies this
      ensures Valid()
      ensures ClientInsertError(old(clients), firstName, lastName, email).Some? ==>
                && r == Err(ClientInsertError(old(clients), firstName, lastName, email).value)
                && clients == old(clients) && phones == old(phones) && nextClientId == old(nextClientId)
      ensures ClientInsertError(old(clients), firstName, lastName, email).None? ==>
                var id := old(nextClientId);
                && id !in ClientIds(old(clients))
                && clients == old(clients) + [NewClient(id, firstName, lastName, email)]
                && Lookup(clients, id) == Some(NewClient(id, firstName, lastName, email))
                && nextClientId == id + 1
                && PhonesExcept(phones, id) == old(phones)
                && Numbers(PhonesOf(phones, id)) == StoredNumbers(AcceptedPrefix(ListOrEmpty(newPhones)))
                && (r == Ok(id) <==> AllAccepted(ListOrEmpty(newPhones)))
                && (r != Ok(id) ==> r == Err(ValueTooLong))
    {
      var inserted := InsertClient(firstName, lastName, email);
      if inserted.Err? {
        return inserted;
      }
      var id := inserted.value;
      ghost var withClient := clients;
      assert id in ClientIds(clients) && Lookup(clients, id).Some?;
      if Truthy(newPhones) {
        var o := AddPhones(id, newPhones.value);
        r := if o.Done? then Ok(id) else Err(o.error);
      } else {
        AcceptedPrefixAt([], 0);
        r := Ok(id);
      }
    }

    /** `delete_phones`: `DELETE FROM phones WHERE client_id=%s`. */
    method DeletePhones(clientId: int)
      requires Valid()
      modifies this`phones
      ensures Valid()
      ensures phones == PhonesExcept(old(phones), clientId)
    {
      FilterDistinct(phones, NotOwnedBy(clientId), PhoneKey);
      phones := PhonesExcept(phones, clientId);
    }

    /** The `UPDATE` of `change_client`, sent only when some scalar argument is truthy. */
    method UpdateClient(clientId: int, args: UpdateArgs) returns (r: Outcome)
      requires Valid()
      modifies this`clients
      ensures Valid()
      ensures UpdateError(old(clients), clientId, Assignments(args)).Some? ==>
                r == Failed(UpdateError(old(clients), clientId, Assignments(args)).value) && clients == old(clients)
      ensures UpdateError(old(clients), clientId, Assignments(args)).None? ==>
                r == Done && clients == UpdateRows(old(clients), clientId, Assignments(args))
      ensures ClientIds(clients) == ClientIds(old(clients))
    {
      var stmt := BuildClientUpdate(clientId, args);
      AssignmentsEmpty(args);
      UpdateRowsIds(clients, clientId, Assignments(args));
      if stmt.Some? {
        var asg := Assignments(args);
        var e := UpdateError(clients, clientId, asg);
        if e.Some? {
          return Failed(e.value);
        }
        UpdateRowsValid(clients, clientId, asg);
        clients := UpdateRows(clients, clientId, asg);
      } else {
        assert clients == UpdateRows(clients, clientId, Assignments(args));
      }
      r := Done;
    }

    /** The phone step of `change_client`: `delete_phones`, then the given
        numbers in order. */
    method ReplacePhones(clientId: int, numbers: seq<string>) returns (r: Outcome)
      requires Valid()
      modifies this`phones, this`nextPhoneId
      ensures Valid()
      ensures PhonesExcept(phones, clientId) == PhonesExcept(old(phones), clientId)
      ensures clientId in ClientIds(clients) ==>
                && Numbers(PhonesOf(phones, clientId)) == StoredNumbers(AcceptedPrefix(numbers))
                && (r == Done <==> AllAccepted(numbers))
                && (r.Failed? ==> r.error == ValueTooLong)
      ensures clientId !in ClientIds(clients) ==>
                && phones == old(phones)
                && (numbers == [] ==> r == Done)
                && (numbers != [] ==> r == Failed(PhoneInsertError(clients, clientId, numbers[0]).value))
    {
      ghost var before := phones;
      DeletePhones(clientId);
      CascadeEffect(clients, before, clientId);
      FilterFilter(before, NotOwnedBy(clientId), NotOwnedBy(clientId), NotOwnedBy(clientId));
      if clientId !in ClientIds(clients) {
        NoPhonesOfNewClient(clients, before, clientId);
      }
      r := AddPhones(clientId, numbers);
    }

    /** `change_client`: the partial `UPDATE`, then, when `phones` is truthy,
        the client's phones replaced by the given list. */
    method ChangeClient(clientId: int, args: UpdateArgs, newPhones: Option<seq<string>>) returns (r: Outcome)
      requires Valid()
      modifies this`clients, this`phones, this`nextPhoneId
      ensures Valid()
      ensures nextClientId == old(nextClientId)
      ensures UpdateError(old(clients), clientId, Assignments(args)).Some? ==>
                && r == Failed(UpdateError(old(clients), clientId, Assignments(args)).value)
                && clients == old(clients) && phones == old(phones)
      ensures UpdateError(old(clients), clientId, Assignments(args)).None? ==>
                && clients == UpdateRows(old(clients), clientId, Assignments(args))
                && PhonesExcept(phones, clientId) == PhonesExcept(old(phones), clientId)
      ensures UpdateError(old(clients), clientId, Assignments(args)).None? && !Truthy(newPhones) ==>
                r == Done && phones == old(phones)
      ensures UpdateError(old(clients), clientId, Assignments(args)).None? && Truthy(newPhones) ==>
                && (clientId in ClientIds(old(clients)) ==>
                      && Numbers(PhonesOf(phones, clientId)) == StoredNumbers(AcceptedPrefix(newPhones.value))
                      && (r == Done <==> AllAccepted(newPhones.value))
                      && (r.Failed? ==> r.error == ValueTooLong))
                && (clientId !in ClientIds(old(clients)) ==>
                      && r == Failed(PhoneInsertError(old(clients), clientId, newPhones.value[0]).value)
                      && phones == old(phones))
    {
      r := UpdateClient(clientId, args);
      if r.Failed? {
        return;
      }
      if Truthy(newPhones) {
        r := ReplacePhones(clientId, newPhones.value);
      }
    }

    /** `delete_phone`: `DELETE FROM phones WHERE client_id=%s AND number=%s`. */
    method DeletePhone(clientId: int, number: string)
      requires Valid()
      modifies this`phones
      ensures Valid()
      ensures phones == WithoutNumber(old(phones), clientId, number)
    {
      FilterDistinct(phones, NotThisNumber(clientId, number), PhoneKey);
      phones := WithoutNumber(phones, clientId, number);
    }

    /** `delete_client`: `DELETE FROM clients WHERE id=%s`; `ON DELETE
        CASCADE` removes the client's phone rows in the same statement. */
    method DeleteClient(clientId: int)
      requires Valid()
      modifies this`clients, this`phones
      ensures Valid()
      ensures clients == ClientsExcept(old(clients), clientId)
      ensures phones == PhonesExcept(old(phones), clientId)
    {
      FilterDistinct(clients, NotThisClient(clientId), ClientKey);
      FilterDistinct(clients, NotThisClient(clientId), EmailKey);
      FilterDistinct(phones, NotOwnedBy(clientId), PhoneKey);
      CascadeEffect(clients, phones, clientId);
      clients := ClientsExcept(clients, clientId);
      phones := PhonesExcept(phones, clientId);
    }

    /** `find_client`: the search statement, or the database's syntax error
        for the empty `WHERE` it sends when no argument is truthy. */
    method FindClient(args: SearchArgs, ilike: (string, string) -> bool) returns (r: Result<seq<Found>>)
      ensures r.Err? <==> !Truthy(args.firstName) && !Truthy(args.lastName) && !Truthy(args.email) && !Truthy(args.phone)
      ensures r.Err? ==> r.error == SyntaxError
      ensures r.Ok? ==> r.value == SearchResults(clients, phones, args, ilike)
    {
      var stmt := BuildClientSearch(args);
      if stmt.params == [] {
        r := Err(SyntaxError);
      } else {
        r := Ok(SearchResults(clients, phones, args, ilike));
      }
    }
  }

  /** One more successful `add_phone` of the loop over the numbers: the
      client's numbers grow by the stored number, the other clients' rows
      stay as they were. */
  lemma PhoneLoopStep(start: seq<Phone>, before: seq<Phone>, row: Phone, id: int, numbers: seq<string>, i: nat)
    requires i < |numbers| && row.clientId == id && row.number == StoredNumber(numbers[i]) && AcceptsNumber(numbers[i])
    requires forall j :: 0 <= j < i ==> AcceptsNumber(numbers[j])
    requires PhonesExcept(before, id) == PhonesExcept(start, id)
    requires Numbers(PhonesOf(before, id)) == Numbers(PhonesOf(start, id)) + StoredNumbers(numbers[..i])
    ensures forall j :: 0 <= j < i + 1 ==> AcceptsNumber(numbers[j])
    ensures PhonesExcept(before + [row], id) == PhonesExcept(start, id)
    ensures Numbers(PhonesOf(before + [row], id)) == Numbers(PhonesOf(start, id)) + StoredNumbers(numbers[..i + 1])
  {
    PhonesAppend(before, row, id);
    assert numbers[..i + 1] == numbers[..i] + [numbers[i]];
    StoredNumbersAppend(numbers[..i], numbers[i]);
  }

  /** A fresh client id owns no phone row yet. */
  lemma NoPhonesOfNewClient(cs: seq<Client>, ps: seq<Phone>, id: int)
    requires id !in ClientIds(cs)
    requires forall p :: p in ps ==> p.clientId in ClientIds(cs)
    ensures PhonesOf(ps, id) == [] && PhonesExcept(ps, id) == ps
  {
    FilterKeepsAll(ps, NotOwnedBy(id));
    if PhonesOf(ps, id) != [] {
      FilterMember(ps, OwnedBy(id), PhonesOf(ps, id)[0]);
    }
  }

  // ---------------------------------------------------------------------
  // What the deletes leave behind
  // ---------------------------------------------------------------------

  /** `delete_client` removes the client's id and every phone row of that
      client, and leaves the phone rows of every other client as they were. */
  lemma CascadeEffect(cs: seq<Client>, ps: seq<Phone>, id: int)
    ensures ClientIds(ClientsExcept(cs, id)) == ClientIds(cs) - {id}
    ensures PhonesOf(PhonesExcept(ps, id), id) == []
    ensures forall other :: other != id ==> PhonesOf(PhonesExcept(ps, id), other) == PhonesOf(ps, other)
    ensures forall p :: p in ps && p.clientId in ClientIds(cs) && p.clientId != id ==> p in PhonesExcept(ps, id)
  {
    var kept := ClientsExcept(cs, id);
    forall x | x in ClientIds(cs) - {id} ensures x in ClientIds(kept) {
      var c :| c in cs && c.id == x;
      FilterMember(cs, NotThisClient(id), c);
    }
    forall x | x in ClientIds(kept) ensures x in ClientIds(cs) - {id} {
      var c :| c in kept && c.id == x;
      FilterMember(cs, NotThisClient(id), c);
    }
    if PhonesOf(PhonesExcept(ps, id), id) != [] {
      var p := PhonesOf(PhonesExcept(ps, id), id)[0];
      FilterMember(PhonesExcept(ps, id), OwnedBy(id), p);
      FilterMember(ps, NotOwnedBy(id), p);
    }
    forall other | other != id ensures PhonesOf(PhonesExcept(ps, id), other) == PhonesOf(ps, other) {
      FilterFilter(ps, NotOwnedBy(id), OwnedBy(other), OwnedBy(other));
    }
    forall p | p in ps && p.clientId != id ensures p in PhonesExcept(ps, id) {
      FilterMember(ps, NotOwnedBy(id), p);
    }
  }

  /** `delete_phone` removes from the client's list exactly the rows with that
      number, keeping the others in order, and touches no other client's rows. */
  lemma DeletePhoneEffect(ps: seq<Phone>, id: int, n: string)
    ensures PhonesExcept(WithoutNumber(ps, id, n), id) == PhonesExcept(ps, id)
    ensures PhonesOf(WithoutNumber(ps, id, n), id) == Filter(PhonesOf(ps, id), NumberIsNot(n))
    ensures n !in Numbers(PhonesOf(WithoutNumber(ps, id, n), id))
  {
    FilterFilter(ps, NotThisNumber(id, n), NotOwnedBy(id), NotOwnedBy(id));
    FilterFilter(ps, NotOwnedBy(id), NotOwnedBy(id), NotOwnedBy(id));
    FilterFilter(ps, NotThisNumber(id, n), OwnedBy(id), OwnedOtherNumber(id, n));
    FilterFilter(ps, OwnedBy(id), NumberIsNot(n), OwnedOtherNumber(id, n));
    NumberRemoved(ps, id, n);
  }

  function NumberIsNot(n: string): Phone -> bool {
    (p: Phone) => p.number != n
  }

  function OwnedOtherNumber(id: int, n: string): Phone -> bool {
    (p: Phone) => p.clientId == id && p.number != n
  }
}
