/** The two statements whose text the client functions assemble at run time:
    the partial `UPDATE` of `change_client` and the search `SELECT` of
    `find_client`. Each builder grows a list of SQL fragments and a parallel
    list of parameters under one `if` per keyword argument. */
module QueryBuilders {
  import opened Optional
  import opened Sequences
  import opened SqlText
  import opened Schema

  /** A statement parameter: a text value or an integer id. */
  datatype Param = Text(text: string) | Integer(n: int)

  /** A query text with the parameters psycopg2 substitutes for its `%s`. */
  datatype Statement = Statement(query: string, params: seq<Param>)

  // ---------------------------------------------------------------------
  // change_client: UPDATE clients SET ... WHERE id=%s
  // ---------------------------------------------------------------------

  /** The scalar keyword arguments of `change_client`. */
  datatype UpdateArgs = UpdateArgs(firstName: Option<string>, lastName: Option<string>, email: Option<string>) {
    function Get(c: Column): Option<string> {
      match c
      case FirstName => firstName
      case LastName => lastName
      case Email => email
    }
  }

  /** One `column=%s` item of the `SET` list with the value bound to it. */
  datatype Assignment = Assignment(column: Column, value: string)

  /** The order in which `change_client` tests its arguments. */
  const UpdateOrder: seq<Column> := [FirstName, LastName, Email]

  function ColumnRank(c: Column): int {
    match c
    case FirstName => 0
    case LastName => 1
    case Email => 2
  }

  function IsSet(args: UpdateArgs): Column -> bool {
    c => Truthy(args.Get(c))
  }

  /** The columns the `UPDATE` sets: the truthy arguments, in test order. */
  function SetColumns(args: UpdateArgs): seq<Column> {
    Filter(UpdateOrder, IsSet(args))
  }

  /** The `SET` list of the `UPDATE`, with the value bound to each column. */
  function Assignments(args: UpdateArgs): seq<Assignment> {
    AssignmentsOf(args, SetColumns(args))
  }

  /** The `SET` items for the columns `cols`, with the value bound to each. */
  function AssignmentsOf(args: UpdateArgs, cols: seq<Column>): seq<Assignment> {
    seq(|cols|, i requires 0 <= i < |cols| => Assignment(cols[i], ListOrEmpty(args.Get(cols[i]))))
  }

  function ColumnIf(args: UpdateArgs, c: Column): seq<Column> {
    if Truthy(args.Get(c)) then [c] else []
  }

  lemma AssignmentsOfSingle(args: UpdateArgs, c: Column)
    ensures AssignmentsOf(args, ColumnIf(args, c)) == AssignmentIf(args, c)
  {
  }

  lemma AssignmentsOfAppend(args: UpdateArgs, a: seq<Column>, b: seq<Column>)
    ensures AssignmentsOf(args, a + b) == AssignmentsOf(args, a) + AssignmentsOf(args, b)
  {
  }

  function SetFragment(c: Column): string {
    ColumnName(c) + "=%s"
  }

  /** The `column=%s` items of a `SET` list. */
  function Fragments(asg: seq<Assignment>): seq<string> {
    seq(|asg|, i requires 0 <= i < |asg| => SetFragment(asg[i].column))
  }

  /** The values bound by a `SET` list, in order. */
  function Values(asg: seq<Assignment>): seq<Param> {
    seq(|asg|, i requires 0 <= i < |asg| => Text(asg[i].value))
  }

  lemma FragmentsAppend(a: seq<Assignment>, b: seq<Assignment>)
    ensures Fragments(a + b) == Fragments(a) + Fragments(b)
    ensures Values(a + b) == Values(a) + Values(b)
  {
  }

  lemma FragmentsIf(args: UpdateArgs, c: Column)
    ensures Fragments(AssignmentIf(args, c)) == if Truthy(args.Get(c)) then [SetFragment(c)] else []
    ensures Values(AssignmentIf(args, c)) == if Truthy(args.Get(c)) then [Text(args.Get(c).value)] else []
  {
  }

  /** The `UPDATE` text for a `SET` list. */
  function UpdateQuery(asg: seq<Assignment>): string {
    "UPDATE clients SET " + Join(", ", Fragments(asg)) + " WHERE id=%s"
  }

  /** The `UPDATE` parameters: the `SET` values in order, then the client id. */
  function UpdateParams(clientId: int, asg: seq<Assignment>): seq<Param> {
    Values(asg) + [Integer(clientId)]
  }

  /** The explicit three-way shape of `SetColumns`. */
  lemma SetColumnsCases(args: UpdateArgs)
    ensures SetColumns(args) ==
      (if Truthy(args.firstName) then [FirstName] else [])
      + (if Truthy(args.lastName) then [LastName] else [])
      + (if Truthy(args.email) then [Email] else [])
  {
    var keep := IsSet(args);
    assert UpdateOrder == [FirstName] + [LastName] + [Email];
    FilterAppend([FirstName], [LastName], keep);
    FilterAppend([FirstName] + [LastName], [Email], keep);
    FilterSingle(FirstName, keep);
    FilterSingle(LastName, keep);
    FilterSingle(Email, keep);
  }

  function AssignmentIf(args: UpdateArgs, c: Column): seq<Assignment> {
    if Truthy(args.Get(c)) then [Assignment(c, args.Get(c).value)] else []
  }

  /** The explicit three-way shape of `Assignments`. */
  lemma AssignmentsCases(args: UpdateArgs)
    ensures Assignments(args) ==
      AssignmentIf(args, FirstName) + AssignmentIf(args, LastName) + AssignmentIf(args, Email)
  {
    SetColumnsCases(args);
    var c1 := ColumnIf(args, FirstName);
    var c2 := ColumnIf(args, LastName);
    var c3 := ColumnIf(args, Email);
    assert SetColumns(args) == c1 + c2 + c3;
    AssignmentsOfAppend(args, c1, c2);
    AssignmentsOfAppend(args, c1 + c2, c3);
    AssignmentsOfSingle(args, FirstName);
    AssignmentsOfSingle(args, LastName);
    AssignmentsOfSingle(args, Email);
  }

  /** A column is set exactly when its argument is truthy, and to that
      argument: a falsy argument leaves its column out of the `SET` list. */
  lemma AssignmentsMembers(args: UpdateArgs)
    ensures forall a :: a in Assignments(args) <==>
              Truthy(args.Get(a.column)) && a.value == args.Get(a.column).value
  {
    AssignmentsCases(args);
  }

  /** The `SET` list comes in the order first_name, last_name, email. */
  lemma AssignmentsOrdered(args: UpdateArgs)
    ensures forall i, j :: 0 <= i < j < |Assignments(args)| ==>
              ColumnRank(Assignments(args)[i].column) < ColumnRank(Assignments(args)[j].column)
  {
    assert StrictlyIncreasing(UpdateOrder, ColumnRank);
    FilterIncreasing(UpdateOrder, IsSet(args), ColumnRank);
  }

  /** The `SET` list is empty exactly when no scalar argument is truthy. */
  lemma AssignmentsEmpty(args: UpdateArgs)
    ensures Assignments(args) == [] <==> !Truthy(args.firstName) && !Truthy(args.lastName) && !Truthy(args.email)
  {
    AssignmentsCases(args);
  }

  /** Each `column=%s` item takes one parameter. */
  lemma SetFragmentPlaceholder(c: Column)
    ensures Closed(SetFragment(c)) && PlaceholderCount(SetFragment(c)) == 1
  {
    match c
    case FirstName =>
      assert SetFragment(c) == "first_name=" + "%s";
      LiteralThenPlaceholder("first_name=");
    case LastName =>
      assert SetFragment(c) == "last_name=" + "%s";
      LiteralThenPlaceholder("last_name=");
    case Email =>
      assert SetFragment(c) == "email=" + "%s";
      LiteralThenPlaceholder("email=");
  }

  lemma UpdateHeadHasNoPercent()
    ensures '%' !in "UPDATE clients SET "
  {
    NoPercentAppend("UPDATE ", "clients SET ");
    assert "UPDATE " + "clients SET " == "UPDATE clients SET ";
  }

  lemma WhereIdPlaceholder()
    ensures PlaceholderCount(" WHERE id=%s") == 1
  {
    LiteralThenPlaceholder(" WHERE id=");
    assert " WHERE id=" + "%s" == " WHERE id=%s";
  }

  /** The `UPDATE` takes exactly one parameter per `%s`. */
  lemma {:induction false} UpdatePlaceholders(clientId: int, asg: seq<Assignment>)
    ensures PlaceholderCount(UpdateQuery(asg)) == |UpdateParams(clientId, asg)|
  {
    var parts := Fragments(asg);
    forall i | 0 <= i < |parts| ensures Closed(parts[i]) && PlaceholderCount(parts[i]) == 1 {
      SetFragmentPlaceholder(asg[i].column);
    }
    NoPercentNoPlaceholder(", ");
    JoinPlaceholders(", ", parts);
    WhereIdPlaceholder();
    UpdateHeadHasNoPercent();
    FramedPlaceholders("UPDATE clients SET ", Join(", ", parts), " WHERE id=%s");
  }

  /** The statement `change_client` sends for its scalar arguments, or `None`
      when it sends no `UPDATE` at all. */
  method BuildClientUpdate(clientId: int, args: UpdateArgs) returns (stmt: Option<Statement>)
    ensures stmt.None? <==> !Truthy(args.firstName) && !Truthy(args.lastName) && !Truthy(args.email)
    ensures stmt.Some? ==> stmt.value == Statement(UpdateQuery(Assignments(args)), UpdateParams(clientId, Assignments(args)))
    ensures stmt.Some? ==> PlaceholderCount(stmt.value.query) == |stmt.value.params|
    ensures stmt.Some? ==> stmt.value.params[|stmt.value.params| - 1] == Integer(clientId)
  {
    ghost var a1 := AssignmentIf(args, FirstName);
    ghost var a2 := a1 + AssignmentIf(args, LastName);
    ghost var a3 := a2 + AssignmentIf(args, Email);
    var updates: seq<string> := [];
    var values: seq<Param> := [];
    if Truthy(args.firstName) {
      updates := updates + ["first_name=%s"];
      values := values + [Text(args.firstName.value)];
    }
    assert updates == Fragments(a1) && values == Values(a1) by {
      FragmentsIf(args, FirstName);
      assert SetFragment(FirstName) == "first_name=%s";
    }
    if Truthy(args.lastName) {
      updates := updates + ["last_name=%s"];
      values := values + [Text(args.lastName.value)];
    }
    assert updates == Fragments(a2) && values == Values(a2) by {
      FragmentsIf(args, LastName);
      FragmentsAppend(a1, AssignmentIf(args, LastName));
      assert SetFragment(LastName) == "last_name=%s";
    }
    if Truthy(args.email) {
      updates := updates + ["email=%s"];
      values := values + [Text(args.email.value)];
    }
    assert updates == Fragments(a3) && values == Values(a3) by {
      FragmentsIf(args, Email);
      FragmentsAppend(a2, AssignmentIf(args, Email));
      assert SetFragment(Email) == "email=%s";
    }
    assert a3 == Assignments(args) by {
      AssignmentsCases(args);
    }
    AssignmentsEmpty(args);
    if updates != [] {
      values := values + [Integer(clientId)];
      stmt := Some(Statement("UPDATE clients SET " + Join(", ", updates) + " WHERE id=%s", values));
      UpdatePlaceholders(clientId, a3);
    } else {
      stmt := None;
    }
  }

  // ---------------------------------------------------------------------
  // find_client: SELECT ... WHERE <conditions> GROUP BY c.id
  // ---------------------------------------------------------------------

  /** The search fields of `find_client`, in the order it tests them. */
  datatype Criterion = ByFirstName | ByLastName | ByEmail | ByPhone

  /** The keyword arguments of `find_client`. */
  datatype SearchArgs = SearchArgs(firstName: Option<string>, lastName: Option<string>, email: Option<string>, phone: Option<string>) {
    function Get(k: Criterion): Option<string> {
      match k
      case ByFirstName => firstName
      case ByLastName => lastName
      case ByEmail => email
      case ByPhone => phone
    }
  }

  /** One `... ILIKE %s` condition with the value searched for. */
  datatype Term = Term(criterion: Criterion, value: string)

  const SearchOrder: seq<Criterion> := [ByFirstName, ByLastName, ByEmail, ByPhone]

  function CriterionRank(k: Criterion): int {
    match k
    case ByFirstName => 0
    case ByLastName => 1
    case ByEmail => 2
    case ByPhone => 3
  }

  function ConditionText(k: Criterion): string {
    match k
    case ByFirstName => "c.first_name ILIKE %s"
    case ByLastName => "c.last_name ILIKE %s"
    case ByEmail => "c.email ILIKE %s"
    case ByPhone => "p.number ILIKE %s"
  }

  /** The `ILIKE` pattern for a value: `'%{}%'.format(value)`, any text containing it. */
  function Pattern(v: string): string {
    "%" + v + "%"
  }

  const Indent: string := "                   "

  /** The fixed head of the search query, up to and including `WHERE `. */
  const SearchPrefix: string := SelectLine + Indent + FromLine + Indent + JoinLine + Indent + WhereLine

  const SearchSuffix: string := " GROUP BY c.id"

  function IsGiven(args: SearchArgs): Criterion -> bool {
    k => Truthy(args.Get(k))
  }

  /** The criteria the search filters on: the truthy arguments, in test order. */
  function ActiveCriteria(args: SearchArgs): seq<Criterion> {
    Filter(SearchOrder, IsGiven(args))
  }

  /** The conditions on the criteria `ks`, with the value each one searches for. */
  function TermsOf(args: SearchArgs, ks: seq<Criterion>): seq<Term> {
    seq(|ks|, i requires 0 <= i < |ks| => Term(ks[i], ListOrEmpty(args.Get(ks[i]))))
  }

  /** The conditions of the search, with the value each one searches for. */
  function Terms(args: SearchArgs): seq<Term> {
    TermsOf(args, ActiveCriteria(args))
  }

  function Conditions(ts: seq<Term>): seq<string> {
    seq(|ts|, i requires 0 <= i < |ts| => ConditionText(ts[i].criterion))
  }

  function Patterns(ts: seq<Term>): seq<Param> {
    seq(|ts|, i requires 0 <= i < |ts| => Text(Pattern(ts[i].value)))
  }

  lemma ConditionsAppend(a: seq<Term>, b: seq<Term>)
    ensures Conditions(a + b) == Conditions(a) + Conditions(b)
    ensures Patterns(a + b) == Patterns(a) + Patterns(b)
  {
  }

  /** The search text for a list of conditions. */
  function SearchQuery(ts: seq<Term>): string {
    SearchPrefix + Join(" AND ", Conditions(ts)) + SearchSuffix
  }

  function TermIf(args: SearchArgs, k: Criterion): seq<Term> {
    if Truthy(args.Get(k)) then [Term(k, args.Get(k).value)] else []
  }

  lemma ConditionsIf(args: SearchArgs, k: Criterion)
    ensures Conditions(TermIf(args, k)) == if Truthy(args.Get(k)) then [ConditionText(k)] else []
    ensures Patterns(TermIf(args, k)) == if Truthy(args.Get(k)) then [Text(Pattern(args.Get(k).value))] else []
  {
  }

  /** The explicit four-way shape of `ActiveCriteria`. */
  lemma ActiveCriteriaCases(args: SearchArgs)
    ensures ActiveCriteria(args) ==
      (if Truthy(args.firstName) then [ByFirstName] else [])
      + (if Truthy(args.lastName) then [ByLastName] else [])
      + (if Truthy(args.email) then [ByEmail] else [])
      + (if Truthy(args.phone) then [ByPhone] else [])
  {
    var keep := IsGiven(args);
    assert SearchOrder == [ByFirstName] + [ByLastName] + [ByEmail] + [ByPhone];
    FilterAppend([ByFirstName], [ByLastName], keep);
    FilterAppend([ByFirstName] + [ByLastName], [ByEmail], keep);
    FilterAppend([ByFirstName] + [ByLastName] + [ByEmail], [ByPhone], keep);
    FilterSingle(ByFirstName, keep);
    FilterSingle(ByLastName, keep);
    FilterSingle(ByEmail, keep);
    FilterSingle(ByPhone, keep);
  }

  /** The explicit four-way shape of `Terms`. */
  lemma TermsCases(args: SearchArgs)
    ensures Terms(args) ==
      TermIf(args, ByFirstName) + TermIf(args, ByLastName) + TermIf(args, ByEmail) + TermIf(args, ByPhone)
  {
    ActiveCriteriaCases(args);
    var k1 := CriterionIf(args, ByFirstName);
    var k2 := CriterionIf(args, ByLastName);
    var k3 := CriterionIf(args, ByEmail);
    var k4 := CriterionIf(args, ByPhone);
    assert ActiveCriteria(args) == k1 + k2 + k3 + k4;
    TermsOfAppend(args, k1, k2);
    TermsOfAppend(args, k1 + k2, k3);
    TermsOfAppend(args, k1 + k2 + k3, k4);
    TermsOfSingle(args, ByFirstName);
    TermsOfSingle(args, ByLastName);
    TermsOfSingle(args, ByEmail);
    TermsOfSingle(args, ByPhone);
  }

  function CriterionIf(args: SearchArgs, k: Criterion): seq<Criterion> {
    if Truthy(args.Get(k)) then [k] else []
  }

  lemma TermsOfSingle(args: SearchArgs, k: Criterion)
    ensures TermsOf(args, CriterionIf(args, k)) == TermIf(args, k)
  {
  }

  lemma TermsOfAppend(args: SearchArgs, a: seq<Criterion>, b: seq<Criterion>)
    ensures TermsOf(args, a + b) == TermsOf(args, a) + TermsOf(args, b)
  {
  }

  /** A field is searched on exactly when its argument is truthy, for that value. */
  lemma TermsMembers(args: SearchArgs)
    ensures forall t :: t in Terms(args) <==>
              Truthy(args.Get(t.criterion)) && t.value == args.Get(t.criterion).value
  {
    TermsCases(args);
  }

  /** The conditions come in the order first_name, last_name, email, phone. */
  lemma TermsOrdered(args: SearchArgs)
    ensures forall i, j :: 0 <= i < j < |Terms(args)| ==>
              CriterionRank(Terms(args)[i].criterion) < CriterionRank(Terms(args)[j].criterion)
  {
    assert StrictlyIncreasing(SearchOrder, CriterionRank);
    FilterIncreasing(SearchOrder, IsGiven(args), CriterionRank);
  }

  /** There is no condition exactly when no argument is truthy. */
  lemma TermsEmpty(args: SearchArgs)
    ensures Terms(args) == [] <==>
              !Truthy(args.firstName) && !Truthy(args.lastName) && !Truthy(args.email) && !Truthy(args.phone)
  {
    TermsCases(args);
  }

  const SelectLine: string := "SELECT c.id, c.first_name, " + "c.last_name, c.email, " + "array_agg(p.number) AS phones\n"
  const FromLine: string := "FROM clients c\n"
  const JoinLine: string := "LEFT JOIN phones p ON c.id = p.client_id\n"
  const WhereLine: string := "WHERE "

  lemma SelectLineHasNoPercent()
    ensures '%' !in SelectLine
  {
    NoPercentAppend("SELECT c.id, c.first_name, ", "c.last_name, c.email, ");
    NoPercentAppend("SELECT c.id, c.first_name, " + "c.last_name, c.email, ", "array_agg(p.number) AS phones\n");
  }

  lemma IndentHasNoPercent()
    ensures '%' !in Indent
  {
  }

  lemma FromLineHasNoPercent()
    ensures '%' !in FromLine
  {
  }

  lemma JoinLineHasNoPercent()
    ensures '%' !in JoinLine
  {
  }

  lemma WhereAndGroupHaveNoPercent()
    ensures '%' !in WhereLine && '%' !in SearchSuffix
  {
  }

  lemma SearchTextHasNoPercent()
    ensures '%' !in SearchPrefix && '%' !in SearchSuffix
  {
    SelectLineHasNoPercent();
    IndentHasNoPercent();
    FromLineHasNoPercent();
    JoinLineHasNoPercent();
    WhereAndGroupHaveNoPercent();
    NoPercentAppend(SelectLine, Indent);
    NoPercentAppend(SelectLine + Indent, FromLine);
    NoPercentAppend(SelectLine + Indent + FromLine, Indent);
    NoPercentAppend(SelectLine + Indent + FromLine + Indent, JoinLine);
    NoPercentAppend(SelectLine + Indent + FromLine + Indent + JoinLine, Indent);
    NoPercentAppend(SelectLine + Indent + FromLine + Indent + JoinLine + Indent, WhereLine);
  }

  /** Each `... ILIKE %s` condition takes one parameter. */
  lemma ConditionPlaceholder(k: Criterion)
    ensures Closed(ConditionText(k)) && PlaceholderCount(ConditionText(k)) == 1
  {
    match k
    case ByFirstName =>
      assert ConditionText(k) == "c.first_name ILIKE " + "%s";
      LiteralThenPlaceholder("c.first_name ILIKE ");
    case ByLastName =>
      assert ConditionText(k) == "c.last_name ILIKE " + "%s";
      LiteralThenPlaceholder("c.last_name ILIKE ");
    case ByEmail =>
      assert ConditionText(k) == "c.email ILIKE " + "%s";
      LiteralThenPlaceholder("c.email ILIKE ");
    case ByPhone =>
      assert ConditionText(k) == "p.number ILIKE " + "%s";
      LiteralThenPlaceholder("p.number ILIKE ");
  }

  /** The search takes exactly one parameter per `%s`; the `%` signs of the
      patterns are parameters, not query text. */
  lemma {:induction false} SearchPlaceholders(ts: seq<Term>)
    ensures PlaceholderCount(SearchQuery(ts)) == |Patterns(ts)|
  {
    var parts := Conditions(ts);
    forall i | 0 <= i < |parts| ensures Closed(parts[i]) && PlaceholderCount(parts[i]) == 1 {
      ConditionPlaceholder(ts[i].criterion);
    }
    NoPercentNoPlaceholder(" AND ");
    JoinPlaceholders(" AND ", parts);
    SearchTextHasNoPercent();
    NoPercentNoPlaceholder(SearchSuffix);
    FramedPlaceholders(SearchPrefix, Join(" AND ", parts), SearchSuffix);
  }

  /** One `if` of `find_client`: a truthy argument adds its condition and
      its pattern, a falsy one adds nothing. */
  lemma SearchStep(args: SearchArgs, k: Criterion, t: seq<Term>,
                   conds: seq<string>, vals: seq<Param>, conds': seq<string>, vals': seq<Param>)
    requires conds == Conditions(t) && vals == Patterns(t)
    requires Truthy(args.Get(k)) ==> conds' == conds + [ConditionText(k)] && vals' == vals + [Text(Pattern(args.Get(k).value))]
    requires !Truthy(args.Get(k)) ==> conds' == conds && vals' == vals
    ensures conds' == Conditions(t + TermIf(args, k)) && vals' == Patterns(t + TermIf(args, k))
  {
    ConditionsIf(args, k);
    ConditionsAppend(t, TermIf(args, k));
  }

  /** The four `if`s together build the conditions of `Terms`. */
  lemma SearchSteps(args: SearchArgs)
    ensures Terms(args) == TermIf(args, ByFirstName) + TermIf(args, ByLastName) + TermIf(args, ByEmail) + TermIf(args, ByPhone)
    ensures Patterns(Terms(args)) == [] <==>
              !Truthy(args.firstName) && !Truthy(args.lastName) && !Truthy(args.email) && !Truthy(args.phone)
    ensures PlaceholderCount(SearchQuery(Terms(args))) == |Patterns(Terms(args))|
    ensures Patterns(Terms(args)) == [] ==> SearchQuery(Terms(args)) == SearchPrefix + SearchSuffix
  {
    if Patterns(Terms(args)) == [] {
      assert Conditions(Terms(args)) == [];
      assert SearchPrefix + "" == SearchPrefix;
    }
    TermsCases(args);
    TermsEmpty(args);
    SearchPlaceholders(Terms(args));
  }

  /** The statement `find_client` sends. With no truthy argument it has no
      parameter and its `WHERE` is followed directly by `GROUP BY`. */
  method BuildClientSearch(args: SearchArgs) returns (stmt: Statement)
    ensures stmt == Statement(SearchQuery(Terms(args)), Patterns(Terms(args)))
    ensures PlaceholderCount(stmt.query) == |stmt.params|
    ensures stmt.params == [] <==>
              !Truthy(args.firstName) && !Truthy(args.lastName) && !Truthy(args.email) && !Truthy(args.phone)
    ensures stmt.params == [] ==> stmt.query == SearchPrefix + SearchSuffix
  {
    ghost var t1 := TermIf(args, ByFirstName);
    ghost var t2 := t1 + TermIf(args, ByLastName);
    ghost var t3 := t2 + TermIf(args, ByEmail);
    ghost var t4 := t3 + TermIf(args, ByPhone);
    var query := SearchPrefix;
    var conditions: seq<string> := [];
    var values: seq<Param> := [];
    ghost var c0, v0 := conditions, values;
    if Truthy(args.firstName) {
      conditions := conditions + [ConditionText(ByFirstName)];
      values := values + [Text(Pattern(args.firstName.value))];
    }
    SearchStep(args, ByFirstName, [], c0, v0, conditions, values);
    ghost var c1, v1 := conditions, values;
    if Truthy(args.lastName) {
      conditions := conditions + [ConditionText(ByLastName)];
      values := values + [Text(Pattern(args.lastName.value))];
    }
    SearchStep(args, ByLastName, t1, c1, v1, conditions, values);
    ghost var c2, v2 := conditions, values;
    if Truthy(args.email) {
      conditions := conditions + [ConditionText(ByEmail)];
      values := values + [Text(Pattern(args.email.value))];
    }
    SearchStep(args, ByEmail, t2, c2, v2, conditions, values);
    ghost var c3, v3 := conditions, values;
    if Truthy(args.phone) {
      conditions := conditions + [ConditionText(ByPhone)];
      values := values + [Text(Pattern(args.phone.value))];
    }
    SearchStep(args, ByPhone, t3, c3, v3, conditions, values);
    SearchSteps(args);
    query := query + Join(" AND ", conditions) + SearchSuffix;
    stmt := Statement(query, values);
  }
}
