/**
 Running a plan: the raw-SQL passthrough, the full-text prefilter with its hit
 limit and early return, and the SQL built from the plan, against the naive
 reading of the same plan as a scan of the whole table.
 */
module Executor {
  import opened Prelude
  import opened Lexical
  import opened SqlTokens
  import opened SqlSyntax
  import opened SqlBuilder
  import opened PlanMeaning
  import opened SearchIndex

  const TEXT_SEARCH_LIMIT := 5000

  /** A stored record: its id and message, its other columns, and its attributes map. */
  datatype Row = Row(recordId: string, message: string, columns: map<string, string>, attributes: map<string, string>)

  datatype Result = Result(columns: seq<string>, rows: seq<seq<string>>)

  datatype Outcome = Answer(result: Result) | Failed(error: string)

  datatype SearchReply = Hits(ids: seq<string>) | SearchFailed(error: string)

  /** How a cell compares with a literal. */
  datatype Ordering = Before | Same | After

  /**
   The database engine: how a column's type orders its text against a string
   literal, what toFloat64OrZero makes of a text, any comparison the compiler does
   not emit, and what it makes of the rows its WHERE clause selected (grouping,
   ordering, limit).
   */
  datatype Engine = Engine(
    collate: (Column, string, string) -> Ordering, toFloat: string -> real, other: (Cond, Row) -> bool,
    finish: (Statement, seq<Row>) -> Result)

  function Execute(plan: Plan, run: string -> Outcome, search: (string, nat) -> SearchReply): Outcome {
    if plan.rawSql != "" then run(plan.rawSql)
    else if plan.textSearch == [] then run(StatementStr(Intended(plan, [])))
    else
      match search(plan.textSearch[0], TEXT_SEARCH_LIMIT)
      case SearchFailed(e) => Failed("full-text search failed: " + e)
      case Hits(ids) => if ids == [] then Answer(Result([], [])) else run(StatementStr(Intended(plan, ids)))
  }

  // ---------------------------------------------------------------------
  // What SQL text means
  // ---------------------------------------------------------------------

  function Get(m: map<string, string>, key: string): string {
    if key in m then m[key] else ""
  }

  /** A missing attribute reads as the empty text. */
  function CellOf(row: Row, col: Column): string {
    match col
    case Top(name) =>
      if name == "record_id" then row.recordId else if name == "message" then row.message else Get(row.columns, name)
    case Attribute(key) => Get(row.attributes, key)
  }

  function Pow10(n: nat): (p: nat)
    ensures p > 0
  {
    if n == 0 then 1 else 10 * Pow10(n - 1)
  }

  /** The value of digits with an optional decimal point. */
  function UnsignedValue(digits: string): real {
    var n := Span(digits, Digit);
    if n == |digits| || !All(digits[n + 1..], Digit) then Decimal(digits[..n]) as real
    else Decimal(digits[..n]) as real + Decimal(digits[n + 1..]) as real / Pow10(|digits| - n - 1) as real
  }

  function OrderOfReals(a: real, b: real): Ordering {
    if a < b then Before else if a > b then After else Same
  }

  /** What an SQL operator makes of an ordering. */
  predicate Satisfies(op: Op, o: Ordering) {
    match op
    case Eq => o.Same?
    case Ne => !o.Same?
    case Gt => o.After?
    case Ge => !o.Before?
    case Lt => o.Before?
    case Le => !o.After?
  }

  predicate Holds(engine: Engine, c: Cond, row: Row) {
    match c
    case RecordIdIn(ids) => row.recordId in ids
    case Compare(lhs, op, rhs) =>
      var cell := CellOf(row, lhs.col);
      if !lhs.cast && rhs.StrLit? then Satisfies(op, engine.collate(lhs.col, cell, rhs.s))
      else if lhs.cast && rhs.NumLit? then
        var v := UnsignedValue(rhs.digits);
        Satisfies(op, OrderOfReals(engine.toFloat(cell), if rhs.negative then -v else v))
      else engine.other(c, row)
  }

  predicate HoldAll(engine: Engine, cs: seq<Cond>, row: Row) {
    forall i :: 0 <= i < |cs| ==> Holds(engine, cs[i], row)
  }

  function Filter(p: Row -> bool, table: seq<Row>): seq<Row> {
    if table == [] then []
    else if p(table[0]) then [table[0]] + Filter(p, table[1..])
    else Filter(p, table[1..])
  }

  function Selected(engine: Engine, cs: seq<Cond>, table: seq<Row>): seq<Row> {
    Filter(row => HoldAll(engine, cs, row), table)
  }

  function Meaning(engine: Engine, table: seq<Row>, st: Statement): Result {
    engine.finish(st.(conds := []), Selected(engine, st.conds, table))
  }

  /** A text that reads as a statement is answered with that statement's meaning. */
  predicate AnswersAsRead(run: string -> Outcome, engine: Engine, table: seq<Row>, text: string) {
    ParseSql(text).Some? ==> run(text) == Answer(Meaning(engine, table, ParseSql(text).value))
  }

  /** The runner does so for the texts this plan can give rise to: with no record filter, or one of at most 5000 ids. */
  ghost predicate Faithful(run: string -> Outcome, engine: Engine, table: seq<Row>, plan: Plan) {
    forall ids :: |ids| <= TEXT_SEARCH_LIMIT ==> AnswersAsRead(run, engine, table, StatementStr(Intended(plan, ids)))
  }

  // ---------------------------------------------------------------------
  // The naive scan
  // ---------------------------------------------------------------------

  /** What a row has under a field name of the query language. */
  function FieldText(row: Row, field: string): string {
    if field == "record_id" then row.recordId
    else if field == "message" then row.message
    else if IsTopLevel(field) then Get(row.columns, field)
    else Get(row.attributes, field)
  }

  /** The column whose type orders a field's text. */
  function FieldColumn(field: string): Column {
    if IsTopLevel(field) then Top(field) else Attribute(field)
  }

  /** The value of a numeric literal. */
  function NumericValue(s: string): real {
    if s != [] && s[0] == '-' then -UnsignedValue(s[1..]) else UnsignedValue(s)
  }

  /**
   The meaning of a filter, from its field, operator and value alone: an attribute
   against a number compares as numbers, everything else as the column's text.
   */
  predicate Meets(engine: Engine, f: FilterPredicate, row: Row) {
    if !IsTopLevel(f.field) && IsNumericLiteral(f.value) then
      var a, b := engine.toFloat(FieldText(row, f.field)), NumericValue(f.value);
      match f.op
      case Eq => a == b
      case Ne => a != b
      case Gt => a > b
      case Ge => a >= b
      case Lt => a < b
      case Le => a <= b
    else
      var o := engine.collate(FieldColumn(f.field), FieldText(row, f.field), f.value);
      match f.op
      case Eq => o == Same
      case Ne => o == Before || o == After
      case Gt => o == After
      case Ge => o == Same || o == After
      case Lt => o == Before
      case Le => o == Before || o == Same
  }

  /** The row's time is not before the one bound and not after the other. */
  predicate InTimeRange(engine: Engine, t: Option<TimeRange>, row: Row) {
    t.Some? ==>
      && (t.value.from.Some? ==>
            engine.collate(Top("timestamp"), FieldText(row, "timestamp"), t.value.from.value) != Before)
      && (t.value.to.Some? ==>
            engine.collate(Top("timestamp"), FieldText(row, "timestamp"), t.value.to.value) != After)
  }

  /** The naive reading: the search term matches, every filter is met, and the time is in range. */
  predicate Passes(plan: Plan, engine: Engine, matches: string -> string -> bool, row: Row) {
    && (plan.textSearch != [] ==> matches(plan.textSearch[0])(row.message))
    && (forall i :: 0 <= i < |plan.filters| ==> Meets(engine, plan.filters[i], row))
    && InTimeRange(engine, plan.timeRange, row)
  }

  function NaiveRows(plan: Plan, engine: Engine, matches: string -> string -> bool, table: seq<Row>): seq<Row> {
    Filter(row => Passes(plan, engine, matches, row), table)
  }

  function Naive(plan: Plan, engine: Engine, matches: string -> string -> bool, table: seq<Row>): Result {
    engine.finish(Finishing(plan), NaiveRows(plan, engine, matches, table))
  }

  /** The search index holds every stored row under its own id and message. */
  ghost predicate Agrees(contents: Contents, table: seq<Row>) {
    forall row :: row in table ==> row.recordId in contents && contents[row.recordId] == row.message
  }

  /** SELECT lists with only aggregates and no grouping answer one row even for no input rows. */
  predicate AnswersOneRow(st: Statement) {
    && st.groupBy == [] && (st.limit.Some? ==> st.limit.value != 0)
    && st.select.Items? && st.select.items != []
    && forall i :: 0 <= i < |st.select.items| ==> !st.select.items[i].expr.Plain?
  }

  predicate FinishesEmpty(engine: Engine, st: Statement) {
    engine.finish(st, []).rows != [] <==> AnswersOneRow(st)
  }

  /** Everything of a plan's statement but its conditions. */
  function Finishing(plan: Plan): Statement {
    Intended(plan, []).(conds := [])
  }

  // ---------------------------------------------------------------------
  // Prefilter against scan
  // ---------------------------------------------------------------------

  lemma {:induction false} FilterAgree(p: Row -> bool, q: Row -> bool, table: seq<Row>)
    requires forall row :: row in table ==> p(row) == q(row)
    ensures Filter(p, table) == Filter(q, table)
  {
    if table != [] {
      assert table[0] in table;
      FilterAgree(p, q, table[1..]);
    }
  }

  lemma {:induction false} FilterMembers(p: Row -> bool, table: seq<Row>, row: Row)
    ensures row in Filter(p, table) <==> row in table && p(row)
  {
    if table != [] {
      FilterMembers(p, table[1..], row);
      assert table == [table[0]] + table[1..];
    }
  }

  lemma {:induction false} FilterTwice(p: Row -> bool, q: Row -> bool, table: seq<Row>)
    ensures Filter(p, Filter(q, table)) == Filter(row => p(row) && q(row), table)
  {
    if table != [] {
      FilterTwice(p, q, table[1..]);
      var rest := Filter(q, table[1..]);
      assert ([table[0]] + rest)[1..] == rest;
    }
  }

  lemma HoldAllOf(engine: Engine, xs: seq<Cond>, ys: seq<Cond>, row: Row)
    ensures HoldAll(engine, xs + ys, row) <==> HoldAll(engine, xs, row) && HoldAll(engine, ys, row)
  {
    if HoldAll(engine, xs + ys, row) {
      assert forall i :: 0 <= i < |xs| ==> xs[i] == (xs + ys)[i];
      assert forall i :: 0 <= i < |ys| ==> ys[i] == (xs + ys)[|xs| + i];
    }
  }

  /** The SQL condition of a filter holds of exactly the rows that meet the filter. */
  lemma FilterMeaning(engine: Engine, f: FilterPredicate, row: Row)
    ensures Holds(engine, CondOf(f), row) <==> Meets(engine, f, row)
  {
    FilterSaid(f);
    TopLevelNames(f.field);
  }

  lemma TimeCondsHold(engine: Engine, t: Option<TimeRange>, row: Row)
    ensures HoldAll(engine, TimeConds(t), row) <==> InTimeRange(engine, t, row)
  {
    if t.Some? {
      var lo := if t.value.from.Some? then [TimeCond(Ge, t.value.from.value)] else [];
      var hi := if t.value.to.Some? then [TimeCond(Le, t.value.to.value)] else [];
      assert TimeConds(t) == lo + hi;
      HoldAllOf(engine, lo, hi, row);
      assert lo != [] ==> HoldAll(engine, lo, row) == Holds(engine, lo[0], row);
      assert hi != [] ==> HoldAll(engine, hi, row) == Holds(engine, hi[0], row);
    }
  }

  lemma FilterCondsHold(engine: Engine, fs: seq<FilterPredicate>, row: Row)
    ensures HoldAll(engine, FilterConds(fs), row) <==> forall i :: 0 <= i < |fs| ==> Meets(engine, fs[i], row)
  {
    forall i | 0 <= i < |fs| ensures Holds(engine, FilterConds(fs)[i], row) <==> Meets(engine, fs[i], row) {
      FilterMeaning(engine, fs[i], row);
    }
  }

  lemma CondsHold(plan: Plan, engine: Engine, matches: string -> string -> bool, ids: seq<string>, row: Row)
    ensures HoldAll(engine, CondsOf(plan, ids), row) <==>
            (ids != [] ==> row.recordId in ids) && Passes(plan.(textSearch := []), engine, matches, row)
  {
    HoldAllOf(engine, IdConds(ids) + FilterConds(plan.filters), TimeConds(plan.timeRange), row);
    HoldAllOf(engine, IdConds(ids), FilterConds(plan.filters), row);
    TimeCondsHold(engine, plan.timeRange, row);
    FilterCondsHold(engine, plan.filters, row);
    assert ids != [] ==> HoldAll(engine, IdConds(ids), row) == Holds(engine, IdConds(ids)[0], row);
  }

  /**
   Whatever hits the search returns, the WHERE clause selects exactly the naive
   scan's rows that are among the hits: a subset, in table order.
   */
  lemma PrefilterSelects(plan: Plan, engine: Engine, matches: string -> string -> bool, table: seq<Row>,
                         contents: Contents, ids: seq<string>)
    requires plan.textSearch != [] && ids != [] && Agrees(contents, table)
    requires TopHits(Matching(contents, matches(plan.textSearch[0])), TEXT_SEARCH_LIMIT, ids)
    ensures Selected(engine, CondsOf(plan, ids), table)
            == Filter((row: Row) => row.recordId in ids, NaiveRows(plan, engine, matches, table))
    ensures forall row :: row in Selected(engine, CondsOf(plan, ids), table) <==>
                          row in NaiveRows(plan, engine, matches, table) && row.recordId in ids
  {
    var p := (row: Row) => row.recordId in ids;
    var q := (row: Row) => Passes(plan, engine, matches, row);
    FilterTwice(p, q, table);
    forall row | row in table ensures HoldAll(engine, CondsOf(plan, ids), row) <==> p(row) && q(row) {
      CondsHold(plan, engine, matches, ids, row);
    }
    FilterAgree(row => HoldAll(engine, CondsOf(plan, ids), row), row => p(row) && q(row), table);
    forall row ensures row in Filter(p, Filter(q, table)) <==> row in Filter(q, table) && p(row) {
      FilterMembers(p, Filter(q, table), row);
    }
  }

  /** At most 5000 matches: the prefilter loses no row of the naive scan. */
  lemma PrefilterKeepsAll(plan: Plan, engine: Engine, matches: string -> string -> bool, table: seq<Row>,
                          contents: Contents, ids: seq<string>)
    requires plan.textSearch != [] && ids != [] && Agrees(contents, table)
    requires TopHits(Matching(contents, matches(plan.textSearch[0])), TEXT_SEARCH_LIMIT, ids)
    requires |Matching(contents, matches(plan.textSearch[0]))| <= TEXT_SEARCH_LIMIT
    ensures Selected(engine, CondsOf(plan, ids), table) == NaiveRows(plan, engine, matches, table)
  {
    HitsComplete(Matching(contents, matches(plan.textSearch[0])), TEXT_SEARCH_LIMIT, ids);
    var q := (row: Row) => Passes(plan, engine, matches, row);
    forall row | row in table ensures HoldAll(engine, CondsOf(plan, ids), row) <==> q(row) {
      CondsHold(plan, engine, matches, ids, row);
    }
    FilterAgree(row => HoldAll(engine, CondsOf(plan, ids), row), q, table);
  }

  lemma NoMatchNoRows(plan: Plan, engine: Engine, matches: string -> string -> bool, table: seq<Row>,
                      contents: Contents)
    requires plan.textSearch != [] && Agrees(contents, table)
    requires Matching(contents, matches(plan.textSearch[0])) == {}
    ensures NaiveRows(plan, engine, matches, table) == []
  {
    forall row | row in table ensures !Passes(plan, engine, matches, row) {
      assert row.recordId !in Matching(contents, matches(plan.textSearch[0]));
    }
    FilterAgree(row => Passes(plan, engine, matches, row), row => false, table);
    FilterNone(table);
  }

  lemma {:induction false} FilterNone(table: seq<Row>)
    ensures Filter(row => false, table) == []
  {
    if table != [] {
      FilterNone(table[1..]);
    }
  }

  lemma RunsAsBuilt(plan: Plan, engine: Engine, table: seq<Row>, run: string -> Outcome, ids: seq<string>)
    requires Faithful(run, engine, table, plan) && NamesReadBack(plan) && |ids| <= TEXT_SEARCH_LIMIT
    ensures run(StatementStr(Intended(plan, ids))) == Answer(
              engine.finish(Finishing(plan), Selected(engine, CondsOf(plan, ids), table)))
  {
    BuiltSqlReadsBack(plan, ids);
    assert AnswersAsRead(run, engine, table, StatementStr(Intended(plan, ids)));
  }

  /**
   With an index that agrees with the stored rows and at most 5000 matches,
   executing a plan whose names survive quoting gives the naive scan's rows --
   except exactly for ungrouped aggregates over no match, where the early return
   drops the one row SQL would give.
   */
  lemma PrefilterIsNaive(plan: Plan, engine: Engine, matches: string -> string -> bool, table: seq<Row>,
                         contents: Contents, run: string -> Outcome, search: (string, nat) -> SearchReply)
    requires plan.rawSql == "" && NamesReadBack(plan) && Agrees(contents, table)
    requires Faithful(run, engine, table, plan) && FinishesEmpty(engine, Finishing(plan))
    requires plan.textSearch != [] ==>
               && var reply := search(plan.textSearch[0], TEXT_SEARCH_LIMIT);
               && var matching := Matching(contents, matches(plan.textSearch[0]));
               && reply.Hits? && TopHits(matching, TEXT_SEARCH_LIMIT, reply.ids)
               && |matching| <= 5000
    ensures Execute(plan, run, search).Answer?
    ensures Execute(plan, run, search).result.rows == Naive(plan, engine, matches, table).rows
            <==> !(&& plan.textSearch != []
                   && Matching(contents, matches(plan.textSearch[0])) == {}
                   && AnswersOneRow(Intended(plan, [])))
  {
    if plan.textSearch == [] {
      RunsAsBuilt(plan, engine, table, run, []);
      forall row | row in table
        ensures HoldAll(engine, CondsOf(plan, []), row) <==> Passes(plan, engine, matches, row)
      {
        CondsHold(plan, engine, matches, [], row);
      }
      FilterAgree(row => HoldAll(engine, CondsOf(plan, []), row), row => Passes(plan, engine, matches, row), table);
    } else {
      var ids := search(plan.textSearch[0], TEXT_SEARCH_LIMIT).ids;
      var matching := Matching(contents, matches(plan.textSearch[0]));
      HitsComplete(matching, TEXT_SEARCH_LIMIT, ids);
      if ids == [] {
        assert matching == {};
        NoMatchNoRows(plan, engine, matches, table, contents);
        assert AnswersOneRow(Finishing(plan)) <==> AnswersOneRow(Intended(plan, []));
      } else {
        assert ids[0] in matching;
        PrefilterKeepsAll(plan, engine, matches, table, contents, ids);
        RunsAsBuilt(plan, engine, table, run, ids);
      }
    }
  }

  /** Raw SQL goes to the database as it is, and a failed search fails the query instead of answering without it. */
  lemma PassedThrough(plan: Plan, run: string -> Outcome, search: (string, nat) -> SearchReply)
    ensures plan.rawSql != "" ==> Execute(plan, run, search) == run(plan.rawSql)
    ensures plan.rawSql == "" && plan.textSearch != [] && search(plan.textSearch[0], 5000).SearchFailed? ==>
              Execute(plan, run, search).Failed?
  {
  }

  /** The failing family is exactly a stats command without grouping and with a non-zero limit. */
  lemma UngroupedAggregates(plan: Plan)
    ensures AnswersOneRow(Intended(plan, [])) <==>
            && plan.aggregation.Some? && plan.aggregation.value.groupBy == [] && plan.aggregation.value.funcs != []
            && (plan.limit.Some? ==> plan.limit.value.n != 0)
  {
    var st := Intended(plan, []);
    if plan.aggregation.Some? {
      var a := plan.aggregation.value;
      assert SelectOf(plan).items == PlainItems(a.groupBy) + AggItems(a.funcs);
      assert |ColumnsOf(a.groupBy)| == |a.groupBy|;
      if a.groupBy == [] && a.funcs != [] {
        assert SelectOf(plan).items == AggItems(a.funcs);
      }
    } else if plan.fields != [] {
      assert st.select.items[0].expr.Plain?;
    }
  }

  // ---------------------------------------------------------------------
  // Which rows a time-ordered query keeps
  // ---------------------------------------------------------------------

  /** In the order ORDER BY timestamp puts them, ties in any order. */
  ghost predicate InTimeOrder(rows: seq<Row>, stamp: Row -> int, desc: bool) {
    forall i, j :: 0 <= i < j < |rows| ==>
                     if desc then stamp(rows[i]) >= stamp(rows[j]) else stamp(rows[i]) <= stamp(rows[j])
  }

  function Projected(project: Row -> seq<string>, rows: seq<Row>): seq<seq<string>> {
    seq(|rows|, i requires 0 <= i < |rows| => project(rows[i]))
  }

  /** The engine sorts a raw-row statement by time, cuts it off at its limit, and projects what is left. */
  ghost predicate SortsByTime(engine: Engine, st: Statement, rows: seq<Row>, stamp: Row -> int,
                              project: Row -> seq<string>)
  {
    |st.orderBy| == 1 && st.orderBy[0].col == Top("timestamp") && st.limit.Some? && st.limit.value >= 0 ==>
      exists sorted: seq<Row> ::
        && multiset(sorted) == multiset(rows) && InTimeOrder(sorted, stamp, st.orderBy[0].desc)
        && engine.finish(st, rows).rows == Projected(project, sorted[..Min(st.limit.value, |sorted|)])
  }

  /** Nothing left out is older than anything kept. */
  ghost predicate Oldest(kept: multiset<Row>, rows: multiset<Row>, stamp: Row -> int) {
    kept <= rows && forall k, o :: k in kept && o in rows - kept ==> stamp(k) <= stamp(o)
  }

  ghost predicate Newest(kept: multiset<Row>, rows: multiset<Row>, stamp: Row -> int) {
    kept <= rows && forall k, o :: k in kept && o in rows - kept ==> stamp(k) >= stamp(o)
  }

  ghost predicate SameTime(rows: seq<Row>, stamp: Row -> int) {
    forall a, b :: a in rows && b in rows ==> stamp(a) == stamp(b)
  }

  /** A prefix and what it leaves out. */
  lemma LeftOut(sorted: seq<Row>, n: nat, o: Row)
    requires n <= |sorted|
    ensures multiset(sorted) - multiset(sorted[..n]) == multiset(sorted[n..])
    ensures multiset(sorted[..n]) <= multiset(sorted)
    ensures o in multiset(sorted) - multiset(sorted[..n]) ==> exists j :: n <= j < |sorted| && sorted[j] == o
    ensures o in multiset(sorted[..n]) ==> exists i :: 0 <= i < n && sorted[i] == o
  {
    assert sorted == sorted[..n] + sorted[n..];
    if o in multiset(sorted[n..]) {
      assert o in sorted[n..];
      var j :| 0 <= j < |sorted[n..]| && sorted[n..][j] == o;
      assert sorted[n + j] == o;
    }
    if o in multiset(sorted[..n]) {
      assert o in sorted[..n];
      var i :| 0 <= i < |sorted[..n]| && sorted[..n][i] == o;
      assert sorted[i] == o;
    }
  }

  lemma PrefixIsExtreme(sorted: seq<Row>, n: nat, stamp: Row -> int, desc: bool)
    requires n <= |sorted| && InTimeOrder(sorted, stamp, desc)
    ensures if desc then Newest(multiset(sorted[..n]), multiset(sorted), stamp)
            else Oldest(multiset(sorted[..n]), multiset(sorted), stamp)
  {
    if n < |sorted| {
      LeftOut(sorted, n, sorted[n]);
    } else {
      assert sorted[..n] == sorted;
    }
    forall k, o | k in multiset(sorted[..n]) && o in multiset(sorted) - multiset(sorted[..n])
      ensures if desc then stamp(k) >= stamp(o) else stamp(k) <= stamp(o)
    {
      LeftOut(sorted, n, k);
      LeftOut(sorted, n, o);
    }
  }

  lemma NewestPrefixIsSameTime(sorted: seq<Row>, n: nat, stamp: Row -> int)
    requires 0 < n < |sorted| && InTimeOrder(sorted, stamp, false)
    requires Newest(multiset(sorted[..n]), multiset(sorted), stamp)
    ensures SameTime(sorted, stamp)
  {
    LeftOut(sorted, n, sorted[n]);
    var first, last := sorted[0], sorted[|sorted| - 1];
    assert first == sorted[..n][0] && first in multiset(sorted[..n]);
    assert last == sorted[n..][|sorted| - n - 1] && last in multiset(sorted[n..]);
    assert stamp(first) >= stamp(last);
    forall a, b | a in sorted && b in sorted ensures stamp(a) == stamp(b) {
      Between(sorted, stamp, a);
      Between(sorted, stamp, b);
    }
  }

  lemma SameTimeIsNewest(sorted: seq<Row>, n: nat, stamp: Row -> int)
    requires n <= |sorted| && (n == |sorted| || n == 0 || SameTime(sorted, stamp))
    ensures Newest(multiset(sorted[..n]), multiset(sorted), stamp)
  {
    if n == |sorted| {
      assert sorted[..n] == sorted;
    } else {
      LeftOut(sorted, n, sorted[n]);
      forall k, o | k in multiset(sorted[..n]) && o in multiset(sorted) - multiset(sorted[..n])
        ensures stamp(k) >= stamp(o)
      {
        LeftOut(sorted, n, k);
        LeftOut(sorted, n, o);
      }
    }
  }

  /** Both oldest and newest: nothing kept, nothing left out, or no difference in time. */
  lemma BothExtremes(sorted: seq<Row>, n: nat, stamp: Row -> int)
    requires n <= |sorted| && InTimeOrder(sorted, stamp, false)
    ensures Newest(multiset(sorted[..n]), multiset(sorted), stamp)
            <==> n == |sorted| || n == 0 || SameTime(sorted, stamp)
  {
    if n == |sorted| || n == 0 || SameTime(sorted, stamp) {
      SameTimeIsNewest(sorted, n, stamp);
    } else if Newest(multiset(sorted[..n]), multiset(sorted), stamp) {
      NewestPrefixIsSameTime(sorted, n, stamp);
    }
  }

  lemma Between(sorted: seq<Row>, stamp: Row -> int, a: Row)
    requires InTimeOrder(sorted, stamp, false) && a in sorted
    ensures stamp(sorted[0]) <= stamp(a) <= stamp(sorted[|sorted| - 1])
  {
    var i :| 0 <= i < |sorted| && sorted[i] == a;
  }

  /**
   `tail N` answers the oldest N rows of the scan, oldest first; those are also
   its newest N exactly when nothing or everything is kept, or all rows have the same time.
   */
  lemma TailKeepsOldest(plan: Plan, engine: Engine, matches: string -> string -> bool, table: seq<Row>,
                        stamp: Row -> int, project: Row -> seq<string>) returns (kept: seq<Row>)
    requires plan.sort == [] && plan.aggregation.None?
    requires plan.limit.Some? && plan.limit.value.tail && plan.limit.value.n >= 0
    requires SortsByTime(engine, Finishing(plan), NaiveRows(plan, engine, matches, table), stamp, project)
    ensures Naive(plan, engine, matches, table).rows == Projected(project, kept)
    ensures var rows, n := NaiveRows(plan, engine, matches, table), plan.limit.value.n;
            && |kept| == Min(n, |rows|) && InTimeOrder(kept, stamp, false)
            && Oldest(multiset(kept), multiset(rows), stamp)
            && (Newest(multiset(kept), multiset(rows), stamp) <==> |rows| <= n || n == 0 || SameTime(rows, stamp))
  {
    var rows, n := NaiveRows(plan, engine, matches, table), plan.limit.value.n;
    var sorted: seq<Row> :|
      && multiset(sorted) == multiset(rows) && InTimeOrder(sorted, stamp, false)
      && engine.finish(Finishing(plan), rows).rows == Projected(project, sorted[..Min(n, |sorted|)]);
    kept := sorted[..Min(n, |sorted|)];
    FirstRows(sorted, rows, n, stamp);
  }

  lemma FirstRows(sorted: seq<Row>, rows: seq<Row>, n: nat, stamp: Row -> int)
    requires multiset(sorted) == multiset(rows) && InTimeOrder(sorted, stamp, false)
    ensures var kept := sorted[..Min(n, |sorted|)];
            && |kept| == Min(n, |rows|) && InTimeOrder(kept, stamp, false)
            && Oldest(multiset(kept), multiset(rows), stamp)
            && (Newest(multiset(kept), multiset(rows), stamp) <==> |rows| <= n || n == 0 || SameTime(rows, stamp))
  {
    SameRows(sorted, rows, stamp);
    PrefixIsExtreme(sorted, Min(n, |sorted|), stamp, false);
    BothExtremes(sorted, Min(n, |sorted|), stamp);
  }

  lemma SameRows(a: seq<Row>, b: seq<Row>, stamp: Row -> int)
    requires multiset(a) == multiset(b)
    ensures |a| == |b| && (SameTime(a, stamp) <==> SameTime(b, stamp))
  {
    assert |multiset(a)| == |a| && |multiset(b)| == |b|;
    assert forall row :: row in a <==> row in multiset(a);
    assert forall row :: row in b <==> row in multiset(b);
  }

  /** A raw-row query without sort or tail answers the scan's newest rows, newest first, 100 unless limited. */
  lemma DefaultKeepsNewest(plan: Plan, engine: Engine, matches: string -> string -> bool, table: seq<Row>,
                           stamp: Row -> int, project: Row -> seq<string>) returns (kept: seq<Row>)
    requires plan.sort == [] && plan.aggregation.None?
    requires plan.limit.Some? ==> !plan.limit.value.tail && plan.limit.value.n >= 0
    requires SortsByTime(engine, Finishing(plan), NaiveRows(plan, engine, matches, table), stamp, project)
    ensures Naive(plan, engine, matches, table).rows == Projected(project, kept)
    ensures var rows := NaiveRows(plan, engine, matches, table);
            && |kept| == Min(if plan.limit.Some? then plan.limit.value.n else 100, |rows|)
            && InTimeOrder(kept, stamp, true) && Newest(multiset(kept), multiset(rows), stamp)
  {
    var rows, n := NaiveRows(plan, engine, matches, table), LimitOf(plan).value;
    var sorted: seq<Row> :|
      && multiset(sorted) == multiset(rows) && InTimeOrder(sorted, stamp, true)
      && engine.finish(Finishing(plan), rows).rows == Projected(project, sorted[..Min(n, |sorted|)]);
    kept := sorted[..Min(n, |sorted|)];
    LatestRows(sorted, rows, n, stamp);
  }

  lemma LatestRows(sorted: seq<Row>, rows: seq<Row>, n: nat, stamp: Row -> int)
    requires multiset(sorted) == multiset(rows) && InTimeOrder(sorted, stamp, true)
    ensures var kept := sorted[..Min(n, |sorted|)];
            |kept| == Min(n, |rows|) && InTimeOrder(kept, stamp, true) && Newest(multiset(kept), multiset(rows), stamp)
  {
    SameRows(sorted, rows, stamp);
    PrefixIsExtreme(sorted, Min(n, |sorted|), stamp, true);
  }
}
