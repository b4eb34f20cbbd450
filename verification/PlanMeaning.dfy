/**
 What the SQL of a plan must say, part by part, in terms of the plan's own
 fields, operators, values, names and limits, and the proof that what is read
 back from the built text says it.
 */
module PlanMeaning {
  import opened Prelude
  import opened Lexical
  import opened SqlTokens
  import opened SqlSyntax
  import opened SqlBuilder

  /** The columns of the logs table; any other name is a key of the attributes map. */
  predicate IsTopLevel(field: string) {
    || field == "timestamp" || field == "host" || field == "service"
    || field == "severity" || field == "message" || field == "record_id"
  }

  predicate NamesField(col: Column, field: string) {
    if IsTopLevel(field) then col == Top(field) else col == Attribute(field)
  }

  /** The number as it was written. */
  function Spelling(o: Operand): string {
    match o
    case StrLit(s) => s
    case NumLit(negative, digits) => if negative then "-" + digits else digits
  }

  /**
   The condition for a filter compares the filter's field by the filter's own
   operator with the filter's value: as numbers for an attribute and a numeric
   value, as text otherwise.
   */
  predicate SaysFilter(c: Cond, f: FilterPredicate) {
    && c.Compare? && NamesField(c.lhs.col, f.field) && c.op == f.op && Spelling(c.rhs) == f.value
    && (c.lhs.cast <==> !IsTopLevel(f.field) && IsNumericLiteral(f.value))
    && (c.rhs.NumLit? <==> c.lhs.cast)
  }

  predicate SaysBound(c: Cond, op: Op, bound: string) {
    c == Compare(Expr(Top("timestamp"), false), op, StrLit(bound))
  }

  /** The time bounds: not before `from`, not after `to`. */
  predicate SaysTimes(cs: seq<Cond>, t: Option<TimeRange>) {
    var from := if t.Some? then t.value.from else None;
    var to := if t.Some? then t.value.to else None;
    && |cs| == (if from.Some? then 1 else 0) + (if to.Some? then 1 else 0)
    && (from.Some? ==> SaysBound(cs[0], Ge, from.value))
    && (to.Some? ==> SaysBound(cs[|cs| - 1], Le, to.value))
  }

  /** One condition per filter, in order. */
  predicate SaysFilters(cs: seq<Cond>, fs: seq<FilterPredicate>) {
    |cs| == |fs| && forall i :: 0 <= i < |fs| ==> SaysFilter(cs[i], fs[i])
  }

  predicate SaysWhere(cs: seq<Cond>, plan: Plan, ids: seq<string>) {
    var first := if ids == [] then 0 else 1;
    var n := |plan.filters|;
    && |cs| >= first + n
    && cs[..first] == (if ids == [] then [] else [RecordIdIn(ids)])
    && SaysFilters(cs[first..first + n], plan.filters)
    && SaysTimes(cs[first + n..], plan.timeRange)
  }

  /** A plain column under its own name. */
  predicate SaysField(item: Item, field: string) {
    item.expr.Plain? && NamesField(item.expr.col, field) && item.alias == field
  }

  /** count() or a function of the named field, attributes taken as numbers. */
  predicate SaysAggregate(item: Item, f: AggFunc) {
    && item.alias == f.alias
    && (f.kind.CountRows? ==> item.expr.CountAll?)
    && (f.kind.Of? ==>
          && item.expr.Aggregate? && item.expr.fn == f.kind.fn && NamesField(item.expr.arg.col, f.field)
          && (item.expr.arg.cast <==> !IsTopLevel(f.field)))
  }

  predicate SaysSelect(s: Select, plan: Plan) {
    if plan.aggregation.Some? then
      var groupBy, funcs := plan.aggregation.value.groupBy, plan.aggregation.value.funcs;
      && s.Items? && |s.items| == |groupBy| + |funcs|
      && (forall i :: 0 <= i < |groupBy| ==> SaysField(s.items[i], groupBy[i]))
      && (forall i :: 0 <= i < |funcs| ==> SaysAggregate(s.items[|groupBy| + i], funcs[i]))
    else if plan.fields != [] then
      && s.Items? && |s.items| == |plan.fields|
      && forall i :: 0 <= i < |plan.fields| ==> SaysField(s.items[i], plan.fields[i])
    else s.Star?
  }

  predicate SaysGroups(cols: seq<Column>, plan: Plan) {
    var groupBy := if plan.aggregation.Some? then plan.aggregation.value.groupBy else [];
    |cols| == |groupBy| && forall i :: 0 <= i < |groupBy| ==> NamesField(cols[i], groupBy[i])
  }

  /** An aggregate's alias is a column of the answer; any other sort field is a column of the table. */
  predicate SaysKey(o: Order, plan: Plan, key: SortField) {
    && o.desc == key.desc
    && if plan.aggregation.Some? && exists i :: 0 <= i < |plan.aggregation.value.funcs| &&
                                                plan.aggregation.value.funcs[i].alias == key.field
       then o.col == Top(key.field)
       else NamesField(o.col, key.field)
  }

  predicate SaysOrder(os: seq<Order>, plan: Plan) {
    if plan.sort != [] then |os| == |plan.sort| && forall i :: 0 <= i < |os| ==> SaysKey(os[i], plan, plan.sort[i])
    else if plan.limit.Some? && plan.limit.value.tail then os == [Order(Top("timestamp"), false)]
    else if plan.aggregation.Some? then os == []
    else os == [Order(Top("timestamp"), true)]
  }

  /** Raw rows are cut off at 100 unless the plan says otherwise; aggregates are not cut off by themselves. */
  predicate SaysLimit(n: Option<int>, plan: Plan) {
    if plan.limit.Some? then n == Some(plan.limit.value.n)
    else if plan.aggregation.Some? then n.None?
    else n == Some(100)
  }

  predicate SaysPlan(st: Statement, plan: Plan, ids: seq<string>) {
    && SaysSelect(st.select, plan) && SaysWhere(st.conds, plan, ids) && SaysGroups(st.groupBy, plan)
    && SaysOrder(st.orderBy, plan) && SaysLimit(st.limit, plan)
  }

  predicate IsDigits(s: string) {
    s != [] && All(s, Digit)
  }

  /** Digits, with a decimal point between digits if there is one. */
  ghost predicate IsDecimal(s: string) {
    IsDigits(s) || exists k :: 0 < k < |s| && s[k] == '.' && IsDigits(s[..k]) && IsDigits(s[k + 1..])
  }

  /** Which values count as numeric: a decimal, or a minus sign and a decimal. */
  lemma NumericLiteralExactly(s: string)
    ensures IsNumericLiteral(s) <==> IsDecimal(s) || (s != [] && s[0] == '-' && IsDecimal(s[1..]))
  {
    UnsignedExactly(s);
    if s != [] {
      UnsignedExactly(s[1..]);
    }
  }

  lemma UnsignedExactly(s: string)
    ensures IsUnsigned(s) <==> IsDecimal(s)
  {
    if IsUnsigned(s) {
      UnsignedIsDecimal(s);
    }
    if IsDigits(s) {
      SpanAll(s, Digit);
    } else if k :| 0 < k < |s| && s[k] == '.' && IsDigits(s[..k]) && IsDigits(s[k + 1..]) {
      PointIsUnsigned(s[..k], s[k + 1..]);
      assert s == s[..k] + (['.'] + s[k + 1..]);
    }
  }

  lemma {:induction false} PointIsUnsigned(whole: string, fraction: string)
    requires IsDigits(whole) && IsDigits(fraction)
    ensures IsUnsigned(whole + (['.'] + fraction))
  {
    var s := whole + (['.'] + fraction);
    SpanPrinted(whole, ['.'] + fraction, Digit);
    SpanAll(fraction, Digit);
    assert s[|whole| + 1..] == fraction;
    assert s[|whole| + 1] == fraction[0];
  }

  lemma {:induction false} UnsignedIsDecimal(s: string)
    requires IsUnsigned(s)
    ensures IsDecimal(s)
  {
    var n := Span(s, Digit);
    if n == |s| {
      SpanWhole(s);
    } else {
      assert s[n] == '.' && Span(s[n + 1..], Digit) == |s[n + 1..]|;
      SpanWhole(s[n + 1..]);
    }
  }

  lemma {:induction false} SpanWhole(s: string)
    requires Span(s, Digit) == |s|
    ensures All(s, Digit)
  {
    assert s[..|s|] == s;
  }

  lemma TopLevelNames(field: string)
    ensures field in TOP_LEVEL <==> IsTopLevel(field)
    ensures NamesField(ColumnOf(field), field)
  {
  }

  lemma FilterSaid(f: FilterPredicate)
    ensures SaysFilter(CondOf(f), f)
  {
    TopLevelNames(f.field);
    if IsNumericLiteral(f.value) && f.value != [] && f.value[0] == '-' {
      assert "-" + f.value[1..] == f.value;
    }
  }

  lemma Parts(a: seq<Cond>, b: seq<Cond>, c: seq<Cond>)
    ensures var all := a + b + c;
            |all| == |a| + |b| + |c| && all[..|a|] == a && all[|a|..|a| + |b|] == b && all[|a| + |b|..] == c
  {
  }

  lemma FiltersSaid(fs: seq<FilterPredicate>)
    ensures SaysFilters(FilterConds(fs), fs)
  {
    forall i | 0 <= i < |fs| ensures SaysFilter(FilterConds(fs)[i], fs[i]) {
      FilterSaid(fs[i]);
    }
  }

  lemma WhereSaid(plan: Plan, ids: seq<string>)
    ensures SaysWhere(CondsOf(plan, ids), plan, ids)
  {
    Parts(IdConds(ids), FilterConds(plan.filters), TimeConds(plan.timeRange));
    FiltersSaid(plan.filters);
    TimesSaid(plan.timeRange);
  }

  lemma TimesSaid(t: Option<TimeRange>)
    ensures SaysTimes(TimeConds(t), t)
  {
  }

  lemma SelectSaid(plan: Plan)
    ensures SaysSelect(SelectOf(plan), plan)
  {
    forall field: string {
      TopLevelNames(field);
    }
  }

  lemma OrderSaid(plan: Plan)
    ensures SaysOrder(OrderOf(plan), plan)
  {
    forall field: string {
      TopLevelNames(field);
    }
  }

  lemma IntendedSaysPlan(plan: Plan, ids: seq<string>)
    ensures SaysPlan(Intended(plan, ids), plan, ids)
  {
    WhereSaid(plan, ids);
    SelectSaid(plan);
    OrderSaid(plan);
    forall field: string {
      TopLevelNames(field);
    }
  }

  /**
   The WHERE text of any plan reads back as the record filter if there is one,
   then for every filter its field compared by its operator with its value, then
   the time bounds -- and nothing else.
   */
  lemma WhereTextSaysPlan(plan: Plan, ids: seq<string>)
    requires ids != [] || plan.filters != [] ||
             (plan.timeRange.Some? && (plan.timeRange.value.from.Some? || plan.timeRange.value.to.Some?))
    ensures var r := ReadConds(Lex(Join(CondStrs(CondsOf(plan, ids)), " AND ")));
            r.Got? && r.rest == Nil && SaysWhere(r.value, plan, ids)
  {
    WhereSaid(plan, ids);
    WhereReadsBack(plan, ids);
  }

  /** The text of any plan whose names survive quoting reads back as a statement that says the plan. */
  lemma TextSaysPlan(plan: Plan, ids: seq<string>)
    requires NamesReadBack(plan)
    ensures var st := ParseSql(StatementStr(Intended(plan, ids)));
            st.Some? && SaysPlan(st.value, plan, ids)
  {
    BuiltSqlReadsBack(plan, ids);
    IntendedSaysPlan(plan, ids);
  }
}
