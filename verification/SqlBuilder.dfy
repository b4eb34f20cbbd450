/**
 The query compiler's back end: an ir.Plan becomes SQL text. The builder
 appends strings as the source does; what it emits is, for every plan, the
 spelling of one intended statement, which therefore is what a reader of the
 text recovers.
 */
module SqlBuilder {
  import opened Prelude
  import opened Lexical
  import opened SqlTokens
  import opened SqlSyntax
  import opened SqlNames

  // ---------------------------------------------------------------------
  // Plans
  // ---------------------------------------------------------------------

  datatype FilterPredicate = FilterPredicate(field: string, op: Op, value: string)

  datatype AggKind = CountRows | Of(fn: AggFn)

  datatype AggFunc = AggFunc(kind: AggKind, field: string, alias: string)

  datatype Aggregation = Aggregation(funcs: seq<AggFunc>, groupBy: seq<string>)

  datatype SortField = SortField(field: string, desc: bool)

  datatype Limit = Limit(n: int, tail: bool)

  /** Bounds already formatted as ClickHouse date-time text; an unset bound is None. */
  datatype TimeRange = TimeRange(from: Option<string>, to: Option<string>)

  datatype Plan = Plan(
    rawSql: string, textSearch: seq<string>, filters: seq<FilterPredicate>, timeRange: Option<TimeRange>,
    aggregation: Option<Aggregation>, sort: seq<SortField>, fields: seq<string>, limit: Option<Limit>)

  const DEFAULT_ROW_LIMIT := 100

  const TOP_LEVEL: set<string> := {"timestamp", "host", "service", "severity", "message", "record_id"}

  // ---------------------------------------------------------------------
  // The intended statement
  // ---------------------------------------------------------------------

  /** ^-?\d+(\.\d+)?$ */
  predicate IsNumericLiteral(s: string) {
    IsUnsigned(if s != [] && s[0] == '-' then s[1..] else s)
  }

  function NumberOf(s: string): Operand
    requires IsNumericLiteral(s)
  {
    if s != [] && s[0] == '-' then NumLit(true, s[1..]) else NumLit(false, s)
  }

  function ColumnOf(field: string): Column {
    if field in TOP_LEVEL then Top(field) else Attribute(field)
  }

  /** The six top-level column names hold no backslash. */
  lemma {:induction false} TopLevelReadsBack(field: string)
    requires field in TOP_LEVEL
    ensures ReadsBack(field)
  {
    assert forall i :: 0 <= i < |field| ==> field[i] != '\\';
  }

  function CondOf(f: FilterPredicate): Cond {
    if f.field !in TOP_LEVEL && IsNumericLiteral(f.value)
    then Compare(Expr(ColumnOf(f.field), true), f.op, NumberOf(f.value))
    else Compare(Expr(ColumnOf(f.field), false), f.op, StrLit(f.value))
  }

  function TimeCond(op: Op, bound: string): Cond {
    Compare(Expr(Top("timestamp"), false), op, StrLit(bound))
  }

  function TimeConds(t: Option<TimeRange>): seq<Cond> {
    if t.None? then []
    else
      (if t.value.from.Some? then [TimeCond(Ge, t.value.from.value)] else []) +
      (if t.value.to.Some? then [TimeCond(Le, t.value.to.value)] else [])
  }

  function FilterConds(filters: seq<FilterPredicate>): seq<Cond> {
    seq(|filters|, i requires 0 <= i < |filters| => CondOf(filters[i]))
  }

  function IdConds(ids: seq<string>): seq<Cond> {
    if ids == [] then [] else [RecordIdIn(ids)]
  }

  /** One condition per record filter, predicate and time bound. */
  function CondsOf(plan: Plan, ids: seq<string>): seq<Cond> {
    IdConds(ids) + FilterConds(plan.filters) + TimeConds(plan.timeRange)
  }

  function AggItem(f: AggFunc): Item {
    Item(if f.kind.CountRows? then CountAll
         else Aggregate(f.kind.fn, Expr(ColumnOf(f.field), f.field !in TOP_LEVEL)), f.alias)
  }

  function PlainItems(fields: seq<string>): seq<Item> {
    seq(|fields|, i requires 0 <= i < |fields| => Item(Plain(ColumnOf(fields[i])), fields[i]))
  }

  function AggItems(funcs: seq<AggFunc>): seq<Item> {
    seq(|funcs|, i requires 0 <= i < |funcs| => AggItem(funcs[i]))
  }

  function SelectOf(plan: Plan): Select {
    if plan.aggregation.Some?
    then Items(PlainItems(plan.aggregation.value.groupBy) + AggItems(plan.aggregation.value.funcs))
    else if plan.fields != [] then Items(PlainItems(plan.fields))
    else Star
  }

  function ColumnsOf(fields: seq<string>): seq<Column> {
    seq(|fields|, i requires 0 <= i < |fields| => ColumnOf(fields[i]))
  }

  predicate IsAlias(plan: Plan, field: string) {
    && plan.aggregation.Some?
    && exists i :: 0 <= i < |plan.aggregation.value.funcs| && plan.aggregation.value.funcs[i].alias == field
  }

  /** A sort on an aggregate's alias refers to the aggregate, not to a raw column. */
  function SortColumn(plan: Plan, field: string): Column {
    if IsAlias(plan, field) then Top(field) else ColumnOf(field)
  }

  function SortKeys(plan: Plan): seq<Order> {
    seq(|plan.sort|, i requires 0 <= i < |plan.sort| => Order(SortColumn(plan, plan.sort[i].field), plan.sort[i].desc))
  }

  /** Explicit keys first; `tail` sorts ascending; raw rows default to newest first. */
  function OrderOf(plan: Plan): seq<Order> {
    if plan.sort != [] then SortKeys(plan)
    else if plan.limit.Some? && plan.limit.value.tail then [Order(Top("timestamp"), false)]
    else if plan.aggregation.None? then [Order(Top("timestamp"), true)]
    else []
  }

  function LimitOf(plan: Plan): Option<int> {
    if plan.limit.Some? then Some(plan.limit.value.n)
    else if plan.aggregation.None? then Some(DEFAULT_ROW_LIMIT)
    else None
  }

  /** The names the text of a plan quotes with backticks, besides the six top-level columns. */
  predicate NamesReadBack(plan: Plan) {
    if plan.aggregation.Some? then
      && (forall i :: 0 <= i < |plan.aggregation.value.groupBy| ==> ReadsBack(plan.aggregation.value.groupBy[i]))
      && forall i :: 0 <= i < |plan.aggregation.value.funcs| ==> ReadsBack(plan.aggregation.value.funcs[i].alias)
    else forall i :: 0 <= i < |plan.fields| ==> ReadsBack(plan.fields[i])
  }

  function Intended(plan: Plan, ids: seq<string>): Statement {
    Statement(SelectOf(plan), CondsOf(plan, ids),
              if plan.aggregation.Some? then ColumnsOf(plan.aggregation.value.groupBy) else [],
              OrderOf(plan), LimitOf(plan))
  }

  // ---------------------------------------------------------------------
  // The strings
  // ---------------------------------------------------------------------

  function ColumnExpr(field: string): string {
    if field in TOP_LEVEL then QuoteIdent(field) else "attributes[" + LiteralText(field) + "]"
  }

  function AggExpr(f: AggFunc): string {
    if f.kind.CountRows? then "count()"
    else
      var col := if f.field in TOP_LEVEL then ColumnExpr(f.field) else "toFloat64OrZero(" + ColumnExpr(f.field) + ")";
      FnText(f.kind.fn) + "(" + col + ")"
  }

  function ComparisonSql(f: FilterPredicate): string {
    if f.field !in TOP_LEVEL && IsNumericLiteral(f.value)
    then "toFloat64OrZero(" + ColumnExpr(f.field) + ") " + OpText(f.op) + " " + f.value
    else ColumnExpr(f.field) + " " + OpText(f.op) + " " + LiteralText(f.value)
  }

  /** strings.Join */
  function Join(parts: seq<string>, sep: string): string {
    if parts == [] then "" else if |parts| == 1 then parts[0] else parts[0] + sep + Join(parts[1..], sep)
  }

  // ---------------------------------------------------------------------
  // Each string is the text of the piece of syntax it stands for
  // ---------------------------------------------------------------------

  function ColStr(c: Column): string {
    if c.Top? then QuoteIdent(c.name) else "attributes[" + LiteralText(c.key) + "]"
  }

  function ExStr(e: Expr): string {
    if e.cast then "toFloat64OrZero(" + ColStr(e.col) + ")" else ColStr(e.col)
  }

  function OpdStr(o: Operand): string {
    match o
    case StrLit(s) => LiteralText(s)
    case NumLit(negative, digits) => if negative then "-" + digits else digits
  }

  function Literals(ids: seq<string>): seq<string> {
    seq(|ids|, i requires 0 <= i < |ids| => LiteralText(ids[i]))
  }

  function CondStr(c: Cond): string {
    match c
    case RecordIdIn(ids) => "record_id IN (" + Join(Literals(ids), ",") + ")"
    case Compare(lhs, op, rhs) => ExStr(lhs) + " " + OpText(op) + " " + OpdStr(rhs)
  }

  function ItemStr(i: Item): string {
    ItemExStr(i.expr) + " AS " + QuoteIdent(i.alias)
  }

  function OrderStr(o: Order): string {
    ColStr(o.col) + " " + (if o.desc then "DESC" else "ASC")
  }

  lemma {:induction false} Assoc3(a: string, b: string, c: string)
    ensures a + b + c == a + (b + c)
  {
  }

  lemma {:induction false} Assoc4(a: string, b: string, c: string, d: string)
    ensures a + b + c + d == a + (b + (c + d))
  {
    Assoc3(a + b, c, d);
    Assoc3(a, b, c + d);
  }

  lemma {:induction false} Assoc6(a: string, b: string, c: string, d: string, e: string, f: string)
    ensures a + b + c + d + e + f == a + (b + (c + (d + (e + f))))
  {
    Assoc3(a + b + c + d, e, f);
    Assoc3(a + b + c, d, e + f);
    Assoc4(a, b, c, d + (e + f));
  }

  /** The fixed strings of the source, cut at their token boundaries. */
  lemma {:induction false} FixedStrings()
    ensures "attributes[" == "attributes" + "["
    ensures "toFloat64OrZero(" == "toFloat64OrZero" + "("
    ensures "count()" == "count" + ("(" + ")")
    ensures " AND " == " " + ("AND" + " ")
    ensures " AS " == " " + ("AS" + " ")
    ensures ", " == "," + " "
  {
  }

  lemma {:induction false} ColText(c: Column, rest: Pieces)
    ensures Text(Col(c, rest)) == ColStr(c) + Text(rest)
  {
    if c.Attribute? {
      var r1 := Tok(Sym("]"), rest);
      var r2 := Tok(Str(c.key), r1);
      var r3 := Tok(Sym("["), r2);
      assert Text(r1) == "]" + Text(rest);
      assert Text(r2) == LiteralText(c.key) + Text(r1);
      assert Text(r3) == "[" + Text(r2);
      FixedStrings();
      Assoc4("attributes[", LiteralText(c.key), "]", Text(rest));
      Assoc3("attributes", "[", LiteralText(c.key) + ("]" + Text(rest)));
      Assoc3("attributes[", LiteralText(c.key), "]" + Text(rest));
    }
  }

  lemma {:induction false} ExText(e: Expr, rest: Pieces)
    ensures Text(Ex(e, rest)) == ExStr(e) + Text(rest)
  {
    if e.cast {
      var close := Tok(Sym(")"), rest);
      ColText(e.col, close);
      assert Text(close) == ")" + Text(rest);
      assert Text(Tok(Sym("("), Col(e.col, close))) == "(" + Text(Col(e.col, close));
      FixedStrings();
      Assoc4("toFloat64OrZero(", ColStr(e.col), ")", Text(rest));
      Assoc3("toFloat64OrZero", "(", ColStr(e.col) + (")" + Text(rest)));
    } else {
      ColText(e.col, rest);
    }
  }

  lemma {:induction false} OpdText(o: Operand, rest: Pieces)
    ensures Text(Opd(o, rest)) == OpdStr(o) + Text(rest)
  {
    if o.NumLit? && o.negative {
      assert Text(Tok(Num(o.digits), rest)) == o.digits + Text(rest);
      Assoc3("-", o.digits, Text(rest));
    }
  }

  lemma {:induction false} IdsText(ids: seq<string>, rest: Pieces)
    requires ids != []
    ensures Text(Ids(ids, rest)) == Join(Literals(ids), ",") + Text(rest)
  {
    if |ids| > 1 {
      IdsText(ids[1..], rest);
      assert Literals(ids)[1..] == Literals(ids[1..]);
      assert Text(Tok(Sym(","), Ids(ids[1..], rest))) == "," + Text(Ids(ids[1..], rest));
    }
  }

  /** A space, a token, and what follows. */
  lemma {:induction false} SpacedToken(t: Token, rest: Pieces)
    ensures Text(Sp(Tok(t, rest))) == " " + (Spell(t) + Text(rest))
    ensures Text(Sp(Tok(t, Sp(rest)))) == " " + (Spell(t) + (" " + Text(rest)))
  {
    assert Text(Tok(t, rest)) == Spell(t) + Text(rest);
    assert Text(Sp(rest)) == " " + Text(rest);
    assert Text(Tok(t, Sp(rest))) == Spell(t) + Text(Sp(rest));
  }

  lemma {:induction false} InListText(list: string, rest: string)
    ensures "record_id IN (" + list + ")" + rest == "record_id" + (" " + ("IN" + (" " + ("(" + (list + (")" + rest))))))
  {
    Assoc4("record_id IN (", list, ")", rest);
    var tail := list + (")" + rest);
    assert "record_id IN (" == "record_id" + (" " + ("IN" + (" " + "(")));
    Assoc3("record_id", " " + ("IN" + (" " + "(")), tail);
    Assoc3(" ", "IN" + (" " + "("), tail);
    Assoc3("IN", " " + "(", tail);
    Assoc3(" ", "(", tail);
  }

  lemma {:induction false} CondText(c: Cond, rest: Pieces)
    requires ValidCond(c)
    ensures Text(Cnd(c, rest)) == CondStr(c) + Text(rest)
  {
    match c
    case RecordIdIn(ids) =>
      var close := Tok(Sym(")"), rest);
      var open := Tok(Sym("("), Ids(ids, close));
      IdsText(ids, close);
      assert Text(close) == ")" + Text(rest);
      assert Text(open) == "(" + Text(Ids(ids, close));
      SpacedToken(Word("IN"), open);
      InListText(Join(Literals(ids), ","), Text(rest));
    case Compare(lhs, op, rhs) =>
      var right := Opd(rhs, rest);
      ExText(lhs, Sp(Tok(Sym(OpText(op)), Sp(right))));
      SpacedToken(Sym(OpText(op)), right);
      OpdText(rhs, rest);
      Assoc6(ExStr(lhs), " ", OpText(op), " ", OpdStr(rhs), Text(rest));
  }

  function Strs<A>(f: A -> string, xs: seq<A>): seq<string> {
    seq(|xs|, i requires 0 <= i < |xs| => f(xs[i]))
  }

  /** One more element in front of a joined list. */
  lemma {:induction false} JoinMore<A>(f: A -> string, xs: seq<A>, sep: string, more: string, rest: string)
    requires |xs| > 1 && more == Join(Strs(f, xs[1..]), sep) + rest
    ensures f(xs[0]) + (sep + more) == Join(Strs(f, xs), sep) + rest
  {
    assert Strs(f, xs)[1..] == Strs(f, xs[1..]);
    Assoc4(f(xs[0]), sep, Join(Strs(f, xs[1..]), sep), rest);
  }

  lemma {:induction false} StrsJoin<A>(f: A -> string, a: seq<A>, b: seq<A>)
    ensures Strs(f, a + b) == Strs(f, a) + Strs(f, b)
  {
  }

  function CondStrs(cs: seq<Cond>): seq<string> {
    Strs(CondStr, cs)
  }

  function ItemStrs(items: seq<Item>): seq<string> {
    Strs(ItemStr, items)
  }

  function ColStrs(cs: seq<Column>): seq<string> {
    Strs(ColStr, cs)
  }

  function OrderStrs(os: seq<Order>): seq<string> {
    Strs(OrderStr, os)
  }

  lemma {:induction false} CondsText(cs: seq<Cond>, rest: Pieces)
    requires cs != [] && forall i :: 0 <= i < |cs| ==> ValidCond(cs[i])
    ensures Text(Conds(cs, rest)) == Join(CondStrs(cs), " AND ") + Text(rest)
  {
    if |cs| == 1 {
      CondText(cs[0], rest);
    } else {
      var more := Conds(cs[1..], rest);
      CondsText(cs[1..], rest);
      CondText(cs[0], Sp(Tok(Word("AND"), Sp(more))));
      AndText(more);
      JoinMore(CondStr, cs, " AND ", Text(more), Text(rest));
    }
  }

  lemma {:induction false} AndText(rest: Pieces)
    ensures Text(Sp(Tok(Word("AND"), Sp(rest)))) == " AND " + Text(rest)
  {
    SpacedToken(Word("AND"), rest);
    FixedStrings();
    Assoc3(" ", "AND" + " ", Text(rest));
    Assoc3("AND", " ", Text(rest));
  }

  lemma {:induction false} CommaText(rest: Pieces)
    ensures Text(Tok(Sym(","), Sp(rest))) == ", " + Text(rest)
  {
    assert Text(Sp(rest)) == " " + Text(rest);
    FixedStrings();
    Assoc3(",", " ", Text(rest));
  }

  lemma {:induction false} AliasText(alias: string, rest: Pieces)
    ensures Text(Sp(Tok(Word("AS"), Sp(Tok(Ident(alias), rest))))) == " AS " + (QuoteIdent(alias) + Text(rest))
  {
    var name := Tok(Ident(alias), rest);
    SpacedToken(Word("AS"), name);
    assert Text(name) == QuoteIdent(alias) + Text(rest);
    FixedStrings();
    Assoc3(" ", "AS" + " ", Text(name));
    Assoc3("AS", " ", Text(name));
  }

  function ItemExStr(e: ItemExpr): string {
    match e
    case Plain(col) => ColStr(col)
    case CountAll => "count()"
    case Aggregate(fn, arg) => FnText(fn) + "(" + ExStr(arg) + ")"
  }

  lemma {:induction false} ItemExText(e: ItemExpr, rest: Pieces)
    ensures Text(ItemEx(e, rest)) == ItemExStr(e) + Text(rest)
  {
    var close := Tok(Sym(")"), rest);
    assert Text(close) == ")" + Text(rest);
    match e
    case Plain(col) =>
      ColText(col, rest);
    case CountAll =>
      assert Text(Tok(Sym("("), close)) == "(" + Text(close);
      FixedStrings();
      Assoc3("count", "(" + ")", Text(rest));
      Assoc3("(", ")", Text(rest));
    case Aggregate(fn, arg) =>
      ExText(arg, close);
      assert Text(Tok(Sym("("), Ex(arg, close))) == "(" + Text(Ex(arg, close));
      Assoc3(FnText(fn) + "(" + ExStr(arg), ")", Text(rest));
      Assoc4(FnText(fn), "(", ExStr(arg), ")" + Text(rest));
  }

  lemma {:induction false} ItemText(i: Item, rest: Pieces)
    ensures Text(Itm(i, rest)) == ItemStr(i) + Text(rest)
  {
    ItemExText(i.expr, Sp(Tok(Word("AS"), Sp(Tok(Ident(i.alias), rest)))));
    AliasText(i.alias, rest);
    Assoc4(ItemExStr(i.expr), " AS ", QuoteIdent(i.alias), Text(rest));
  }

  lemma {:induction false} ItemsText(items: seq<Item>, rest: Pieces)
    requires items != []
    ensures Text(Itms(items, rest)) == Join(ItemStrs(items), ", ") + Text(rest)
  {
    if |items| == 1 {
      ItemText(items[0], rest);
    } else {
      var more := Itms(items[1..], rest);
      ItemsText(items[1..], rest);
      ItemText(items[0], Tok(Sym(","), Sp(more)));
      CommaText(more);
      JoinMore(ItemStr, items, ", ", Text(more), Text(rest));
    }
  }

  lemma {:induction false} ColumnsText(cs: seq<Column>, rest: Pieces)
    requires cs != []
    ensures Text(Cols(cs, rest)) == Join(ColStrs(cs), ", ") + Text(rest)
  {
    if |cs| == 1 {
      ColText(cs[0], rest);
    } else {
      var more := Cols(cs[1..], rest);
      ColumnsText(cs[1..], rest);
      ColText(cs[0], Tok(Sym(","), Sp(more)));
      CommaText(more);
      JoinMore(ColStr, cs, ", ", Text(more), Text(rest));
    }
  }

  lemma {:induction false} OrderText(o: Order, rest: Pieces)
    ensures Text(Ord(o, rest)) == OrderStr(o) + Text(rest)
  {
    var dir := if o.desc then "DESC" else "ASC";
    ColText(o.col, Sp(Tok(Word(dir), rest)));
    SpacedToken(Word(dir), rest);
    Assoc4(ColStr(o.col), " ", dir, Text(rest));
  }

  lemma {:induction false} OrdersText(os: seq<Order>, rest: Pieces)
    requires os != []
    ensures Text(Ords(os, rest)) == Join(OrderStrs(os), ", ") + Text(rest)
  {
    if |os| == 1 {
      OrderText(os[0], rest);
    } else {
      var more := Ords(os[1..], rest);
      OrdersText(os[1..], rest);
      OrderText(os[0], Tok(Sym(","), Sp(more)));
      CommaText(more);
      JoinMore(OrderStr, os, ", ", Text(more), Text(rest));
    }
  }

  /** fmt's %d */
  function PrintInt(n: int): string {
    if n < 0 then "-" + PrintNat(-n) else PrintNat(n)
  }

  function SelectStr(s: Select): string {
    match s
    case Star => "*"
    case Items(items) => Join(ItemStrs(items), ", ")
  }

  function WhereStr(cs: seq<Cond>): string {
    if cs == [] then "" else " WHERE " + Join(CondStrs(cs), " AND ")
  }

  function GroupStr(cs: seq<Column>): string {
    if cs == [] then "" else " GROUP BY " + Join(ColStrs(cs), ", ")
  }

  function OrderByStr(os: seq<Order>): string {
    if os == [] then "" else " ORDER BY " + Join(OrderStrs(os), ", ")
  }

  function LimitStr(limit: Option<int>): string {
    if limit.None? then "" else " LIMIT " + PrintInt(limit.value)
  }

  /** The text buildSQL writes for a statement. */
  function StatementStr(st: Statement): string {
    "SELECT " + (SelectStr(st.select) + (" FROM logs" +
      (WhereStr(st.conds) + (GroupStr(st.groupBy) + (OrderByStr(st.orderBy) + LimitStr(st.limit))))))
  }

  lemma {:induction false} ClauseStrings()
    ensures " WHERE " == " " + ("WHERE" + " ")
    ensures " LIMIT " == " " + ("LIMIT" + " ")
    ensures "SELECT " == "SELECT" + " "
  {
  }

  lemma {:induction false} ByStrings()
    ensures " ORDER BY " == " " + ("ORDER" + (" " + ("BY" + " ")))
    ensures " GROUP BY " == " " + ("GROUP" + (" " + ("BY" + " ")))
  {
  }

  lemma {:induction false} FromString()
    ensures " FROM logs" == " " + ("FROM" + (" " + "logs"))
  {
  }

  lemma {:induction false} KeywordText(w: string, rest: Pieces)
    ensures Text(Sp(Tok(Word(w), Sp(rest)))) == " " + (w + " ") + Text(rest)
  {
    SpacedToken(Word(w), rest);
    Assoc3(" ", w + " ", Text(rest));
    Assoc3(w, " ", Text(rest));
  }

  lemma {:induction false} ByText(w: string, rest: Pieces)
    ensures Text(Sp(Tok(Word(w), Sp(Tok(Word("BY"), Sp(rest)))))) == " " + (w + (" " + ("BY" + " "))) + Text(rest)
  {
    var byWord := Tok(Word("BY"), Sp(rest));
    SpacedToken(Word(w), byWord);
    SpacedToken(Word("BY"), rest);
    assert Text(byWord) == "BY" + (" " + Text(rest));
    Assoc3(" ", w + (" " + ("BY" + " ")), Text(rest));
    Assoc3(w, " " + ("BY" + " "), Text(rest));
    Assoc3(" ", "BY" + " ", Text(rest));
    Assoc3("BY", " ", Text(rest));
  }

  lemma {:induction false} LimitText(limit: Option<int>)
    ensures Text(LimitClause(limit)) == LimitStr(limit)
  {
    if limit.Some? {
      var n := limit.value;
      KeywordText("LIMIT", Int(n, End));
      ClauseStrings();
      assert Text(End) == "";
      if n < 0 {
        assert Text(Tok(Num(PrintNat(-n)), End)) == PrintNat(-n);
      }
      assert Text(Int(n, End)) == PrintInt(n);
    }
  }

  lemma {:induction false} ClausesText(st: Statement)
    requires SqlSyntax.Valid(st)
    ensures Text(WhereClause(st))
            == WhereStr(st.conds) + (GroupStr(st.groupBy) + (OrderByStr(st.orderBy) + LimitStr(st.limit)))
  {
    var limit, order, group := LimitClause(st.limit), OrderClause(st), GroupClause(st);
    LimitText(st.limit);
    ByStrings();
    assert Text(order) == OrderByStr(st.orderBy) + Text(limit) by {
      if st.orderBy != [] {
        ByText("ORDER", Ords(st.orderBy, limit));
        OrdersText(st.orderBy, limit);
        Assoc3(" ORDER BY ", Join(OrderStrs(st.orderBy), ", "), Text(limit));
      }
    }
    assert Text(group) == GroupStr(st.groupBy) + Text(order) by {
      if st.groupBy != [] {
        ByText("GROUP", Cols(st.groupBy, order));
        ColumnsText(st.groupBy, order);
        Assoc3(" GROUP BY ", Join(ColStrs(st.groupBy), ", "), Text(order));
      }
    }
    if st.conds != [] {
      KeywordText("WHERE", Conds(st.conds, group));
      CondsText(st.conds, group);
      ClauseStrings();
      Assoc3(" WHERE ", Join(CondStrs(st.conds), " AND "), Text(group));
    }
  }

  lemma {:induction false} SelectText(s: Select, rest: Pieces)
    ensures Text(Sel(s, rest)) == SelectStr(s) + Text(rest)
  {
    if s.Items? && s.items != [] {
      ItemsText(s.items, rest);
    }
  }

  lemma {:induction false} StatementText(st: Statement)
    requires SqlSyntax.Valid(st)
    ensures Text(Stmt(st)) == StatementStr(st)
  {
    var where := WhereClause(st);
    var table := Tok(Word("logs"), where);
    var from := Sp(Tok(Word("FROM"), Sp(table)));
    ClausesText(st);
    assert Text(table) == "logs" + Text(where);
    SpacedToken(Word("FROM"), table);
    FromString();
    Assoc3(" ", "FROM" + (" " + "logs"), Text(where));
    Assoc3("FROM", " " + "logs", Text(where));
    Assoc3(" ", "logs", Text(where));
    assert Text(from) == " FROM logs" + Text(where);
    SelectText(st.select, from);
    ClauseStrings();
    assert Text(Sp(Sel(st.select, from))) == " " + Text(Sel(st.select, from));
    Assoc3("SELECT", " ", Text(Sel(st.select, from)));
  }

  // ---------------------------------------------------------------------
  // The builder
  // ---------------------------------------------------------------------

  /** The unquoted branch emits the value itself: an optional minus and one number token. */
  lemma {:induction false} ComparisonStr(f: FilterPredicate)
    ensures ComparisonSql(f) == CondStr(CondOf(f))
  {
    if f.field !in TOP_LEVEL && IsNumericLiteral(f.value) {
      assert OpdStr(NumberOf(f.value)) == f.value;
      assert ") " == ")" + " ";
      var col := ColumnExpr(f.field);
      Assoc3("toFloat64OrZero(" + col, ")", " ");
    }
  }

  /** The loop the builder runs over every list: one string per element. */
  method Render<A>(xs: seq<A>, f: A -> string) returns (parts: seq<string>)
    ensures |parts| == |xs| && forall k :: 0 <= k < |xs| ==> parts[k] == f(xs[k])
  {
    parts := [];
    var i := 0;
    while i < |xs|
      invariant 0 <= i <= |xs| && |parts| == i
      invariant forall k :: 0 <= k < i ==> parts[k] == f(xs[k])
    {
      parts := parts + [f(xs[i])];
      i := i + 1;
    }
  }

  function PlainPart(field: string): string {
    ColumnExpr(field) + " AS " + QuoteIdent(field)
  }

  function AggPart(f: AggFunc): string {
    AggExpr(f) + " AS " + QuoteIdent(f.alias)
  }

  lemma {:induction false} PlainStrs(fields: seq<string>, parts: seq<string>)
    requires |parts| == |fields| && forall k :: 0 <= k < |fields| ==> parts[k] == PlainPart(fields[k])
    ensures parts == ItemStrs(PlainItems(fields))
  {
    forall k | 0 <= k < |fields| ensures parts[k] == ItemStrs(PlainItems(fields))[k] {
      assert ItemStr(PlainItems(fields)[k]) == PlainPart(fields[k]);
    }
  }

  lemma {:induction false} AggStrs(funcs: seq<AggFunc>, parts: seq<string>)
    requires |parts| == |funcs| && forall k :: 0 <= k < |funcs| ==> parts[k] == AggPart(funcs[k])
    ensures parts == ItemStrs(AggItems(funcs))
  {
    forall k | 0 <= k < |funcs| ensures parts[k] == ItemStrs(AggItems(funcs))[k] {
      AggStr(funcs[k]);
      assert AggItems(funcs)[k] == AggItem(funcs[k]);
    }
  }

  lemma {:induction false} AggStr(f: AggFunc)
    ensures AggPart(f) == ItemStr(AggItem(f))
  {
  }

  method PlainParts(fields: seq<string>) returns (parts: seq<string>)
    ensures parts == ItemStrs(PlainItems(fields))
  {
    parts := Render(fields, PlainPart);
    PlainStrs(fields, parts);
  }

  method AggParts(funcs: seq<AggFunc>) returns (parts: seq<string>)
    ensures parts == ItemStrs(AggItems(funcs))
  {
    parts := Render(funcs, AggPart);
    AggStrs(funcs, parts);
  }

  method SelectClause(plan: Plan) returns (text: string)
    ensures text == SelectStr(SelectOf(plan))
  {
    if plan.aggregation.Some? {
      var agg := plan.aggregation.value;
      var groups := PlainParts(agg.groupBy);
      var funcs := AggParts(agg.funcs);
      StrsJoin(ItemStr, PlainItems(agg.groupBy), AggItems(agg.funcs));
      return Join(groups + funcs, ", ");
    }
    if |plan.fields| > 0 {
      var parts := PlainParts(plan.fields);
      return Join(parts, ", ");
    }
    return "*";
  }

  method RecordIdPart(recordIds: seq<string>) returns (parts: seq<string>)
    ensures parts == CondStrs(IdConds(recordIds))
  {
    if |recordIds| == 0 {
      return [];
    }
    var quoted: seq<string> := [];
    var i := 0;
    while i < |recordIds|
      invariant 0 <= i <= |recordIds| && |quoted| == i
      invariant forall k :: 0 <= k < i ==> quoted[k] == LiteralText(recordIds[k])
    {
      var q := QuoteLiteral(recordIds[i]);
      quoted := quoted + [q];
      i := i + 1;
    }
    assert quoted == Literals(recordIds);
    parts := ["record_id IN (" + Join(quoted, ",") + ")"];
    assert parts[0] == CondStr(RecordIdIn(recordIds));
    assert CondStrs([RecordIdIn(recordIds)]) == [CondStr(RecordIdIn(recordIds))];
  }

  lemma {:induction false} FilterStrs(filters: seq<FilterPredicate>, parts: seq<string>)
    requires |parts| == |filters| && forall k :: 0 <= k < |filters| ==> parts[k] == ComparisonSql(filters[k])
    ensures parts == CondStrs(FilterConds(filters))
  {
    forall k | 0 <= k < |filters| ensures parts[k] == CondStrs(FilterConds(filters))[k] {
      ComparisonStr(filters[k]);
    }
  }

  method TimePart(op: Op, bound: string) returns (part: string)
    ensures part == CondStr(TimeCond(op, bound))
  {
    TimestampIdent();
    var q := QuoteLiteral(bound);
    part := "`timestamp`" + " " + OpText(op) + " " + q;
  }

  method TimeParts(t: Option<TimeRange>) returns (parts: seq<string>)
    ensures parts == CondStrs(TimeConds(t))
  {
    parts := [];
    ghost var conds: seq<Cond> := [];
    if t.Some? {
      if t.value.from.Some? {
        var part := TimePart(Ge, t.value.from.value);
        parts, conds := parts + [part], conds + [TimeCond(Ge, t.value.from.value)];
        assert parts == CondStrs(conds);
      }
      if t.value.to.Some? {
        var part := TimePart(Le, t.value.to.value);
        AppendCond(conds, TimeCond(Le, t.value.to.value));
        parts, conds := parts + [part], conds + [TimeCond(Le, t.value.to.value)];
      }
    }
    assert conds == TimeConds(t);
  }

  lemma {:induction false} AppendCond(cs: seq<Cond>, c: Cond)
    ensures CondStrs(cs + [c]) == CondStrs(cs) + [CondStr(c)]
  {
  }

  lemma {:induction false} NoTicks(s: string)
    requires '`' !in s
    ensures DoubleTicks(s) == s
  {
    if s != [] {
      NoTicks(s[1..]);
    }
  }

  lemma {:induction false} TimestampIdent()
    ensures QuoteIdent("timestamp") == "`timestamp`"
  {
    assert forall i :: 0 <= i < 9 ==> "timestamp"[i] != '`';
    NoTicks("timestamp");
    TimestampQuoted();
  }

  lemma {:induction false} TimestampQuoted()
    ensures ['`'] + ("timestamp" + ['`']) == "`timestamp`"
  {
  }

  method FilterParts(filters: seq<FilterPredicate>) returns (parts: seq<string>)
    ensures parts == CondStrs(FilterConds(filters))
  {
    parts := Render(filters, ComparisonSql);
    FilterStrs(filters, parts);
  }

  method BuildWhereClause(plan: Plan, recordIds: seq<string>) returns (where: string)
    ensures where == Join(CondStrs(CondsOf(plan, recordIds)), " AND ")
  {
    var ids := RecordIdPart(recordIds);
    var filters := FilterParts(plan.filters);
    var times := TimeParts(plan.timeRange);
    StrsJoin(CondStr, IdConds(recordIds), FilterConds(plan.filters));
    StrsJoin(CondStr, IdConds(recordIds) + FilterConds(plan.filters), TimeConds(plan.timeRange));
    return Join(ids + filters + times, " AND ");
  }

  function SortColumnExpr(plan: Plan, field: string): string {
    if IsAlias(plan, field) then QuoteIdent(field) else ColumnExpr(field)
  }

  function SortPart(plan: Plan, k: SortField): string {
    SortColumnExpr(plan, k.field) + " " + (if k.desc then "DESC" else "ASC")
  }

  lemma {:induction false} SortStrs(plan: Plan, parts: seq<string>)
    requires |parts| == |plan.sort| && forall k :: 0 <= k < |plan.sort| ==> parts[k] == SortPart(plan, plan.sort[k])
    ensures parts == OrderStrs(SortKeys(plan))
  {
    forall k | 0 <= k < |plan.sort| ensures parts[k] == OrderStrs(SortKeys(plan))[k] {
      assert OrderStr(SortKeys(plan)[k]) == SortPart(plan, plan.sort[k]);
    }
  }

  method WriteOrderBy(plan: Plan) returns (text: string)
    ensures text == OrderByStr(OrderOf(plan))
  {
    TimestampIdent();
    if |plan.sort| > 0 {
      var parts := Render(plan.sort, (k: SortField) => SortPart(plan, k));
      SortStrs(plan, parts);
      return " ORDER BY " + Join(parts, ", ");
    }
    if plan.limit.Some? && plan.limit.value.tail {
      SingleOrder(Order(Top("timestamp"), false));
      return " ORDER BY " + ("`timestamp`" + " " + "ASC");
    }
    if plan.aggregation.None? {
      SingleOrder(Order(Top("timestamp"), true));
      return " ORDER BY " + ("`timestamp`" + " " + "DESC");
    }
    return "";
  }

  lemma {:induction false} SingleOrder(o: Order)
    ensures OrderByStr([o]) == " ORDER BY " + OrderStr(o)
  {
    assert OrderStrs([o]) == [OrderStr(o)];
  }

  lemma {:induction false} JoinNonEmpty(parts: seq<string>, sep: string)
    requires parts != [] && forall i :: 0 <= i < |parts| ==> parts[i] != ""
    ensures Join(parts, sep) != ""
  {
  }

  lemma {:induction false} CondStrsNonEmpty(cs: seq<Cond>)
    ensures Join(CondStrs(cs), " AND ") == "" <==> cs == []
  {
    if cs != [] {
      forall i | 0 <= i < |cs| ensures CondStrs(cs)[i] != "" {
        assert CondStr(cs[i]) != "";
      }
      JoinNonEmpty(CondStrs(cs), " AND ");
    }
  }

  method GroupByPart(plan: Plan) returns (text: string)
    ensures text == GroupStr(if plan.aggregation.Some? then ColumnsOf(plan.aggregation.value.groupBy) else [])
  {
    if plan.aggregation.None? || |plan.aggregation.value.groupBy| == 0 {
      return "";
    }
    var groupBy := plan.aggregation.value.groupBy;
    var cols := Render(groupBy, ColumnExpr);
    GroupStrs(groupBy, cols);
    return " GROUP BY " + Join(cols, ", ");
  }

  lemma {:induction false} GroupStrs(fields: seq<string>, parts: seq<string>)
    requires |parts| == |fields| && forall k :: 0 <= k < |fields| ==> parts[k] == ColumnExpr(fields[k])
    ensures parts == ColStrs(ColumnsOf(fields))
  {
    forall k | 0 <= k < |fields| ensures parts[k] == ColStrs(ColumnsOf(fields))[k] {
      assert ColStr(ColumnsOf(fields)[k]) == ColumnExpr(fields[k]);
    }
  }

  /** What buildSQL emits is the text of the intended statement. */
  method BuildSql(plan: Plan, recordIds: seq<string>) returns (sql: string)
    ensures sql == StatementStr(Intended(plan, recordIds))
  {
    var select := SelectClause(plan);
    var where := BuildWhereClause(plan, recordIds);
    CondStrsNonEmpty(CondsOf(plan, recordIds));
    var group := GroupByPart(plan);
    var order := WriteOrderBy(plan);
    var limit := "";
    if plan.limit.Some? {
      limit := " LIMIT " + PrintInt(plan.limit.value.n);
    } else if plan.aggregation.None? {
      limit := " LIMIT " + PrintInt(DEFAULT_ROW_LIMIT);
    }
    sql := "SELECT " + (select + (" FROM logs" + ((if where != "" then " WHERE " + where else "")
                                                  + (group + (order + limit)))));
  }

  lemma {:induction false} ColumnOfSurvives(field: string)
    ensures ColumnSurvives(ColumnOf(field))
  {
    if field in TOP_LEVEL {
      TopLevelReadsBack(field);
    }
  }

  lemma {:induction false} CondsValid(plan: Plan, ids: seq<string>)
    ensures forall i :: 0 <= i < |CondsOf(plan, ids)| ==>
              ValidCond(CondsOf(plan, ids)[i]) && CondSurvives(CondsOf(plan, ids)[i])
  {
    TopLevelReadsBack("timestamp");
    forall f: FilterPredicate ensures ValidCond(CondOf(f)) && CondSurvives(CondOf(f)) {
      ColumnOfSurvives(f.field);
    }
  }

  lemma {:induction false} PlainItemsSurvive(fields: seq<string>)
    ensures SelectSurvives(Items(PlainItems(fields))) <==> forall i :: 0 <= i < |fields| ==> ReadsBack(fields[i])
  {
    forall i | 0 <= i < |fields| ensures ItemSurvives(PlainItems(fields)[i]) <==> ReadsBack(fields[i]) {
      ColumnOfSurvives(fields[i]);
    }
  }

  lemma {:induction false} AggItemsSurvive(funcs: seq<AggFunc>)
    ensures SelectSurvives(Items(AggItems(funcs))) <==> forall i :: 0 <= i < |funcs| ==> ReadsBack(funcs[i].alias)
  {
    forall i | 0 <= i < |funcs| ensures ItemSurvives(AggItems(funcs)[i]) <==> ReadsBack(funcs[i].alias) {
      ColumnOfSurvives(funcs[i].field);
    }
  }

  lemma {:induction false} BothSurvive(a: seq<Item>, b: seq<Item>)
    ensures SelectSurvives(Items(a + b)) <==> SelectSurvives(Items(a)) && SelectSurvives(Items(b))
  {
    if SelectSurvives(Items(a + b)) {
      assert forall i :: 0 <= i < |a| ==> a[i] == (a + b)[i];
      assert forall i :: 0 <= i < |b| ==> b[i] == (a + b)[|a| + i];
    }
  }

  /** The select list carries every name a plan can choose, so it survives exactly when the names do. */
  lemma {:induction false} SelectOfSurvives(plan: Plan)
    ensures SelectSurvives(SelectOf(plan)) <==> NamesReadBack(plan)
  {
    if plan.aggregation.Some? {
      var agg := plan.aggregation.value;
      PlainItemsSurvive(agg.groupBy);
      AggItemsSurvive(agg.funcs);
      BothSurvive(PlainItems(agg.groupBy), AggItems(agg.funcs));
    } else {
      PlainItemsSurvive(plan.fields);
    }
  }

  lemma {:induction false} OrderSurvives(plan: Plan)
    requires NamesReadBack(plan)
    ensures forall i :: 0 <= i < |OrderOf(plan)| ==> ColumnSurvives(OrderOf(plan)[i].col)
  {
    TopLevelReadsBack("timestamp");
    forall field: string {
      ColumnOfSurvives(field);
    }
  }

  lemma {:induction false} IntendedSurvives(plan: Plan, ids: seq<string>)
    ensures SqlSyntax.Valid(Intended(plan, ids))
    ensures NamesReadBack(plan) ==> NamesSurvive(Intended(plan, ids))
  {
    SelectOfSurvives(plan);
    CondsValid(plan, ids);
    if NamesReadBack(plan) {
      OrderSurvives(plan);
    }
    forall field: string {
      ColumnOfSurvives(field);
    }
  }

  /**
   For every plan, whatever its names and values: the WHERE text reads back as
   exactly one condition per record filter, predicate and time bound.
   */
  lemma {:induction false} WhereReadsBack(plan: Plan, recordIds: seq<string>)
    requires CondsOf(plan, recordIds) != []
    ensures ReadConds(Lex(Join(CondStrs(CondsOf(plan, recordIds)), " AND "))) == Got(CondsOf(plan, recordIds), Nil)
  {
    var cs := CondsOf(plan, recordIds);
    CondsValid(plan, recordIds);
    CondsText(cs, End);
    assert Join(CondStrs(cs), " AND ") + Text(End) == Join(CondStrs(cs), " AND ");
    CondsReadBack(cs);
  }

  /**
   For every plan and record filter, the built text is read back as the intended
   statement if and only if the plan's names survive quoting.
   */
  lemma {:induction false} BuiltSqlReadsBack(plan: Plan, recordIds: seq<string>)
    ensures ParseSql(StatementStr(Intended(plan, recordIds))) == Some(Intended(plan, recordIds))
            <==> NamesReadBack(plan)
  {
    var st := Intended(plan, recordIds);
    IntendedSurvives(plan, recordIds);
    StatementText(st);
    if NamesReadBack(plan) {
      ParseSpelled(st);
    } else {
      SelectOfSurvives(plan);
      SelectMisread(st);
    }
  }

  /** Fields, group-by names and aliases as the query language can write them. */
  predicate WrittenNames(plan: Plan) {
    && (forall i :: 0 <= i < |plan.fields| ==> IsName(plan.fields[i]))
    && (plan.aggregation.Some? ==>
          && (forall i :: 0 <= i < |plan.aggregation.value.groupBy| ==> IsName(plan.aggregation.value.groupBy[i]))
          && forall i :: 0 <= i < |plan.aggregation.value.funcs| ==> IsName(plan.aggregation.value.funcs[i].alias))
  }

  /** Every name the query language can write survives quoting. */
  lemma {:induction false} WrittenNamesReadBack(plan: Plan)
    requires WrittenNames(plan)
    ensures NamesReadBack(plan)
  {
    forall name: string | IsName(name) ensures ReadsBack(name) {
      WrittenNameReadsBack(name);
    }
  }
}
