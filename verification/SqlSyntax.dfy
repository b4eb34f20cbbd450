/**
 The statements the compiler emits, as syntax trees: how one is spelled, how
 one is read back from tokens, and the proof that reading undoes spelling.
 */
module SqlSyntax {
  import opened Prelude
  import opened Lexical
  import opened SqlTokens

  datatype Op = Eq | Ne | Gt | Ge | Lt | Le

  datatype Column = Top(name: string) | Attribute(key: string)

  /** A column, numeric-cast or not. */
  datatype Expr = Expr(col: Column, cast: bool)

  datatype Operand = StrLit(s: string) | NumLit(negative: bool, digits: string)

  datatype Cond = RecordIdIn(ids: seq<string>) | Compare(lhs: Expr, op: Op, rhs: Operand)

  datatype AggFn = Sum | Avg | MinOf | MaxOf

  datatype ItemExpr = Plain(col: Column) | CountAll | Aggregate(fn: AggFn, arg: Expr)

  datatype Item = Item(expr: ItemExpr, alias: string)

  datatype Select = Star | Items(items: seq<Item>)

  datatype Order = Order(col: Column, desc: bool)

  datatype Statement = Statement(
    select: Select, conds: seq<Cond>, groupBy: seq<Column>, orderBy: seq<Order>, limit: Option<int>)

  function OpText(op: Op): string {
    match op
    case Eq => "=" case Ne => "!=" case Gt => ">" case Ge => ">=" case Lt => "<" case Le => "<="
  }

  function FnText(fn: AggFn): string {
    match fn
    case Sum => "SUM" case Avg => "AVG" case MinOf => "MIN" case MaxOf => "MAX"
  }

  predicate ValidOperand(o: Operand) {
    o.NumLit? ==> IsUnsigned(o.digits)
  }

  predicate ValidCond(c: Cond) {
    match c
    case RecordIdIn(ids) => ids != []
    case Compare(_, _, rhs) => ValidOperand(rhs)
  }

  /** Lists where SQL needs them, and numbers that are numbers. */
  predicate Valid(st: Statement) {
    forall i :: 0 <= i < |st.conds| ==> ValidCond(st.conds[i])
  }

  // ---------------------------------------------------------------------
  // Spelling: each function puts its pieces in front of what follows
  // ---------------------------------------------------------------------

  function Tok(t: Token, rest: Pieces): (r: Pieces)
    ensures TokensOf(r) == Cons(t, TokensOf(rest))
    ensures AllSurvive(TokensOf(r)) <==> Survives(t) && AllSurvive(TokensOf(rest))
  {
    Put(t, rest)
  }

  function Sp(rest: Pieces): (r: Pieces)
    ensures TokensOf(r) == TokensOf(rest)
  {
    Gap(rest)
  }

  function Col(c: Column, rest: Pieces): Pieces {
    match c
    case Top(name) => Tok(Ident(name), rest)
    case Attribute(key) => Tok(Word("attributes"), Tok(Sym("["), Tok(Str(key), Tok(Sym("]"), rest))))
  }

  function Ex(e: Expr, rest: Pieces): Pieces {
    if e.cast then Tok(Word("toFloat64OrZero"), Tok(Sym("("), Col(e.col, Tok(Sym(")"), rest)))) else Col(e.col, rest)
  }

  function Opd(o: Operand, rest: Pieces): Pieces {
    match o
    case StrLit(s) => Tok(Str(s), rest)
    case NumLit(negative, digits) => if negative then Tok(Sym("-"), Tok(Num(digits), rest)) else Tok(Num(digits), rest)
  }

  function Ids(ids: seq<string>, rest: Pieces): Pieces
    requires ids != []
  {
    if |ids| == 1 then Tok(Str(ids[0]), rest) else Tok(Str(ids[0]), Tok(Sym(","), Ids(ids[1..], rest)))
  }

  function Cnd(c: Cond, rest: Pieces): Pieces
    requires ValidCond(c)
  {
    match c
    case RecordIdIn(ids) =>
      Tok(Word("record_id"), Sp(Tok(Word("IN"), Sp(Tok(Sym("("), Ids(ids, Tok(Sym(")"), rest)))))))
    case Compare(lhs, op, rhs) => Ex(lhs, Sp(Tok(Sym(OpText(op)), Sp(Opd(rhs, rest)))))
  }

  function Conds(cs: seq<Cond>, rest: Pieces): Pieces
    requires cs != [] && forall i :: 0 <= i < |cs| ==> ValidCond(cs[i])
  {
    if |cs| == 1 then Cnd(cs[0], rest) else Cnd(cs[0], Sp(Tok(Word("AND"), Sp(Conds(cs[1..], rest)))))
  }

  function ItemEx(e: ItemExpr, rest: Pieces): Pieces {
    match e
    case Plain(col) => Col(col, rest)
    case CountAll => Tok(Word("count"), Tok(Sym("("), Tok(Sym(")"), rest)))
    case Aggregate(fn, arg) => Tok(Word(FnText(fn)), Tok(Sym("("), Ex(arg, Tok(Sym(")"), rest))))
  }

  function Itm(i: Item, rest: Pieces): Pieces {
    ItemEx(i.expr, Sp(Tok(Word("AS"), Sp(Tok(Ident(i.alias), rest)))))
  }

  function Itms(items: seq<Item>, rest: Pieces): Pieces
    requires items != []
  {
    if |items| == 1 then Itm(items[0], rest) else Itm(items[0], Tok(Sym(","), Sp(Itms(items[1..], rest))))
  }

  function Sel(s: Select, rest: Pieces): Pieces {
    match s
    case Star => Tok(Sym("*"), rest)
    case Items(items) => if items == [] then rest else Itms(items, rest)
  }

  function Cols(cs: seq<Column>, rest: Pieces): Pieces
    requires cs != []
  {
    if |cs| == 1 then Col(cs[0], rest) else Col(cs[0], Tok(Sym(","), Sp(Cols(cs[1..], rest))))
  }

  function Ord(o: Order, rest: Pieces): Pieces {
    Col(o.col, Sp(Tok(Word(if o.desc then "DESC" else "ASC"), rest)))
  }

  function Ords(os: seq<Order>, rest: Pieces): Pieces
    requires os != []
  {
    if |os| == 1 then Ord(os[0], rest) else Ord(os[0], Tok(Sym(","), Sp(Ords(os[1..], rest))))
  }

  function Int(n: int, rest: Pieces): Pieces {
    if n < 0 then Tok(Sym("-"), Tok(Num(PrintNat(-n)), rest)) else Tok(Num(PrintNat(n)), rest)
  }

  function LimitClause(limit: Option<int>): Pieces {
    if limit.None? then End else Sp(Tok(Word("LIMIT"), Sp(Int(limit.value, End))))
  }

  function OrderClause(st: Statement): Pieces {
    var rest := LimitClause(st.limit);
    if st.orderBy == [] then rest else Sp(Tok(Word("ORDER"), Sp(Tok(Word("BY"), Sp(Ords(st.orderBy, rest))))))
  }

  function GroupClause(st: Statement): Pieces {
    var rest := OrderClause(st);
    if st.groupBy == [] then rest else Sp(Tok(Word("GROUP"), Sp(Tok(Word("BY"), Sp(Cols(st.groupBy, rest))))))
  }

  function WhereClause(st: Statement): Pieces
    requires Valid(st)
  {
    var rest := GroupClause(st);
    if st.conds == [] then rest else Sp(Tok(Word("WHERE"), Sp(Conds(st.conds, rest))))
  }

  function Stmt(st: Statement): Pieces
    requires Valid(st)
  {
    Tok(Word("SELECT"), Sp(Sel(st.select, Sp(Tok(Word("FROM"), Sp(Tok(Word("logs"), WhereClause(st))))))))
  }

  // ---------------------------------------------------------------------
  // Reading tokens
  // ---------------------------------------------------------------------

  /** A value read from the front of a token list, and the tokens left over. */
  datatype Read<T> = NoRead | Got(value: T, rest: Tokens)

  predicate At(ts: Tokens, t: Token) {
    ts.Cons? && ts.head == t
  }

  /** The tokens after `t`, when the list starts with it. */
  function Eat(ts: Tokens, t: Token): (r: Read<()>)
    ensures r.Got? ==> Size(r.rest) < Size(ts)
  {
    if At(ts, t) then Got((), ts.tail) else NoRead
  }

  function Size(ts: Tokens): nat {
    if ts.Nil? then 0 else 1 + Size(ts.tail)
  }

  function ReadStr(ts: Tokens): (r: Read<string>)
    ensures r.Got? ==> Size(r.rest) < Size(ts)
  {
    if ts.Cons? && ts.head.Str? then Got(ts.head.s, ts.tail) else NoRead
  }

  function ReadCol(ts: Tokens): (r: Read<Column>)
    ensures r.Got? ==> Size(r.rest) < Size(ts)
  {
    if ts.Cons? && ts.head.Ident? then Got(Top(ts.head.name), ts.tail)
    else
      var a := Eat(ts, Word("attributes"));
      if a.NoRead? then NoRead else
      var open := Eat(a.rest, Sym("["));
      if open.NoRead? then NoRead else
      var key := ReadStr(open.rest);
      if key.NoRead? then NoRead else
      var close := Eat(key.rest, Sym("]"));
      if close.NoRead? then NoRead else Got(Attribute(key.value), close.rest)
  }

  function ReadEx(ts: Tokens): (r: Read<Expr>)
    ensures r.Got? ==> Size(r.rest) < Size(ts)
  {
    var cast := Eat(ts, Word("toFloat64OrZero"));
    if cast.Got? then
      var open := Eat(cast.rest, Sym("("));
      if open.NoRead? then NoRead else
      var c := ReadCol(open.rest);
      if c.NoRead? then NoRead else
      var close := Eat(c.rest, Sym(")"));
      if close.NoRead? then NoRead else Got(Expr(c.value, true), close.rest)
    else
      var c := ReadCol(ts);
      if c.NoRead? then NoRead else Got(Expr(c.value, false), c.rest)
  }

  function OpOf(c: string): Option<Op> {
    if c == "=" then Some(Eq) else if c == "!=" then Some(Ne) else if c == ">" then Some(Gt)
    else if c == ">=" then Some(Ge) else if c == "<" then Some(Lt) else if c == "<=" then Some(Le) else None
  }

  function ReadOp(ts: Tokens): (r: Read<Op>)
    ensures r.Got? ==> Size(r.rest) < Size(ts)
  {
    if ts.Cons? && ts.head.Sym? && OpOf(ts.head.c).Some? then Got(OpOf(ts.head.c).value, ts.tail) else NoRead
  }

  function ReadOpd(ts: Tokens): (r: Read<Operand>)
    ensures r.Got? ==> Size(r.rest) < Size(ts)
  {
    match ts
    case Cons(Str(s), rest) => Got(StrLit(s), rest)
    case Cons(Num(digits), rest) => Got(NumLit(false, digits), rest)
    case Cons(Sym("-"), Cons(Num(digits), rest)) => Got(NumLit(true, digits), rest)
    case _ => NoRead
  }

  function ReadIds(ts: Tokens): (r: Read<seq<string>>)
    ensures r.Got? ==> Size(r.rest) < Size(ts)
    decreases Size(ts)
  {
    var id := ReadStr(ts);
    if id.NoRead? then NoRead
    else if At(id.rest, Sym(",")) then
      var r := ReadIds(id.rest.tail);
      if r.NoRead? then NoRead else Got([id.value] + r.value, r.rest)
    else Got([id.value], id.rest)
  }

  function ReadCnd(ts: Tokens): (r: Read<Cond>)
    ensures r.Got? ==> Size(r.rest) < Size(ts)
  {
    if At(ts, Word("record_id")) then
      var key := Eat(ts.tail, Word("IN"));
      if key.NoRead? then NoRead else
      var open := Eat(key.rest, Sym("("));
      if open.NoRead? then NoRead else
      var ids := ReadIds(open.rest);
      if ids.NoRead? then NoRead else
      var close := Eat(ids.rest, Sym(")"));
      if close.NoRead? then NoRead else Got(RecordIdIn(ids.value), close.rest)
    else
      var lhs := ReadEx(ts);
      if lhs.NoRead? then NoRead else
      var op := ReadOp(lhs.rest);
      if op.NoRead? then NoRead else
      var rhs := ReadOpd(op.rest);
      if rhs.NoRead? then NoRead else Got(Compare(lhs.value, op.value, rhs.value), rhs.rest)
  }

  function ReadConds(ts: Tokens): (r: Read<seq<Cond>>)
    decreases Size(ts)
  {
    var c := ReadCnd(ts);
    if c.NoRead? then NoRead
    else if At(c.rest, Word("AND")) then
      var r := ReadConds(c.rest.tail);
      if r.NoRead? then NoRead else Got([c.value] + r.value, r.rest)
    else Got([c.value], c.rest)
  }

  function FnOf(w: string): Option<AggFn> {
    if w == "SUM" then Some(Sum) else if w == "AVG" then Some(Avg)
    else if w == "MIN" then Some(MinOf) else if w == "MAX" then Some(MaxOf) else None
  }

  function ReadItemEx(ts: Tokens): (r: Read<ItemExpr>)
    ensures r.Got? ==> Size(r.rest) < Size(ts)
  {
    if At(ts, Word("count")) then
      var open := Eat(ts.tail, Sym("("));
      if open.NoRead? then NoRead else
      var close := Eat(open.rest, Sym(")"));
      if close.NoRead? then NoRead else Got(CountAll, close.rest)
    else if ts.Cons? && ts.head.Word? && FnOf(ts.head.w).Some? then
      var open := Eat(ts.tail, Sym("("));
      if open.NoRead? then NoRead else
      var arg := ReadEx(open.rest);
      if arg.NoRead? then NoRead else
      var close := Eat(arg.rest, Sym(")"));
      if close.NoRead? then NoRead else Got(Aggregate(FnOf(ts.head.w).value, arg.value), close.rest)
    else
      var c := ReadCol(ts);
      if c.NoRead? then NoRead else Got(Plain(c.value), c.rest)
  }

  function ReadItm(ts: Tokens): (r: Read<Item>)
    ensures r.Got? ==> Size(r.rest) < Size(ts)
  {
    var e := ReadItemEx(ts);
    if e.NoRead? then NoRead else
    var key := Eat(e.rest, Word("AS"));
    if key.NoRead? then NoRead
    else if key.rest.Cons? && key.rest.head.Ident? then Got(Item(e.value, key.rest.head.name), key.rest.tail)
    else NoRead
  }

  function ReadItms(ts: Tokens): Read<seq<Item>>
    decreases Size(ts)
  {
    var i := ReadItm(ts);
    if i.NoRead? then NoRead
    else if At(i.rest, Sym(",")) then
      var r := ReadItms(i.rest.tail);
      if r.NoRead? then NoRead else Got([i.value] + r.value, r.rest)
    else Got([i.value], i.rest)
  }

  function ReadSel(ts: Tokens): Read<Select> {
    if At(ts, Sym("*")) then Got(Star, ts.tail)
    else if At(ts, Word("FROM")) then Got(Items([]), ts)
    else
      var r := ReadItms(ts);
      if r.NoRead? then NoRead else Got(Items(r.value), r.rest)
  }

  function ReadCols(ts: Tokens): Read<seq<Column>>
    decreases Size(ts)
  {
    var c := ReadCol(ts);
    if c.NoRead? then NoRead
    else if At(c.rest, Sym(",")) then
      var r := ReadCols(c.rest.tail);
      if r.NoRead? then NoRead else Got([c.value] + r.value, r.rest)
    else Got([c.value], c.rest)
  }

  function ReadOrd(ts: Tokens): (r: Read<Order>)
    ensures r.Got? ==> Size(r.rest) < Size(ts)
  {
    var c := ReadCol(ts);
    if c.NoRead? then NoRead
    else if At(c.rest, Word("ASC")) then Got(Order(c.value, false), c.rest.tail)
    else if At(c.rest, Word("DESC")) then Got(Order(c.value, true), c.rest.tail)
    else NoRead
  }

  function ReadOrds(ts: Tokens): Read<seq<Order>>
    decreases Size(ts)
  {
    var o := ReadOrd(ts);
    if o.NoRead? then NoRead
    else if At(o.rest, Sym(",")) then
      var r := ReadOrds(o.rest.tail);
      if r.NoRead? then NoRead else Got([o.value] + r.value, r.rest)
    else Got([o.value], o.rest)
  }

  function ReadInt(ts: Tokens): Read<int> {
    match ts
    case Cons(Num(digits), rest) =>
      if All(digits, Digit) then Got(Decimal(digits), rest) else NoRead
    case Cons(Sym("-"), Cons(Num(digits), rest)) =>
      if All(digits, Digit) then Got(0 - Decimal(digits), rest) else NoRead
    case _ => NoRead
  }

  function ReadLimit(ts: Tokens): Read<Option<int>> {
    if At(ts, Word("LIMIT")) then
      var n := ReadInt(ts.tail);
      if n.NoRead? then NoRead else Got(Some(n.value), n.rest)
    else Got(None, ts)
  }

  function ReadOrder(ts: Tokens): Read<seq<Order>> {
    if At(ts, Word("ORDER")) then
      if At(ts.tail, Word("BY")) then ReadOrds(ts.tail.tail) else NoRead
    else Got([], ts)
  }

  function ReadGroup(ts: Tokens): Read<seq<Column>> {
    if At(ts, Word("GROUP")) then
      if At(ts.tail, Word("BY")) then ReadCols(ts.tail.tail) else NoRead
    else Got([], ts)
  }

  function ReadWhere(ts: Tokens): Read<seq<Cond>> {
    if At(ts, Word("WHERE")) then ReadConds(ts.tail) else Got([], ts)
  }

  function ReadTail(select: Select, ts: Tokens): Option<Statement> {
    var conds := ReadWhere(ts);
    if conds.NoRead? then None else
    var groupBy := ReadGroup(conds.rest);
    if groupBy.NoRead? then None else
    var orderBy := ReadOrder(groupBy.rest);
    if orderBy.NoRead? then None else
    var limit := ReadLimit(orderBy.rest);
    if limit.NoRead? || limit.rest != Nil then None
    else Some(Statement(select, conds.value, groupBy.value, orderBy.value, limit.value))
  }

  function ReadStatement(ts: Tokens): Option<Statement> {
    if !At(ts, Word("SELECT")) then None else
    var select := ReadSel(ts.tail);
    if select.NoRead? then None else
    var from := Eat(select.rest, Word("FROM"));
    if from.NoRead? then None else
    var table := Eat(from.rest, Word("logs"));
    if table.NoRead? then None else ReadTail(select.value, table.rest)
  }

  /** The statement a text stands for. */
  function ParseSql(text: string): Option<Statement> {
    ReadStatement(Lex(text))
  }

  // ---------------------------------------------------------------------
  // Reading undoes spelling
  // ---------------------------------------------------------------------

  lemma {:induction false} ColReads(c: Column, rest: Pieces)
    ensures ReadCol(TokensOf(Col(c, rest))) == Got(c, TokensOf(rest))
  {
  }

  lemma {:induction false} ExReads(e: Expr, rest: Pieces)
    ensures ReadEx(TokensOf(Ex(e, rest))) == Got(e, TokensOf(rest))
    ensures !At(TokensOf(Ex(e, rest)), Word("record_id"))
  {
    ColReads(e.col, if e.cast then Tok(Sym(")"), rest) else rest);
  }

  lemma {:induction false} OpReads(op: Op)
    ensures OpOf(OpText(op)) == Some(op)
  {
  }

  lemma {:induction false} OpdReads(o: Operand, rest: Pieces)
    ensures ReadOpd(TokensOf(Opd(o, rest))) == Got(o, TokensOf(rest))
  {
  }

  lemma {:induction false} IdsReads(ids: seq<string>, rest: Pieces)
    requires ids != [] && !At(TokensOf(rest), Sym(","))
    ensures ReadIds(TokensOf(Ids(ids, rest))) == Got(ids, TokensOf(rest))
  {
    if |ids| == 1 {
      assert ids == [ids[0]];
    } else {
      IdsReads(ids[1..], rest);
      assert ids == [ids[0]] + ids[1..];
    }
  }

  lemma {:induction false} CndReads(c: Cond, rest: Pieces)
    requires ValidCond(c)
    ensures ReadCnd(TokensOf(Cnd(c, rest))) == Got(c, TokensOf(rest))
  {
    match c
    case RecordIdIn(ids) => InReads(ids, rest);
    case Compare(lhs, op, rhs) => CompareReads(lhs, op, rhs, rest);
  }

  lemma {:induction false} InReads(ids: seq<string>, rest: Pieces)
    requires ids != []
    ensures ReadCnd(TokensOf(Cnd(RecordIdIn(ids), rest))) == Got(RecordIdIn(ids), TokensOf(rest))
  {
    IdsReads(ids, Tok(Sym(")"), rest));
  }

  lemma {:induction false} CompareReads(lhs: Expr, op: Op, rhs: Operand, rest: Pieces)
    requires ValidCond(Compare(lhs, op, rhs))
    ensures ReadCnd(TokensOf(Cnd(Compare(lhs, op, rhs), rest))) == Got(Compare(lhs, op, rhs), TokensOf(rest))
  {
    ExReads(lhs, Sp(Tok(Sym(OpText(op)), Sp(Opd(rhs, rest)))));
    OpReads(op);
    OpdReads(rhs, rest);
  }

  lemma {:induction false} CondsReads(cs: seq<Cond>, rest: Pieces)
    requires cs != [] && forall i :: 0 <= i < |cs| ==> ValidCond(cs[i])
    requires !At(TokensOf(rest), Word("AND"))
    ensures ReadConds(TokensOf(Conds(cs, rest))) == Got(cs, TokensOf(rest))
  {
    if |cs| == 1 {
      CndReads(cs[0], rest);
      LastCond(TokensOf(Cnd(cs[0], rest)), cs[0], TokensOf(rest));
      assert cs == [cs[0]];
    } else {
      CondsReads(cs[1..], rest);
      FirstCond(cs, rest);
    }
  }

  lemma {:induction false} FirstCond(cs: seq<Cond>, rest: Pieces)
    requires |cs| > 1 && forall i :: 0 <= i < |cs| ==> ValidCond(cs[i])
    requires ReadConds(TokensOf(Conds(cs[1..], rest))) == Got(cs[1..], TokensOf(rest))
    ensures ReadConds(TokensOf(Conds(cs, rest))) == Got(cs, TokensOf(rest))
  {
    var more := TokensOf(Conds(cs[1..], rest));
    var tail := Sp(Tok(Word("AND"), Sp(Conds(cs[1..], rest))));
    CndReads(cs[0], tail);
    OneMoreCond(TokensOf(Cnd(cs[0], tail)), cs[0], more, cs[1..], TokensOf(rest));
    assert cs == [cs[0]] + cs[1..];
  }

  lemma {:induction false} LastCond(ts: Tokens, c: Cond, rest: Tokens)
    requires ReadCnd(ts) == Got(c, rest) && !At(rest, Word("AND"))
    ensures ReadConds(ts) == Got([c], rest)
  {
  }

  lemma {:induction false} OneMoreCond(ts: Tokens, c: Cond, more: Tokens, cs: seq<Cond>, rest: Tokens)
    requires ReadCnd(ts) == Got(c, Cons(Word("AND"), more)) && ReadConds(more) == Got(cs, rest)
    ensures ReadConds(ts) == Got([c] + cs, rest)
  {
  }

  lemma {:induction false} ItmReads(i: Item, rest: Pieces)
    ensures ReadItm(TokensOf(Itm(i, rest))) == Got(i, TokensOf(rest))
    ensures !At(TokensOf(Itm(i, rest)), Sym("*")) && !At(TokensOf(Itm(i, rest)), Word("FROM"))
  {
    ItemExReads(i.expr, Sp(Tok(Word("AS"), Sp(Tok(Ident(i.alias), rest)))));
  }

  lemma {:induction false} ItemExReads(e: ItemExpr, rest: Pieces)
    ensures ReadItemEx(TokensOf(ItemEx(e, rest))) == Got(e, TokensOf(rest))
    ensures !At(TokensOf(ItemEx(e, rest)), Sym("*")) && !At(TokensOf(ItemEx(e, rest)), Word("FROM"))
  {
    match e
    case Plain(col) => PlainReads(col, rest);
    case CountAll =>
    case Aggregate(fn, arg) => AggregateReads(fn, arg, rest);
  }

  lemma {:induction false} PlainReads(col: Column, rest: Pieces)
    ensures ReadItemEx(TokensOf(Col(col, rest))) == Got(Plain(col), TokensOf(rest))
    ensures !At(TokensOf(Col(col, rest)), Sym("*")) && !At(TokensOf(Col(col, rest)), Word("FROM"))
  {
    ColReads(col, rest);
  }

  lemma {:induction false} AggregateReads(fn: AggFn, arg: Expr, rest: Pieces)
    ensures ReadItemEx(TokensOf(ItemEx(Aggregate(fn, arg), rest))) == Got(Aggregate(fn, arg), TokensOf(rest))
    ensures !At(TokensOf(ItemEx(Aggregate(fn, arg), rest)), Word("FROM"))
  {
    ExReads(arg, Tok(Sym(")"), rest));
    assert FnOf(FnText(fn)) == Some(fn);
  }

  lemma {:induction false} ItmsReads(items: seq<Item>, rest: Pieces)
    requires items != [] && !At(TokensOf(rest), Sym(","))
    ensures ReadItms(TokensOf(Itms(items, rest))) == Got(items, TokensOf(rest))
    ensures !At(TokensOf(Itms(items, rest)), Sym("*")) && !At(TokensOf(Itms(items, rest)), Word("FROM"))
  {
    if |items| == 1 {
      ItmReads(items[0], rest);
      assert items == [items[0]];
    } else {
      var more := Itms(items[1..], rest);
      ItmsReads(items[1..], rest);
      var tail := Tok(Sym(","), Sp(more));
      ItmReads(items[0], tail);
      assert Itms(items, rest) == Itm(items[0], tail) && TokensOf(tail) == Cons(Sym(","), TokensOf(more));
      OneMoreItm(TokensOf(Itms(items, rest)), items[0], TokensOf(more), items[1..], TokensOf(rest));
      assert items == [items[0]] + items[1..];
    }
  }

  lemma {:induction false} OneMoreItm(ts: Tokens, i: Item, more: Tokens, items: seq<Item>, rest: Tokens)
    requires ReadItm(ts) == Got(i, Cons(Sym(","), more)) && ReadItms(more) == Got(items, rest)
    ensures ReadItms(ts) == Got([i] + items, rest)
  {
  }

  lemma {:induction false} ColsReads(cs: seq<Column>, rest: Pieces)
    requires cs != [] && !At(TokensOf(rest), Sym(","))
    ensures ReadCols(TokensOf(Cols(cs, rest))) == Got(cs, TokensOf(rest))
  {
    if |cs| == 1 {
      ColReads(cs[0], rest);
      assert cs == [cs[0]];
    } else {
      ColsReads(cs[1..], rest);
      ColReads(cs[0], Tok(Sym(","), Sp(Cols(cs[1..], rest))));
      assert cs == [cs[0]] + cs[1..];
    }
  }

  lemma {:induction false} OrdReads(o: Order, rest: Pieces)
    ensures ReadOrd(TokensOf(Ord(o, rest))) == Got(o, TokensOf(rest))
  {
    ColReads(o.col, Sp(Tok(Word(if o.desc then "DESC" else "ASC"), rest)));
  }

  lemma {:induction false} OrdsReads(os: seq<Order>, rest: Pieces)
    requires os != [] && !At(TokensOf(rest), Sym(","))
    ensures ReadOrds(TokensOf(Ords(os, rest))) == Got(os, TokensOf(rest))
  {
    if |os| == 1 {
      OrdReads(os[0], rest);
      assert os == [os[0]];
    } else {
      OrdsReads(os[1..], rest);
      OrdReads(os[0], Tok(Sym(","), Sp(Ords(os[1..], rest))));
      assert os == [os[0]] + os[1..];
    }
  }

  lemma {:induction false} LimitReads(limit: Option<int>)
    ensures ReadLimit(TokensOf(LimitClause(limit))) == Got(limit, Nil)
    ensures var ts := TokensOf(LimitClause(limit)); ts == Nil || ts.head == Word("LIMIT")
  {
    if limit.Some? {
      DecimalPrinted(if limit.value < 0 then -limit.value else limit.value);
    }
  }

  lemma {:induction false} OrderReads(st: Statement)
    ensures ReadOrder(TokensOf(OrderClause(st))) == Got(st.orderBy, TokensOf(LimitClause(st.limit)))
    ensures var ts := TokensOf(OrderClause(st)); ts == Nil || ts.head in {Word("LIMIT"), Word("ORDER")}
  {
    LimitReads(st.limit);
    if st.orderBy != [] {
      OrdsReads(st.orderBy, LimitClause(st.limit));
    }
  }

  lemma {:induction false} GroupReads(st: Statement)
    ensures ReadGroup(TokensOf(GroupClause(st))) == Got(st.groupBy, TokensOf(OrderClause(st)))
    ensures var ts := TokensOf(GroupClause(st)); ts == Nil || ts.head in {Word("LIMIT"), Word("ORDER"), Word("GROUP")}
  {
    OrderReads(st);
    if st.groupBy != [] {
      ColsReads(st.groupBy, OrderClause(st));
    }
  }

  lemma {:induction false} WhereReads(st: Statement)
    requires Valid(st)
    ensures ReadWhere(TokensOf(WhereClause(st))) == Got(st.conds, TokensOf(GroupClause(st)))
  {
    GroupReads(st);
    if st.conds != [] {
      CondsReads(st.conds, GroupClause(st));
    }
  }

  lemma {:induction false} SelReads(s: Select, rest: Pieces)
    requires At(TokensOf(rest), Word("FROM"))
    ensures ReadSel(TokensOf(Sel(s, rest))) == Got(s, TokensOf(rest))
  {
    if s.Items? && s.items != [] {
      ItmsReads(s.items, rest);
    }
  }

  lemma {:induction false} StatementReads(st: Statement)
    requires Valid(st)
    ensures ReadStatement(TokensOf(Stmt(st))) == Some(st)
  {
    SelReads(st.select, Sp(Tok(Word("FROM"), Sp(Tok(Word("logs"), WhereClause(st))))));
    TailReads(st);
  }

  lemma {:induction false} TailReads(st: Statement)
    requires Valid(st)
    ensures ReadTail(st.select, TokensOf(WhereClause(st))) == Some(st)
  {
    WhereReads(st);
    GroupReads(st);
    OrderReads(st);
    LimitReads(st.limit);
  }

  // ---- Nothing runs together ------------------------------------------

  /** What may stand right behind a complete clause element. */
  predicate Closing(rest: Pieces) {
    Spaced(rest) && FirstChar(rest) in {' ', ')', ',', ']'}
  }

  const KEYWORDS: set<string> :=
    {"SELECT", "FROM", "logs", "WHERE", "AND", "IN", "GROUP", "ORDER", "BY", "AS", "ASC", "DESC", "LIMIT"}

  lemma {:induction false} KeywordSpellable(w: string)
    requires w in KEYWORDS
    ensures Spellable(Word(w))
  {
  }

  /** A keyword behind a space, with a space or the end of the text behind it. */
  lemma {:induction false} KeySpaced(w: string, rest: Pieces)
    requires w in KEYWORDS && Spaced(rest) && FirstChar(rest) in {' ', ',', ')'}
    ensures Closing(Sp(Tok(Word(w), rest)))
  {
    KeywordSpellable(w);
    assert Spaced(Tok(Word(w), rest));
  }

  lemma {:induction false} CommaSpaced(rest: Pieces)
    requires Spaced(rest)
    ensures Closing(Tok(Sym(","), Sp(rest)))
  {
    assert Spaced(Sp(rest));
  }

  lemma {:induction false} CloseSpaced(c: string, rest: Pieces)
    requires Closing(rest) && c in {")", "]"}
    ensures Closing(Tok(Sym(c), rest))
  {
  }

  lemma {:induction false} ColSpaced(c: Column, rest: Pieces)
    requires Closing(rest)
    ensures Spaced(Col(c, rest)) && FirstChar(Col(c, rest)) in {'`', 'a'}
  {
    if c.Attribute? {
      var r1 := Tok(Sym("]"), rest);
      var r2 := Tok(Str(c.key), r1);
      assert Spaced(r1) && Spaced(r2) && Spaced(Tok(Sym("["), r2));
    }
  }

  lemma {:induction false} ExSpaced(e: Expr, rest: Pieces)
    requires Closing(rest)
    ensures Spaced(Ex(e, rest)) && FirstChar(Ex(e, rest)) in {'`', 'a', 't'}
  {
    if e.cast {
      CloseSpaced(")", rest);
      ColSpaced(e.col, Tok(Sym(")"), rest));
      CastSpaced(Col(e.col, Tok(Sym(")"), rest)));
    } else {
      ColSpaced(e.col, rest);
    }
  }

  lemma {:induction false} CastSpaced(inner: Pieces)
    requires Spaced(inner) && FirstChar(inner) in {'`', 'a'}
    ensures var cast := Tok(Word("toFloat64OrZero"), Tok(Sym("("), inner));
            Spaced(cast) && FirstChar(cast) == 't'
  {
    var open := Tok(Sym("("), inner);
    assert Spellable(Sym("(")) && Fits(Sym("("), FirstChar(inner));
    assert Spaced(open) && FirstChar(open) == '(';
    CastWord();
  }

  lemma {:induction false} CastWord()
    ensures Spellable(Word("toFloat64OrZero")) && Fits(Word("toFloat64OrZero"), '(')
  {
    var w := "toFloat64OrZero";
    assert forall i :: 0 <= i < |w| ==> WordChar(w[i]);
  }

  lemma {:induction false} OpdSpaced(o: Operand, rest: Pieces)
    requires ValidOperand(o) && Closing(rest)
    ensures Spaced(Opd(o, rest))
  {
    if o.NumLit? {
      assert Spaced(Tok(Num(o.digits), rest));
    }
  }

  lemma {:induction false} IdsSpaced(ids: seq<string>, rest: Pieces)
    requires ids != [] && Closing(rest)
    ensures Spaced(Ids(ids, rest)) && FirstChar(Ids(ids, rest)) == '\''
  {
    if |ids| > 1 {
      IdsSpaced(ids[1..], rest);
      assert Spaced(Tok(Sym(","), Ids(ids[1..], rest)));
    }
  }

  lemma {:induction false} OpSpaced(op: Op, rest: Pieces)
    requires Spaced(rest)
    ensures Closing(Sp(Tok(Sym(OpText(op)), Sp(rest))))
  {
    assert Spaced(Sp(rest));
    assert Spellable(Sym(OpText(op)));
    assert Spaced(Tok(Sym(OpText(op)), Sp(rest)));
  }

  lemma {:induction false} InSpaced(ids: seq<string>, rest: Pieces)
    requires ids != [] && Closing(rest)
    ensures Spaced(Cnd(RecordIdIn(ids), rest))
  {
    CloseSpaced(")", rest);
    var list := Ids(ids, Tok(Sym(")"), rest));
    IdsSpaced(ids, Tok(Sym(")"), rest));
    OpenSpaced(list);
    KeySpaced("IN", Sp(Tok(Sym("("), list)));
    RecordIdSpaced(Sp(Tok(Word("IN"), Sp(Tok(Sym("("), list)))));
  }

  lemma {:induction false} OpenSpaced(inner: Pieces)
    requires Spaced(inner)
    ensures Spaced(Tok(Sym("("), inner)) && Spaced(Sp(Tok(Sym("("), inner)))
  {
    assert Spellable(Sym("("));
  }

  lemma {:induction false} RecordIdSpaced(rest: Pieces)
    requires Closing(rest)
    ensures Spaced(Tok(Word("record_id"), rest))
  {
    var w := "record_id";
    assert forall i :: 0 <= i < |w| ==> WordChar(w[i]);
    assert Spellable(Word(w));
  }

  lemma {:induction false} CndSpaced(c: Cond, rest: Pieces)
    requires ValidCond(c) && Closing(rest)
    ensures Spaced(Cnd(c, rest))
  {
    match c
    case RecordIdIn(ids) => InSpaced(ids, rest);
    case Compare(lhs, op, rhs) =>
      OpdSpaced(rhs, rest);
      OpSpaced(op, Opd(rhs, rest));
      ExSpaced(lhs, Sp(Tok(Sym(OpText(op)), Sp(Opd(rhs, rest)))));
  }

  lemma {:induction false} CondsSpaced(cs: seq<Cond>, rest: Pieces)
    requires cs != [] && Closing(rest) && forall i :: 0 <= i < |cs| ==> ValidCond(cs[i])
    ensures Spaced(Conds(cs, rest))
  {
    if |cs| == 1 {
      CndSpaced(cs[0], rest);
    } else {
      CondsSpaced(cs[1..], rest);
      KeySpaced("AND", Sp(Conds(cs[1..], rest)));
      CndSpaced(cs[0], Sp(Tok(Word("AND"), Sp(Conds(cs[1..], rest)))));
    }
  }

  lemma {:induction false} AliasSpaced(alias: string, rest: Pieces)
    requires Closing(rest)
    ensures Closing(Sp(Tok(Word("AS"), Sp(Tok(Ident(alias), rest)))))
  {
    assert Spaced(Tok(Ident(alias), rest)) && Spaced(Sp(Tok(Ident(alias), rest)));
    KeySpaced("AS", Sp(Tok(Ident(alias), rest)));
  }

  lemma {:induction false} ItmSpaced(i: Item, rest: Pieces)
    requires Closing(rest)
    ensures Spaced(Itm(i, rest))
  {
    var tail := Sp(Tok(Word("AS"), Sp(Tok(Ident(i.alias), rest))));
    AliasSpaced(i.alias, rest);
    CloseSpaced(")", tail);
    var close := Tok(Sym(")"), tail);
    match i.expr
    case Plain(col) =>
      ColSpaced(col, tail);
    case CountAll =>
      CallSpaced("count", close);
    case Aggregate(fn, arg) =>
      ExSpaced(arg, close);
      CallSpaced(FnText(fn), Ex(arg, close));
  }

  lemma {:induction false} CallSpaced(w: string, inner: Pieces)
    requires w in {"count", "SUM", "AVG", "MIN", "MAX"} && Spaced(inner)
    ensures Spaced(Tok(Word(w), Tok(Sym("("), inner)))
  {
    OpenSpaced(inner);
    assert Spellable(Word(w));
  }

  lemma {:induction false} ItmsSpaced(items: seq<Item>, rest: Pieces)
    requires items != [] && Closing(rest)
    ensures Spaced(Itms(items, rest))
  {
    if |items| == 1 {
      ItmSpaced(items[0], rest);
    } else {
      ItmsSpaced(items[1..], rest);
      CommaSpaced(Itms(items[1..], rest));
      ItmSpaced(items[0], Tok(Sym(","), Sp(Itms(items[1..], rest))));
    }
  }

  lemma {:induction false} ColsSpaced(cs: seq<Column>, rest: Pieces)
    requires cs != [] && Closing(rest)
    ensures Spaced(Cols(cs, rest))
  {
    if |cs| == 1 {
      ColSpaced(cs[0], rest);
    } else {
      ColsSpaced(cs[1..], rest);
      CommaSpaced(Cols(cs[1..], rest));
      ColSpaced(cs[0], Tok(Sym(","), Sp(Cols(cs[1..], rest))));
    }
  }

  lemma {:induction false} OrdsSpaced(os: seq<Order>, rest: Pieces)
    requires os != [] && Spaced(rest) && FirstChar(rest) in {' ', ','}
    ensures Spaced(Ords(os, rest))
  {
    var more := if |os| == 1 then rest else Tok(Sym(","), Sp(Ords(os[1..], rest)));
    if |os| > 1 {
      OrdsSpaced(os[1..], rest);
      CommaSpaced(Ords(os[1..], rest));
    }
    KeySpaced(if os[0].desc then "DESC" else "ASC", more);
    ColSpaced(os[0].col, Sp(Tok(Word(if os[0].desc then "DESC" else "ASC"), more)));
  }

  lemma {:induction false} IntSpaced(n: int)
    ensures Spaced(Sp(Int(n, End)))
  {
    var digits := PrintNat(if n < 0 then -n else n);
    DecimalPrinted(if n < 0 then -n else n);
    SpanAll(digits, Digit);
    assert IsUnsigned(digits);
    assert Spaced(Tok(Num(digits), End));
  }

  /** A clause text is empty or starts with a space. */
  predicate Clause(rest: Pieces) {
    Spaced(rest) && FirstChar(rest) == ' '
  }

  lemma {:induction false} ClausesSpaced(st: Statement)
    requires Valid(st)
    ensures Clause(WhereClause(st))
  {
    if st.limit.Some? {
      IntSpaced(st.limit.value);
      KeySpaced("LIMIT", Sp(Int(st.limit.value, End)));
    }
    var limit := LimitClause(st.limit);
    assert Clause(limit);
    if st.orderBy != [] {
      OrdsSpaced(st.orderBy, limit);
      BySpaced("ORDER", Ords(st.orderBy, limit));
    }
    var order := OrderClause(st);
    assert Clause(order);
    if st.groupBy != [] {
      ColsSpaced(st.groupBy, order);
      BySpaced("GROUP", Cols(st.groupBy, order));
    }
    var group := GroupClause(st);
    assert Clause(group);
    if st.conds != [] {
      CondsSpaced(st.conds, group);
      KeySpaced("WHERE", Sp(Conds(st.conds, group)));
    }
  }

  lemma {:induction false} BySpaced(w: string, rest: Pieces)
    requires w in {"GROUP", "ORDER"} && Spaced(rest)
    ensures Clause(Sp(Tok(Word(w), Sp(Tok(Word("BY"), Sp(rest))))))
  {
    assert Spaced(Sp(rest));
    KeySpaced("BY", Sp(rest));
    KeySpaced(w, Sp(Tok(Word("BY"), Sp(rest))));
  }

  lemma {:induction false} StatementSpaced(st: Statement)
    requires Valid(st)
    ensures Spaced(Stmt(st))
  {
    ClausesSpaced(st);
    KeySpaced("logs", WhereClause(st));
    var table := Sp(Tok(Word("logs"), WhereClause(st)));
    KeySpaced("FROM", table);
    var from := Sp(Tok(Word("FROM"), table));
    if st.select.Items? && st.select.items != [] {
      ItmsSpaced(st.select.items, from);
    }
    assert Spaced(Sel(st.select, from)) && Spaced(Sp(Sel(st.select, from)));
    KeySpaced("SELECT", Sp(Sel(st.select, from)));
  }
}
