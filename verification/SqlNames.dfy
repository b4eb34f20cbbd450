/**
 The round trip of a whole statement. What is read back are the tokens spelled,
 if and only if every back-quoted name in them survives quoting.
 */
module SqlNames {
  import opened Prelude
  import opened SqlTokens
  import opened SqlSyntax

  // ---------------------------------------------------------------------
  // The names in a statement
  // ---------------------------------------------------------------------

  predicate ColumnSurvives(c: Column) {
    c.Top? ==> ReadsBack(c.name)
  }

  predicate CondSurvives(c: Cond) {
    c.Compare? ==> ColumnSurvives(c.lhs.col)
  }

  predicate ItemSurvives(i: Item) {
    && ReadsBack(i.alias)
    && (i.expr.Plain? ==> ColumnSurvives(i.expr.col))
    && (i.expr.Aggregate? ==> ColumnSurvives(i.expr.arg.col))
  }

  predicate SelectSurvives(s: Select) {
    s.Items? ==> forall i :: 0 <= i < |s.items| ==> ItemSurvives(s.items[i])
  }

  /** Every name the statement's text quotes with backticks survives. */
  predicate NamesSurvive(st: Statement) {
    && SelectSurvives(st.select)
    && (forall i :: 0 <= i < |st.conds| ==> CondSurvives(st.conds[i]))
    && (forall i :: 0 <= i < |st.groupBy| ==> ColumnSurvives(st.groupBy[i]))
    && (forall i :: 0 <= i < |st.orderBy| ==> ColumnSurvives(st.orderBy[i].col))
  }

  lemma {:induction false} ColTokens(c: Column, rest: Pieces)
    ensures AllSurvive(TokensOf(Col(c, rest))) <==> ColumnSurvives(c) && AllSurvive(TokensOf(rest))
  {
  }

  lemma {:induction false} ExTokens(e: Expr, rest: Pieces)
    ensures AllSurvive(TokensOf(Ex(e, rest))) <==> ColumnSurvives(e.col) && AllSurvive(TokensOf(rest))
  {
    ColTokens(e.col, if e.cast then Tok(Sym(")"), rest) else rest);
  }

  lemma {:induction false} IdsTokens(ids: seq<string>, rest: Pieces)
    requires ids != [] && AllSurvive(TokensOf(rest))
    ensures AllSurvive(TokensOf(Ids(ids, rest)))
  {
    if |ids| > 1 {
      IdsTokens(ids[1..], rest);
    }
  }

  lemma {:induction false} CndTokens(c: Cond, rest: Pieces)
    requires ValidCond(c) && CondSurvives(c) && AllSurvive(TokensOf(rest))
    ensures AllSurvive(TokensOf(Cnd(c, rest)))
  {
    match c
    case RecordIdIn(ids) => IdsTokens(ids, Tok(Sym(")"), rest));
    case Compare(lhs, op, rhs) =>
      assert AllSurvive(TokensOf(Opd(rhs, rest)));
      ExTokens(lhs, Sp(Tok(Sym(OpText(op)), Sp(Opd(rhs, rest)))));
  }

  lemma {:induction false} CondsTokens(cs: seq<Cond>, rest: Pieces)
    requires cs != [] && (forall i :: 0 <= i < |cs| ==> ValidCond(cs[i]) && CondSurvives(cs[i]))
    requires AllSurvive(TokensOf(rest))
    ensures AllSurvive(TokensOf(Conds(cs, rest)))
  {
    if |cs| == 1 {
      CndTokens(cs[0], rest);
    } else {
      CondsTokens(cs[1..], rest);
      CndTokens(cs[0], Sp(Tok(Word("AND"), Sp(Conds(cs[1..], rest)))));
    }
  }

  lemma {:induction false} ItmTokens(i: Item, rest: Pieces)
    ensures AllSurvive(TokensOf(Itm(i, rest))) <==> ItemSurvives(i) && AllSurvive(TokensOf(rest))
  {
    var tail := Sp(Tok(Word("AS"), Sp(Tok(Ident(i.alias), rest))));
    match i.expr
    case Plain(col) => ColTokens(col, tail);
    case CountAll =>
    case Aggregate(_, arg) => ExTokens(arg, Tok(Sym(")"), tail));
  }

  lemma {:induction false} ItmsTokens(items: seq<Item>, rest: Pieces)
    requires items != []
    ensures AllSurvive(TokensOf(Itms(items, rest))) <==> SelectSurvives(Items(items)) && AllSurvive(TokensOf(rest))
  {
    if |items| == 1 {
      ItmTokens(items[0], rest);
    } else {
      ItmsTokens(items[1..], rest);
      ItmTokens(items[0], Tok(Sym(","), Sp(Itms(items[1..], rest))));
      assert items == [items[0]] + items[1..];
    }
  }

  lemma {:induction false} ColsTokens(cs: seq<Column>, rest: Pieces)
    requires cs != [] && (forall i :: 0 <= i < |cs| ==> ColumnSurvives(cs[i])) && AllSurvive(TokensOf(rest))
    ensures AllSurvive(TokensOf(Cols(cs, rest)))
  {
    if |cs| == 1 {
      ColTokens(cs[0], rest);
    } else {
      ColsTokens(cs[1..], rest);
      ColTokens(cs[0], Tok(Sym(","), Sp(Cols(cs[1..], rest))));
    }
  }

  lemma {:induction false} OrdsTokens(os: seq<Order>, rest: Pieces)
    requires os != [] && (forall i :: 0 <= i < |os| ==> ColumnSurvives(os[i].col)) && AllSurvive(TokensOf(rest))
    ensures AllSurvive(TokensOf(Ords(os, rest)))
  {
    var more := if |os| == 1 then rest else Tok(Sym(","), Sp(Ords(os[1..], rest)));
    if |os| > 1 {
      OrdsTokens(os[1..], rest);
    }
    ColTokens(os[0].col, Sp(Tok(Word(if os[0].desc then "DESC" else "ASC"), more)));
  }

  lemma {:induction false} ClausesTokens(st: Statement)
    requires Valid(st) && NamesSurvive(st)
    ensures AllSurvive(TokensOf(WhereClause(st)))
  {
    var limit, order, group := LimitClause(st.limit), OrderClause(st), GroupClause(st);
    assert AllSurvive(TokensOf(limit));
    if st.orderBy != [] {
      OrdsTokens(st.orderBy, limit);
    }
    assert AllSurvive(TokensOf(order));
    if st.groupBy != [] {
      ColsTokens(st.groupBy, order);
    }
    assert AllSurvive(TokensOf(group));
    if st.conds != [] {
      CondsTokens(st.conds, group);
    }
  }

  lemma {:induction false} StatementTokens(st: Statement)
    requires Valid(st) && NamesSurvive(st)
    ensures AllSurvive(TokensOf(Stmt(st)))
  {
    ClausesTokens(st);
    var from := Sp(Tok(Word("FROM"), Sp(Tok(Word("logs"), WhereClause(st)))));
    if st.select.Items? && st.select.items != [] {
      ItmsTokens(st.select.items, from);
    }
    assert AllSurvive(TokensOf(Sel(st.select, from)));
  }

  /** The conditions of a WHERE clause by themselves, up to the end of the text. */
  lemma {:induction false} CondsReadBack(cs: seq<Cond>)
    requires cs != [] && forall i :: 0 <= i < |cs| ==> ValidCond(cs[i]) && CondSurvives(cs[i])
    ensures ReadConds(Lex(Text(Conds(cs, End)))) == Got(cs, Nil)
  {
    CondsSpaced(cs, End);
    CondsTokens(cs, End);
    LexText(Conds(cs, End));
    CondsReads(cs, End);
  }

  /** Text round trip: whatever literals it carries, a statement whose names survive is read back as itself. */
  lemma {:induction false} ParseSpelled(st: Statement)
    requires Valid(st) && NamesSurvive(st)
    ensures ParseSql(Text(Stmt(st))) == Some(st)
  {
    StatementSpaced(st);
    StatementTokens(st);
    LexText(Stmt(st));
    StatementReads(st);
  }

  // ---------------------------------------------------------------------
  // Only one list of tokens reads as a given select list
  // ---------------------------------------------------------------------

  function PiecesOf(ts: Tokens): (p: Pieces)
    ensures TokensOf(p) == ts
  {
    if ts.Nil? then End else Put(ts.head, PiecesOf(ts.tail))
  }

  lemma {:induction false} ColUnique(ts: Tokens)
    requires ReadCol(ts).Got?
    ensures ts == TokensOf(Col(ReadCol(ts).value, PiecesOf(ReadCol(ts).rest)))
  {
  }

  lemma {:induction false} ExUnique(ts: Tokens)
    requires ReadEx(ts).Got?
    ensures ts == TokensOf(Ex(ReadEx(ts).value, PiecesOf(ReadEx(ts).rest)))
  {
    if At(ts, Word("toFloat64OrZero")) {
      ColUnique(ts.tail.tail);
      SameTail(ReadCol(ts.tail.tail).value, PiecesOf(ReadCol(ts.tail.tail).rest),
               Tok(Sym(")"), PiecesOf(ReadEx(ts).rest)));
    } else {
      ColUnique(ts);
    }
  }

  lemma {:induction false} SameTail(c: Column, a: Pieces, b: Pieces)
    requires TokensOf(a) == TokensOf(b)
    ensures TokensOf(Col(c, a)) == TokensOf(Col(c, b))
  {
  }

  lemma {:induction false} SameTailEx(e: Expr, a: Pieces, b: Pieces)
    requires TokensOf(a) == TokensOf(b)
    ensures TokensOf(Ex(e, a)) == TokensOf(Ex(e, b))
  {
    if e.cast {
      SameTail(e.col, Tok(Sym(")"), a), Tok(Sym(")"), b));
    } else {
      SameTail(e.col, a, b);
    }
  }

  lemma {:induction false} ItemExUnique(ts: Tokens)
    requires ReadItemEx(ts).Got?
    ensures ts == TokensOf(ItemEx(ReadItemEx(ts).value, PiecesOf(ReadItemEx(ts).rest)))
  {
    var rest := PiecesOf(ReadItemEx(ts).rest);
    if At(ts, Word("count")) {
    } else if ts.Cons? && ts.head.Word? && FnOf(ts.head.w).Some? {
      var arg := ReadEx(ts.tail.tail);
      ExUnique(ts.tail.tail);
      SameTailEx(arg.value, PiecesOf(arg.rest), Tok(Sym(")"), rest));
    } else {
      ColUnique(ts);
    }
  }

  lemma {:induction false} SameTailItemEx(e: ItemExpr, a: Pieces, b: Pieces)
    requires TokensOf(a) == TokensOf(b)
    ensures TokensOf(ItemEx(e, a)) == TokensOf(ItemEx(e, b))
  {
    match e
    case Plain(col) => SameTail(col, a, b);
    case CountAll =>
    case Aggregate(_, arg) => SameTailEx(arg, Tok(Sym(")"), a), Tok(Sym(")"), b));
  }

  lemma {:induction false} ItmUnique(ts: Tokens)
    requires ReadItm(ts).Got?
    ensures ts == TokensOf(Itm(ReadItm(ts).value, PiecesOf(ReadItm(ts).rest)))
  {
    var e, i := ReadItemEx(ts), ReadItm(ts);
    ItemExUnique(ts);
    SameTailItemEx(e.value, PiecesOf(e.rest), Sp(Tok(Word("AS"), Sp(Tok(Ident(i.value.alias), PiecesOf(i.rest))))));
  }

  lemma {:induction false} SameTailItm(i: Item, a: Pieces, b: Pieces)
    requires TokensOf(a) == TokensOf(b)
    ensures TokensOf(Itm(i, a)) == TokensOf(Itm(i, b))
  {
    SameTailItemEx(i.expr, Sp(Tok(Word("AS"), Sp(Tok(Ident(i.alias), a)))),
                   Sp(Tok(Word("AS"), Sp(Tok(Ident(i.alias), b)))));
  }

  lemma {:induction false} ItmsUnique(ts: Tokens)
    requires ReadItms(ts).Got?
    ensures ReadItms(ts).value != [] && ts == TokensOf(Itms(ReadItms(ts).value, PiecesOf(ReadItms(ts).rest)))
    decreases Size(ts)
  {
    var i, all := ReadItm(ts), ReadItms(ts);
    ItmUnique(ts);
    if At(i.rest, Sym(",")) {
      ItmsUnique(i.rest.tail);
      var more := Itms(all.value[1..], PiecesOf(all.rest));
      assert all.value[1..] == ReadItms(i.rest.tail).value;
      SameTailItm(i.value, PiecesOf(i.rest), Tok(Sym(","), Sp(more)));
    }
  }

  // ---------------------------------------------------------------------
  // A name that does not survive is not read back
  // ---------------------------------------------------------------------

  lemma {:induction false} TokDiverges(t: Token, a: Pieces, b: Pieces)
    ensures Diverges(TokensOf(Tok(t, a)), TokensOf(Tok(t, b))) <==> Survives(t) && Diverges(TokensOf(a), TokensOf(b))
  {
  }

  lemma {:induction false} ColDiverges(c: Column, a: Pieces, b: Pieces)
    requires Diverges(TokensOf(Col(c, a)), TokensOf(Col(c, b)))
    ensures ColumnSurvives(c) && Diverges(TokensOf(a), TokensOf(b))
  {
    match c
    case Top(name) => TokDiverges(Ident(name), a, b);
    case Attribute(key) =>
      var a1, b1 := Tok(Sym("]"), a), Tok(Sym("]"), b);
      var a2, b2 := Tok(Str(key), a1), Tok(Str(key), b1);
      TokDiverges(Word("attributes"), Tok(Sym("["), a2), Tok(Sym("["), b2));
      TokDiverges(Sym("["), a2, b2);
      TokDiverges(Str(key), a1, b1);
      TokDiverges(Sym("]"), a, b);
  }

  lemma {:induction false} ExDiverges(e: Expr, a: Pieces, b: Pieces)
    requires Diverges(TokensOf(Ex(e, a)), TokensOf(Ex(e, b)))
    ensures ColumnSurvives(e.col) && Diverges(TokensOf(a), TokensOf(b))
  {
    if e.cast {
      CallDiverges("toFloat64OrZero", Col(e.col, Tok(Sym(")"), a)), Col(e.col, Tok(Sym(")"), b)));
      ColDiverges(e.col, Tok(Sym(")"), a), Tok(Sym(")"), b));
      TokDiverges(Sym(")"), a, b);
    } else {
      ColDiverges(e.col, a, b);
    }
  }

  lemma {:induction false} CallDiverges(w: string, a: Pieces, b: Pieces)
    requires Diverges(TokensOf(Tok(Word(w), Tok(Sym("("), a))), TokensOf(Tok(Word(w), Tok(Sym("("), b))))
    ensures Diverges(TokensOf(a), TokensOf(b))
  {
    TokDiverges(Word(w), Tok(Sym("("), a), Tok(Sym("("), b));
    TokDiverges(Sym("("), a, b);
  }

  lemma {:induction false} ItemExDiverges(e: ItemExpr, a: Pieces, b: Pieces)
    requires Diverges(TokensOf(ItemEx(e, a)), TokensOf(ItemEx(e, b)))
    ensures e.Plain? ==> ColumnSurvives(e.col)
    ensures e.Aggregate? ==> ColumnSurvives(e.arg.col)
    ensures Diverges(TokensOf(a), TokensOf(b))
  {
    var a', b' := Tok(Sym(")"), a), Tok(Sym(")"), b);
    match e
    case Plain(col) => ColDiverges(col, a, b);
    case CountAll =>
      CallDiverges("count", a', b');
      TokDiverges(Sym(")"), a, b);
    case Aggregate(fn, arg) =>
      CallDiverges(FnText(fn), Ex(arg, a'), Ex(arg, b'));
      ExDiverges(arg, a', b');
      TokDiverges(Sym(")"), a, b);
  }

  lemma {:induction false} ItmDiverges(i: Item, a: Pieces, b: Pieces)
    requires Diverges(TokensOf(Itm(i, a)), TokensOf(Itm(i, b)))
    ensures ItemSurvives(i) && Diverges(TokensOf(a), TokensOf(b))
  {
    var a1, b1 := Sp(Tok(Ident(i.alias), a)), Sp(Tok(Ident(i.alias), b));
    ItemExDiverges(i.expr, Sp(Tok(Word("AS"), a1)), Sp(Tok(Word("AS"), b1)));
    TokDiverges(Word("AS"), a1, b1);
    TokDiverges(Ident(i.alias), a, b);
  }

  /** Two token lists with the same select list part ways only behind it, so its names survive. */
  lemma {:induction false} ItmsDiverge(items: seq<Item>, a: Pieces, b: Pieces)
    requires items != [] && Diverges(TokensOf(Itms(items, a)), TokensOf(Itms(items, b)))
    ensures SelectSurvives(Items(items))
  {
    if |items| == 1 {
      ItmDiverges(items[0], a, b);
    } else {
      var more, more' := Itms(items[1..], a), Itms(items[1..], b);
      ItmDiverges(items[0], Tok(Sym(","), Sp(more)), Tok(Sym(","), Sp(more')));
      TokDiverges(Sym(","), Sp(more), Sp(more'));
      ItmsDiverge(items[1..], a, b);
    }
  }

  /** A statement with a select list of names that do not all survive is not what its text reads as. */
  lemma {:induction false} SelectMisread(st: Statement)
    requires Valid(st) && !SelectSurvives(st.select)
    ensures ParseSql(Text(Stmt(st))) != Some(st)
  {
    var from := Sp(Tok(Word("FROM"), Sp(Tok(Word("logs"), WhereClause(st)))));
    var items := st.select.items;
    StatementSpaced(st);
    ItmsTokens(items, from);
    LexDiverges(Stmt(st));
    SelectTold(Lex(Text(Stmt(st))), items, from);
  }

  lemma {:induction false} SelectTold(ts: Tokens, items: seq<Item>, from: Pieces)
    requires items != [] && !SelectSurvives(Items(items))
    requires Diverges(ts, TokensOf(Tok(Word("SELECT"), Sp(Itms(items, from)))))
    ensures ReadStatement(ts).Some? ==> ReadStatement(ts).value.select != Items(items)
  {
    if ReadStatement(ts).Some? && ReadStatement(ts).value.select == Items(items) {
      ItmsUnique(ts.tail);
      ItmsDiverge(items, PiecesOf(ReadSel(ts.tail).rest), from);
    }
  }
}
