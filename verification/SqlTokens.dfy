/**
 How ClickHouse reads the text the compiler emits: a tokenizer for the part of
 the lexical grammar that occurs, the two quoting functions, and the proof
 that well-spaced text reads back as the tokens it was spelled from.
 */
module SqlTokens {
  import opened Prelude
  import opened Lexical

  datatype Token =
    | Word(w: string)
    | Ident(name: string)
    | Str(s: string)
    | Num(digits: string)
    | Sym(c: string)
    | Illegal

  predicate IsWordStart(c: char) {
    'a' <= c <= 'z' || 'A' <= c <= 'Z' || c == '_'
  }

  predicate IsWordChar(c: char) {
    IsWordStart(c) || IsDigit(c)
  }

  const WordChar: char -> bool := c => IsWordChar(c)

  // ---------------------------------------------------------------------
  // Quoting
  // ---------------------------------------------------------------------

  function EscapeLiteral(s: string): string {
    if s == [] then []
    else if s[0] == '\\' || s[0] == '\'' then ['\\', s[0]] + EscapeLiteral(s[1..])
    else [s[0]] + EscapeLiteral(s[1..])
  }

  function LiteralText(s: string): string {
    ['\''] + (EscapeLiteral(s) + ['\''])
  }

  /** quoteLiteral: the only way a user-controlled string gets into the text. */
  method QuoteLiteral(s: string) returns (text: string)
    ensures text == LiteralText(s)
  {
    text := ['\''];
    var i := 0;
    while i < |s|
      invariant 0 <= i <= |s|
      invariant ['\''] + EscapeLiteral(s) == text + EscapeLiteral(s[i..])
    {
      assert s[i..][1..] == s[i + 1..];
      if s[i] == '\\' {
        text := text + ['\\', '\\'];
      } else if s[i] == '\'' {
        text := text + ['\\', '\''];
      } else {
        text := text + [s[i]];
      }
      i := i + 1;
    }
    assert text == ['\''] + EscapeLiteral(s);
    text := text + ['\''];
  }

  /** strings.ReplaceAll(name, "`", "``") */
  function DoubleTicks(name: string): string {
    if name == [] then []
    else if name[0] == '`' then ['`', '`'] + DoubleTicks(name[1..])
    else [name[0]] + DoubleTicks(name[1..])
  }

  function QuoteIdent(name: string): string {
    ['`'] + (DoubleTicks(name) + ['`'])
  }

  // ---------------------------------------------------------------------
  // Reading
  // ---------------------------------------------------------------------

  /** What a backslash and the character after it stand for inside quotes of either kind. */
  function Unescape(c: char): string {
    if c == 'n' then "\n" else if c == 't' then "\t" else if c == 'r' then "\r" else if c == '0' then "\0"
    else if c == 'a' then [7 as char] else if c == 'b' then [8 as char] else if c == 'v' then [11 as char]
    else if c == 'f' then [12 as char] else if c == 'e' then [27 as char] else if c == 'N' then []
    else if c == '\\' || c == '\'' || c == '"' || c == '`' || c == '/' || c == '=' then [c]
    else ['\\', c]
  }

  function HexDigit(c: char): nat {
    if IsDigit(c) then c as int - '0' as int
    else if 'a' <= c <= 'f' then 10 + (c as int - 'a' as int)
    else if 'A' <= c <= 'F' then 10 + (c as int - 'A' as int)
    else 15
  }

  /** The characters that, behind a backslash, do not stand for the two of them. */
  predicate Escapes(c: char) {
    c == 'x' || Unescape(c) != ['\\', c]
  }

  /** What stands behind a backslash: one character, or `x` and two more. */
  function ReadEscape(s: string): (r: Option<(string, string)>)
    ensures r.Some? ==> |r.value.1| < |s|
  {
    if s == [] then None
    else if s[0] == 'x' then
      if |s| < 3 then None else Some(([(16 * HexDigit(s[1]) + HexDigit(s[2])) as char], s[3..]))
    else Some((Unescape(s[0]), s[1..]))
  }

  /** Text up to the closing quote `q`; behind a backslash an escape, and a doubled quote stands for one. */
  function ReadQuoted(q: char, s: string): (r: Option<(string, string)>)
    ensures r.Some? ==> |r.value.1| < |s|
    decreases |s|
  {
    if s == [] then None
    else if s[0] == '\\' then
      var e := ReadEscape(s[1..]);
      if e.None? then None
      else
        var r := ReadQuoted(q, e.value.1);
        if r.None? then None else Some((e.value.0 + r.value.0, r.value.1))
    else if s[0] == q then
      if |s| > 1 && s[1] == q then
        var r := ReadQuoted(q, s[2..]);
        if r.None? then None else Some(([q] + r.value.0, r.value.1))
      else Some(([], s[1..]))
    else
      var r := ReadQuoted(q, s[1..]);
      if r.None? then None else Some(([s[0]] + r.value.0, r.value.1))
  }

  /** The length of the number at the front of `s`: digits, optionally a point and more digits. */
  function NumberLength(s: string): (n: nat)
    ensures n <= |s| && (n == 0 <==> s == [] || !IsDigit(s[0]))
  {
    var n := Span(s, Digit);
    if 0 < n && n + 1 < |s| && s[n] == '.' && IsDigit(s[n + 1]) then n + 1 + Span(s[n + 1..], Digit) else n
  }

  const TWO_CHAR: set<string> := {"!=", ">=", "<="}
  const ONE_CHAR: set<char> := {'=', '>', '<', '(', ')', ',', '[', ']', '*'}

  /** One token and what follows it; a double dash opens a comment, which the text must never contain. */
  function ReadToken(s: string): (r: (Token, string))
    requires s != [] && s[0] != ' '
    ensures |r.1| < |s|
  {
    if s[0] == '\'' then
      var r := ReadQuoted('\'', s[1..]);
      if r.None? then (Illegal, []) else (Str(r.value.0), r.value.1)
    else if s[0] == '`' then
      var r := ReadQuoted('`', s[1..]);
      if r.None? then (Illegal, []) else (Ident(r.value.0), r.value.1)
    else if IsDigit(s[0]) then
      var n := NumberLength(s);
      (Num(s[..n]), s[n..])
    else if IsWordStart(s[0]) then
      var n := Span(s, WordChar);
      (Word(s[..n]), s[n..])
    else if |s| > 1 && s[..2] in TWO_CHAR then (Sym(s[..2]), s[2..])
    else if s[0] in ONE_CHAR then (Sym([s[0]]), s[1..])
    else if s[0] == '-' && !(|s| > 1 && s[1] == '-') then (Sym("-"), s[1..])
    else (Illegal, [])
  }

  datatype Tokens = Nil | Cons(head: Token, tail: Tokens)

  function Lex(s: string): Tokens
    decreases |s|
  {
    if s == [] then Nil
    else if s[0] == ' ' then Lex(s[1..])
    else
      var r := ReadToken(s);
      Cons(r.0, Lex(r.1))
  }

  // ---------------------------------------------------------------------
  // Spelling
  // ---------------------------------------------------------------------

  /** Emitted text is a list of tokens and single spaces. */
  datatype Pieces = End | Gap(rest: Pieces) | Put(t: Token, rest: Pieces)

  predicate IsUnsigned(d: string) {
    d != [] && NumberLength(d) == |d|
  }

  predicate Spellable(t: Token) {
    match t
    case Word(w) => w != [] && IsWordStart(w[0]) && All(w, WordChar)
    case Num(d) => IsUnsigned(d)
    case Sym(c) => c in TWO_CHAR || c == "-" || (|c| == 1 && c[0] in ONE_CHAR)
    case Ident(_) => true
    case Str(_) => true
    case Illegal => false
  }

  /** No backslash of the name starts an escape, and none is its last character. */
  predicate ReadsBack(name: string) {
    forall i :: 0 <= i < |name| && name[i] == '\\' ==> i + 1 < |name| && !Escapes(name[i + 1])
  }

  predicate Survives(t: Token) {
    t.Ident? ==> ReadsBack(t.name)
  }

  predicate AllSurvive(ts: Tokens) {
    ts.Cons? ==> Survives(ts.head) && AllSurvive(ts.tail)
  }

  function Spell(t: Token): string {
    match t
    case Word(w) => w
    case Ident(name) => QuoteIdent(name)
    case Str(s) => LiteralText(s)
    case Num(d) => d
    case Sym(c) => c
    case Illegal => "?"
  }

  function Text(pieces: Pieces): string {
    match pieces
    case End => ""
    case Gap(rest) => " " + Text(rest)
    case Put(t, rest) => Spell(t) + Text(rest)
  }

  function TokensOf(pieces: Pieces): Tokens {
    match pieces
    case End => Nil
    case Gap(rest) => TokensOf(rest)
    case Put(t, rest) => Cons(t, TokensOf(rest))
  }

  /** Character `c` may follow token `t` directly without being read as part of it. */
  predicate Fits(t: Token, c: char) {
    match t
    case Word(_) => !IsWordChar(c)
    case Num(_) => !IsDigit(c) && c != '.'
    case Ident(_) => c != '`'
    case Str(_) => c != '\''
    case Sym(s) => if s == "-" then c != '-' else s == ">" || s == "<" ==> c != '='
    case Illegal => false
  }

  /** The first character of the text, or a space where the text ends. */
  function FirstChar(pieces: Pieces): char {
    match pieces
    case End => ' '
    case Gap(_) => ' '
    case Put(t, _) => if Spell(t) == [] then ' ' else Spell(t)[0]
  }

  /** Every token is spellable and nothing runs into its neighbour. */
  predicate Spaced(pieces: Pieces) {
    match pieces
    case End => true
    case Gap(rest) => Spaced(rest)
    case Put(t, rest) => Spellable(t) && Fits(t, FirstChar(rest)) && Spaced(rest)
  }

  /** A reading with `o` put in front of what was read. */
  function Before(o: string, r: Option<(string, string)>): Option<(string, string)> {
    if r.None? then None else Some((o + r.value.0, r.value.1))
  }

  lemma {:induction false} BeforeTwice(a: string, b: string, r: Option<(string, string)>)
    ensures Before(a, Before(b, r)) == Before(a + b, r)
  {
    if r.Some? {
      assert a + (b + r.value.0) == (a + b) + r.value.0;
    }
  }

  function StringText(s: string, rest: string): string {
    EscapeLiteral(s) + (['\''] + rest)
  }

  lemma {:induction false} EscapedReads(c: char, more: string)
    requires c == '\\' || c == '\''
    ensures ReadQuoted('\'', ['\\', c] + more) == Before([c], ReadQuoted('\'', more))
  {
    var line := ['\\', c] + more;
    assert line[1..][0] == c && line[1..][1..] == more;
  }

  lemma {:induction false} PlainReads(c: char, more: string)
    requires c != '\\' && c != '\''
    ensures ReadQuoted('\'', [c] + more) == Before([c], ReadQuoted('\'', more))
  {
    assert ([c] + more)[1..] == more;
  }

  /** One character of a string literal is read back as itself. */
  lemma {:induction false} StringStep(s: string, rest: string)
    requires s != []
    ensures ReadQuoted('\'', StringText(s, rest)) == Before([s[0]], ReadQuoted('\'', StringText(s[1..], rest)))
  {
    var more := StringText(s[1..], rest);
    if s[0] == '\\' || s[0] == '\'' {
      assert StringText(s, rest) == ['\\', s[0]] + more;
      EscapedReads(s[0], more);
    } else {
      assert StringText(s, rest) == [s[0]] + more;
      PlainReads(s[0], more);
    }
  }

  lemma {:induction false} StringReads(s: string, rest: string)
    requires rest == [] || rest[0] != '\''
    ensures ReadQuoted('\'', StringText(s, rest)) == Some((s, rest))
  {
    if s == [] {
      assert StringText(s, rest) == ['\''] + rest && (['\''] + rest)[1..] == rest;
    } else {
      StringStep(s, rest);
      StringReads(s[1..], rest);
      assert s == [s[0]] + s[1..];
    }
  }

  function IdentText(name: string, rest: string): string {
    DoubleTicks(name) + (['`'] + rest)
  }

  /** How the text of an identifier starts: a doubled backtick, or the name's first character. */
  lemma {:induction false} IdentStarts(name: string, rest: string)
    requires name != []
    ensures var line, more := IdentText(name, rest), IdentText(name[1..], rest);
            line == if name[0] == '`' then ['`', '`'] + more else [name[0]] + more
  {
  }

  lemma {:induction false} PlainIdent(c: char, more: string)
    requires c != '`' && c != '\\'
    ensures ReadQuoted('`', [c] + more) == Before([c], ReadQuoted('`', more))
  {
    assert ([c] + more)[1..] == more;
  }

  lemma {:induction false} TickIdent(more: string)
    ensures ReadQuoted('`', ['`', '`'] + more) == Before(['`'], ReadQuoted('`', more))
  {
    assert (['`', '`'] + more)[2..] == more;
  }

  /** A backslash that starts no escape is read as itself, with the character behind it. */
  lemma {:induction false} BackslashIdent(c: char, more: string)
    requires !Escapes(c)
    ensures ReadQuoted('`', ['\\'] + ([c] + more)) == Before(['\\', c], ReadQuoted('`', more))
  {
    var line := ['\\'] + ([c] + more);
    assert line[1..] == [c] + more && ([c] + more)[1..] == more;
  }

  lemma {:induction false} ReadsBackTail(name: string, n: nat)
    requires n <= |name| && (n == 2 ==> name[1] != '\\') && n <= 2
    requires n >= 1 ==> name[0] != '\\' || (n == 2 && !Escapes(name[1]))
    ensures ReadsBack(name) <==> ReadsBack(name[n..])
  {
    if ReadsBack(name[n..]) {
      forall i | 0 <= i < |name| && name[i] == '\\' ensures i + 1 < |name| && !Escapes(name[i + 1]) {
        if i >= n {
          assert name[n..][i - n] == name[i];
        }
      }
    }
    if ReadsBack(name) {
      forall i | 0 <= i < |name[n..]| && name[n..][i] == '\\'
        ensures i + 1 < |name[n..]| && !Escapes(name[n..][i + 1])
      {
        assert name[n + i] == '\\';
      }
    }
  }

  /** How the text of a name starts when neither of its first two characters is a backtick. */
  lemma {:induction false} TwoStarts(name: string, rest: string)
    requires |name| > 1 && name[0] != '`' && name[1] != '`'
    ensures IdentText(name, rest) == [name[0]] + ([name[1]] + IdentText(name[2..], rest))
  {
    assert name[1..][0] == name[1] && name[1..][1..] == name[2..];
    IdentStarts(name, rest);
    IdentStarts(name[1..], rest);
  }

  /** One character, or a backslash that starts no escape and the one behind it, is read back as itself. */
  lemma {:induction false} IdentStep(name: string, n: nat, rest: string)
    requires name != [] && n == (if name[0] == '\\' then 2 else 1) && n <= |name|
    requires name[0] == '\\' ==> !Escapes(name[1])
    ensures ReadQuoted('`', IdentText(name, rest)) == Before(name[..n], ReadQuoted('`', IdentText(name[n..], rest)))
  {
    var more := IdentText(name[n..], rest);
    if n == 2 {
      TwoStarts(name, rest);
      BackslashIdent(name[1], more);
      assert name[..n] == ['\\', name[1]];
    } else {
      IdentStarts(name, rest);
      assert name[..n] == [name[0]];
      if name[0] == '`' {
        TickIdent(more);
      } else {
        PlainIdent(name[0], more);
      }
    }
  }

  /** Reading passes through a name that survives, whatever the name goes on with. */
  lemma {:induction false} SurvivorReads(name: string, more: string, rest: string)
    requires ReadsBack(name)
    ensures ReadQuoted('`', IdentText(name + more, rest)) == Before(name, ReadQuoted('`', IdentText(more, rest)))
  {
    var r := ReadQuoted('`', IdentText(more, rest));
    if name == [] {
      assert name + more == more && (r.Some? ==> [] + r.value.0 == r.value.0);
    } else {
      var n := if name[0] == '\\' then 2 else 1;
      ReadsBackTail(name, n);
      SurvivorReads(name[n..], more, rest);
      assert (name + more)[..n] == name[..n] && (name + more)[n..] == name[n..] + more;
      IdentStep(name + more, n, rest);
      BeforeTwice(name[..n], name[n..], r);
      assert name == name[..n] + name[n..];
    }
  }

  lemma {:induction false} IdentReads(name: string, rest: string)
    requires ReadsBack(name) && (rest == [] || rest[0] != '`')
    ensures ReadQuoted('`', IdentText(name, rest)) == Some((name, rest))
  {
    SurvivorReads(name, [], rest);
    assert IdentText([], rest) == ['`'] + rest && (['`'] + rest)[1..] == rest;
    assert name + [] == name;
  }

  // ---- Which names read back ------------------------------------------

  predicate IsHex(c: char) {
    IsDigit(c) || 'a' <= c <= 'f' || 'A' <= c <= 'F'
  }

  /** The characters that can be held over once reading has fallen behind; a backtick is not one of them. */
  predicate Echo(c: char) {
    c == '\\' || c == 'N' || c == 'x' || IsHex(c)
  }

  predicate Echoes(w: string) {
    forall i :: 0 <= i < |w| ==> Echo(w[i])
  }

  /** Only two genuine hexadecimal digits stand for a character that can be held over. */
  lemma {:induction false} HexEchoes(a: char, b: char)
    requires Echo((16 * HexDigit(a) + HexDigit(b)) as char)
    ensures IsHex(a) && IsHex(b)
  {
  }

  lemma {:induction false} UnescapeEchoes(c: char)
    requires Escapes(c) && c != 'x' && c != 'N'
    ensures |Unescape(c)| == 1 && (Echo(Unescape(c)[0]) ==> c == '\\')
  {
  }

  /** What is read from the text of `q` is not `w` and then `q`. */
  predicate Misread(w: string, q: string, rest: string) {
    var r := ReadQuoted('`', IdentText(q, rest));
    r.Some? ==> r.value.0 != w + q
  }

  lemma {:induction false} EscapeIdent(t: string)
    ensures var e := ReadEscape(t);
            ReadQuoted('`', ['\\'] + t) == if e.None? then None else Before(e.value.0, ReadQuoted('`', e.value.1))
  {
    assert (['\\'] + t)[1..] == t;
  }

  /** Reading `o` for the first `n` characters of `q` leaves the rest of `w` and those `n` to be caught up with. */
  lemma {:induction false} Behind(w: string, q: string, n: nat, o: string, more: string)
    requires n <= |q| && |o| <= |w| + n
    requires o == (w + q[..n])[..|o|] ==> more != (w + q[..n])[|o|..] + q[n..]
    ensures o + more != w + q
  {
    var front := w + q[..n];
    assert w + q == front + q[n..];
    assert (o + more)[..|o|] == o && (o + more)[|o|..] == more;
    assert (front + q[n..])[..|o|] == front[..|o|] && (front + q[n..])[|o|..] == front[|o|..] + q[n..];
  }

  /**
   A reader that has fallen behind by `w`, or is about to by an escape in `q`,
   never catches up, not even by reading on past the closing backtick.
   */
  lemma {:induction false} Misreads(w: string, q: string, rest: string)
    requires Echoes(w) && (w != [] || !ReadsBack(q))
    ensures Misread(w, q, rest)
    decreases |q|, 2
  {
    if q == [] {
      EndMisread(w, rest);
    } else {
      IdentStarts(q, rest);
      if q[0] == '\\' {
        BackslashMisreads(w, q, rest);
      } else {
        if w == [] {
          ReadsBackTail(q, 1);
          Misreads([], q[1..], rest);
        } else if w[0] == q[0] {
          Misreads(w[1..] + [q[0]], q[1..], rest);
        }
        CharMisread(w, q, rest);
      }
    }
  }

  lemma {:induction false} EndMisread(w: string, rest: string)
    requires Echoes(w) && w != []
    ensures Misread(w, [], rest)
  {
    var line := ['`'] + rest;
    assert IdentText([], rest) == line && (w + [])[0] == w[0];
    if rest != [] && rest[0] == '`' {
      var r := ReadQuoted('`', line[2..]);
      assert r.Some? ==> (['`'] + r.value.0)[0] == '`';
    }
  }

  lemma {:induction false} CharMisread(w: string, q: string, rest: string)
    requires q != [] && q[0] != '\\'
    requires w == [] ==> Misread([], q[1..], rest)
    requires w != [] && w[0] == q[0] ==> Misread(w[1..] + [q[0]], q[1..], rest)
    ensures Misread(w, q, rest)
  {
    var more := IdentText(q[1..], rest);
    IdentStarts(q, rest);
    if q[0] == '`' {
      TickIdent(more);
    } else {
      PlainIdent(q[0], more);
    }
    var r := ReadQuoted('`', more);
    if r.Some? {
      assert (w + q[..1])[1..] == if w == [] then [] else w[1..] + [q[0]];
      Behind(w, q, 1, [q[0]], r.value.0);
    }
  }

  /** A step behind a backslash: `o` is read for the first `n` characters. */
  lemma {:induction false} EscapeMisread(w: string, q: string, rest: string, n: nat, o: string)
    requires 0 < n <= |q| && q[0] == '\\' && |o| <= |w| + n
    requires IdentText(q, rest) == ['\\'] + IdentText(q[1..], rest)
    requires ReadEscape(IdentText(q[1..], rest)) == Some((o, IdentText(q[n..], rest)))
    requires o == (w + q[..n])[..|o|] ==> Misread((w + q[..n])[|o|..], q[n..], rest)
    ensures Misread(w, q, rest)
  {
    EscapeIdent(IdentText(q[1..], rest));
    var r := ReadQuoted('`', IdentText(q[n..], rest));
    if r.Some? {
      Behind(w, q, n, o, r.value.0);
    }
  }

  /** An escape that reads as something no character of the name can match. */
  lemma {:induction false} StrayMisread(w: string, q: string, rest: string)
    requires q != [] && q[0] == '\\' && Echoes(w)
    requires var e := ReadEscape(IdentText(q[1..], rest)); e.Some? ==> |e.value.0| == 1 && !Echo(e.value.0[0])
    ensures Misread(w, q, rest)
  {
    IdentStarts(q, rest);
    EscapeIdent(IdentText(q[1..], rest));
    assert (w + q)[0] == if w == [] then q[0] else w[0];
  }

  lemma {:induction false} BackslashMisreads(w: string, q: string, rest: string)
    requires Echoes(w) && (w != [] || !ReadsBack(q)) && q != [] && q[0] == '\\'
    ensures Misread(w, q, rest)
    decreases |q|, 1
  {
    IdentStarts(q, rest);
    var t := IdentText(q[1..], rest);
    if |q| == 1 || q[1] == '`' {
      TickBehindBackslash(q, rest);
      StrayMisread(w, q, rest);
    } else if q[1] == 'x' {
      HexMisreads(w, q, rest);
    } else {
      var c, front := q[1], w + q[..2];
      OneBehindBackslash(q, rest);
      var o := Unescape(c);
      if Escapes(c) && c != 'N' {
        UnescapeEchoes(c);
      }
      if |o| <= |w| + 2 && o == front[..|o|] {
        HeldOver(w, q, o);
        if !Escapes(c) && w == [] {
          ReadsBackTail(q, 2);
        }
        Misreads(front[|o|..], q[2..], rest);
      }
      EscapeMisread(w, q, rest, 2, o);
    }
  }

  /** What is held over after one more escape can be held over again. */
  lemma {:induction false} HeldOver(w: string, q: string, o: string)
    requires Echoes(w) && |q| > 1 && q[0] == '\\' && q[1] != 'x' && q[1] != '`' && o == Unescape(q[1])
    requires |o| <= |w| + 2 && o == (w + q[..2])[..|o|]
    ensures Echoes((w + q[..2])[|o|..])
    ensures (w + q[..2])[|o|..] != [] || (w == [] && !Escapes(q[1]))
  {
    var c, front := q[1], w + q[..2];
    assert front == w + ['\\', c];
    if !Escapes(c) {
      assert front[1] == c;
      assert |w| != 1;
    } else if c != 'N' {
      UnescapeEchoes(c);
      assert front[0] == o[0] && Echo(front[0]);
    }
  }

  lemma {:induction false} OneBehindBackslash(q: string, rest: string)
    requires |q| > 1 && q[1] != '`' && q[1] != 'x'
    ensures ReadEscape(IdentText(q[1..], rest)) == Some((Unescape(q[1]), IdentText(q[2..], rest)))
  {
    assert q[1..][0] == q[1] && q[1..][1..] == q[2..];
    IdentStarts(q[1..], rest);
    assert IdentText(q[1..], rest)[1..] == IdentText(q[2..], rest);
  }

  lemma {:induction false} TickBehindBackslash(q: string, rest: string)
    requires |q| == 1 || (|q| > 1 && q[1] == '`')
    ensures var e := ReadEscape(IdentText(q[1..], rest)); e.Some? && e.value.0 == ['`']
  {
    if |q| > 1 {
      IdentStarts(q[1..], rest);
    } else {
      assert IdentText(q[1..], rest) == ['`'] + rest;
    }
  }

  lemma {:induction false} HexMisreads(w: string, q: string, rest: string)
    requires Echoes(w) && |q| > 1 && q[0] == '\\' && q[1] == 'x'
    ensures Misread(w, q, rest)
    decreases |q|, 0
  {
    IdentStarts(q, rest);
    HexText(q, rest);
    var e := ReadEscape(IdentText(q[1..], rest));
    if e.Some? && Echo(e.value.0[0]) {
      var o, front := e.value.0, w + q[..4];
      HexHeldOver(w, q);
      if o == front[..1] {
        Misreads(front[1..], q[4..], rest);
      }
      EscapeMisread(w, q, rest, 4, o);
    } else {
      StrayMisread(w, q, rest);
    }
  }

  lemma {:induction false} HexHeldOver(w: string, q: string)
    requires Echoes(w) && |q| >= 4 && q[0] == '\\' && q[1] == 'x' && IsHex(q[2]) && IsHex(q[3])
    ensures (w + q[..4])[1..] != [] && Echoes((w + q[..4])[1..])
  {
    assert w + q[..4] == w + ['\\', 'x', q[2], q[3]];
  }

  /** A hexadecimal escape takes two characters of the name, or swallows a backtick. */
  lemma {:induction false} HexText(q: string, rest: string)
    requires |q| > 1 && q[1] == 'x'
    ensures var e := ReadEscape(IdentText(q[1..], rest));
            e.Some? ==> |e.value.0| == 1 &&
                        (Echo(e.value.0[0]) ==>
                           |q| >= 4 && IsHex(q[2]) && IsHex(q[3]) && e.value.1 == IdentText(q[4..], rest))
  {
    var t, digits := IdentText(q[1..], rest), IdentText(q[2..], rest);
    assert q[1..][0] == 'x' && q[1..][1..] == q[2..];
    IdentStarts(q[1..], rest);
    assert t == ['x'] + digits;
    if |t| >= 3 && Echo((16 * HexDigit(t[1]) + HexDigit(t[2])) as char) {
      HexEchoes(t[1], t[2]);
      TwoDigits(q[2..], rest);
      assert q[2..][2..] == q[4..] && t[3..] == digits[2..];
    }
  }

  lemma {:induction false} TwoDigits(q: string, rest: string)
    requires var t := IdentText(q, rest); |t| >= 2 && IsHex(t[0]) && IsHex(t[1])
    ensures |q| >= 2 && q[0] == IdentText(q, rest)[0] && q[1] == IdentText(q, rest)[1]
    ensures IdentText(q, rest)[2..] == IdentText(q[2..], rest)
  {
    var t := IdentText(q, rest);
    OwnCharacter(q, rest);
    assert IdentText(q[1..], rest) == t[1..];
    OwnCharacter(q[1..], rest);
    assert q[1..][1..] == q[2..] && t[2..] == t[1..][1..];
  }

  /** Text that does not start with a backtick starts with the name's first character. */
  lemma {:induction false} OwnCharacter(q: string, rest: string)
    requires IdentText(q, rest)[0] != '`'
    ensures q != [] && q[0] == IdentText(q, rest)[0] && IdentText(q, rest)[1..] == IdentText(q[1..], rest)
  {
    if q != [] {
      IdentStarts(q, rest);
    }
  }

  /**
   Exactly which names survive quoting: a back-quoted name is read back as
   itself if and only if no backslash in it starts an escape and none is last;
   and then exactly its text is consumed.
   */
  lemma {:induction false} IdentReadsExactly(name: string, rest: string)
    requires rest == [] || rest[0] != '`'
    ensures ReadToken(QuoteIdent(name) + rest).0 == Ident(name) <==> ReadsBack(name)
    ensures ReadsBack(name) ==> ReadToken(QuoteIdent(name) + rest).1 == rest
  {
    var line := QuoteIdent(name) + rest;
    assert line[1..] == IdentText(name, rest);
    if ReadsBack(name) {
      IdentReads(name, rest);
    } else {
      Misreads([], name, rest);
      assert [] + name == name;
    }
  }

  /**
   A backslash behind a name that would survive by itself: the closing backtick
   is taken for part of the name, and reading goes on in what follows.
   */
  lemma {:induction false} TrailingBackslashLost(name: string, rest: string)
    requires ReadsBack(name)
    ensures ReadQuoted('`', IdentText(name + ['\\'], rest)) == Before(name + ['`'], ReadQuoted('`', rest))
  {
    SurvivorReads(name, ['\\'], rest);
    IdentStarts(['\\'], rest);
    assert ['\\'][1..] == [];
    assert IdentText([], rest) == ['`'] + rest && (['`'] + rest)[1..] == rest;
    EscapeIdent(['`'] + rest);
    BeforeTwice(name, ['`'], ReadQuoted('`', rest));
  }

  /** The names the query language can write: a letter or underscore, then letters, digits, `_`, `.` and `-`. */
  predicate IsName(name: string) {
    && name != [] && IsWordStart(name[0])
    && forall i :: 0 <= i < |name| ==> IsWordChar(name[i]) || name[i] == '.' || name[i] == '-'
  }

  lemma {:induction false} WrittenNameReadsBack(name: string)
    requires IsName(name)
    ensures ReadsBack(name)
  {
  }

  lemma {:induction false} NumberReads(d: string, rest: string)
    requires IsUnsigned(d) && (rest == [] || (!IsDigit(rest[0]) && rest[0] != '.'))
    ensures NumberLength(d + rest) == |d|
  {
    var n := Span(d, Digit);
    if n == |d| {
      SpanPrinted(d, rest, Digit);
    } else {
      SpanPrinted(d[..n], d[n..] + rest, Digit);
      assert d + rest == d[..n] + (d[n..] + rest);
      SpanPrinted(d[n + 1..], rest, Digit);
      assert (d + rest)[n + 1..] == d[n + 1..] + rest;
    }
  }

  /** A quoted literal decodes to the original string, whatever quotes, backslashes or keywords it contains. */
  lemma {:induction false} TokenReads(t: Token, rest: string)
    requires Spellable(t) && Survives(t) && (rest == [] || Fits(t, rest[0]))
    ensures var line := Spell(t) + rest;
            line != [] && line[0] != ' ' && ReadToken(line) == (t, rest)
  {
    match t
    case Str(s) => LiteralReads(s, rest);
    case Ident(name) => QuotedReads(name, rest);
    case Num(d) => NumeralReads(d, rest);
    case Word(w) => WordReads(w, rest);
    case Sym(c) => SymbolReads(c, rest);
  }

  lemma {:induction false} LiteralReads(s: string, rest: string)
    requires rest == [] || rest[0] != '\''
    ensures var line := LiteralText(s) + rest;
            line != [] && line[0] != ' ' && ReadToken(line) == (Str(s), rest)
  {
    var line := LiteralText(s) + rest;
    StringReads(s, rest);
    assert line[1..] == StringText(s, rest);
  }

  lemma {:induction false} QuotedReads(name: string, rest: string)
    requires ReadsBack(name) && (rest == [] || rest[0] != '`')
    ensures var line := QuoteIdent(name) + rest;
            line != [] && line[0] != ' ' && ReadToken(line) == (Ident(name), rest)
  {
    IdentReadsExactly(name, rest);
  }

  lemma {:induction false} NumeralReads(d: string, rest: string)
    requires Spellable(Num(d)) && (rest == [] || Fits(Num(d), rest[0]))
    ensures d + rest != [] && (d + rest)[0] != ' ' && ReadToken(d + rest) == (Num(d), rest)
  {
    NumberReads(d, rest);
    Joined(d, rest);
  }

  lemma {:induction false} WordReads(w: string, rest: string)
    requires Spellable(Word(w)) && (rest == [] || Fits(Word(w), rest[0]))
    ensures w + rest != [] && (w + rest)[0] != ' ' && ReadToken(w + rest) == (Word(w), rest)
  {
    SpanPrinted(w, rest, WordChar);
    Joined(w, rest);
  }

  lemma {:induction false} SymbolReads(c: string, rest: string)
    requires Spellable(Sym(c)) && (rest == [] || Fits(Sym(c), rest[0]))
    ensures c + rest != [] && (c + rest)[0] != ' ' && ReadToken(c + rest) == (Sym(c), rest)
  {
    Joined(c, rest);
    var line := c + rest;
    if |c| == 1 {
      assert c == [line[0]] && line[1..] == rest;
      if |line| > 1 {
        assert line[..2][0] == line[0] && line[..2][1] == rest[0];
      }
    } else {
      assert line[..2] == c;
    }
  }

  lemma {:induction false} TextStarts(pieces: Pieces)
    requires Spaced(pieces)
    ensures Text(pieces) != [] ==> Text(pieces)[0] == FirstChar(pieces)
  {
  }

  /** Well-spaced text whose names survive reads back as exactly the tokens it was spelled from. */
  lemma {:induction false} LexText(pieces: Pieces)
    requires Spaced(pieces) && AllSurvive(TokensOf(pieces))
    ensures Lex(Text(pieces)) == TokensOf(pieces)
  {
    match pieces
    case End =>
    case Gap(rest) =>
      LexText(rest);
      assert Text(pieces)[1..] == Text(rest);
    case Put(t, rest) =>
      LexText(rest);
      TextStarts(rest);
      TokenReads(t, Text(rest));
  }

  /** `ts` is `us` up to a name that does not survive, which it does not have in that place. */
  predicate Diverges(ts: Tokens, us: Tokens) {
    && us.Cons?
    && if Survives(us.head) then ts.Cons? && ts.head == us.head && Diverges(ts.tail, us.tail)
       else ts.Nil? || ts.head != us.head
  }

  /** Otherwise the tokens read are those spelled up to the first name that does not survive, and different there. */
  lemma {:induction false} LexDiverges(pieces: Pieces)
    requires Spaced(pieces) && !AllSurvive(TokensOf(pieces))
    ensures Diverges(Lex(Text(pieces)), TokensOf(pieces))
  {
    match pieces
    case End =>
    case Gap(rest) =>
      LexDiverges(rest);
      assert Text(pieces)[1..] == Text(rest);
    case Put(t, rest) =>
      TextStarts(rest);
      if Survives(t) {
        LexDiverges(rest);
        TokenReads(t, Text(rest));
      } else {
        IdentReadsExactly(t.name, Text(rest));
        assert (Spell(t) + Text(rest))[0] == '`';
      }
  }
}
