/**
 The agent's RFC 5424 line parser: a cursor scanner with nested loops, the
 grammar it recognises, a printer, and the proof that each undoes the other.
 */
module Rfc5424 {
  import opened Prelude
  import opened Lexical

  // ---------------------------------------------------------------------
  // Messages
  // ---------------------------------------------------------------------

  datatype SdParam = SdParam(name: string, value: string)

  datatype SdElement = SdElement(id: string, params: seq<SdParam>)

  datatype Header = Header(
    pri: nat, version: string, timestamp: string, hostname: string, appName: string, procid: string, msgid: string)

  datatype Message = Message(header: Header, elements: seq<SdElement>, msg: string)

  datatype ParsedLine = ParsedLine(
    facility: Option<nat>, severity: Option<nat>, attributes: map<string, string>, message: string)

  const MAX_PRI := 191

  const NotSpace: char -> bool := c => c != ' '
  const IdChar: char -> bool := c => c != ' ' && c != ']'
  const AnyChar: char -> bool := c => true
  const NotEquals: char -> bool := c => c != '='

  /** A header field: non-empty and free of spaces. */
  predicate IsField(s: string) {
    s != [] && All(s, NotSpace)
  }

  predicate WellFormedHeader(h: Header) {
    && h.pri <= 191
    && h.version != [] && All(h.version, Digit)
    && IsField(h.timestamp) && IsField(h.hostname) && IsField(h.appName) && IsField(h.procid) && IsField(h.msgid)
  }

  predicate WellFormedElement(e: SdElement) {
    && e.id != [] && All(e.id, IdChar)
    && forall i :: 0 <= i < |e.params| ==> All(e.params[i].name, NotEquals)
  }

  predicate WellFormed(m: Message) {
    && WellFormedHeader(m.header)
    && forall i :: 0 <= i < |m.elements| ==> WellFormedElement(m.elements[i])
  }

  // ---------------------------------------------------------------------
  // The grammar, as functions on the unread rest of a line
  // ---------------------------------------------------------------------

  function ScanPri(s: string): Option<(nat, string)> {
    if s == [] || s[0] != '<' then None
    else
      var n := Span(s[1..], Digit);
      var rest := s[1 + n..];
      if n == 0 || n > 3 || rest == [] || rest[0] != '>' then None
      else
        var pri := Decimal(s[1..][..n]);
        if pri > MAX_PRI then None else Some((pri, rest[1..]))
  }

  /** A non-empty run of `f` characters followed by one space. */
  function ScanField(s: string, f: char -> bool): (r: Option<(string, string)>)
    ensures r.Some? ==> r.value.0 != [] && All(r.value.0, f) && |r.value.1| < |s|
  {
    var n := Span(s, f);
    if n == 0 || n == |s| || s[n] != ' ' then None else Some((s[..n], s[n + 1..]))
  }

  /** A PARAM-VALUE up to its closing quote; a backslash keeps the next character as it is. */
  function ScanValue(s: string): (r: Option<(string, string)>)
    ensures r.Some? ==> |r.value.1| < |s|
    decreases |s|
  {
    if s == [] then None
    else if s[0] == '\\' then
      if |s| == 1 then None
      else
        var r := ScanValue(s[2..]);
        if r.None? then None else Some(([s[1]] + r.value.0, r.value.1))
    else if s[0] == '"' then Some(([], s[1..]))
    else
      var r := ScanValue(s[1..]);
      if r.None? then None else Some(([s[0]] + r.value.0, r.value.1))
  }

  /** NAME="VALUE" */
  function ScanParam(s: string): (r: Option<(SdParam, string)>)
    ensures r.Some? ==> |r.value.1| < |s| && All(r.value.0.name, NotEquals)
  {
    var n := Span(s, NotEquals);
    if n + 1 >= |s| || s[n + 1] != '"' then None
    else
      var v := ScanValue(s[n + 2..]);
      if v.None? then None else Some((SdParam(s[..n], v.value.0), v.value.1))
  }

  /** The parameters of one element up to and including its closing bracket. */
  function ScanParams(s: string): (r: Option<(seq<SdParam>, string)>)
    ensures r.Some? ==> |r.value.1| < |s| && forall i :: 0 <= i < |r.value.0| ==> All(r.value.0[i].name, NotEquals)
    decreases |s|
  {
    if s == [] then None
    else if s[0] == ']' then Some(([], s[1..]))
    else if s[0] != ' ' then None
    else
      var p := ScanParam(s[1..]);
      if p.None? then None
      else
        var r := ScanParams(p.value.1);
        if r.None? then None else Some(([p.value.0] + r.value.0, r.value.1))
  }

  /** One element, behind its opening bracket. */
  function ScanElement(s: string): (r: Option<(SdElement, string)>)
    ensures r.Some? ==> |r.value.1| < |s| && WellFormedElement(r.value.0)
  {
    var n := Span(s, IdChar);
    if n == 0 then None
    else
      var p := ScanParams(s[n..]);
      if p.None? then None else Some((SdElement(s[..n], p.value.0), p.value.1))
  }

  /** Zero or more elements; stops at the first character that is not an opening bracket. */
  function ScanElements(s: string): (r: Option<(seq<SdElement>, string)>)
    ensures r.Some? ==> forall i :: 0 <= i < |r.value.0| ==> WellFormedElement(r.value.0[i])
    decreases |s|
  {
    if s == [] || s[0] != '[' then Some(([], s))
    else
      var e := ScanElement(s[1..]);
      if e.None? then None
      else
        var r := ScanElements(e.value.1);
        if r.None? then None else Some(([e.value.0] + r.value.0, r.value.1))
  }

  function ScanStructuredData(s: string): Option<(seq<SdElement>, string)> {
    if s != [] && s[0] == '-' then Some(([], s[1..]))
    else if s != [] && s[0] == '[' then ScanElements(s)
    else None
  }

  /** Text that does not start with a space is dropped. */
  function ScanMsg(s: string): string {
    if s != [] && s[0] == ' ' then s[1..] else ""
  }

  /** The header's fields from HOSTNAME on. */
  datatype Origin = Origin(hostname: string, appName: string, procid: string, msgid: string)

  function ScanOrigin(s: string): (r: Option<(Origin, string)>)
    ensures r.Some? ==>
              var o := r.value.0;
              IsField(o.hostname) && IsField(o.appName) && IsField(o.procid) && IsField(o.msgid)
  {
    var hostname := ScanField(s, NotSpace);
    if hostname.None? then None
    else
      var appName := ScanField(hostname.value.1, NotSpace);
      if appName.None? then None
      else
        var procid := ScanField(appName.value.1, NotSpace);
        if procid.None? then None
        else
          var msgid := ScanField(procid.value.1, NotSpace);
          if msgid.None? then None
          else Some((Origin(hostname.value.0, appName.value.0, procid.value.0, msgid.value.0), msgid.value.1))
  }

  function ScanHeader(line: string): (r: Option<(Header, string)>)
    ensures r.Some? ==> WellFormedHeader(r.value.0)
  {
    var pri := ScanPri(line);
    if pri.None? then None
    else
      var version := ScanField(pri.value.1, Digit);
      if version.None? then None
      else
        var timestamp := ScanField(version.value.1, NotSpace);
        if timestamp.None? then None
        else
          var origin := ScanOrigin(timestamp.value.1);
          if origin.None? then None
          else
            var o := origin.value.0;
            Some((Header(pri.value.0, version.value.0, timestamp.value.0, o.hostname, o.appName, o.procid, o.msgid),
                  origin.value.1))
  }

  function ScanMessage(line: string): (r: Option<Message>)
    ensures r.Some? ==> WellFormed(r.value)
  {
    var h := ScanHeader(line);
    if h.None? then None
    else
      var sd := ScanStructuredData(h.value.1);
      if sd.None? then None else Some(Message(h.value.0, sd.value.0, ScanMsg(sd.value.1)))
  }

  // ---------------------------------------------------------------------
  // Attributes
  // ---------------------------------------------------------------------

  /** One inserted attribute. */
  datatype Pair = Pair(key: string, value: string)

  function HeaderPairs(h: Header): seq<Pair> {
    [Pair("syslog.version", h.version), Pair("syslog.timestamp", h.timestamp), Pair("syslog.hostname", h.hostname),
     Pair("syslog.app_name", h.appName), Pair("syslog.procid", h.procid), Pair("syslog.msgid", h.msgid)]
  }

  function ElementPairs(e: SdElement): seq<Pair> {
    seq(|e.params|, i requires 0 <= i < |e.params| => Pair(e.id + "." + e.params[i].name, e.params[i].value))
  }

  function SdPairs(elements: seq<SdElement>): seq<Pair> {
    if elements == [] then [] else ElementPairs(elements[0]) + SdPairs(elements[1..])
  }

  function Insert(attributes: map<string, string>, pairs: seq<Pair>): map<string, string>
    decreases |pairs|
  {
    if pairs == [] then attributes else Insert(attributes[pairs[0].key := pairs[0].value], pairs[1..])
  }

  function Attributes(m: Message): map<string, string> {
    Insert(map[], HeaderPairs(m.header) + SdPairs(m.elements))
  }

  function Result(m: Message): ParsedLine {
    ParsedLine(Some(m.header.pri / 8), Some(m.header.pri % 8), Attributes(m), m.msg)
  }

  /** A line that does not match is passed through raw. */
  function Parsed(line: string): ParsedLine {
    var m := ScanMessage(line);
    if m.Some? then Result(m.value) else ParsedLine(None, None, map[], line)
  }

  // ---------------------------------------------------------------------
  // The printer (sections 6, 6.2.1 and 6.3.3 of RFC 5424)
  // ---------------------------------------------------------------------

  // Each printer puts its text in front of the text that follows it.

  function PrintPri(n: nat, rest: string): string {
    ['<'] + (PrintNat(n) + (['>'] + rest))
  }

  function PrintField(field: string, rest: string): string {
    field + ([' '] + rest)
  }

  function PrintOrigin(o: Origin, rest: string): string {
    PrintField(o.hostname, PrintField(o.appName, PrintField(o.procid, PrintField(o.msgid, rest))))
  }

  function PrintHeader(h: Header, rest: string): string {
    PrintPri(h.pri, PrintField(h.version, PrintField(h.timestamp,
      PrintOrigin(Origin(h.hostname, h.appName, h.procid, h.msgid), rest))))
  }

  /** Quotes, backslashes and closing brackets are escaped; the closing quote follows the value. */
  function PrintValue(value: string, rest: string): string {
    if value == [] then ['"'] + rest
    else if value[0] == '"' || value[0] == '\\' || value[0] == ']' then ['\\', value[0]] + PrintValue(value[1..], rest)
    else [value[0]] + PrintValue(value[1..], rest)
  }

  function PrintParam(p: SdParam, rest: string): string {
    p.name + (['=', '"'] + PrintValue(p.value, rest))
  }

  function PrintParams(params: seq<SdParam>, rest: string): string {
    if params == [] then [']'] + rest else [' '] + PrintParam(params[0], PrintParams(params[1..], rest))
  }

  function PrintElements(elements: seq<SdElement>, rest: string): string {
    if elements == [] then rest
    else ['['] + (elements[0].id + PrintParams(elements[0].params, PrintElements(elements[1..], rest)))
  }

  function PrintStructuredData(elements: seq<SdElement>, rest: string): string {
    if elements == [] then ['-'] + rest else PrintElements(elements, rest)
  }

  function Print(m: Message): string {
    PrintHeader(m.header, PrintStructuredData(m.elements, [' '] + m.msg))
  }

  // ---------------------------------------------------------------------
  // The parser undoes the printer
  // ---------------------------------------------------------------------

  lemma FieldPrinted(field: string, rest: string, f: char -> bool)
    requires field != [] && All(field, f) && !f(' ')
    ensures ScanField(PrintField(field, rest), f) == Some((field, rest))
  {
    SpanPrinted(field, [' '] + rest, f);
    Joined(field, [' '] + rest);
    assert PrintField(field, rest)[|field| + 1..] == rest;
  }

  lemma PriPrinted(n: nat, rest: string)
    requires n <= MAX_PRI
    ensures ScanPri(PrintPri(n, rest)) == Some((n, rest))
  {
    var text, tail := PrintNat(n), ['>'] + rest;
    DecimalPrinted(n);
    PrintedLength(n);
    SpanPrinted(text, tail, Digit);
    var line := PrintPri(n, rest);
    assert line[1..] == text + tail;
    assert line[1 + |text|..] == tail;
    Joined(text, tail);
    assert tail[1..] == rest;
  }

  lemma {:induction false} ValuePrinted(value: string, rest: string)
    ensures ScanValue(PrintValue(value, rest)) == Some((value, rest))
  {
    var line := PrintValue(value, rest);
    if value == [] {
      assert line[1..] == rest;
    } else {
      ValuePrinted(value[1..], rest);
      if value[0] == '"' || value[0] == '\\' || value[0] == ']' {
        assert line[2..] == PrintValue(value[1..], rest);
      } else {
        assert line[1..] == PrintValue(value[1..], rest);
      }
      assert value == [value[0]] + value[1..];
    }
  }

  lemma ParamPrinted(p: SdParam, rest: string)
    requires All(p.name, NotEquals)
    ensures ScanParam(PrintParam(p, rest)) == Some((p, rest))
  {
    var tail := ['=', '"'] + PrintValue(p.value, rest);
    SpanPrinted(p.name, tail, NotEquals);
    Joined(p.name, tail);
    assert PrintParam(p, rest)[|p.name| + 2..] == PrintValue(p.value, rest);
    ValuePrinted(p.value, rest);
  }

  lemma {:induction false} ParamsPrinted(params: seq<SdParam>, rest: string)
    requires forall i :: 0 <= i < |params| ==> All(params[i].name, NotEquals)
    ensures ScanParams(PrintParams(params, rest)) == Some((params, rest))
  {
    var line := PrintParams(params, rest);
    if params == [] {
      assert line[1..] == rest;
    } else {
      var more := PrintParams(params[1..], rest);
      ParamsPrinted(params[1..], rest);
      ParamPrinted(params[0], more);
      assert line[1..] == PrintParam(params[0], more);
      assert params == [params[0]] + params[1..];
    }
  }

  lemma {:induction false} ElementsPrinted(elements: seq<SdElement>, rest: string)
    requires forall i :: 0 <= i < |elements| ==> WellFormedElement(elements[i])
    requires rest == [] || rest[0] != '['
    ensures ScanElements(PrintElements(elements, rest)) == Some((elements, rest))
  {
    if elements != [] {
      ElementsPrinted(elements[1..], rest);
      FirstPrinted(elements[0], PrintElements(elements[1..], rest), elements[1..], rest);
      assert elements == [elements[0]] + elements[1..];
    }
  }

  lemma {:induction false} FirstPrinted(e: SdElement, more: string, others: seq<SdElement>, rest: string)
    requires WellFormedElement(e) && ScanElements(more) == Some((others, rest))
    ensures ScanElements(['['] + (e.id + PrintParams(e.params, more))) == Some(([e] + others, rest))
  {
    ParamsPrinted(e.params, more);
    ParamsStart(e.params, more);
    ElementPrinted(e, PrintParams(e.params, more), more, others, rest);
  }

  lemma {:induction false} ParamsStart(params: seq<SdParam>, rest: string)
    ensures PrintParams(params, rest) != [] && !IdChar(PrintParams(params, rest)[0])
  {
  }

  lemma {:induction false} ElementPrinted(e: SdElement, tail: string, more: string, others: seq<SdElement>,
                                          rest: string)
    requires WellFormedElement(e) && tail != [] && !IdChar(tail[0])
    requires ScanParams(tail) == Some((e.params, more)) && ScanElements(more) == Some((others, rest))
    ensures ScanElements(['['] + (e.id + tail)) == Some(([e] + others, rest))
  {
    assert (['['] + (e.id + tail))[1..] == e.id + tail;
    SpanPrinted(e.id, tail, IdChar);
    Joined(e.id, tail);
  }

  lemma OriginPrinted(o: Origin, rest: string)
    requires IsField(o.hostname) && IsField(o.appName) && IsField(o.procid) && IsField(o.msgid)
    ensures ScanOrigin(PrintOrigin(o, rest)) == Some((o, rest))
  {
    var t3 := PrintField(o.msgid, rest);
    var t2 := PrintField(o.procid, t3);
    var t1 := PrintField(o.appName, t2);
    FieldPrinted(o.hostname, t1, NotSpace);
    FieldPrinted(o.appName, t2, NotSpace);
    FieldPrinted(o.procid, t3, NotSpace);
    FieldPrinted(o.msgid, rest, NotSpace);
  }

  lemma HeaderPrinted(h: Header, rest: string)
    requires WellFormedHeader(h)
    ensures ScanHeader(PrintHeader(h, rest)) == Some((h, rest))
  {
    var o := Origin(h.hostname, h.appName, h.procid, h.msgid);
    var t2 := PrintOrigin(o, rest);
    var t1 := PrintField(h.timestamp, t2);
    PriPrinted(h.pri, PrintField(h.version, t1));
    FieldPrinted(h.version, t1, Digit);
    FieldPrinted(h.timestamp, t2, NotSpace);
    OriginPrinted(o, rest);
  }

  lemma StructuredDataPrinted(elements: seq<SdElement>, rest: string)
    requires forall i :: 0 <= i < |elements| ==> WellFormedElement(elements[i])
    requires rest != [] && rest[0] != '['
    ensures ScanStructuredData(PrintStructuredData(elements, rest)) == Some((elements, rest))
  {
    if elements == [] {
      assert PrintStructuredData(elements, rest)[1..] == rest;
    } else {
      ElementsPrinted(elements, rest);
    }
  }

  /** The parser undoes the printer on every well-formed message. */
  lemma ScanPrinted(m: Message)
    requires WellFormed(m)
    ensures ScanMessage(Print(m)) == Some(m)
  {
    var tail := [' '] + m.msg;
    HeaderPrinted(m.header, PrintStructuredData(m.elements, tail));
    StructuredDataPrinted(m.elements, tail);
    assert tail[1..] == m.msg;
  }

  /** The parser's results are exactly the well-formed messages, and printing one parses back to it. */
  lemma ScanImage(m: Message)
    ensures WellFormed(m) <==> exists line :: ScanMessage(line) == Some(m)
  {
    if WellFormed(m) {
      ScanPrinted(m);
    }
  }

  /** What a caller sees: facility, severity and message recovered, facility * 8 + severity the PRI. */
  lemma ParsePrinted(m: Message)
    requires WellFormed(m)
    ensures var r := Parsed(Print(m));
            && r.facility.Some? && r.severity.Some?
            && r.facility.value * 8 + r.severity.value == m.header.pri
            && r.facility.value <= 23 && r.severity.value <= 7
            && r.message == m.msg && r.attributes == Attributes(m)
  {
    ScanPrinted(m);
  }

  // ---- Exactly which headers are read ---------------------------------

  /** One to three digits in angle brackets, of a value up to 191. */
  ghost predicate IsPri(d: string, pri: nat) {
    1 <= |d| <= 3 && All(d, Digit) && Decimal(d) == pri <= 191
  }

  lemma {:induction false} PriParts(s: string, n: nat)
    requires 1 + n < |s| && s[0] == '<' && s[1 + n] == '>'
    ensures s == ['<'] + s[1..][..n] + ['>'] + s[1 + n..][1..]
  {
    assert s[1..][..n] == s[1..1 + n] && s[1 + n..][1..] == s[2 + n..];
  }

  lemma {:induction false} PriExactly(s: string, pri: nat, rest: string)
    ensures ScanPri(s) == Some((pri, rest)) <==> exists d :: IsPri(d, pri) && s == ['<'] + d + ['>'] + rest
  {
    if ScanPri(s) == Some((pri, rest)) {
      var n := Span(s[1..], Digit);
      PriParts(s, n);
      assert IsPri(s[1..][..n], pri);
    }
    if d :| IsPri(d, pri) && s == ['<'] + d + ['>'] + rest {
      assert s[1..] == d + (['>'] + rest);
      SpanPrinted(d, ['>'] + rest, Digit);
      Joined(d, ['>'] + rest);
      assert s[1 + |d|..] == ['>'] + rest;
    }
  }

  lemma FieldExactly(s: string, field: string, rest: string, f: char -> bool)
    requires !f(' ')
    ensures ScanField(s, f) == Some((field, rest)) <==> field != [] && All(field, f) && s == PrintField(field, rest)
  {
    if ScanField(s, f) == Some((field, rest)) {
      assert s == s[..|field|] + ([s[|field|]] + s[|field| + 1..]);
    }
    if field != [] && All(field, f) && s == PrintField(field, rest) {
      FieldPrinted(field, rest, f);
    }
  }

  lemma OriginExactly(s: string, o: Origin, rest: string)
    ensures ScanOrigin(s) == Some((o, rest)) <==>
            && IsField(o.hostname) && IsField(o.appName) && IsField(o.procid) && IsField(o.msgid)
            && s == PrintOrigin(o, rest)
  {
    if ScanOrigin(s) == Some((o, rest)) {
      var s1 := ScanField(s, NotSpace).value.1;
      var s2 := ScanField(s1, NotSpace).value.1;
      var s3 := ScanField(s2, NotSpace).value.1;
      FieldExactly(s, o.hostname, s1, NotSpace);
      FieldExactly(s1, o.appName, s2, NotSpace);
      FieldExactly(s2, o.procid, s3, NotSpace);
      FieldExactly(s3, o.msgid, rest, NotSpace);
    }
    if && IsField(o.hostname) && IsField(o.appName) && IsField(o.procid) && IsField(o.msgid)
       && s == PrintOrigin(o, rest) {
      OriginPrinted(o, rest);
    }
  }

  /**
   The lines whose header is read, and as what: a PRI of one to three digits and a
   value up to 191, a version of digits, and five fields, each closed by one space.
   */
  lemma HeaderExactly(line: string, h: Header, rest: string)
    ensures ScanHeader(line) == Some((h, rest)) <==>
            WellFormedHeader(h) &&
            exists d :: && IsPri(d, h.pri)
                        && line == ['<'] + d + ['>'] + PrintField(h.version, PrintField(h.timestamp,
                             PrintOrigin(Origin(h.hostname, h.appName, h.procid, h.msgid), rest)))
  {
    var o := Origin(h.hostname, h.appName, h.procid, h.msgid);
    var s2 := PrintOrigin(o, rest);
    var s1 := PrintField(h.timestamp, s2);
    var s0 := PrintField(h.version, s1);
    if ScanHeader(line) == Some((h, rest)) {
      var t0 := ScanPri(line).value.1;
      var t1 := ScanField(t0, Digit).value.1;
      var t2 := ScanField(t1, NotSpace).value.1;
      OriginExactly(t2, o, rest);
      FieldExactly(t1, h.timestamp, t2, NotSpace);
      FieldExactly(t0, h.version, t1, Digit);
      PriExactly(line, h.pri, t0);
    }
    if d :| WellFormedHeader(h) && IsPri(d, h.pri) && line == ['<'] + d + ['>'] + s0 {
      PriExactly(line, h.pri, s0);
      FieldExactly(s0, h.version, s1, Digit);
      FieldExactly(s1, h.timestamp, s2, NotSpace);
      OriginExactly(s2, o, rest);
    }
  }

  // ---- Attributes are a last-wins fold --------------------------------

  function LastValue(pairs: seq<Pair>, key: string): Option<string> {
    if pairs == [] then None
    else if pairs[|pairs| - 1].key == key then Some(pairs[|pairs| - 1].value)
    else LastValue(pairs[..|pairs| - 1], key)
  }

  function Lookup(attributes: map<string, string>, key: string): Option<string> {
    if key in attributes then Some(attributes[key]) else None
  }

  function OrElse(a: Option<string>, b: Option<string>): Option<string> {
    if a.Some? then a else b
  }

  lemma {:induction false} LastValueSplits(a: seq<Pair>, b: seq<Pair>, key: string)
    ensures LastValue(a + b, key) == OrElse(LastValue(b, key), LastValue(a, key))
  {
    if b == [] {
      assert a + b == a;
    } else {
      LastValueSplits(a, b[..|b| - 1], key);
      assert (a + b)[..|a + b| - 1] == a + b[..|b| - 1];
    }
  }

  lemma {:induction false} InsertKeepsLast(attributes: map<string, string>, pairs: seq<Pair>, key: string)
    ensures Lookup(Insert(attributes, pairs), key) == OrElse(LastValue(pairs, key), Lookup(attributes, key))
    decreases |pairs|
  {
    if pairs != [] {
      InsertKeepsLast(attributes[pairs[0].key := pairs[0].value], pairs[1..], key);
      assert pairs == [pairs[0]] + pairs[1..];
      LastValueSplits([pairs[0]], pairs[1..], key);
      assert [pairs[0]][..0] == [];
    }
  }

  /**
   Every attribute is the last SD-PARAM written under its key, or else the
   header field of that name: a header field survives exactly when no element
   spells its key with another value.
   */
  lemma AttributesLastWins(m: Message, key: string)
    ensures var sd, header := LastValue(SdPairs(m.elements), key), LastValue(HeaderPairs(m.header), key);
            && Lookup(Attributes(m), key) == OrElse(sd, header)
            && (header.Some? ==> (Lookup(Attributes(m), key) == header <==> sd.None? || sd == header))
  {
    InsertKeepsLast(map[], HeaderPairs(m.header) + SdPairs(m.elements), key);
    LastValueSplits(HeaderPairs(m.header), SdPairs(m.elements), key);
  }

  // ---- Which value is under which key ---------------------------------

  /** Parameter j of element i is written under `key`. */
  predicate Spells(elements: seq<SdElement>, i: int, j: int, key: string) {
    && 0 <= i < |elements| && 0 <= j < |elements[i].params|
    && elements[i].id + "." + elements[i].params[j].name == key
  }

  ghost predicate Spelled(elements: seq<SdElement>, key: string) {
    exists i, j :: Spells(elements, i, j, key)
  }

  /** Parameter j of element i is the last under its key. */
  ghost predicate LastSpelled(elements: seq<SdElement>, i: int, j: int, key: string) {
    Spells(elements, i, j, key) && forall k, l :: Spells(elements, k, l, key) ==> k < i || (k == i && l <= j)
  }

  lemma {:induction false} UnspelledHasNoValue(elements: seq<SdElement>, key: string)
    requires !Spelled(elements, key)
    ensures LastValue(SdPairs(elements), key).None?
  {
    if elements != [] {
      var first, rest := ElementPairs(elements[0]), elements[1..];
      forall k, l ensures !Spells(rest, k, l, key) {
        assert Spells(rest, k, l, key) ==> Spells(elements, k + 1, l, key);
      }
      UnspelledHasNoValue(rest, key);
      forall j | 0 <= j < |first| ensures first[j].key != key {
        assert first[j].key == key ==> Spells(elements, 0, j, key);
      }
      NoKeyNoValue(first, key);
      LastValueSplits(first, SdPairs(rest), key);
    }
  }

  lemma {:induction false} NoKeyNoValue(pairs: seq<Pair>, key: string)
    requires forall i :: 0 <= i < |pairs| ==> pairs[i].key != key
    ensures LastValue(pairs, key).None?
  {
    if pairs != [] {
      NoKeyNoValue(pairs[..|pairs| - 1], key);
    }
  }

  lemma {:induction false} LastKeyIsValue(pairs: seq<Pair>, j: nat, key: string)
    requires j < |pairs| && pairs[j].key == key && forall i :: j < i < |pairs| ==> pairs[i].key != key
    ensures LastValue(pairs, key) == Some(pairs[j].value)
  {
    var n := |pairs| - 1;
    if j < n {
      LastKeyIsValue(pairs[..n], j, key);
    }
  }

  lemma {:induction false} LastSpelledIsValue(elements: seq<SdElement>, i: nat, j: nat, key: string)
    requires LastSpelled(elements, i, j, key)
    ensures LastValue(SdPairs(elements), key) == Some(elements[i].params[j].value)
  {
    var first, rest := ElementPairs(elements[0]), elements[1..];
    LastValueSplits(first, SdPairs(rest), key);
    forall k, l ensures Spells(rest, k, l, key) ==> Spells(elements, k + 1, l, key) {
    }
    if i == 0 {
      UnspelledHasNoValue(rest, key);
      forall l | j < l < |first| ensures first[l].key != key {
        assert first[l].key == key ==> Spells(elements, 0, l, key);
      }
      LastKeyIsValue(first, j, key);
    } else {
      assert Spells(rest, i - 1, j, key);
      LastSpelledIsValue(rest, i - 1, j, key);
    }
  }

  /** The six header attributes, by name. */
  lemma HeaderValues(h: Header, key: string)
    ensures LastValue(HeaderPairs(h), key)
            == if key == "syslog.version" then Some(h.version)
               else if key == "syslog.timestamp" then Some(h.timestamp)
               else if key == "syslog.hostname" then Some(h.hostname)
               else if key == "syslog.app_name" then Some(h.appName)
               else if key == "syslog.procid" then Some(h.procid)
               else if key == "syslog.msgid" then Some(h.msgid)
               else None
  {
    var pairs := HeaderPairs(h);
    if i: nat :| i < 6 && pairs[i].key == key {
      assert pairs[0].key == "syslog.version" && pairs[1].key == "syslog.timestamp";
      assert pairs[2].key == "syslog.hostname";
      assert pairs[3].key == "syslog.app_name" && pairs[4].key == "syslog.procid" && pairs[5].key == "syslog.msgid";
      LastKeyIsValue(pairs, i, key);
    } else {
      NoKeyNoValue(pairs, key);
      assert pairs[0].key != key && pairs[1].key != key && pairs[2].key != key;
      assert pairs[3].key != key && pairs[4].key != key && pairs[5].key != key;
    }
  }

  /**
   What the attributes of a parsed line are: under each header name the field of
   that name unless a structured-data parameter spells the name, under each
   parameter's key the value of the last parameter with that key, and nothing else.
   */
  lemma AttributesOf(m: Message, key: string, i: nat, j: nat)
    requires WellFormed(m)
    ensures var attributes := Parsed(Print(m)).attributes;
            && (!Spelled(m.elements, key) ==>
                  Lookup(attributes, key)
                  == if key == "syslog.version" then Some(m.header.version)
                     else if key == "syslog.timestamp" then Some(m.header.timestamp)
                     else if key == "syslog.hostname" then Some(m.header.hostname)
                     else if key == "syslog.app_name" then Some(m.header.appName)
                     else if key == "syslog.procid" then Some(m.header.procid)
                     else if key == "syslog.msgid" then Some(m.header.msgid)
                     else None)
            && (LastSpelled(m.elements, i, j, key) ==>
                  Lookup(attributes, key) == Some(m.elements[i].params[j].value))
  {
    ParsePrinted(m);
    AttributesLastWins(m, key);
    HeaderValues(m.header, key);
    if !Spelled(m.elements, key) {
      UnspelledHasNoValue(m.elements, key);
    }
    if LastSpelled(m.elements, i, j, key) {
      LastSpelledIsValue(m.elements, i, j, key);
    }
  }

  // ---------------------------------------------------------------------
  // The scanner and the parser's loops
  // ---------------------------------------------------------------------

  /** A run of `f` characters that nothing extends is the span. */
  lemma TakenSpan(line: string, from: nat, to: nat, f: char -> bool)
    requires from <= to <= |line| && All(line[from..to], f) && (to < |line| ==> !f(line[to]))
    ensures Span(line[from..], f) == to - from
    ensures line[from..][..to - from] == line[from..to] && line[from..][to - from..] == line[to..]
  {
    assert line[from..] == line[from..to] + line[to..];
    SpanPrinted(line[from..to], line[to..], f);
  }

  class Scanner {
    const line: string
    var pos: nat

    ghost predicate Valid()
      reads this
    {
      pos <= |line|
    }

    /** The unread part of the line. */
    function Rest(): string
      reads this
      requires Valid()
    {
      line[pos..]
    }

    constructor (line: string)
      ensures Valid() && this.line == line && Rest() == line
    {
      this.line := line;
      pos := 0;
    }

    function Peek(): Option<char>
      reads this
      requires Valid()
    {
      if pos < |line| then Some(line[pos]) else None
    }

    method Next() returns (c: Option<char>)
      requires Valid()
      modifies this
      ensures Valid() && c == old(Peek())
      ensures Rest() == if c.Some? then old(Rest())[1..] else []
    {
      c := Peek();
      if pos < |line| {
        pos := pos + 1;
      }
    }

    method Expect(c: char) returns (ok: bool)
      requires Valid()
      modifies this
      ensures Valid() && ok == (old(Rest()) != [] && old(Rest())[0] == c)
      ensures ok ==> Rest() == old(Rest())[1..]
    {
      var next := Next();
      ok := next == Some(c);
    }

    method TakeWhile(f: char -> bool) returns (out: string)
      requires Valid()
      modifies this
      ensures Valid()
      ensures var n := Span(old(Rest()), f);
              out == old(Rest())[..n] && Rest() == old(Rest())[n..]
    {
      out := "";
      while pos < |line| && f(line[pos])
        invariant Valid() && old(pos) <= pos
        invariant out == line[old(pos)..pos]
        invariant All(out, f)
      {
        out := out + [line[pos]];
        pos := pos + 1;
      }
      TakenSpan(line, old(pos), pos, f);
    }

    /** A run of `f` characters and the space after it, or nothing. */
    method Field(f: char -> bool) returns (out: Option<string>)
      requires Valid() && !f(' ')
      modifies this
      ensures Valid()
      ensures var r := ScanField(old(Rest()), f);
              && (out.Some? <==> r.Some?)
              && (r.Some? ==> out.value == r.value.0 && Rest() == r.value.1)
    {
      var text := TakeWhile(f);
      if text == "" {
        return None;
      }
      var space := Expect(' ');
      return if space then Some(text) else None;
    }
  }

  /** What a loop has read so far, put in front of what a scan of the rest gives. */
  function Prefixed<T>(read: seq<T>, r: Option<(seq<T>, string)>): Option<(seq<T>, string)> {
    if r.None? then None else Some((read + r.value.0, r.value.1))
  }

  lemma PrefixedAppend<T>(read: seq<T>, x: T, r: Option<(seq<T>, string)>)
    ensures Prefixed([], r) == r
    ensures Prefixed(read, Prefixed([x], r)) == Prefixed(read + [x], r)
  {
    if r.Some? {
      assert [] + r.value.0 == r.value.0;
      assert read + ([x] + r.value.0) == read + [x] + r.value.0;
    }
  }

  method ParseValue(sc: Scanner) returns (out: Option<string>)
    requires sc.Valid()
    modifies sc
    ensures sc.Valid()
    ensures var r := ScanValue(old(sc.Rest()));
            && (out.Some? <==> r.Some?)
            && (r.Some? ==> out.value == r.value.0 && sc.Rest() == r.value.1)
  {
    var val := "";
    PrefixedAppend(val, ' ', ScanValue(sc.Rest()));
    while true
      invariant sc.Valid()
      invariant ScanValue(old(sc.Rest())) == Prefixed(val, ScanValue(sc.Rest()))
      decreases |sc.Rest()|
    {
      var c := sc.Next();
      match c {
        case Some('\\') =>
          var escaped := sc.Next();
          if escaped.None? {
            return None;
          }
          PrefixedAppend(val, escaped.value, ScanValue(sc.Rest()));
          val := val + [escaped.value];
        case Some('"') =>
          return Some(val);
        case Some(ch) =>
          PrefixedAppend(val, ch, ScanValue(sc.Rest()));
          val := val + [ch];
        case None =>
          return None;
      }
    }
  }

  method ParseParam(sc: Scanner) returns (out: Option<SdParam>)
    requires sc.Valid()
    modifies sc
    ensures sc.Valid()
    ensures var r := ScanParam(old(sc.Rest()));
            && (out.Some? <==> r.Some?)
            && (r.Some? ==> out.value == r.value.0 && sc.Rest() == r.value.1)
  {
    var name := sc.TakeWhile(NotEquals);
    var equals := sc.Expect('=');
    if !equals {
      return None;
    }
    var quote := sc.Expect('"');
    if !quote {
      return None;
    }
    var val := ParseValue(sc);
    return if val.Some? then Some(SdParam(name, val.value)) else None;
  }

  lemma ElementPairsAppend(id: string, params: seq<SdParam>, p: SdParam)
    ensures ElementPairs(SdElement(id, params + [p]))
         == ElementPairs(SdElement(id, params)) + [Pair(id + "." + p.name, p.value)]
  {
  }

  /** The parameter loop of one element; pushes its pairs. */
  method ParseParams(sc: Scanner, id: string) returns (pairs: Option<seq<Pair>>)
    requires sc.Valid()
    modifies sc
    ensures sc.Valid()
    ensures var r := ScanParams(old(sc.Rest()));
            && (pairs.Some? <==> r.Some?)
            && (r.Some? ==> pairs.value == ElementPairs(SdElement(id, r.value.0)) && sc.Rest() == r.value.1)
  {
    var out: seq<Pair> := [];
    ghost var read: seq<SdParam> := [];
    PrefixedAppend(read, SdParam("", ""), ScanParams(sc.Rest()));
    while true
      invariant sc.Valid()
      invariant ScanParams(old(sc.Rest())) == Prefixed(read, ScanParams(sc.Rest()))
      invariant out == ElementPairs(SdElement(id, read))
      decreases |sc.Rest()|
    {
      match sc.Peek() {
        case Some(' ') =>
          ghost var start := sc.Rest();
          var _ := sc.Next();
          var p := ParseParam(sc);
          if p.None? {
            return None;
          }
          assert ScanParams(start) == Prefixed([p.value], ScanParams(sc.Rest()));
          PrefixedAppend(read, p.value, ScanParams(sc.Rest()));
          ElementPairsAppend(id, read, p.value);
          out := out + [Pair(id + "." + p.value.name, p.value.value)];
          read := read + [p.value];
        case Some(']') =>
          var _ := sc.Next();
          assert read + [] == read;
          return Some(out);
        case _ =>
          return None;
      }
    }
  }

  lemma {:induction false} SdPairsAppend(elements: seq<SdElement>, e: SdElement)
    ensures SdPairs(elements + [e]) == SdPairs(elements) + ElementPairs(e)
  {
    if elements == [] {
      assert [e][1..] == [];
    } else {
      SdPairsAppend(elements[1..], e);
      assert (elements + [e])[1..] == elements[1..] + [e];
    }
  }

  lemma FirstElement(start: string, e: SdElement, more: string)
    requires start != [] && start[0] == '[' && ScanElement(start[1..]) == Some((e, more))
    ensures ScanElements(start) == Prefixed([e], ScanElements(more))
  {
  }

  method ParseElement(sc: Scanner) returns (pairs: Option<seq<Pair>>)
    requires sc.Valid()
    modifies sc
    ensures sc.Valid()
    ensures var r := ScanElement(old(sc.Rest()));
            && (pairs.Some? <==> r.Some?)
            && (r.Some? ==> pairs.value == ElementPairs(r.value.0) && sc.Rest() == r.value.1)
  {
    var id := sc.TakeWhile(IdChar);
    if id == "" {
      return None;
    }
    pairs := ParseParams(sc, id);
  }

  /** The element loop. */
  method ParseElements(sc: Scanner) returns (pairs: Option<seq<Pair>>)
    requires sc.Valid()
    modifies sc
    ensures sc.Valid()
    ensures var r := ScanElements(old(sc.Rest()));
            && (pairs.Some? <==> r.Some?)
            && (r.Some? ==> pairs.value == SdPairs(r.value.0) && sc.Rest() == r.value.1)
  {
    var out: seq<Pair> := [];
    ghost var read: seq<SdElement> := [];
    PrefixedAppend(read, SdElement("", []), ScanElements(sc.Rest()));
    while sc.Peek() == Some('[')
      invariant sc.Valid()
      invariant ScanElements(old(sc.Rest())) == Prefixed(read, ScanElements(sc.Rest()))
      invariant out == SdPairs(read)
      decreases |sc.Rest()|
    {
      ghost var start := sc.Rest();
      var _ := sc.Next();
      ghost var e := ScanElement(sc.Rest());
      var more := ParseElement(sc);
      if more.None? {
        return None;
      }
      FirstElement(start, e.value.0, sc.Rest());
      PrefixedAppend(read, e.value.0, ScanElements(sc.Rest()));
      SdPairsAppend(read, e.value.0);
      out := out + more.value;
      read := read + [e.value.0];
    }
    assert read + [] == read;
    return Some(out);
  }

  method ParsePri(sc: Scanner) returns (pri: Option<nat>)
    requires sc.Valid()
    modifies sc
    ensures sc.Valid()
    ensures var r := ScanPri(old(sc.Rest()));
            && (pri.Some? <==> r.Some?)
            && (r.Some? ==> pri.value == r.value.0 && sc.Rest() == r.value.1)
  {
    var open := sc.Expect('<');
    if !open {
      return None;
    }
    var digits := sc.TakeWhile(Digit);
    if digits == "" || |digits| > 3 {
      return None;
    }
    var close := sc.Expect('>');
    if !close {
      return None;
    }
    var n := Decimal(digits);
    return if n > MAX_PRI then None else Some(n);
  }

  method ParseHeader(sc: Scanner) returns (header: Option<Header>)
    requires sc.Valid()
    modifies sc
    ensures sc.Valid()
    ensures var r := ScanHeader(old(sc.Rest()));
            && (header.Some? <==> r.Some?)
            && (r.Some? ==> header.value == r.value.0 && sc.Rest() == r.value.1)
  {
    var pri := ParsePri(sc);
    if pri.None? {
      return None;
    }
    var version := sc.Field(Digit);
    if version.None? {
      return None;
    }
    var timestamp := sc.Field(NotSpace);
    if timestamp.None? {
      return None;
    }
    var origin := ParseOrigin(sc);
    if origin.None? {
      return None;
    }
    var o := origin.value;
    return Some(Header(pri.value, version.value, timestamp.value, o.hostname, o.appName, o.procid, o.msgid));
  }

  method ParseOrigin(sc: Scanner) returns (origin: Option<Origin>)
    requires sc.Valid()
    modifies sc
    ensures sc.Valid()
    ensures var r := ScanOrigin(old(sc.Rest()));
            && (origin.Some? <==> r.Some?)
            && (r.Some? ==> origin.value == r.value.0 && sc.Rest() == r.value.1)
  {
    var hostname := sc.Field(NotSpace);
    if hostname.None? {
      return None;
    }
    var appName := sc.Field(NotSpace);
    if appName.None? {
      return None;
    }
    var procid := sc.Field(NotSpace);
    if procid.None? {
      return None;
    }
    var msgid := sc.Field(NotSpace);
    if msgid.None? {
      return None;
    }
    return Some(Origin(hostname.value, appName.value, procid.value, msgid.value));
  }

  method ParseStructuredData(sc: Scanner) returns (pairs: Option<seq<Pair>>)
    requires sc.Valid()
    modifies sc
    ensures sc.Valid()
    ensures var r := ScanStructuredData(old(sc.Rest()));
            && (pairs.Some? <==> r.Some?)
            && (r.Some? ==> pairs.value == SdPairs(r.value.0) && sc.Rest() == r.value.1)
  {
    match sc.Peek() {
      case Some('-') =>
        var _ := sc.Next();
        return Some([]);
      case Some('[') =>
        pairs := ParseElements(sc);
      case _ =>
        return None;
    }
  }

  /** Inserts the attributes one by one, header fields first. */
  method CollectAttributes(header: Header, sdPairs: seq<Pair>) returns (attributes: map<string, string>)
    ensures attributes == Insert(map[], HeaderPairs(header) + sdPairs)
  {
    var pairs := HeaderPairs(header) + sdPairs;
    attributes := map[];
    var i := 0;
    while i < |pairs|
      invariant 0 <= i <= |pairs|
      invariant Insert(map[], pairs) == Insert(attributes, pairs[i..])
    {
      assert pairs[i..][1..] == pairs[i + 1..];
      attributes := attributes[pairs[i].key := pairs[i].value];
      i := i + 1;
    }
  }

  method ParseMsg(sc: Scanner) returns (message: string)
    requires sc.Valid()
    modifies sc
    ensures sc.Valid() && message == ScanMsg(old(sc.Rest()))
  {
    message := "";
    if sc.Peek() == Some(' ') {
      var _ := sc.Next();
      SpanAll(sc.Rest(), AnyChar);
      message := sc.TakeWhile(AnyChar);
    }
  }

  /** The parts of a line that matches, before the attributes are collected. */
  datatype Parts = Parts(header: Header, sdPairs: seq<Pair>, message: string)

  function PartsOf(m: Message): Parts {
    Parts(m.header, SdPairs(m.elements), m.msg)
  }

  method ParseBody(sc: Scanner, header: Header) returns (parts: Option<Parts>)
    requires sc.Valid()
    modifies sc
    ensures var sd := ScanStructuredData(old(sc.Rest()));
            parts == if sd.Some? then Some(Parts(header, SdPairs(sd.value.0), ScanMsg(sd.value.1))) else None
  {
    var sdPairs := ParseStructuredData(sc);
    if sdPairs.None? {
      return None;
    }
    var message := ParseMsg(sc);
    return Some(Parts(header, sdPairs.value, message));
  }

  method ParseParts(line: string) returns (parts: Option<Parts>)
    ensures var m := ScanMessage(line);
            parts == if m.Some? then Some(PartsOf(m.value)) else None
  {
    var sc := new Scanner(line);
    var header := ParseHeader(sc);
    if header.None? {
      return None;
    }
    parts := ParseBody(sc, header.value);
  }

  /** Parses one line; never fails. */
  method Parse(line: string) returns (parsed: ParsedLine)
    ensures parsed == Parsed(line)
    ensures parsed.facility.None? ==> parsed == ParsedLine(None, None, map[], line)
  {
    var parts := ParseParts(line);
    if parts.None? {
      return ParsedLine(None, None, map[], line);
    }
    var Parts(header, sdPairs, message) := parts.value;
    var attributes := CollectAttributes(header, sdPairs);
    return ParsedLine(Some(header.pri / 8), Some(header.pri % 8), attributes, message);
  }
}
