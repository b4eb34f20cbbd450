/**
 The search consumers as a step machine over the partition logs: indexing one
 record, persisting an offset, committing one index, and crashing back to what
 is on disk. Offsets and index commits are saved independently of each other.
 */
module SearchLog {
  import opened Prelude
  import opened SearchIndex

  /** A message: no value, bytes that do not decode, or a log record with its tenant header ("" if absent). */
  datatype Record = NoValue | Unparseable | Parsed(recordId: string, message: string, tenantId: string)

  datatype Write = Write(tenantId: string, recordId: string, message: string)

  predicate SafeChar(c: char) {
    'a' <= c <= 'z' || '0' <= c <= '9' || c == '-' || c == '_'
  }

  /** A tenant id usable as an index directory name. */
  predicate ValidTenantId(t: string) {
    && 0 < |t| <= 63 && 'a' <= t[0] <= 'z'
    && forall i :: 1 <= i < |t| ==> SafeChar(t[i])
  }

  /** The write a record asks for, given the active-tenant gate's verdict on its tenant. */
  function WriteOf(rec: Record, admitted: bool): Option<Write> {
    if !rec.Parsed? || rec.recordId == "" then None
    else if rec.tenantId != "" && (!admitted || !ValidTenantId(rec.tenantId)) then None
    else Some(Write(rec.tenantId, rec.recordId, rec.message))
  }

  /** A fixed gate, or none: `gate(t)` says whether records of tenant `t` are let through. */
  type Gate = string -> bool

  function Wanted(gate: Gate, rec: Record): Option<Write> {
    WriteOf(rec, rec.Parsed? && gate(rec.tenantId))
  }

  predicate Sets(gate: Gate, rec: Record, t: string, id: string) {
    && Wanted(gate, rec).Some?
    && Wanted(gate, rec).value.tenantId == t && Wanted(gate, rec).value.recordId == id
  }

  ghost predicate NoneSet(gate: Gate, log: seq<Record>, lo: int, hi: int, t: string, id: string) {
    forall i :: lo <= i < hi && 0 <= i < |log| ==> !Sets(gate, log[i], t, id)
  }

  ghost predicate SetSomewhere(gate: Gate, log: seq<Record>, t: string, id: string) {
    exists i :: 0 <= i < |log| && Sets(gate, log[i], t, id)
  }

  function Lookup(c: Contents, id: string): Option<string> {
    if id in c then Some(c[id]) else None
  }

  /** The message the last record of `log` for (t, id) carries. */
  function LastWrite(gate: Gate, log: seq<Record>, t: string, id: string): Option<string> {
    if log == [] then None
    else
      var rec := log[|log| - 1];
      if Sets(gate, rec, t, id) then Some(rec.message) else LastWrite(gate, log[..|log| - 1], t, id)
  }

  lemma {:induction false} LastWriteUnset(gate: Gate, log: seq<Record>, lo: nat, hi: nat, t: string, id: string)
    requires lo <= hi <= |log| && NoneSet(gate, log, lo, hi, t, id)
    ensures LastWrite(gate, log[..hi], t, id) == LastWrite(gate, log[..lo], t, id)
  {
    if lo < hi {
      LastWriteUnset(gate, log, lo, hi - 1, t, id);
      assert log[..hi][..hi - 1] == log[..hi - 1];
      assert log[..hi][hi - 1] == log[hi - 1];
    }
  }

  lemma LastWriteNext(gate: Gate, log: seq<Record>, i: nat, t: string, id: string)
    requires i < |log|
    ensures LastWrite(gate, log[..i + 1], t, id)
            == if Sets(gate, log[i], t, id) then Some(log[i].message) else LastWrite(gate, log[..i], t, id)
  {
    assert log[..i + 1][..i] == log[..i];
  }

  // ---------------------------------------------------------------------
  // Re-indexing one log
  // ---------------------------------------------------------------------

  /** The index of tenant `t` after the records of `log` were indexed into it in order. */
  function Indexed(gate: Gate, c: Contents, log: seq<Record>, t: string): Contents {
    if log == [] then c
    else
      var before := Indexed(gate, c, log[..|log| - 1], t);
      var w := Wanted(gate, log[|log| - 1]);
      if w.Some? && w.value.tenantId == t then before[w.value.recordId := w.value.message] else before
  }

  lemma {:induction false} IndexedLookup(gate: Gate, c: Contents, log: seq<Record>, t: string, id: string)
    ensures Lookup(Indexed(gate, c, log, t), id)
            == if SetSomewhere(gate, log, t, id) then LastWrite(gate, log, t, id) else Lookup(c, id)
    ensures LastWrite(gate, log, t, id).Some? <==> SetSomewhere(gate, log, t, id)
  {
    if log != [] {
      var front := log[..|log| - 1];
      IndexedLookup(gate, c, front, t, id);
      assert log == front + [log[|log| - 1]];
      if SetSomewhere(gate, front, t, id) {
        var i :| 0 <= i < |front| && Sets(gate, front[i], t, id);
        assert Sets(gate, log[i], t, id);
      }
      if SetSomewhere(gate, log, t, id) && !Sets(gate, log[|log| - 1], t, id) {
        var i :| 0 <= i < |log| && Sets(gate, log[i], t, id);
        assert Sets(gate, front[i], t, id);
      }
    }
  }

  lemma SliceSets(gate: Gate, log: seq<Record>, lo: nat, hi: nat, t: string, id: string)
    requires lo <= hi <= |log|
    ensures SetSomewhere(gate, log[lo..hi], t, id) <==> !NoneSet(gate, log, lo, hi, t, id)
  {
    if !NoneSet(gate, log, lo, hi, t, id) {
      var i :| lo <= i < hi && 0 <= i < |log| && Sets(gate, log[i], t, id);
      assert log[lo..hi][i - lo] == log[i];
    }
  }

  lemma {:induction false} LastOfSlice(gate: Gate, log: seq<Record>, lo: nat, hi: nat, t: string, id: string)
    requires lo <= hi <= |log| && !NoneSet(gate, log, lo, hi, t, id)
    ensures LastWrite(gate, log[lo..hi], t, id) == LastWrite(gate, log[..hi], t, id)
    decreases hi
  {
    assert lo < hi;
    assert log[lo..hi][..hi - lo - 1] == log[lo..hi - 1];
    assert log[lo..hi][hi - lo - 1] == log[hi - 1];
    LastWriteNext(gate, log, hi - 1, t, id);
    if !Sets(gate, log[hi - 1], t, id) {
      LastOfSlice(gate, log, lo, hi - 1, t, id);
    }
  }

  /**
   An index committed at `c` and re-indexed from the persisted offset `f` up to
   `n` is the crash-free index of the first n records if and only if no record
   between c and f was lost for good: each id written there is written again in
   what is re-read, or had its value before c already.
   */
  lemma RecoveryExactly(gate: Gate, log: seq<Record>, c: nat, f: nat, n: nat, t: string)
    requires c <= n && f <= n <= |log|
    ensures Indexed(gate, Indexed(gate, map[], log[..c], t), log[f..n], t) == Indexed(gate, map[], log[..n], t)
            <==> forall id :: !NoneSet(gate, log, c, f, t, id) && NoneSet(gate, log, f, n, t, id) ==>
                              LastWrite(gate, log[..c], t, id) == LastWrite(gate, log[..f], t, id)
  {
    var recovered := Indexed(gate, Indexed(gate, map[], log[..c], t), log[f..n], t);
    var crashFree := Indexed(gate, map[], log[..n], t);
    forall id ensures Lookup(recovered, id) == Lookup(crashFree, id) <==>
                      (!NoneSet(gate, log, c, f, t, id) && NoneSet(gate, log, f, n, t, id) ==>
                         LastWrite(gate, log[..c], t, id) == LastWrite(gate, log[..f], t, id)) {
      RecoveryOfOne(gate, log, c, f, n, t, id);
    }
    SameLookups(recovered, crashFree);
  }

  lemma SameLookups(a: Contents, b: Contents)
    ensures a == b <==> forall id :: Lookup(a, id) == Lookup(b, id)
  {
    if forall id :: Lookup(a, id) == Lookup(b, id) {
      forall id ensures id in a <==> id in b
      {
        assert Lookup(a, id) == Lookup(b, id);
      }
      forall id | id in a ensures a[id] == b[id] {
        assert Lookup(a, id) == Lookup(b, id);
      }
    }
  }

  lemma RecoveryOfOne(gate: Gate, log: seq<Record>, c: nat, f: nat, n: nat, t: string, id: string)
    requires c <= n && f <= n <= |log|
    ensures Lookup(Indexed(gate, Indexed(gate, map[], log[..c], t), log[f..n], t), id)
            == Lookup(Indexed(gate, map[], log[..n], t), id) <==>
            (!NoneSet(gate, log, c, f, t, id) && NoneSet(gate, log, f, n, t, id) ==>
               LastWrite(gate, log[..c], t, id) == LastWrite(gate, log[..f], t, id))
  {
    IndexedLookup(gate, map[], log[..c], t, id);
    IndexedLookup(gate, Indexed(gate, map[], log[..c], t), log[f..n], t, id);
    IndexedLookup(gate, map[], log[..n], t, id);
    SliceSets(gate, log, f, n, t, id);
    if !NoneSet(gate, log, f, n, t, id) {
      LastOfSlice(gate, log, f, n, t, id);
    } else {
      LastWriteUnset(gate, log, f, n, t, id);
      if NoneSet(gate, log, c, f, t, id) {
        LastWriteUnset(gate, log, if c < f then c else f, n, t, id);
        LastWriteUnset(gate, log, c, n, t, id);
      }
    }
  }

  /** Re-indexing from any offset at or before the committed prefix changes nothing in the end. */
  lemma ReplayConverges(gate: Gate, log: seq<Record>, p: nat, c: nat, n: nat, t: string)
    requires p <= c <= n <= |log|
    ensures Indexed(gate, Indexed(gate, map[], log[..c], t), log[p..n], t) == Indexed(gate, map[], log[..n], t)
  {
    RecoveryExactly(gate, log, c, p, n, t);
  }

  /** A persisted offset ahead of the last commit can lose a record for good. */
  lemma OffsetAheadLoses(gate: Gate)
    ensures var log := [Parsed("id-1", "hello", "")];
            Indexed(gate, Indexed(gate, map[], log[..0], ""), log[1..1], "") != Indexed(gate, map[], log[..1], "")
  {
    var log := [Parsed("id-1", "hello", "")];
    assert Sets(gate, log[0], "", "id-1");
    IndexedLookup(gate, map[], log[..1], "", "id-1");
    assert log[..1] == log && SetSomewhere(gate, log, "", "id-1");
    assert Lookup(Indexed(gate, map[], log[..1], ""), "id-1").Some?;
  }

  // ---------------------------------------------------------------------
  // The machine
  // ---------------------------------------------------------------------

  /**
   One tenant's index. `base` and the two `saved` vectors are history: how far
   the documents it was reopened with had been read, and how far it had been read
   when it was last committed.
   */
  datatype Index = Index(
    buffered: Contents, durable: Contents, visible: Contents,
    base: seq<nat>, savedOff: seq<nat>, savedBase: seq<nat>)

  /** Where a document came from: the record's place in its log and the gate's verdict when it was indexed. */
  datatype Source = Source(partition: nat, offset: nat, admitted: bool)

  /**
   Read positions, the offset store, its file and whether that is torn, every
   index, and the history of accepted records.
   */
  datatype System = System(
    off: seq<nat>, stored: seq<nat>, file: seq<nat>, torn: bool, indexes: map<string, Index>, accepted: seq<Source>)

  /** How writing the offset file ends: whole, not at all, or cut short after it was emptied. */
  datatype WriteOutcome = WroteAll | WroteNothing | WrotePart

  datatype Step =
    | Consume(p: nat, admitted: bool, reachable: bool, added: bool)
    | Persist(p: nat, wrote: WriteOutcome)
    | Commit(t: string, outcome: CommitOutcome)
    | Crash

  function Zeros(n: nat): seq<nat> { seq(n, _ => 0) }

  function MaxEach(a: seq<nat>, b: seq<nat>): (r: seq<nat>)
    requires |a| == |b|
    ensures |r| == |a| && forall i :: 0 <= i < |r| ==> r[i] == Max(a[i], b[i])
  {
    seq(|a|, i requires 0 <= i < |a| => Max(a[i], b[i]))
  }

  function Fresh(n: nat): Index {
    Index(map[], map[], map[], Zeros(n), Zeros(n), Zeros(n))
  }

  function IndexOf(s: System, t: string): Index {
    if t in s.indexes then s.indexes[t] else Fresh(|s.off|)
  }

  function Initial(n: nat): System {
    System(Zeros(n), Zeros(n), Zeros(n), false, map[], [])
  }

  /** With a torn offset file the service does not come up again, so nothing follows such a crash. */
  predicate CanStep(logs: seq<seq<Record>>, s: System, step: Step) {
    match step
    case Consume(p, _, _, _) => p < |logs| == |s.off| && s.off[p] < |logs[p]|
    case Persist(p, _) => p < |s.off| == |s.stored|
    case Commit(_, _) => true
    case Crash => Shaped(s) && !s.torn
  }

  predicate Shaped(s: System) {
    && |s.off| == |s.stored| == |s.file|
    && forall t :: t in s.indexes ==>
         |s.indexes[t].base| == |s.indexes[t].savedOff| == |s.indexes[t].savedBase| == |s.off|
  }

  function Reopened(i: Index): Index
    requires |i.savedOff| == |i.savedBase|
  {
    i.(buffered := i.durable, visible := i.durable, base := MaxEach(i.savedOff, i.savedBase))
  }

  function Upserted(c: Contents, w: Write, added: bool): Contents {
    if added then c[w.recordId := w.message] else c - {w.recordId}
  }

  function AfterConsume(logs: seq<seq<Record>>, s: System, step: Step): System
    requires step.Consume? && CanStep(logs, s, step)
  {
    var p := step.p;
    var w := WriteOf(logs[p][s.off[p]], step.admitted);
    var moved := s.(off := s.off[p := s.off[p] + 1]);
    if w.None? || (w.value.tenantId != "" && !step.reachable) then moved
    else
      var i := IndexOf(s, w.value.tenantId);
      moved.(indexes := s.indexes[w.value.tenantId := i.(buffered := Upserted(i.buffered, w.value, step.added))],
             accepted := s.accepted + [Source(p, s.off[p], step.admitted)])
  }

  function Next(logs: seq<seq<Record>>, s: System, step: Step): System
    requires CanStep(logs, s, step)
  {
    match step
    case Consume(_, _, _, _) => AfterConsume(logs, s, step)
    case Persist(p, wrote) =>
      var stored := s.stored[p := s.off[p]];
      s.(stored := stored, file := if wrote.WroteAll? then stored else s.file,
         torn := wrote.WrotePart? || (s.torn && !wrote.WroteAll?))
    case Commit(t, outcome) =>
      var i := IndexOf(s, t);
      if outcome.CommitFailed? then s
      else s.(indexes := s.indexes[t := i.(durable := i.buffered, savedOff := s.off, savedBase := i.base,
                                           visible := if outcome.Committed? then i.buffered else i.visible)])
    case Crash =>
      s.(off := s.file, stored := s.file, indexes := map t | t in s.indexes :: Reopened(s.indexes[t]))
  }

  ghost predicate Run(logs: seq<seq<Record>>, s: System, steps: seq<Step>)
    decreases |steps|
  {
    steps == [] || (CanStep(logs, s, steps[0]) && Run(logs, Next(logs, s, steps[0]), steps[1..]))
  }

  ghost function Final(logs: seq<seq<Record>>, s: System, steps: seq<Step>): System
    requires Run(logs, s, steps)
    decreases |steps|
  {
    if steps == [] then s else Final(logs, Next(logs, s, steps[0]), steps[1..])
  }

  // ---------------------------------------------------------------------
  // Convergence over whole runs
  // ---------------------------------------------------------------------

  /** No record of log[lo..hi) asks for a write to tenant `t`. */
  ghost predicate Quiet(gate: Gate, log: seq<Record>, lo: int, hi: int, t: string) {
    forall id :: NoneSet(gate, log, lo, hi, t, id)
  }

  /** What was read before the persisted offsets is in the committed indexes. */
  ghost predicate Covered(gate: Gate, logs: seq<seq<Record>>, s: System)
    requires Shaped(s) && |logs| == |s.off|
  {
    forall t, p :: 0 <= p < |logs| ==> Quiet(gate, logs[p], IndexOf(s, t).savedOff[p], s.file[p], t)
  }

  /** The gate does not change, upserts succeed, and crashes are covered. */
  ghost predicate Steady(gate: Gate, logs: seq<seq<Record>>, s: System, step: Step)
    requires CanStep(logs, s, step)
  {
    match step
    case Consume(p, admitted, reachable, added) =>
      var rec := logs[p][s.off[p]];
      reachable && added && (rec.Parsed? ==> admitted == gate(rec.tenantId))
    case Crash => |logs| == |s.off| && Covered(gate, logs, s)
    case _ => true
  }

  ghost predicate SteadyRun(gate: Gate, logs: seq<seq<Record>>, s: System, steps: seq<Step>)
    requires Run(logs, s, steps)
    decreases |steps|
  {
    steps == [] || (Steady(gate, logs, s, steps[0]) && SteadyRun(gate, logs, Next(logs, s, steps[0]), steps[1..]))
  }

  /** Different partitions never carry the same record id for the same tenant. */
  ghost predicate Disjoint(gate: Gate, logs: seq<seq<Record>>) {
    forall p, q, t, id :: 0 <= p < |logs| && 0 <= q < |logs| && p != q && SetSomewhere(gate, logs[p], t, id) ==>
                          !SetSomewhere(gate, logs[q], t, id)
  }

  /**
   Contents that re-reading from `off` completes: every id of this log that will
   not be written again before `reach` already has its value as of `reach`.
   */
  ghost predicate Recovers(gate: Gate, log: seq<Record>, t: string, c: Contents, off: nat, reach: nat) {
    && off <= reach <= |log|
    && forall id :: SetSomewhere(gate, log, t, id) && NoneSet(gate, log, off, reach, t, id) ==>
                    Lookup(c, id) == LastWrite(gate, log[..reach], t, id)
  }

  ghost predicate Known(gate: Gate, logs: seq<seq<Record>>, t: string, c: Contents) {
    forall id :: id in c ==> exists p :: 0 <= p < |logs| && SetSomewhere(gate, logs[p], t, id)
  }

  /** Re-reading every log from `off` completes `c`, documents read as far as the larger of `off` and `base`. */
  ghost predicate Completable(gate: Gate, logs: seq<seq<Record>>, t: string, c: Contents, off: seq<nat>,
                              base: seq<nat>)
  {
    && |off| == |base| == |logs|
    && Known(gate, logs, t, c)
    && forall p :: 0 <= p < |logs| ==> Recovers(gate, logs[p], t, c, off[p], Max(base[p], off[p]))
  }

  ghost predicate IndexInv(gate: Gate, logs: seq<seq<Record>>, off: seq<nat>, t: string, i: Index) {
    && Completable(gate, logs, t, i.buffered, off, i.base)
    && Completable(gate, logs, t, i.durable, i.savedOff, i.savedBase)
  }

  ghost predicate Inv(gate: Gate, logs: seq<seq<Record>>, s: System) {
    && Shaped(s) && |s.off| == |logs|
    && (forall p :: 0 <= p < |logs| ==> s.stored[p] <= |logs[p]| && s.file[p] <= |logs[p]|)
    && forall t :: IndexInv(gate, logs, s.off, t, IndexOf(s, t))
  }

  /** Reading one more record of the log keeps what recovery needs, whether or not it is for this index. */
  lemma ConsumeOne(gate: Gate, log: seq<Record>, t: string, c: Contents, off: nat, base: nat)
    requires off < |log| && Recovers(gate, log, t, c, off, Max(base, off))
    ensures var w := Wanted(gate, log[off]);
            Recovers(gate, log, t, if w.Some? && w.value.tenantId == t then Upserted(c, w.value, true) else c,
                     off + 1, Max(base, off + 1))
  {
    var w := Wanted(gate, log[off]);
    var c' := if w.Some? && w.value.tenantId == t then Upserted(c, w.value, true) else c;
    var reach, reach' := Max(base, off), Max(base, off + 1);
    forall id | SetSomewhere(gate, log, t, id) && NoneSet(gate, log, off + 1, reach', t, id)
      ensures Lookup(c', id) == LastWrite(gate, log[..reach'], t, id)
    {
      LastWriteNext(gate, log, off, t, id);
      if Sets(gate, log[off], t, id) {
        LastWriteUnset(gate, log, off + 1, reach', t, id);
      } else {
        assert NoneSet(gate, log, off, reach', t, id);
        assert NoneSet(gate, log, off, reach, t, id);
        LastWriteUnset(gate, log, reach, reach', t, id);
      }
    }
  }

  /** Writing an id of another partition's log does not disturb this one. */
  lemma OtherPartition(gate: Gate, log: seq<Record>, t: string, c: Contents, off: nat, reach: nat, w: Write)
    requires Recovers(gate, log, t, c, off, reach) && !SetSomewhere(gate, log, t, w.recordId)
    ensures Recovers(gate, log, t, Upserted(c, w, true), off, reach)
  {
  }

  /** Going back to the committed documents and a covered offset keeps what recovery needs. */
  lemma ReopenOne(gate: Gate, log: seq<Record>, t: string, c: Contents, savedOff: nat, savedBase: nat, file: nat)
    requires Recovers(gate, log, t, c, savedOff, Max(savedBase, savedOff)) && file <= |log|
    requires Quiet(gate, log, savedOff, file, t)
    ensures Recovers(gate, log, t, c, file, Max(Max(savedOff, savedBase), file))
  {
    var reach := Max(savedBase, savedOff);
    var reach' := Max(reach, file);
    forall id | SetSomewhere(gate, log, t, id) && NoneSet(gate, log, file, reach', t, id)
      ensures Lookup(c, id) == LastWrite(gate, log[..reach'], t, id)
    {
      assert NoneSet(gate, log, savedOff, file, t, id);
      assert NoneSet(gate, log, savedOff, reach, t, id);
      assert NoneSet(gate, log, reach, reach', t, id);
      LastWriteUnset(gate, log, reach, reach', t, id);
    }
  }

  lemma ConsumedIndex(gate: Gate, logs: seq<seq<Record>>, s: System, step: Step, t: string)
    requires step.Consume? && CanStep(logs, s, step) && Steady(gate, logs, s, step)
    ensures var w := Wanted(gate, logs[step.p][s.off[step.p]]);
            var i := IndexOf(s, t);
            IndexOf(Next(logs, s, step), t)
            == if w.Some? && w.value.tenantId == t then i.(buffered := Upserted(i.buffered, w.value, true)) else i
  {
  }

  lemma ConsumeKeepsContents(gate: Gate, logs: seq<seq<Record>>, p: nat, t: string, c: Contents, off: seq<nat>,
                             base: seq<nat>)
    requires Disjoint(gate, logs) && Completable(gate, logs, t, c, off, base) && p < |logs| && off[p] < |logs[p]|
    ensures var w := Wanted(gate, logs[p][off[p]]);
            var c' := if w.Some? && w.value.tenantId == t then Upserted(c, w.value, true) else c;
            Completable(gate, logs, t, c', off[p := off[p] + 1], base)
  {
    var rec, off' := logs[p][off[p]], off[p := off[p] + 1];
    var w := Wanted(gate, rec);
    ConsumeOne(gate, logs[p], t, c, off[p], base[p]);
    if w.Some? && w.value.tenantId == t {
      var c' := Upserted(c, w.value, true);
      assert Sets(gate, rec, t, w.value.recordId);
      assert SetSomewhere(gate, logs[p], t, w.value.recordId);
      forall q | 0 <= q < |logs| && q != p ensures Recovers(gate, logs[q], t, c', off'[q], Max(base[q], off'[q])) {
        OtherPartition(gate, logs[q], t, c, off[q], Max(base[q], off[q]), w.value);
      }
    }
  }

  lemma ConsumeKeepsIndex(gate: Gate, logs: seq<seq<Record>>, s: System, step: Step, t: string)
    requires step.Consume? && CanStep(logs, s, step) && Steady(gate, logs, s, step)
    requires Disjoint(gate, logs) && IndexInv(gate, logs, s.off, t, IndexOf(s, t))
    ensures IndexInv(gate, logs, Next(logs, s, step).off, t, IndexOf(Next(logs, s, step), t))
  {
    var i := IndexOf(s, t);
    ConsumedIndex(gate, logs, s, step, t);
    ConsumeKeepsContents(gate, logs, step.p, t, i.buffered, s.off, i.base);
  }

  lemma CrashKeepsIndex(gate: Gate, logs: seq<seq<Record>>, s: System, t: string)
    requires Inv(gate, logs, s) && Covered(gate, logs, s) && !s.torn
    ensures IndexInv(gate, logs, s.file, t, IndexOf(Next(logs, s, Crash), t))
  {
    var i, i' := IndexOf(s, t), IndexOf(Next(logs, s, Crash), t);
    assert IndexInv(gate, logs, s.off, t, i);
    forall p | 0 <= p < |logs|
      ensures Recovers(gate, logs[p], t, i.durable, s.file[p], Max(i'.base[p], s.file[p]))
    {
      ReopenOne(gate, logs[p], t, i.durable, i.savedOff[p], i.savedBase[p], s.file[p]);
    }
  }

  lemma StepKeepsInv(gate: Gate, logs: seq<seq<Record>>, s: System, step: Step)
    requires Disjoint(gate, logs) && Inv(gate, logs, s) && CanStep(logs, s, step) && Steady(gate, logs, s, step)
    ensures Inv(gate, logs, Next(logs, s, step))
  {
    var s' := Next(logs, s, step);
    forall t ensures IndexInv(gate, logs, s'.off, t, IndexOf(s', t)) {
      assert IndexInv(gate, logs, s.off, t, IndexOf(s, t));
      match step
      case Consume(_, _, _, _) => ConsumeKeepsIndex(gate, logs, s, step, t);
      case Persist(_, _) => assert IndexOf(s', t) == IndexOf(s, t);
      case Commit(_, _) => CommitKeepsIndex(gate, logs, s, step, t);
      case Crash => CrashKeepsIndex(gate, logs, s, t);
    }
    StepKeepsShape(gate, logs, s, step);
  }

  lemma CommitKeepsIndex(gate: Gate, logs: seq<seq<Record>>, s: System, step: Step, t: string)
    requires step.Commit? && CanStep(logs, s, step) && IndexInv(gate, logs, s.off, t, IndexOf(s, t))
    ensures IndexInv(gate, logs, s.off, t, IndexOf(Next(logs, s, step), t))
  {
  }

  lemma StepKeepsShape(gate: Gate, logs: seq<seq<Record>>, s: System, step: Step)
    requires Inv(gate, logs, s) && CanStep(logs, s, step)
    ensures var s' := Next(logs, s, step);
            && Shaped(s') && |s'.off| == |logs|
            && forall p :: 0 <= p < |logs| ==> s'.stored[p] <= |logs[p]| && s'.file[p] <= |logs[p]|
  {
    var i := IndexOf(s, "");
    assert IndexInv(gate, logs, s.off, "", i);
    if step.Persist? {
      assert Recovers(gate, logs[step.p], "", i.buffered, s.off[step.p], Max(i.base[step.p], s.off[step.p]));
    }
  }

  lemma {:induction false} RunKeepsInv(gate: Gate, logs: seq<seq<Record>>, s: System, steps: seq<Step>)
    requires Disjoint(gate, logs) && Inv(gate, logs, s) && Run(logs, s, steps) && SteadyRun(gate, logs, s, steps)
    ensures Inv(gate, logs, Final(logs, s, steps))
    decreases |steps|
  {
    if steps != [] {
      StepKeepsInv(gate, logs, s, steps[0]);
      RunKeepsInv(gate, logs, Next(logs, s, steps[0]), steps[1..]);
    }
  }

  lemma InitialInv(gate: Gate, logs: seq<seq<Record>>)
    ensures Inv(gate, logs, Initial(|logs|))
  {
  }

  /** The index has re-read everything its reopened documents had seen. */
  predicate CaughtUp(s: System, t: string)
    requires |IndexOf(s, t).base| == |s.off|
  {
    forall p :: 0 <= p < |s.off| ==> IndexOf(s, t).base[p] <= s.off[p]
  }

  lemma CaughtUpLookup(gate: Gate, logs: seq<seq<Record>>, s: System, t: string, id: string)
    requires Inv(gate, logs, s) && |IndexOf(s, t).base| == |s.off| && CaughtUp(s, t)
    ensures forall p :: 0 <= p < |logs| && SetSomewhere(gate, logs[p], t, id) ==>
                        Lookup(IndexOf(s, t).buffered, id) == LastWrite(gate, logs[p][..s.off[p]], t, id)
    ensures id in IndexOf(s, t).buffered ==> exists p :: 0 <= p < |logs| && SetSomewhere(gate, logs[p], t, id)
  {
    var i := IndexOf(s, t);
    assert IndexInv(gate, logs, s.off, t, i);
    forall p | 0 <= p < |logs| && SetSomewhere(gate, logs[p], t, id)
      ensures Lookup(i.buffered, id) == LastWrite(gate, logs[p][..s.off[p]], t, id)
    {
      assert Recovers(gate, logs[p], t, i.buffered, s.off[p], Max(i.base[p], s.off[p]));
      assert NoneSet(gate, logs[p], s.off[p], s.off[p], t, id);
    }
  }

  /**
   Any two runs -- however their partitions interleave, whenever they persist and
   commit, and however often they crash while covered -- that have read the same
   distance hold the same documents for every tenant, once they have caught up.
   */
  lemma RunsConverge(gate: Gate, logs: seq<seq<Record>>, steps1: seq<Step>, steps2: seq<Step>, t: string)
    requires Disjoint(gate, logs)
    requires Run(logs, Initial(|logs|), steps1) && SteadyRun(gate, logs, Initial(|logs|), steps1)
    requires Run(logs, Initial(|logs|), steps2) && SteadyRun(gate, logs, Initial(|logs|), steps2)
    requires var s1, s2 := Final(logs, Initial(|logs|), steps1), Final(logs, Initial(|logs|), steps2);
             && s1.off == s2.off
             && |IndexOf(s1, t).base| == |s1.off| && CaughtUp(s1, t)
             && |IndexOf(s2, t).base| == |s2.off| && CaughtUp(s2, t)
    ensures IndexOf(Final(logs, Initial(|logs|), steps1), t).buffered
            == IndexOf(Final(logs, Initial(|logs|), steps2), t).buffered
  {
    InitialInv(gate, logs);
    RunKeepsInv(gate, logs, Initial(|logs|), steps1);
    RunKeepsInv(gate, logs, Initial(|logs|), steps2);
    var s1, s2 := Final(logs, Initial(|logs|), steps1), Final(logs, Initial(|logs|), steps2);
    var c1, c2 := IndexOf(s1, t).buffered, IndexOf(s2, t).buffered;
    forall id ensures Lookup(c1, id) == Lookup(c2, id) {
      CaughtUpLookup(gate, logs, s1, t, id);
      CaughtUpLookup(gate, logs, s2, t, id);
    }
    SameLookups(c1, c2);
  }

  /** Having read every log to its end is having caught up. */
  lemma ReadToTheEnd(gate: Gate, logs: seq<seq<Record>>, steps: seq<Step>, t: string)
    requires Disjoint(gate, logs)
    requires Run(logs, Initial(|logs|), steps) && SteadyRun(gate, logs, Initial(|logs|), steps)
    ensures var s := Final(logs, Initial(|logs|), steps);
            |s.off| == |logs| == |IndexOf(s, t).base| &&
            ((forall p :: 0 <= p < |logs| ==> s.off[p] == |logs[p]|) ==> CaughtUp(s, t))
  {
    InitialInv(gate, logs);
    RunKeepsInv(gate, logs, Initial(|logs|), steps);
    var s := Final(logs, Initial(|logs|), steps);
    assert IndexInv(gate, logs, s.off, t, IndexOf(s, t));
  }

  // ---------------------------------------------------------------------
  // Tenant routing
  // ---------------------------------------------------------------------

  /** Where an accepted record was read. */
  predicate Carries(logs: seq<seq<Record>>, a: Source, rec: Record) {
    a.partition < |logs| && a.offset < |logs[a.partition]| && logs[a.partition][a.offset] == rec
  }

  /** Every document of `c` is a record tagged `t`; a tenant's were let through by the gate when written. */
  ghost predicate CameFrom(logs: seq<seq<Record>>, accepted: seq<Source>, t: string, c: Contents) {
    forall id :: id in c ==>
      exists i :: && 0 <= i < |accepted| && Carries(logs, accepted[i], Parsed(id, c[id], t))
                  && id != "" && (t != "" ==> ValidTenantId(t) && accepted[i].admitted)
  }

  ghost predicate Routed(logs: seq<seq<Record>>, s: System) {
    && Shaped(s) && |s.off| == |logs|
    && forall t :: t in s.indexes ==>
         && CameFrom(logs, s.accepted, t, s.indexes[t].buffered)
         && CameFrom(logs, s.accepted, t, s.indexes[t].durable)
         && CameFrom(logs, s.accepted, t, s.indexes[t].visible)
  }

  lemma AcceptedGrows(logs: seq<seq<Record>>, accepted: seq<Source>, a: Source, t: string, c: Contents)
    requires CameFrom(logs, accepted, t, c)
    ensures CameFrom(logs, accepted + [a], t, c)
  {
    var more := accepted + [a];
    forall id | id in c
      ensures exists i :: && 0 <= i < |more| && Carries(logs, more[i], Parsed(id, c[id], t))
                          && id != "" && (t != "" ==> ValidTenantId(t) && more[i].admitted)
    {
      var i :| && 0 <= i < |accepted| && Carries(logs, accepted[i], Parsed(id, c[id], t))
               && id != "" && (t != "" ==> ValidTenantId(t) && accepted[i].admitted);
      assert more[i] == accepted[i];
    }
  }

  lemma StillRouted(logs: seq<seq<Record>>, s: System, a: Source)
    requires Routed(logs, s)
    ensures Routed(logs, s.(accepted := s.accepted + [a]))
  {
    forall t | t in s.indexes
      ensures CameFrom(logs, s.accepted + [a], t, s.indexes[t].buffered)
      ensures CameFrom(logs, s.accepted + [a], t, s.indexes[t].durable)
      ensures CameFrom(logs, s.accepted + [a], t, s.indexes[t].visible)
    {
      AcceptedGrows(logs, s.accepted, a, t, s.indexes[t].buffered);
      AcceptedGrows(logs, s.accepted, a, t, s.indexes[t].durable);
      AcceptedGrows(logs, s.accepted, a, t, s.indexes[t].visible);
    }
  }

  lemma UpsertCameFrom(logs: seq<seq<Record>>, accepted: seq<Source>, a: Source, w: Write, c: Contents, added: bool)
    requires CameFrom(logs, accepted + [a], w.tenantId, c)
    requires Carries(logs, a, Parsed(w.recordId, w.message, w.tenantId)) && w.recordId != ""
    requires w.tenantId != "" ==> ValidTenantId(w.tenantId) && a.admitted
    ensures CameFrom(logs, accepted + [a], w.tenantId, Upserted(c, w, added))
  {
    assert (accepted + [a])[|accepted|] == a;
  }

  /** Replacing one tenant's buffered documents by others that were accepted. */
  lemma BufferRouted(logs: seq<seq<Record>>, s: System, t: string, docs: Contents)
    requires Routed(logs, s) && CameFrom(logs, s.accepted, t, docs)
    ensures Routed(logs, s.(indexes := s.indexes[t := IndexOf(s, t).(buffered := docs)]))
  {
    assert t !in s.indexes ==> IndexOf(s, t).durable == map[] && IndexOf(s, t).visible == map[];
  }

  lemma ConsumeKeepsRouted(logs: seq<seq<Record>>, s: System, step: Step)
    requires step.Consume? && Routed(logs, s) && CanStep(logs, s, step)
    ensures Routed(logs, Next(logs, s, step))
  {
    var moved := s.(off := s.off[step.p := s.off[step.p] + 1]);
    var w := WriteOf(logs[step.p][s.off[step.p]], step.admitted);
    if w.Some? && (w.value.tenantId == "" || step.reachable) {
      var a := Source(step.p, s.off[step.p], step.admitted);
      StillRouted(logs, moved, a);
      var docs := IndexOf(s, w.value.tenantId).buffered;
      UpsertCameFrom(logs, s.accepted, a, w.value, docs, step.added);
      BufferRouted(logs, moved.(accepted := s.accepted + [a]), w.value.tenantId,
                   Upserted(docs, w.value, step.added));
    }
  }

  lemma StepKeepsRouted(logs: seq<seq<Record>>, s: System, step: Step)
    requires Routed(logs, s) && CanStep(logs, s, step)
    ensures Routed(logs, Next(logs, s, step))
  {
    if step.Consume? {
      ConsumeKeepsRouted(logs, s, step);
    }
  }

  lemma {:induction false} RunKeepsRouted(logs: seq<seq<Record>>, s: System, steps: seq<Step>)
    requires Routed(logs, s) && Run(logs, s, steps)
    ensures Routed(logs, Final(logs, s, steps))
    decreases |steps|
  {
    if steps != [] {
      StepKeepsRouted(logs, s, steps[0]);
      RunKeepsRouted(logs, Next(logs, s, steps[0]), steps[1..]);
    }
  }

  /**
   In every reachable state, whatever the gate answered and whichever steps
   failed, each document of a tenant's index is a record tagged with exactly that
   tenant, admitted when it was written; untagged records are in the default index only.
   */
  lemma TenantRouting(logs: seq<seq<Record>>, steps: seq<Step>, t: string)
    requires Run(logs, Initial(|logs|), steps)
    ensures var s := Final(logs, Initial(|logs|), steps);
            && CameFrom(logs, s.accepted, t, IndexOf(s, t).buffered)
            && CameFrom(logs, s.accepted, t, IndexOf(s, t).durable)
            && CameFrom(logs, s.accepted, t, IndexOf(s, t).visible)
  {
    RunKeepsRouted(logs, Initial(|logs|), steps);
  }

  // ---------------------------------------------------------------------
  // What is indexed
  // ---------------------------------------------------------------------

  /** The index a record with this tenant header goes into exists by name and the gate lets it through. */
  predicate Routable(t: string, admitted: bool) {
    t == "" || (ValidTenantId(t) && admitted)
  }

  /**
   Reading a record changes one document at most: with an id, a tenant that may
   be routed, a reachable index and a successful add, that id of that tenant now
   has that message; every other document of every index stays.
   */
  lemma ConsumeIndexes(logs: seq<seq<Record>>, s: System, step: Step, t: string, id: string)
    requires step.Consume? && CanStep(logs, s, step)
    ensures var rec, s' := logs[step.p][s.off[step.p]], Next(logs, s, step);
            var written := && rec.Parsed? && rec.recordId == id != "" && rec.tenantId == t
                           && Routable(t, step.admitted) && (t == "" || step.reachable);
            Lookup(IndexOf(s', t).buffered, id)
            == if !written then Lookup(IndexOf(s, t).buffered, id) else if step.added then Some(rec.message) else None
    ensures IndexOf(Next(logs, s, step), t).durable == IndexOf(s, t).durable
    ensures IndexOf(Next(logs, s, step), t).visible == IndexOf(s, t).visible
  {
  }

  /**
   What is on disk and what is searchable: a commit makes an index's documents
   both unless it fails, a failed reload leaves the searchable ones, and a crash
   brings back what is on disk and the offsets of the file, for every tenant.
   */
  lemma CommitsAndCrashes(logs: seq<seq<Record>>, s: System, t: string, other: string, outcome: CommitOutcome)
    requires Shaped(s) && !s.torn
    ensures var i, i' := IndexOf(s, t), IndexOf(Next(logs, s, Commit(t, outcome)), t);
            && i'.buffered == i.buffered
            && i'.durable == (if outcome == CommitFailed then i.durable else i.buffered)
            && i'.visible == (if outcome == Committed then i.buffered else i.visible)
    ensures other != t ==> IndexOf(Next(logs, s, Commit(t, outcome)), other) == IndexOf(s, other)
    ensures var s' := Next(logs, s, Crash);
            && s'.off == s'.stored == s'.file == s.file
            && IndexOf(s', t).buffered == IndexOf(s', t).visible == IndexOf(s', t).durable == IndexOf(s, t).durable
  {
  }

  /** A tenant id is 1 to 63 characters: a small letter, then small letters, digits, dashes and underscores. */
  lemma TenantIdExactly(t: string)
    ensures ValidTenantId(t) <==>
            && 1 <= |t| <= 63 && t[0] in "abcdefghijklmnopqrstuvwxyz"
            && forall i :: 1 <= i < |t| ==>
                 t[i] in "abcdefghijklmnopqrstuvwxyz" || t[i] in "0123456789" || t[i] == '-' || t[i] == '_'
  {
    forall c: char ensures c in "abcdefghijklmnopqrstuvwxyz" <==> 'a' <= c <= 'z' {
      SmallLetters(c);
    }
    forall c: char ensures c in "0123456789" <==> '0' <= c <= '9' {
      Digits(c);
    }
  }

  lemma SmallLetters(c: char)
    ensures c in "abcdefghijklmnopqrstuvwxyz" <==> 'a' <= c <= 'z'
  {
    var letters := "abcdefghijklmnopqrstuvwxyz";
    if 'a' <= c <= 'z' {
      assert letters[c as int - 'a' as int] == c;
    }
  }

  lemma Digits(c: char)
    ensures c in "0123456789" <==> '0' <= c <= '9'
  {
    var digits := "0123456789";
    if '0' <= c <= '9' {
      assert digits[c as int - '0' as int] == c;
    }
  }

  /** Record i is the last of its log for this tenant and id. */
  ghost predicate LastFor(log: seq<Record>, i: nat, t: string, id: string) {
    && i < |log| && log[i].Parsed? && log[i].recordId == id && log[i].tenantId == t
    && forall j :: i < j < |log| && log[j].Parsed? ==> !(log[j].recordId == id && log[j].tenantId == t)
  }

  lemma LastForIsLastWrite(gate: Gate, log: seq<Record>, i: nat, t: string, id: string)
    requires LastFor(log, i, t, id) && id != "" && Routable(t, gate(t))
    ensures SetSomewhere(gate, log, t, id) && LastWrite(gate, log, t, id) == Some(log[i].message)
  {
    assert Sets(gate, log[i], t, id);
    LastWriteUnset(gate, log, i + 1, |log|, t, id);
    LastWriteNext(gate, log, i, t, id);
    assert log[..|log|] == log;
  }

  /** The same id under the same tenant never comes in two partitions. */
  ghost predicate OnePartition(logs: seq<seq<Record>>) {
    forall p, q, i, j :: 0 <= p < |logs| && 0 <= q < |logs| && p != q && 0 <= i < |logs[p]| && 0 <= j < |logs[q]|
                         && logs[p][i].Parsed? && logs[q][j].Parsed? ==>
                         !(logs[p][i].recordId == logs[q][j].recordId && logs[p][i].tenantId == logs[q][j].tenantId)
  }

  lemma OnePartitionIsDisjoint(gate: Gate, logs: seq<seq<Record>>)
    requires OnePartition(logs)
    ensures Disjoint(gate, logs)
  {
    forall p, q, t, id | 0 <= p < |logs| && 0 <= q < |logs| && p != q && SetSomewhere(gate, logs[p], t, id)
      ensures !SetSomewhere(gate, logs[q], t, id)
    {
      var i :| 0 <= i < |logs[p]| && Sets(gate, logs[p][i], t, id);
      assert logs[p][i].Parsed? && logs[p][i].recordId == id && logs[p][i].tenantId == t;
    }
  }

  /**
   Nothing that should be searchable is missing: after a steady run that has read
   every log to its end, whatever its crashes, every record with an id, untagged or
   of a tenant the gate admits, that no later one replaces is in its tenant's index
   with its message.
   */
  lemma EveryRecordIsIndexed(gate: Gate, logs: seq<seq<Record>>, steps: seq<Step>, p: nat, i: nat, t: string,
                             id: string)
    requires OnePartition(logs)
    requires Run(logs, Initial(|logs|), steps) && SteadyRun(gate, logs, Initial(|logs|), steps)
    requires Final(logs, Initial(|logs|), steps).off == seq(|logs|, q requires 0 <= q < |logs| => |logs[q]|)
    requires p < |logs| && LastFor(logs[p], i, t, id) && id != "" && Routable(t, gate(t))
    ensures var docs := IndexOf(Final(logs, Initial(|logs|), steps), t).buffered;
            id in docs && docs[id] == logs[p][i].message
  {
    OnePartitionIsDisjoint(gate, logs);
    InitialInv(gate, logs);
    RunKeepsInv(gate, logs, Initial(|logs|), steps);
    ReadToTheEnd(gate, logs, steps, t);
    var s := Final(logs, Initial(|logs|), steps);
    CaughtUpLookup(gate, logs, s, t, id);
    LastForIsLastWrite(gate, logs[p], i, t, id);
    assert logs[p][..s.off[p]] == logs[p];
  }

  /** Nor is anything there that should not be. */
  lemma OnlyLastRecordsIndexed(gate: Gate, logs: seq<seq<Record>>, steps: seq<Step>, t: string, id: string)
    requires OnePartition(logs)
    requires Run(logs, Initial(|logs|), steps) && SteadyRun(gate, logs, Initial(|logs|), steps)
    requires Final(logs, Initial(|logs|), steps).off == seq(|logs|, q requires 0 <= q < |logs| => |logs[q]|)
    requires id in IndexOf(Final(logs, Initial(|logs|), steps), t).buffered
    ensures id != "" && Routable(t, gate(t)) && exists p, i :: 0 <= p < |logs| && LastFor(logs[p], i, t, id)
  {
    OnePartitionIsDisjoint(gate, logs);
    InitialInv(gate, logs);
    RunKeepsInv(gate, logs, Initial(|logs|), steps);
    ReadToTheEnd(gate, logs, steps, t);
    CaughtUpLookup(gate, logs, Final(logs, Initial(|logs|), steps), t, id);
    var p :| 0 <= p < |logs| && SetSomewhere(gate, logs[p], t, id);
    var k :| 0 <= k < |logs[p]| && Sets(gate, logs[p][k], t, id);
    var i := LastIndex(logs[p], k, t, id);
  }

  /** There is a last record where there is one. */
  lemma {:induction false} LastIndex(log: seq<Record>, k: nat, t: string, id: string) returns (i: nat)
    requires k < |log| && log[k].Parsed? && log[k].recordId == id && log[k].tenantId == t
    ensures LastFor(log, i, t, id)
    decreases |log| - k
  {
    if j :| k < j < |log| && log[j].Parsed? && log[j].recordId == id && log[j].tenantId == t {
      i := LastIndex(log, j, t, id);
    } else {
      i := k;
    }
  }
}
