/**
 The ingest consumer: messages are buffered into batches, a batch is written to
 the log store and then its offsets are committed, a message that does not parse
 is committed at once, and a batch whose write fails is dropped.
 */
module Ingest {
  import opened Prelude

  /** A fetched message; `record` is None when its bytes do not parse. */
  datatype Message = Message(partition: nat, offset: nat, record: Option<string>)

  datatype Batch = Batch(msgs: seq<Message>, written: bool)

  /** The loop's two slices, and the history of what was received, tried and handed to the offset commit. */
  datatype State = State(
    records: seq<string>, pending: seq<Message>, received: seq<Message>, batches: seq<Batch>, passed: seq<Message>)

  /** A tick, a message, or the end of the run; `writeOk` is how a flush it causes ends. */
  datatype Step = Tick(writeOk: bool) | Deliver(m: Message, writeOk: bool) | Stop(writeOk: bool)

  const EMPTY := State([], [], [], [], [])

  function AfterFlush(s: State, writeOk: bool): State {
    if s.records == [] then s
    else
      s.(records := [], pending := [], batches := s.batches + [Batch(s.pending, writeOk)],
         passed := if writeOk then s.passed + s.pending else s.passed)
  }

  function AfterMessage(s: State, max: int, m: Message, writeOk: bool): State {
    if m.record.None? then s.(received := s.received + [m], passed := s.passed + [m])
    else
      var s' := Buffered(s, m);
      if |s'.records| >= max then AfterFlush(s', writeOk) else s'
  }

  function Buffered(s: State, m: Message): State
    requires m.record.Some?
  {
    s.(received := s.received + [m], records := s.records + [m.record.value], pending := s.pending + [m])
  }

  function Next(s: State, max: int, step: Step): State {
    match step
    case Tick(ok) => AfterFlush(s, ok)
    case Deliver(m, ok) => AfterMessage(s, max, m, ok)
    case Stop(ok) => AfterFlush(s, ok)
  }

  function Final(s: State, max: int, steps: seq<Step>): State
    decreases |steps|
  {
    if steps == [] then s else Final(Next(s, max, steps[0]), max, steps[1..])
  }

  // ---------------------------------------------------------------------
  // Conservation
  // ---------------------------------------------------------------------

  function Flatten(batches: seq<Batch>): seq<Message> {
    if batches == [] then [] else Flatten(batches[..|batches| - 1]) + batches[|batches| - 1].msgs
  }

  function Parseable(msgs: seq<Message>): seq<Message> {
    if msgs == [] then []
    else
      var front, last := Parseable(msgs[..|msgs| - 1]), msgs[|msgs| - 1];
      if last.record.Some? then front + [last] else front
  }

  ghost predicate Written(s: State, m: Message) {
    exists i :: 0 <= i < |s.batches| && s.batches[i].written && m in s.batches[i].msgs
  }

  ghost predicate Conserved(s: State, max: int) {
    && Flatten(s.batches) + s.pending == Parseable(s.received)
    && |s.records| == |s.pending| < Max(1, max)
    && (forall i :: 0 <= i < |s.pending| ==> s.pending[i].record == Some(s.records[i]))
    && (forall i :: 0 <= i < |s.batches| ==> 1 <= |s.batches[i].msgs| <= Max(1, max))
    && (forall i :: 0 <= i < |s.passed| ==> s.passed[i].record.None? || Written(s, s.passed[i]))
  }

  lemma WrittenGrows(s: State, b: Batch, m: Message)
    requires Written(s, m)
    ensures Written(s.(batches := s.batches + [b]), m)
  {
    var i :| 0 <= i < |s.batches| && s.batches[i].written && m in s.batches[i].msgs;
    assert (s.batches + [b])[i] == s.batches[i];
  }

  lemma FlushedWritten(s: State, writeOk: bool, m: Message)
    ensures Written(AfterFlush(s, writeOk), m) <==>
            Written(s, m) || (writeOk && s.records != [] && m in s.pending)
  {
    var s' := AfterFlush(s, writeOk);
    if s.records != [] {
      var b := Batch(s.pending, writeOk);
      assert s'.batches == s.batches + [b] && s'.batches[|s.batches|] == b;
      if Written(s, m) {
        WrittenGrows(s, b, m);
      }
      if Written(s', m) && !(writeOk && m in s.pending) {
        var i :| 0 <= i < |s'.batches| && s'.batches[i].written && m in s'.batches[i].msgs;
        assert s.batches[i] == s'.batches[i];
      }
    }
  }

  /** A flush of up to `max` buffered messages; the buffer may be one message over the usual bound. */
  lemma FlushConserves(s: State, max: int, writeOk: bool)
    requires Flatten(s.batches) + s.pending == Parseable(s.received)
    requires |s.records| == |s.pending| <= Max(1, max)
    requires forall i :: 0 <= i < |s.pending| ==> s.pending[i].record == Some(s.records[i])
    requires forall i :: 0 <= i < |s.batches| ==> 1 <= |s.batches[i].msgs| <= Max(1, max)
    requires forall i :: 0 <= i < |s.passed| ==> s.passed[i].record.None? || Written(s, s.passed[i])
    ensures Conserved(AfterFlush(s, writeOk), max)
  {
    var s' := AfterFlush(s, writeOk);
    if s.records != [] {
      assert s'.batches[..|s'.batches| - 1] == s.batches;
      forall i | 0 <= i < |s'.passed| ensures s'.passed[i].record.None? || Written(s', s'.passed[i]) {
        FlushedWritten(s, writeOk, s'.passed[i]);
      }
    }
  }

  lemma DeliverConserves(s: State, max: int, m: Message, writeOk: bool)
    requires Conserved(s, max)
    ensures Conserved(AfterMessage(s, max, m, writeOk), max)
  {
    assert (s.received + [m])[..|s.received|] == s.received;
    if m.record.Some? {
      var s1 := Buffered(s, m);
      assert Parseable(s1.received) == Flatten(s.batches) + s.pending + [m] == Flatten(s1.batches) + s1.pending;
      forall i | 0 <= i < |s1.passed| ensures s1.passed[i].record.None? || Written(s1, s1.passed[i]) {
        assert Written(s, s1.passed[i]) ==> Written(s1, s1.passed[i]);
      }
      FlushConserves(s1, max, writeOk);
    } else {
      var s1 := AfterMessage(s, max, m, writeOk);
      forall i | 0 <= i < |s1.passed| ensures s1.passed[i].record.None? || Written(s1, s1.passed[i]) {
        assert i < |s.passed| ==> s1.passed[i] == s.passed[i];
      }
    }
  }

  lemma StepConserves(s: State, max: int, step: Step)
    requires Conserved(s, max)
    ensures Conserved(Next(s, max, step), max)
  {
    match step
    case Deliver(m, ok) => DeliverConserves(s, max, m, ok);
    case Tick(ok) => FlushConserves(s, max, ok);
    case Stop(ok) => FlushConserves(s, max, ok);
  }

  /**
   Over every run: the tried batches in order, then the buffer, are exactly the
   messages received that parse; every batch has 1 to max(1, BatchMaxSize)
   records; and a message handed to the offset commit is one that does not parse
   or one in a batch that was written.
   */
  lemma {:induction false} RunConserves(s: State, max: int, steps: seq<Step>)
    requires Conserved(s, max)
    ensures Conserved(Final(s, max, steps), max)
    decreases |steps|
  {
    if steps != [] {
      StepConserves(s, max, steps[0]);
      RunConserves(Next(s, max, steps[0]), max, steps[1..]);
    }
  }

  /** Every message that does not parse or was written has been handed to the offset commit. */
  ghost predicate NothingHeldBack(s: State) {
    forall m :: m in s.received && (m.record.None? || Written(s, m)) ==> m in s.passed
  }

  ghost predicate TriedWereReceived(s: State) {
    && (forall m :: m in s.pending ==> m in s.received)
    && forall i, m :: 0 <= i < |s.batches| && m in s.batches[i].msgs ==> m in s.received
  }

  lemma FlushHoldsNothingBack(s: State, writeOk: bool)
    requires NothingHeldBack(s) && TriedWereReceived(s)
    ensures NothingHeldBack(AfterFlush(s, writeOk)) && TriedWereReceived(AfterFlush(s, writeOk))
  {
    var s' := AfterFlush(s, writeOk);
    forall m | m in s'.received && (m.record.None? || Written(s', m)) ensures m in s'.passed {
      FlushedWritten(s, writeOk, m);
    }
  }

  lemma BufferHoldsNothingBack(s: State, m: Message)
    requires NothingHeldBack(s) && TriedWereReceived(s) && m.record.Some? && m !in s.received
    ensures NothingHeldBack(Buffered(s, m)) && TriedWereReceived(Buffered(s, m))
  {
    var s' := Buffered(s, m);
    forall c | c in s'.received && (c.record.None? || Written(s', c)) ensures c in s'.passed {
      assert Written(s', c) ==> Written(s, c);
    }
  }

  lemma StepHoldsNothingBack(s: State, max: int, step: Step)
    requires NothingHeldBack(s) && TriedWereReceived(s) && (step.Deliver? ==> step.m !in s.received)
    ensures NothingHeldBack(Next(s, max, step)) && TriedWereReceived(Next(s, max, step))
  {
    match step
    case Tick(ok) => FlushHoldsNothingBack(s, ok);
    case Stop(ok) => FlushHoldsNothingBack(s, ok);
    case Deliver(m, ok) =>
      if m.record.Some? {
        BufferHoldsNothingBack(s, m);
        FlushHoldsNothingBack(Buffered(s, m), ok);
      } else {
        PoisonHoldsNothingBack(s, m);
      }
  }

  lemma PoisonHoldsNothingBack(s: State, m: Message)
    requires NothingHeldBack(s) && TriedWereReceived(s) && m.record.None?
    ensures var s' := s.(received := s.received + [m], passed := s.passed + [m]);
            NothingHeldBack(s') && TriedWereReceived(s')
  {
    var s' := s.(received := s.received + [m], passed := s.passed + [m]);
    forall c | c in s'.received && (c.record.None? || Written(s', c)) ensures c in s'.passed {
      assert Written(s', c) ==> Written(s, c);
    }
  }

  /** No message twice. */
  ghost predicate AllDifferent(msgs: seq<Message>) {
    forall i, j :: 0 <= i < j < |msgs| ==> msgs[i] != msgs[j]
  }

  ghost predicate CommitsComplete(s: State, max: int) {
    Conserved(s, max) && NothingHeldBack(s) && TriedWereReceived(s) && forall c :: c in s.passed ==> c in s.received
  }

  lemma StepCommitsComplete(s: State, max: int, step: Step)
    requires CommitsComplete(s, max) && (step.Deliver? ==> step.m !in s.received)
    ensures CommitsComplete(Next(s, max, step), max)
  {
    StepConserves(s, max, step);
    StepHoldsNothingBack(s, max, step);
    CommitsReceived(s, max, step);
  }

  lemma CommitsReceived(s: State, max: int, step: Step)
    requires TriedWereReceived(s) && forall c :: c in s.passed ==> c in s.received
    ensures forall c :: c in Next(s, max, step).passed ==> c in Next(s, max, step).received
  {
  }

  lemma CompleteIsExact(s: State, max: int, m: Message)
    requires CommitsComplete(s, max)
    ensures m in s.passed <==> m in s.received && (m.record.None? || Written(s, m))
  {
    if m in s.passed {
      var i :| 0 <= i < |s.passed| && s.passed[i] == m;
    }
  }

  lemma {:induction false} RunCommitsComplete(s: State, max: int, steps: seq<Step>)
    requires CommitsComplete(s, max) && AllDifferent(s.received + Delivered(steps))
    ensures CommitsComplete(Final(s, max, steps), max)
    decreases |steps|
  {
    if steps != [] {
      NextReceives(s, max, steps);
      if steps[0].Deliver? {
        NotYetReceived(s.received, steps[0].m, Delivered(steps[1..]));
      }
      StepCommitsComplete(s, max, steps[0]);
      RunCommitsComplete(Next(s, max, steps[0]), max, steps[1..]);
    }
  }

  lemma NotYetReceived(received: seq<Message>, m: Message, rest: seq<Message>)
    requires AllDifferent(received + ([m] + rest))
    ensures m !in received
  {
    var all := received + ([m] + rest);
    assert all[|received|] == m;
    assert forall i :: 0 <= i < |received| ==> all[i] == received[i];
  }

  /**
   The commits are complete as well: over every run that receives no message twice,
   exactly the received messages that do not parse or were written are committed.
   */
  lemma {:induction false} CommitsExactly(max: int, steps: seq<Step>, m: Message)
    requires AllDifferent(Delivered(steps))
    ensures var s := Final(EMPTY, max, steps);
            m in s.passed <==> m in Delivered(steps) && (m.record.None? || Written(s, m))
  {
    assert EMPTY.received + Delivered(steps) == Delivered(steps);
    RunCommitsComplete(EMPTY, max, steps);
    ReceivedInOrder(EMPTY, max, steps);
    CompleteIsExact(Final(EMPTY, max, steps), max, m);
  }

  /** A batch is tried exactly when a tick or the end finds something buffered or a message fills the buffer. */
  lemma FlushesExactly(s: State, max: int, step: Step)
    ensures var s' := Next(s, max, step);
            var buffer := if step.Deliver? && step.m.record.Some? then s.pending + [step.m] else s.pending;
            var full := if step.Deliver? then step.m.record.Some? && |s.records| + 1 >= max else s.records != [];
            && s'.batches == s.batches + (if full then [Batch(buffer, step.writeOk)] else [])
            && s'.pending == (if full then [] else buffer)
  {
  }

  lemma {:induction false} ReceivedInOrder(s: State, max: int, steps: seq<Step>)
    ensures Final(s, max, steps).received == s.received + Delivered(steps)
    decreases |steps|
  {
    if steps != [] {
      ReceivedInOrder(Next(s, max, steps[0]), max, steps[1..]);
    }
  }

  function Delivered(steps: seq<Step>): seq<Message> {
    if steps == [] then []
    else (if steps[0].Deliver? then [steps[0].m] else []) + Delivered(steps[1..])
  }

  // ---------------------------------------------------------------------
  // The committed watermark
  // ---------------------------------------------------------------------

  /** Within a partition, messages arrive in offset order. */
  predicate InOrder(msgs: seq<Message>) {
    forall i, j :: 0 <= i < j < |msgs| && msgs[i].partition == msgs[j].partition ==> msgs[i].offset < msgs[j].offset
  }

  ghost predicate Unwritten(s: State, m: Message) {
    m in s.received && m.record.Some? && !Written(s, m)
  }

  /** No offset handed to the commit is past a received record that has not been written. */
  ghost predicate Safe(s: State) {
    forall u, c :: Unwritten(s, u) && c in s.passed && c.partition == u.partition ==> c.offset < u.offset
  }

  /** Committing an unparseable message is safe exactly when its partition has no record still to be written. */
  lemma PoisonSafeExactly(s: State, max: int, m: Message, writeOk: bool)
    requires Safe(s) && InOrder(s.received + [m]) && m.record.None?
    ensures Safe(AfterMessage(s, max, m, writeOk)) <==> forall u :: Unwritten(s, u) ==> u.partition != m.partition
  {
    var s' := AfterMessage(s, max, m, writeOk);
    forall u ensures Unwritten(s', u) <==> Unwritten(s, u) {
      assert Written(s', u) == Written(s, u);
    }
    if u :| Unwritten(s, u) && u.partition == m.partition {
      var i :| 0 <= i < |s.received| && s.received[i] == u;
      assert (s.received + [m])[i] == u && (s.received + [m])[|s.received|] == m;
      assert m in s'.passed;
    } else {
      forall u, c | Unwritten(s', u) && c in s'.passed && c.partition == u.partition ensures c.offset < u.offset {
        assert Unwritten(s, u) && c in s.passed;
      }
    }
  }

  /** No buffered offset is past a record of its partition that was dropped with a failed batch. */
  ghost predicate PassesNoDropped(s: State) {
    forall u, c :: Unwritten(s, u) && u !in s.pending && c in s.pending && c.partition == u.partition ==>
                     c.offset < u.offset
  }

  /** A failed flush moves no watermark; a successful one is safe exactly when it passes no dropped record. */
  lemma FlushSafeExactly(s: State, writeOk: bool)
    requires Safe(s) && |s.records| == |s.pending|
    ensures Safe(AfterFlush(s, writeOk)) <==>
            (writeOk ==> PassesNoDropped(s))
  {
    var s' := AfterFlush(s, writeOk);
    forall u ensures Unwritten(s', u) <==> Unwritten(s, u) && !(writeOk && u in s.pending) {
      FlushedWritten(s, writeOk, u);
    }
    if writeOk && s.records != [] {
      assert forall c :: c in s'.passed <==> c in s.passed || c in s.pending;
    }
  }

  /** Writes succeed, and an unparseable message arrives only when nothing of its partition is buffered. */
  ghost predicate Clean(s: State, step: Step) {
    && (step.Deliver? && step.m.record.None? ==> forall u :: u in s.pending ==> u.partition != step.m.partition)
    && step.writeOk
  }

  ghost predicate CleanRun(s: State, max: int, steps: seq<Step>)
    decreases |steps|
  {
    steps == [] || (Clean(s, steps[0]) && CleanRun(Next(s, max, steps[0]), max, steps[1..]))
  }

  ghost predicate AllBuffered(s: State) {
    && |s.records| == |s.pending|
    && forall u :: Unwritten(s, u) ==> u in s.pending
  }

  lemma BufferedUnwritten(s: State, m: Message, u: Message)
    requires m.record.Some? && Unwritten(Buffered(s, m), u)
    ensures u == m || Unwritten(s, u)
  {
    assert Written(s, u) == Written(Buffered(s, m), u);
  }

  /** Buffering a record moves no watermark, and its offset is past every committed one of its partition. */
  lemma BufferedSafe(s: State, m: Message)
    requires Safe(s) && InOrder(s.received + [m]) && m.record.Some?
    requires forall c :: c in s.passed ==> c in s.received
    ensures Safe(Buffered(s, m))
  {
    var all := s.received + [m];
    forall u, c | Unwritten(Buffered(s, m), u) && c in s.passed && c.partition == u.partition
      ensures c.offset < u.offset
    {
      BufferedUnwritten(s, m, u);
      if u == m {
        var i :| 0 <= i < |s.received| && s.received[i] == c;
        assert all[i] == c && all[|s.received|] == m;
      }
    }
  }

  lemma BufferedOneMore(s: State, m: Message)
    requires Safe(s) && AllBuffered(s) && InOrder(s.received + [m]) && m.record.Some?
    requires forall c :: c in s.passed ==> c in s.received
    ensures Safe(Buffered(s, m)) && AllBuffered(Buffered(s, m))
  {
    BufferedSafe(s, m);
    forall u | Unwritten(Buffered(s, m), u) ensures u in s.pending + [m] {
      BufferedUnwritten(s, m, u);
    }
  }

  lemma FlushKeepsClean(s: State)
    requires Safe(s) && AllBuffered(s)
    ensures Safe(AfterFlush(s, true)) && AllBuffered(AfterFlush(s, true))
  {
    FlushSafeExactly(s, true);
    forall u | Unwritten(AfterFlush(s, true), u) ensures s.records == [] && u in s.pending {
      FlushedWritten(s, true, u);
    }
  }

  lemma CleanStep(s: State, max: int, step: Step)
    requires Safe(s) && AllBuffered(s) && Clean(s, step)
    requires step.Deliver? ==> InOrder(s.received + [step.m])
    requires forall c :: c in s.passed + s.pending ==> c in s.received
    ensures var s' := Next(s, max, step);
            Safe(s') && AllBuffered(s') && forall c :: c in s'.passed + s'.pending ==> c in s'.received
  {
    match step
    case Tick(_) => FlushKeepsClean(s);
    case Stop(_) => FlushKeepsClean(s);
    case Deliver(m, _) =>
      if m.record.Some? {
        BufferedOneMore(s, m);
        FlushKeepsClean(Buffered(s, m));
      } else {
        PoisonSafeExactly(s, max, m, true);
        forall u | Unwritten(Next(s, max, step), u) ensures u in s.pending {
          assert Written(Next(s, max, step), u) == Written(s, u);
          assert Unwritten(s, u);
        }
      }
  }

  lemma FrontInOrder(front: seq<Message>, rest: seq<Message>)
    requires InOrder(front + rest)
    ensures InOrder(front)
  {
    assert forall i :: 0 <= i < |front| ==> (front + rest)[i] == front[i];
  }

  lemma {:induction false} NextReceives(s: State, max: int, steps: seq<Step>)
    requires steps != []
    ensures steps[0].Deliver? ==> Next(s, max, steps[0]).received == s.received + [steps[0].m]
    ensures Next(s, max, steps[0]).received + Delivered(steps[1..]) == s.received + Delivered(steps)
  {
  }

  lemma {:induction false} NextInOrder(s: State, max: int, steps: seq<Step>)
    requires steps != [] && InOrder(s.received + Delivered(steps))
    ensures steps[0].Deliver? ==> InOrder(s.received + [steps[0].m])
    ensures InOrder(Next(s, max, steps[0]).received + Delivered(steps[1..]))
  {
    NextReceives(s, max, steps);
    FrontInOrder(Next(s, max, steps[0]).received, Delivered(steps[1..]));
  }

  /** Over a clean run no committed offset ever passes a record that has not been written. */
  lemma {:induction false} WatermarkSafe(s: State, max: int, steps: seq<Step>)
    requires Safe(s) && AllBuffered(s) && CleanRun(s, max, steps) && InOrder(s.received + Delivered(steps))
    requires forall c :: c in s.passed + s.pending ==> c in s.received
    ensures Safe(Final(s, max, steps))
    decreases |steps|
  {
    if steps != [] {
      NextInOrder(s, max, steps);
      CleanStep(s, max, steps[0]);
      WatermarkSafe(Next(s, max, steps[0]), max, steps[1..]);
    }
  }

  /** What a step must meet to keep the watermarks safe, seen before it is taken. */
  ghost predicate StepMeets(s: State, max: int, step: Step) {
    match step
    case Tick(ok) => ok ==> PassesNoDropped(s)
    case Stop(ok) => ok ==> PassesNoDropped(s)
    case Deliver(m, ok) =>
      if m.record.None? then forall u :: Unwritten(s, u) ==> u.partition != m.partition
      else ok && |s.records| + 1 >= max ==> PassesNoDropped(Buffered(s, m))
  }

  /** The slices are in step, and everything in them or committed was received. */
  ghost predicate InStep(s: State) {
    |s.records| == |s.pending| && forall c :: c in s.passed + s.pending ==> c in s.received
  }

  lemma StepSafeExactly(s: State, max: int, step: Step)
    requires Safe(s) && InStep(s) && (step.Deliver? ==> InOrder(s.received + [step.m]))
    ensures InStep(Next(s, max, step))
    ensures Safe(Next(s, max, step)) <==> StepMeets(s, max, step)
  {
    match step
    case Tick(ok) => FlushSafeExactly(s, ok);
    case Stop(ok) => FlushSafeExactly(s, ok);
    case Deliver(m, ok) =>
      if m.record.None? {
        PoisonSafeExactly(s, max, m, ok);
      } else {
        BufferedSafe(s, m);
        FlushSafeExactly(Buffered(s, m), ok);
      }
  }

  /** Every state of the run is safe. */
  ghost predicate AlwaysSafe(s: State, max: int, steps: seq<Step>)
    decreases |steps|
  {
    Safe(s) && (steps == [] || AlwaysSafe(Next(s, max, steps[0]), max, steps[1..]))
  }

  ghost predicate AllMeet(s: State, max: int, steps: seq<Step>)
    decreases |steps|
  {
    steps == [] || (StepMeets(s, max, steps[0]) && AllMeet(Next(s, max, steps[0]), max, steps[1..]))
  }

  lemma {:induction false} RunSafeFrom(s: State, max: int, steps: seq<Step>)
    requires Safe(s) && InStep(s) && InOrder(s.received + Delivered(steps))
    ensures AlwaysSafe(s, max, steps) <==> AllMeet(s, max, steps)
    decreases |steps|
  {
    if steps != [] {
      NextInOrder(s, max, steps);
      StepSafeExactly(s, max, steps[0]);
      if StepMeets(s, max, steps[0]) {
        RunSafeFrom(Next(s, max, steps[0]), max, steps[1..]);
      }
    }
  }

  /**
   Exactly which runs keep every watermark safe from start to end: those in which
   no unparseable message is committed over a record of its partition still to be
   written, and no batch over a dropped one.
   */
  lemma RunSafeExactly(max: int, steps: seq<Step>)
    requires InOrder(Delivered(steps))
    ensures AlwaysSafe(EMPTY, max, steps) <==> AllMeet(EMPTY, max, steps)
  {
    assert EMPTY.received + Delivered(steps) == Delivered(steps);
    RunSafeFrom(EMPTY, max, steps);
  }

  /** A failed write is dropped, and the next batch's commit passes it: it will not be redelivered. */
  lemma {:induction false} DroppedBatchIsPassed(a: string, b: string)
    ensures var m0, m1 := Message(0, 0, Some(a)), Message(0, 1, Some(b));
            !Safe(Final(EMPTY, 1, [Deliver(m0, false), Deliver(m1, true)]))
  {
    var m0, m1 := Message(0, 0, Some(a)), Message(0, 1, Some(b));
    var s1 := Next(EMPTY, 1, Deliver(m0, false));
    OneByOne(EMPTY, m0, false);
    OneByOne(s1, m1, true);
    var s2 := Next(s1, 1, Deliver(m1, true));
    assert Final(s1, 1, [Deliver(m1, true)]) == Final(s2, 1, []) == s2;
    assert [Deliver(m0, false), Deliver(m1, true)][1..] == [Deliver(m1, true)];
    assert s2.batches == [Batch([m0], false), Batch([m1], true)];
    assert Unwritten(s2, m0) && m1 in s2.passed;
  }

  /** With batches of one, a message that parses is tried at once. */
  lemma OneByOne(s: State, m: Message, ok: bool)
    requires s.records == [] && s.pending == [] && m.record.Some?
    ensures Next(s, 1, Deliver(m, ok))
            == State([], [], s.received + [m], s.batches + [Batch([m], ok)], if ok then s.passed + [m] else s.passed)
  {
    assert s.pending + [m] == [m];
  }

  // ---------------------------------------------------------------------
  // The consumer
  // ---------------------------------------------------------------------

  class Consumer {
    const batchMaxSize: int
    var records: seq<string>
    var pending: seq<Message>
    ghost var received: seq<Message>
    ghost var batches: seq<Batch>
    ghost var passed: seq<Message>

    ghost function Now(): State
      reads this
    {
      State(records, pending, received, batches, passed)
    }

    constructor (batchMaxSize: int)
      ensures this.batchMaxSize == batchMaxSize && Now() == EMPTY
    {
      this.batchMaxSize := batchMaxSize;
      records, pending, received, batches, passed := [], [], [], [], [];
    }

    method Flush(writeOk: bool)
      modifies this
      ensures Now() == AfterFlush(old(Now()), writeOk)
    {
      if |records| == 0 {
        return;
      }
      batches := batches + [Batch(pending, writeOk)];
      if writeOk {
        passed := passed + pending;
      }
      records := [];
      pending := [];
    }

    method Handle(m: Message, writeOk: bool)
      modifies this
      ensures Now() == AfterMessage(old(Now()), batchMaxSize, m, writeOk)
    {
      received := received + [m];
      if m.record.None? {
        passed := passed + [m];
        return;
      }
      records := records + [m.record.value];
      pending := pending + [m];
      if |records| >= batchMaxSize {
        Flush(writeOk);
      }
    }

    /** The select loop over the events of one run, up to and including the one that ends it. */
    method Loop(steps: seq<Step>)
      requires steps != [] && forall i :: 0 <= i < |steps| ==> (steps[i].Stop? <==> i == |steps| - 1)
      modifies this
      ensures Now() == Final(old(Now()), batchMaxSize, steps) && records == []
    {
      var i := 0;
      while true
        invariant 0 <= i < |steps|
        invariant Final(Now(), batchMaxSize, steps[i..]) == Final(old(Now()), batchMaxSize, steps)
        decreases |steps| - i
      {
        match steps[i] {
          case Stop(ok) =>
            Flush(ok);
            assert steps[i..] == [steps[i]];
            return;
          case Tick(ok) => Flush(ok);
          case Deliver(m, ok) => Handle(m, ok);
        }
        i := i + 1;
      }
    }
  }
}
