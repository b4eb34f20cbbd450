/**
 The delivery worker: claims due delivery_log rows, posts each one, and marks
 it sent, failed, or due again after an exponential backoff.
 */
module Delivery {
  import opened Prelude
  import opened GoTime
  import opened RuleStore

  const CLAIM_LIMIT := 50

  function Pow2(k: nat): nat {
    if k == 0 then 1 else 2 * Pow2(k - 1)
  }

  /** time.Duration(1<<uint(k)): an int64 shift, so bit 63 is the sign and larger shifts give zero. */
  function ShiftOne(k: nat): Duration {
    if k < 63 then Pow2(k) else if k == 63 then -TWO_63 else 0
  }

  function Backoff(k: nat): Duration {
    var b := Wrap(ShiftOne(k) * SECOND);
    if b > HOUR then HOUR else b
  }

  /** What retry number k is documented to wait: 2^k seconds, capped at one hour. */
  function DocumentedBackoff(k: nat): Duration {
    Min(Pow2(k) * SECOND, HOUR)
  }

  // ---- One attempt ----------------------------------------------------

  /** How a claimed delivery goes: any failure before a response has no status code. */
  datatype Wire = NoTarget | UrlRejected | RequestInvalid | NetworkError(message: string) | Response(code: int)

  predicate Accepted(w: Wire) {
    w.Response? && 200 <= w.code < 300
  }

  function StatusCode(w: Wire): Option<int> {
    if w.Response? && w.code != 0 then Some(w.code) else None
  }

  /** The row after the attempt's status write, given the snapshot `c` the worker claimed. */
  function AfterAttempt(row: DeliveryRow, c: DeliveryRow, w: Wire, message: string, now: Instant): DeliveryRow {
    if Accepted(w) then
      row.(status := Sent, attemptCount := row.attemptCount + 1, responseStatus := Some(w.code))
    else if c.attemptCount + 1 >= c.maxAttempts then
      row.(status := Failed, attemptCount := row.attemptCount + 1, responseStatus := StatusCode(w),
           lastError := Some(message))
    else
      row.(status := Retrying, attemptCount := row.attemptCount + 1, responseStatus := StatusCode(w),
           lastError := Some(message), nextAttemptAt := Some(now + Backoff(c.attemptCount + 1)))
  }

  predicate Open(row: DeliveryRow) {
    row.status == AwaitingSend || row.status == Retrying
  }

  predicate Due(row: DeliveryRow, now: Instant) {
    Open(row) && (row.nextAttemptAt.None? || row.nextAttemptAt.value <= now)
  }

  /** Attempts a row may still use up. */
  function Budget(row: DeliveryRow): nat {
    if Open(row) then Max(1, row.maxAttempts - row.attemptCount) else 0
  }

  lemma Pow2Table()
    ensures Pow2(12) == 4096
    ensures Pow2(33) == 0x2_0000_0000
  {
    assert Pow2(6) == 64;
    assert Pow2(12) == 4096;
    assert Pow2(18) == 0x4_0000;
    assert Pow2(24) == 0x100_0000;
    assert Pow2(30) == 0x4000_0000;
    assert Pow2(33) == 0x2_0000_0000;
  }

  lemma {:induction false} Pow2Grows(a: nat, b: nat)
    requires a <= b
    ensures Pow2(a) <= Pow2(b)
  {
    if a < b {
      Pow2Grows(a, b - 1);
    }
  }

  /** The retry numbers above 33 whose wrapped product happens to land above the one-hour cap. */
  const LUCKY_RETRIES: set<nat> := {37, 41, 42, 45, 47, 50, 51, 53}

  /** Up to retry 33 the nanosecond product fits int64, so the wait is the documented one. */
  lemma BackoffExactTo33(k: nat)
    requires k <= 33
    ensures FitsInt64(ShiftOne(k) * SECOND)
    ensures Backoff(k) == DocumentedBackoff(k)
  {
    Pow2Table();
    Pow2Grows(k, 33);
  }

  /** The int64 the product 2^k * time.Second is stored as, for k = 34 .. 62. */
  const WRAPPED: seq<Duration> := [
    -1266874889709551616, -2533749779419103232, -5067499558838206464, 8311744956033138688,
    -1823254161643274240, -3646508323286548480, -7293016646573096960, 3860710780563357696,
    7721421561126715392, -3003900951456120832, -6007801902912241664, 6431140267885068288,
    -5584463537939415040, 7277816997830721536, -3891110078048108544, -7782220156096217088,
    2882303761517117440, 5764607523034234880, -6917529027641081856, 4611686018427387904,
    -9223372036854775808, 0, 0, 0,
    0, 0, 0, 0,
    0]

  lemma WrapDouble(n: int)
    ensures Wrap(2 * n) == Wrap(2 * Wrap(n))
  {
    var q := (n + TWO_63) / TWO_64;
    var d, r := (2 * n + TWO_63) / TWO_64, (2 * n + TWO_63) % TWO_64;
    assert 2 * Wrap(n) + TWO_63 == (d - 2 * q) * TWO_64 + r;
  }

  lemma WrappedDoubles(i: nat)
    requires i + 1 < |WRAPPED|
    ensures WRAPPED[i + 1] == Wrap(2 * WRAPPED[i])
  {
  }

  lemma {:induction false} WrappedProducts(k: nat)
    requires 34 <= k <= 62
    ensures Wrap(ShiftOne(k) * SECOND) == WRAPPED[k - 34]
  {
    if k == 34 {
      Pow2Table();
    } else {
      WrappedProducts(k - 1);
      WrappedDoubles(k - 35);
      WrapDouble(ShiftOne(k - 1) * SECOND);
    }
  }

  /** Exactly which retries wait as documented; the others are due again at once, or in the past. */
  lemma BackoffExactly(k: nat)
    ensures Backoff(k) == DocumentedBackoff(k) <==> k <= 33 || k in LUCKY_RETRIES
  {
    if k <= 33 {
      BackoffExactTo33(k);
    } else {
      HourFrom12(k);
      if k <= 62 {
        WrappedProducts(k);
        WrappedOverAnHour(k - 34);
      }
    }
  }

  lemma HourFrom12(k: nat)
    requires 12 <= k
    ensures DocumentedBackoff(k) == HOUR
  {
    Pow2Table();
    Pow2Grows(12, k);
  }

  lemma WrappedOverAnHour(i: nat)
    requires i < |WRAPPED|
    ensures WRAPPED[i] > HOUR <==> i + 34 in LUCKY_RETRIES
    ensures WRAPPED[i] != HOUR
  {
  }

  /** Waits do not shrink from one retry to the next while they are exact. */
  lemma BackoffNondecreasing(j: nat, k: nat)
    requires j <= k <= 33
    ensures SECOND <= Backoff(j) <= Backoff(k)
  {
    BackoffExactTo33(j);
    BackoffExactTo33(k);
    Pow2Grows(j, k);
    Pow2Grows(0, j);
  }

  // ---------------------------------------------------------------------
  // The worker as a state machine over delivery_log
  // ---------------------------------------------------------------------

  type Log = map<nat, DeliveryRow>

  /** `queue` holds the rows claimed by the current tick and not yet attempted. */
  datatype WorkerState = WorkerState(log: Log, queue: seq<DeliveryRow>)

  /** `Cascade` removes the rows of a deleted rule, also ones already claimed; `Abandon` is the worker being killed. */
  datatype WorkerStep =
    | Enqueue(row: DeliveryRow)
    | Cascade(gone: set<nat>)
    | ClaimBatch(now: Instant, picked: seq<nat>)
    | Attempt(wire: Wire, message: string, now: Instant, written: bool)
    | Abandon

  function DueIds(log: Log, now: Instant): set<nat> {
    set id | id in log && Due(log[id], now)
  }

  /** The answers the claim query may give: ORDER BY created_at LIMIT 50. */
  ghost predicate DeliveryClaim(log: Log, now: Instant, picked: seq<nat>) {
    && (forall i :: 0 <= i < |picked| ==> picked[i] in DueIds(log, now))
    && (forall i, j :: 0 <= i < j < |picked| ==> picked[i] != picked[j])
    && |picked| <= CLAIM_LIMIT
    && (|picked| < CLAIM_LIMIT ==> forall id :: id in DueIds(log, now) ==> id in picked)
    && forall i, o :: 0 <= i < |picked| && o in DueIds(log, now) && o !in picked ==>
                        log[picked[i]].createdAt <= log[o].createdAt
  }

  function MarkClaimed(log: Log, picked: seq<nat>, now: Instant): Log {
    map id | id in log :: if id in picked then log[id].(lastAttemptAt := Some(now)) else log[id]
  }

  function Snapshot(log: Log, picked: seq<nat>): seq<DeliveryRow>
    requires forall i :: 0 <= i < |picked| ==> picked[i] in log
  {
    seq(|picked|, i requires 0 <= i < |picked| => log[picked[i]])
  }

  function Attempted(log: Log, c: DeliveryRow, w: Wire, message: string, now: Instant, written: bool): Log {
    if written && c.id in log then log[c.id := AfterAttempt(log[c.id], c, w, message, now)] else log
  }

  predicate Queued(s: WorkerState, id: nat) {
    exists i :: 0 <= i < |s.queue| && s.queue[i].id == id
  }

  ghost predicate CanStep(s: WorkerState, st: WorkerStep) {
    match st
    case Enqueue(row) => row.id !in s.log && !Queued(s, row.id) && row.status == AwaitingSend && row.attemptCount == 0
    case Cascade(_) => true
    case ClaimBatch(now, picked) => s.queue == [] && DeliveryClaim(s.log, now, picked)
    case Attempt(_, _, _, _) => s.queue != []
    case Abandon => true
  }

  function Step(s: WorkerState, st: WorkerStep): WorkerState
    requires CanStep(s, st)
  {
    match st
    case Enqueue(row) => s.(log := s.log[row.id := row])
    case Cascade(gone) => s.(log := s.log - gone)
    case ClaimBatch(now, picked) =>
      var log := MarkClaimed(s.log, picked, now);
      WorkerState(log, Snapshot(log, picked))
    case Attempt(w, message, now, written) =>
      WorkerState(Attempted(s.log, s.queue[0], w, message, now, written), s.queue[1..])
    case Abandon => s.(queue := [])
  }

  predicate ValidRow(row: DeliveryRow) {
    Open(row) ==> row.attemptCount == 0 || row.attemptCount < row.maxAttempts
  }

  /** One worker: every queued snapshot is still the row it was taken from, unless that row is gone. */
  ghost predicate Valid(s: WorkerState) {
    && (forall id :: id in s.log ==> s.log[id].id == id && ValidRow(s.log[id]))
    && (forall i :: 0 <= i < |s.queue| ==>
          Open(s.queue[i]) && (s.queue[i].id in s.log ==> s.log[s.queue[i].id] == s.queue[i]))
    && forall i, j :: 0 <= i < j < |s.queue| ==> s.queue[i].id != s.queue[j].id
  }

  ghost predicate Run(s: WorkerState, run: seq<WorkerStep>)
    decreases |run|
  {
    run != [] ==> CanStep(s, run[0]) && Run(Step(s, run[0]), run[1..])
  }

  ghost function Final(s: WorkerState, run: seq<WorkerStep>): WorkerState
    requires Run(s, run)
    decreases |run|
  {
    if run == [] then s else Final(Step(s, run[0]), run[1..])
  }

  /** Row ids come from a sequence: one is never given out again. */
  ghost predicate NeverReused(run: seq<WorkerStep>, id: nat) {
    forall i :: 0 <= i < |run| && run[i].Enqueue? ==> run[i].row.id != id
  }

  predicate Tries(s: WorkerState, st: WorkerStep, id: nat) {
    st.Attempt? && s.queue != [] && s.queue[0].id == id
  }

  ghost function AttemptsOn(s: WorkerState, run: seq<WorkerStep>, id: nat): nat
    requires Run(s, run)
    decreases |run|
  {
    if run == [] then 0
    else (if Tries(s, run[0], id) then 1 else 0) + AttemptsOn(Step(s, run[0]), run[1..], id)
  }

  /** Posts whose status write failed, or was cut off by a kill: the log does not know of them. */
  ghost function LostOn(s: WorkerState, run: seq<WorkerStep>, id: nat): nat
    requires Run(s, run)
    decreases |run|
  {
    if run == [] then 0
    else (if Tries(s, run[0], id) && !run[0].written then 1 else 0) + LostOn(Step(s, run[0]), run[1..], id)
  }

  /** The answer one step writes down for a row, if any. */
  function AnswerOf(s: WorkerState, st: WorkerStep, id: nat): (answers: seq<Wire>)
    ensures |answers| <= 1
  {
    if Tries(s, st, id) && st.written then [st.wire] else []
  }

  /** How the attempts went that were written down, in order. */
  ghost function AnswersOn(s: WorkerState, run: seq<WorkerStep>, id: nat): seq<Wire>
    requires Run(s, run)
    decreases |run|
  {
    if run == [] then []
    else AnswerOf(s, run[0], id) + AnswersOn(Step(s, run[0]), run[1..], id)
  }

  ghost predicate SomeSuccess(answers: seq<Wire>) {
    exists i :: 0 <= i < |answers| && answers[i].Response? && 200 <= answers[i].code <= 299
  }

  /** The code of the last answer, if there was a response; `before` without any answer. */
  function LastCode(answers: seq<Wire>, before: Option<int>): Option<int> {
    if answers == [] then before
    else
      var last := answers[|answers| - 1];
      if last.Response? && last.code != 0 then Some(last.code) else None
  }

  lemma SomeSuccessSplits(first: Wire, rest: seq<Wire>)
    ensures SomeSuccess([first] + rest) <==> (first.Response? && 200 <= first.code <= 299) || SomeSuccess(rest)
  {
    var all := [first] + rest;
    if SomeSuccess(rest) {
      var i :| 0 <= i < |rest| && rest[i].Response? && 200 <= rest[i].code <= 299;
      assert all[i + 1] == rest[i];
    }
    if first.Response? && 200 <= first.code <= 299 {
      assert all[0] == first;
    }
  }

  /** Every attempt is an answer written down or one that was lost. */
  lemma {:induction false} AttemptsAreAnswers(s: WorkerState, run: seq<WorkerStep>, id: nat)
    requires Run(s, run)
    ensures AttemptsOn(s, run, id) == |AnswersOn(s, run, id)| + LostOn(s, run, id)
    decreases |run|
  {
    if run != [] {
      AttemptsAreAnswers(Step(s, run[0]), run[1..], id);
    }
  }

  lemma StepKeepsValid(s: WorkerState, st: WorkerStep)
    requires Valid(s) && CanStep(s, st)
    ensures Valid(Step(s, st))
  {
    if st.Enqueue? {
      assert forall i :: 0 <= i < |s.queue| ==> s.queue[i].id != st.row.id;
    }
  }

  /** Attempts a row may still use up; a removed row that was claimed before still gets its one attempt. */
  function BudgetOf(s: WorkerState, id: nat): nat {
    if id in s.log then Budget(s.log[id]) else if Queued(s, id) then 1 else 0
  }

  lemma StillQueued(s: WorkerState, st: WorkerStep, id: nat)
    requires Valid(s) && CanStep(s, st)
    ensures !st.ClaimBatch? && !st.Abandon? ==> (Queued(Step(s, st), id) <==> Queued(s, id) && !Tries(s, st, id))
    ensures st.Abandon? ==> !Queued(Step(s, st), id)
    ensures st.ClaimBatch? ==> !Queued(s, id) && (Queued(Step(s, st), id) <==> id in st.picked)
  {
    var s' := Step(s, st);
    match st
    case Attempt(_, _, _, _) =>
      assert forall i :: 0 <= i < |s'.queue| ==> s'.queue[i] == s.queue[i + 1];
      if Queued(s, id) && s.queue[0].id != id {
        var i :| 0 <= i < |s.queue| && s.queue[i].id == id;
        assert s'.queue[i - 1].id == id;
      }
    case ClaimBatch(_, picked) =>
      assert forall i :: 0 <= i < |picked| ==> s'.queue[i].id == picked[i];
    case _ =>
  }

  lemma StepSpendsBudget(s: WorkerState, st: WorkerStep, id: nat)
    requires Valid(s) && CanStep(s, st) && !(st.Enqueue? && st.row.id == id)
    ensures BudgetOf(Step(s, st), id) + (if Tries(s, st, id) && st.written then 1 else 0) <= BudgetOf(s, id)
    ensures id in s.log && !Open(s.log[id]) && id in Step(s, st).log ==> Step(s, st).log[id] == s.log[id]
    ensures id !in s.log ==> id !in Step(s, st).log
  {
    StillQueued(s, st, id);
  }

  lemma SpentNotTried(s: WorkerState, st: WorkerStep, id: nat)
    requires Valid(s) && CanStep(s, st) && BudgetOf(s, id) == 0
    ensures !Tries(s, st, id)
  {
    if Tries(s, st, id) {
      assert Queued(s, id);
    }
  }

  lemma Rest(run: seq<WorkerStep>, id: nat)
    requires run != [] && NeverReused(run, id)
    ensures NeverReused(run[1..], id) && !(run[0].Enqueue? && run[0].row.id == id)
  {
  }

  /**
   Over any run of one worker, attempts on a row are paid for by its budget, up to
   those whose status write was lost: so an open row closes (or is gone with its
   rule) within max(1, max_attempts) recorded attempts; a closed row keeps its
   contents and is never tried.
   */
  lemma {:induction false} DeliveryTerminates(s: WorkerState, run: seq<WorkerStep>, id: nat)
    requires Valid(s) && Run(s, run) && NeverReused(run, id)
    ensures AttemptsOn(s, run, id) + BudgetOf(Final(s, run), id) <= BudgetOf(s, id) + LostOn(s, run, id)
    ensures id in Final(s, run).log && AttemptsOn(s, run, id) >= BudgetOf(s, id) + LostOn(s, run, id) ==>
              !Open(Final(s, run).log[id])
    ensures BudgetOf(s, id) == 0 ==> AttemptsOn(s, run, id) == 0
    ensures id in s.log && !Open(s.log[id]) ==>
              AttemptsOn(s, run, id) == 0 && (id in Final(s, run).log ==> Final(s, run).log[id] == s.log[id])
    ensures id !in s.log ==> id !in Final(s, run).log
    decreases |run|
  {
    if run != [] {
      Rest(run, id);
      StepKeepsValid(s, run[0]);
      StepSpendsBudget(s, run[0], id);
      if BudgetOf(s, id) == 0 {
        SpentNotTried(s, run[0], id);
      }
      DeliveryTerminates(Step(s, run[0]), run[1..], id);
    }
  }

  /** What at most one answer makes of an open row. */
  predicate Answered(row: DeliveryRow, row': DeliveryRow, answers: seq<Wire>) {
    && |answers| <= 1
    && row'.maxAttempts == row.maxAttempts
    && row'.attemptCount == row.attemptCount + |answers|
    && row'.responseStatus == LastCode(answers, row.responseStatus)
    && row'.status == (if answers == [] then row.status
                       else if answers[0].Response? && 200 <= answers[0].code <= 299 then Sent
                       else if row.attemptCount + 1 >= row.maxAttempts then Failed
                       else Retrying)
  }

  lemma StepOutcome(s: WorkerState, st: WorkerStep, id: nat)
    requires Valid(s) && CanStep(s, st) && id in s.log && id in Step(s, st).log
    ensures Answered(s.log[id], Step(s, st).log[id], AnswerOf(s, st, id))
  {
  }

  /** What any number of answers makes of an open row. */
  ghost predicate EndsAs(row: DeliveryRow, end: DeliveryRow, answers: seq<Wire>) {
    && end.attemptCount == row.attemptCount + |answers|
    && (end.status == Sent <==> SomeSuccess(answers))
    && (end.status == Failed <==> !SomeSuccess(answers) && |answers| == Budget(row))
    && end.responseStatus == LastCode(answers, row.responseStatus)
  }

  lemma OneMoreAnswer(row: DeliveryRow, row': DeliveryRow, end: DeliveryRow, answers: seq<Wire>, rest: seq<Wire>)
    requires Open(row) && ValidRow(row) && Answered(row, row', answers)
    requires if Open(row') then EndsAs(row', end, rest) else end == row' && rest == []
    ensures EndsAs(row, end, answers + rest)
  {
    if answers == [] {
      assert answers + rest == rest;
    } else {
      assert answers == [answers[0]];
      SomeSuccessSplits(answers[0], rest);
    }
  }

  /**
   How an open row that is still there ends: sent exactly when an attempt answered
   with a code from 200 to 299 was written down, failed exactly when its whole budget
   was written down without one, with every written attempt counted and the code of
   the last response kept.
   */
  lemma {:induction false} DeliveryOutcome(s: WorkerState, run: seq<WorkerStep>, id: nat)
    requires Valid(s) && Run(s, run) && NeverReused(run, id)
    requires id in s.log && Open(s.log[id]) && id in Final(s, run).log
    ensures EndsAs(s.log[id], Final(s, run).log[id], AnswersOn(s, run, id))
    decreases |run|
  {
    if run != [] {
      var s' := Step(s, run[0]);
      Rest(run, id);
      StepKeepsValid(s, run[0]);
      DeliveryTerminates(s', run[1..], id);
      StepOutcome(s, run[0], id);
      if Open(s'.log[id]) {
        DeliveryOutcome(s', run[1..], id);
      } else {
        ClosedStays(s', run[1..], id);
      }
      OneMoreAnswer(s.log[id], s'.log[id], Final(s, run).log[id], AnswerOf(s, run[0], id), AnswersOn(s', run[1..], id));
    }
  }

  lemma {:induction false} ClosedStays(s: WorkerState, run: seq<WorkerStep>, id: nat)
    requires Valid(s) && Run(s, run) && NeverReused(run, id)
    requires id in s.log && !Open(s.log[id]) && id in Final(s, run).log
    ensures Final(s, run).log[id] == s.log[id]
    ensures AttemptsOn(s, run, id) == LostOn(s, run, id) == 0 && AnswersOn(s, run, id) == []
    decreases |run|
  {
    if run != [] {
      Rest(run, id);
      StepKeepsValid(s, run[0]);
      StepSpendsBudget(s, run[0], id);
      SpentNotTried(s, run[0], id);
      DeliveryTerminates(Step(s, run[0]), run[1..], id);
      ClosedStays(Step(s, run[0]), run[1..], id);
    }
  }

  /**
   From insertion on: a new row is posted at most max(1, max_attempts) times, and
   once more for each status write that is lost. While it is there the attempts
   written down are counted, it is sent exactly when one of them was answered with a
   code from 200 to 299, and failed exactly when all of them were used up without one.
   */
  lemma InsertedRowEnds(s: WorkerState, run: seq<WorkerStep>, id: nat)
    requires Valid(s) && Run(s, run) && NeverReused(run, id)
    requires id in s.log && s.log[id].status == AwaitingSend && s.log[id].attemptCount == 0
    ensures AttemptsOn(s, run, id) == |AnswersOn(s, run, id)| + LostOn(s, run, id)
    ensures |AnswersOn(s, run, id)| <= Max(1, s.log[id].maxAttempts)
    ensures id in Final(s, run).log ==>
              var row, answers := Final(s, run).log[id], AnswersOn(s, run, id);
              && row.attemptCount == |answers|
              && (row.status == Sent <==>
                  exists i :: 0 <= i < |answers| && answers[i].Response? && 200 <= answers[i].code <= 299)
              && (row.status == Failed <==>
                  && |answers| == Max(1, s.log[id].maxAttempts)
                  && forall i :: 0 <= i < |answers| && answers[i].Response? ==> !(200 <= answers[i].code <= 299))
              && row.responseStatus == LastCode(answers, s.log[id].responseStatus)
  {
    assert Budget(s.log[id]) == Max(1, s.log[id].maxAttempts);
    DeliveryTerminates(s, run, id);
    AttemptsAreAnswers(s, run, id);
    if id in Final(s, run).log {
      DeliveryOutcome(s, run, id);
    }
  }

  // ---- Waiting --------------------------------------------------------

  /** The row is not in the worker's hands and next due at `t`, if it is still there. */
  predicate WaitsUntil(s: WorkerState, id: nat, t: Instant) {
    (id in s.log ==> s.log[id].nextAttemptAt == Some(t)) && !Queued(s, id)
  }

  ghost predicate NotPicked(run: seq<WorkerStep>, id: nat, j: nat) {
    forall i :: 0 <= i < j && i < |run| && run[i].ClaimBatch? ==> id !in run[i].picked
  }

  ghost predicate PicksAt(run: seq<WorkerStep>, id: nat, j: nat) {
    j < |run| && run[j].ClaimBatch? && id in run[j].picked
  }

  lemma LaterSteps(run: seq<WorkerStep>, id: nat, j: nat)
    requires j > 0 && NotPicked(run, id, j) && PicksAt(run, id, j)
    ensures NotPicked(run[1..], id, j - 1) && PicksAt(run[1..], id, j - 1) && run[1..][j - 1] == run[j]
  {
  }

  /** A row waiting for a retry is not claimed before its next_attempt_at. */
  lemma {:induction false} NotRetriedEarly(s: WorkerState, run: seq<WorkerStep>, id: nat, t: Instant, j: nat)
    requires Valid(s) && Run(s, run) && NeverReused(run, id)
    requires WaitsUntil(s, id, t) && NotPicked(run, id, j) && PicksAt(run, id, j)
    ensures run[j].now >= t
    decreases |run|
  {
    if j > 0 {
      Rest(run, id);
      LaterSteps(run, id, j);
      StepKeepsValid(s, run[0]);
      StillQueued(s, run[0], id);
      NotRetriedEarly(Step(s, run[0]), run[1..], id, t, j - 1);
    }
  }

  lemma FailedAttemptWaits(s: WorkerState, st: WorkerStep)
    requires Valid(s) && CanStep(s, st) && st.Attempt? && st.written && !Accepted(st.wire)
    requires s.queue[0].attemptCount + 1 < s.queue[0].maxAttempts && s.queue[0].attemptCount + 1 <= 33
    ensures WaitsUntil(Step(s, st), s.queue[0].id, st.now + DocumentedBackoff(s.queue[0].attemptCount + 1))
  {
    BackoffExactTo33(s.queue[0].attemptCount + 1);
    StillQueued(s, st, s.queue[0].id);
  }

  /** A claim stamps the rows it takes and no others, and changes nothing else. */
  lemma ClaimStamps(s: WorkerState, st: WorkerStep, id: nat)
    requires CanStep(s, st) && st.ClaimBatch? && id in s.log
    ensures var log' := Step(s, st).log;
            id in log' && log'[id] == if id in st.picked then s.log[id].(lastAttemptAt := Some(st.now)) else s.log[id]
  {
  }

  /** A failed attempt that was written down says why. */
  lemma FailureIsExplained(s: WorkerState, st: WorkerStep)
    requires Valid(s) && CanStep(s, st) && st.Attempt? && st.written && s.queue[0].id in s.log
    ensures var row, row' := s.log[s.queue[0].id], Step(s, st).log[s.queue[0].id];
            row'.lastError == (if st.wire.Response? && 200 <= st.wire.code <= 299 then row.lastError
                               else Some(st.message))
  {
  }

  /** After a failed attempt that leaves some, the row is due again exactly once its documented wait is over. */
  lemma RetryIsDue(s: WorkerState, st: WorkerStep, now: Instant)
    requires Valid(s) && CanStep(s, st) && st.Attempt? && st.written
    requires !(st.wire.Response? && 200 <= st.wire.code <= 299) && s.queue[0].id in s.log
    requires s.queue[0].attemptCount + 1 < s.queue[0].maxAttempts && s.queue[0].attemptCount + 1 <= 33
    ensures s.queue[0].id in DueIds(Step(s, st).log, now) <==>
            now >= st.now + Min(Pow2(s.queue[0].attemptCount + 1) * SECOND, HOUR)
  {
    BackoffExactTo33(s.queue[0].attemptCount + 1);
  }

  lemma NotBefore(s: WorkerState, run: seq<WorkerStep>, id: nat, t: Instant, j: nat)
    requires Valid(s) && Run(s, run) && NeverReused(run, id) && j > 0
    requires run != [] && WaitsUntil(Step(s, run[0]), id, t) && NotPicked(run, id, j) && PicksAt(run, id, j)
    ensures run[j].now >= t
  {
    Rest(run, id);
    LaterSteps(run, id, j);
    StepKeepsValid(s, run[0]);
    NotRetriedEarly(Step(s, run[0]), run[1..], id, t, j - 1);
  }

  /** Retry k is claimed no sooner than the documented wait after attempt k failed. */
  lemma RetryWaits(s: WorkerState, run: seq<WorkerStep>, j: nat)
    requires Valid(s) && Run(s, run) && run != []
    requires run[0].Attempt? && run[0].written && !Accepted(run[0].wire) && NeverReused(run, s.queue[0].id)
    requires s.queue[0].attemptCount + 1 < s.queue[0].maxAttempts && s.queue[0].attemptCount + 1 <= 33
    requires j > 0 && NotPicked(run, s.queue[0].id, j) && PicksAt(run, s.queue[0].id, j)
    ensures run[j].now - run[0].now >= DocumentedBackoff(s.queue[0].attemptCount + 1)
  {
    Rest(run, s.queue[0].id);
    FailedAttemptWaits(s, run[0]);
    NotBefore(s, run, s.queue[0].id, run[0].now + DocumentedBackoff(s.queue[0].attemptCount + 1), j);
  }

  // ---- No row waits forever -------------------------------------------

  /** What a row can still cost a later one: its budget, less the attempt it is already queued for. */
  function Slack(s: WorkerState, id: nat): int {
    BudgetOf(s, id) - (if Queued(s, id) then 1 else 0)
  }

  function TotalSlack(s: WorkerState, ids: seq<nat>): int {
    if ids == [] then 0 else Slack(s, ids[0]) + TotalSlack(s, ids[1..])
  }

  function CountIn(ids: seq<nat>, picked: seq<nat>): nat {
    if ids == [] then 0 else (if ids[0] in picked then 1 else 0) + CountIn(ids[1..], picked)
  }

  predicate NoRepeats(ids: seq<nat>) {
    forall i, j :: 0 <= i < j < |ids| ==> ids[i] != ids[j]
  }

  lemma SlackIsNat(s: WorkerState, id: nat)
    requires Valid(s)
    ensures Slack(s, id) >= 0
  {
    if Queued(s, id) {
      var i :| 0 <= i < |s.queue| && s.queue[i].id == id;
    }
  }

  /** No step gives slack back, and a claim takes one from every row it picks. */
  lemma StepTakesSlack(s: WorkerState, st: WorkerStep, id: nat)
    requires Valid(s) && CanStep(s, st) && (st.Attempt? ==> st.written)
    requires !(st.Enqueue? && st.row.id == id) && !st.Abandon?
    ensures Slack(Step(s, st), id) <= Slack(s, id) - (if st.ClaimBatch? && id in st.picked then 1 else 0)
  {
    StillQueued(s, st, id);
    StepSpendsBudget(s, st, id);
    if Tries(s, st, id) {
      assert s.queue[0].id == id && Queued(s, id);
    }
  }

  lemma {:induction false} TotalSlackIsNat(s: WorkerState, ids: seq<nat>)
    requires Valid(s)
    ensures TotalSlack(s, ids) >= 0
  {
    if ids != [] {
      SlackIsNat(s, ids[0]);
      TotalSlackIsNat(s, ids[1..]);
    }
  }

  lemma {:induction false} StepTakesTotal(s: WorkerState, st: WorkerStep, ids: seq<nat>)
    requires Valid(s) && CanStep(s, st) && (st.Attempt? ==> st.written)
    requires (st.Enqueue? ==> st.row.id !in ids) && !st.Abandon?
    ensures TotalSlack(Step(s, st), ids) <= TotalSlack(s, ids) - (if st.ClaimBatch? then CountIn(ids, st.picked) else 0)
  {
    if ids != [] {
      StepTakesSlack(s, st, ids[0]);
      StepTakesTotal(s, st, ids[1..]);
    }
  }

  /** Distinct picks that are all listed are all counted. */
  lemma {:induction false} CountAll(ids: seq<nat>, picked: seq<nat>)
    requires NoRepeats(picked) && forall i :: 0 <= i < |picked| ==> picked[i] in ids
    ensures CountIn(ids, picked) >= |picked|
    decreases |ids|
  {
    if picked != [] {
      assert picked[0] in ids;
      if ids[0] in picked {
        var k :| 0 <= k < |picked| && picked[k] == ids[0];
        var others := picked[..k] + picked[k + 1..];
        assert forall i :: 0 <= i < |others| ==> others[i] == picked[if i < k then i else i + 1];
        assert NoRepeats(others);
        forall i | 0 <= i < |others| ensures others[i] in ids[1..] {
          assert others[i] in ids && others[i] != ids[0];
        }
        CountAll(ids[1..], others);
        CountMore(ids[1..], others, picked);
      } else {
        forall i | 0 <= i < |picked| ensures picked[i] in ids[1..] {
          assert picked[i] in ids && picked[i] in picked;
        }
        CountAll(ids[1..], picked);
      }
    }
  }

  lemma {:induction false} CountMore(ids: seq<nat>, picked: seq<nat>, more: seq<nat>)
    requires forall i :: 0 <= i < |picked| ==> picked[i] in more
    ensures CountIn(ids, picked) <= CountIn(ids, more)
  {
    if ids != [] {
      CountMore(ids[1..], picked, more);
    }
  }

  /**
   `id` stays open, due at every claim and passed over by a worker that is not
   killed; rows inserted meanwhile were created later; and `ahead` lists the rows
   created at or before it.
   */
  ghost predicate PassedOver(s: WorkerState, run: seq<WorkerStep>, id: nat, ahead: seq<nat>)
    requires Run(s, run)
    decreases |run|
  {
    run == [] ||
    (&& id in s.log && !Queued(s, id)
     && (forall o :: o in s.log && o != id && s.log[o].createdAt <= s.log[id].createdAt ==> o in ahead)
     && (run[0].Attempt? ==> run[0].written) && !run[0].Abandon?
     && (run[0].Enqueue? ==> run[0].row.id !in ahead && run[0].row.id != id)
     && (run[0].ClaimBatch? ==> Due(s.log[id], run[0].now) && id !in run[0].picked)
     && PassedOver(Step(s, run[0]), run[1..], id, ahead))
  }

  ghost function Claims(run: seq<WorkerStep>): nat {
    if run == [] then 0 else (if run[0].ClaimBatch? then 1 else 0) + Claims(run[1..])
  }

  /** A claim that passes over a due row is full, and of rows created no later. */
  lemma FullClaim(s: WorkerState, st: WorkerStep, id: nat, ahead: seq<nat>)
    requires CanStep(s, st) && st.ClaimBatch? && id in s.log && Due(s.log[id], st.now) && id !in st.picked
    requires forall o :: o in s.log && o != id && s.log[o].createdAt <= s.log[id].createdAt ==> o in ahead
    ensures CountIn(ahead, st.picked) >= CLAIM_LIMIT
  {
    assert id in DueIds(s.log, st.now);
    assert |st.picked| == CLAIM_LIMIT;
    forall i | 0 <= i < |st.picked| ensures st.picked[i] in ahead {
      assert s.log[st.picked[i]].createdAt <= s.log[id].createdAt;
    }
    CountAll(ahead, st.picked);
  }

  lemma {:induction false} ClaimsSpendSlack(s: WorkerState, run: seq<WorkerStep>, id: nat, ahead: seq<nat>)
    requires Valid(s) && Run(s, run) && PassedOver(s, run, id, ahead)
    ensures CLAIM_LIMIT * Claims(run) <= TotalSlack(s, ahead)
    decreases |run|
  {
    if run == [] {
      TotalSlackIsNat(s, ahead);
    } else {
      StepKeepsValid(s, run[0]);
      StepTakesTotal(s, run[0], ahead);
      if run[0].ClaimBatch? {
        FullClaim(s, run[0], id, ahead);
      }
      ClaimsSpendSlack(Step(s, run[0]), run[1..], id, ahead);
    }
  }

  /**
   Bounded bypass: with W the attempts left to the rows created at or before
   it, a due row cannot be passed over by floor(W / 50) + 1 claims.
   */
  lemma DueRowIsClaimed(s: WorkerState, run: seq<WorkerStep>, id: nat, ahead: seq<nat>)
    requires Valid(s) && Run(s, run)
    requires Claims(run) >= TotalSlack(s, ahead) / 50 + 1
    ensures !PassedOver(s, run, id, ahead)
  {
    if PassedOver(s, run, id, ahead) {
      ClaimsSpendSlack(s, run, id, ahead);
    }
  }

  // ---------------------------------------------------------------------
  // The worker itself
  // ---------------------------------------------------------------------

  /** What the environment does to one attempt. */
  datatype Reply = Reply(wire: Wire, message: string, now: Instant, written: bool)

  /** The log after the first `n` claimed deliveries were attempted. */
  function AttemptAll(log: Log, claimed: seq<DeliveryRow>, replies: seq<Reply>, n: nat): Log
    requires n <= |claimed| <= |replies|
  {
    if n == 0 then log
    else
      var r := replies[n - 1];
      Attempted(AttemptAll(log, claimed, replies, n - 1), claimed[n - 1], r.wire, r.message, r.now, r.written)
  }

  class Worker {
    var log: Log

    constructor (log: Log)
      ensures this.log == log
    {
      this.log := log;
    }

    /** One tick: claim a batch, then attempt every claimed delivery in order. */
    method ProcessDue(now: Instant, picked: seq<nat>, replies: seq<Reply>)
      requires DeliveryClaim(log, now, picked) && |replies| == |picked|
      modifies this
      ensures var marked := MarkClaimed(old(log), picked, now);
              log == AttemptAll(marked, Snapshot(marked, picked), replies, |picked|)
    {
      log := MarkClaimed(log, picked, now);
      ghost var marked := log;
      var claimed := Snapshot(log, picked);
      var i := 0;
      while i < |claimed|
        invariant 0 <= i <= |claimed|
        invariant log == AttemptAll(marked, claimed, replies, i)
      {
        TryDelivery(claimed[i], replies[i]);
        i := i + 1;
      }
    }

    method TryDelivery(c: DeliveryRow, r: Reply)
      modifies this
      ensures log == Attempted(old(log), c, r.wire, r.message, r.now, r.written)
      ensures r.written && c.id in log ==>
                (log[c.id].status == Sent <==> r.wire.Response? && 200 <= r.wire.code <= 299)
    {
      match r.wire {
        case Response(code) =>
          if 200 <= code < 300 {
            MarkSent(c.id, code, r.written);
          } else {
            MarkFailed(c, StatusCode(r.wire), r.message, r.now, r.written);
          }
        case _ =>
          MarkFailed(c, None, r.message, r.now, r.written);
      }
    }

    method MarkSent(id: nat, code: int, written: bool)
      modifies this
      ensures log == if written && id in old(log)
                     then old(log)[id := old(log)[id].(status := Sent, attemptCount := old(log)[id].attemptCount + 1,
                                                       responseStatus := Some(code))]
                     else old(log)
    {
      if written && id in log {
        var row := log[id].(attemptCount := log[id].attemptCount + 1, responseStatus := Some(code));
        log := log[id := row.(status := Sent)];
      }
    }

    method MarkFailed(c: DeliveryRow, code: Option<int>, message: string, now: Instant, written: bool)
      modifies this
      ensures written && c.id in old(log) ==>
                var row := old(log)[c.id].(attemptCount := old(log)[c.id].attemptCount + 1, responseStatus := code,
                                           lastError := Some(message));
                log == old(log)[c.id :=
                  if c.attemptCount + 1 >= c.maxAttempts then row.(status := Failed)
                  else row.(status := Retrying, nextAttemptAt := Some(now + Backoff(c.attemptCount + 1)))]
      ensures !(written && c.id in old(log)) ==> log == old(log)
    {
      if !written || c.id !in log {
        return;
      }
      var row := log[c.id].(attemptCount := log[c.id].attemptCount + 1, responseStatus := code,
                            lastError := Some(message));
      var nextAttempt := c.attemptCount + 1;
      if nextAttempt >= c.maxAttempts {
        log := log[c.id := row.(status := Failed)];
        return;
      }
      var backoff := Wrap(ShiftOne(nextAttempt) * SECOND);
      if backoff > HOUR {
        backoff := HOUR;
      }
      log := log[c.id := row.(status := Retrying, nextAttemptAt := Some(now + backoff))];
    }
  }

  /** The attempts still to make from claimed delivery `n` on, as steps of the machine. */
  function AttemptSteps(replies: seq<Reply>, n: nat): seq<WorkerStep>
    requires n <= |replies|
    decreases |replies| - n
  {
    if n == |replies| then []
    else
      var r := replies[n];
      [Attempt(r.wire, r.message, r.now, r.written)] + AttemptSteps(replies, n + 1)
  }

  lemma {:induction false} AttemptsAreARun(log: Log, claimed: seq<DeliveryRow>, replies: seq<Reply>, n: nat)
    requires n <= |claimed| == |replies|
    ensures var s := WorkerState(AttemptAll(log, claimed, replies, n), claimed[n..]);
            Run(s, AttemptSteps(replies, n))
            && Final(s, AttemptSteps(replies, n)) == WorkerState(AttemptAll(log, claimed, replies, |claimed|), [])
    decreases |claimed| - n
  {
    if n < |claimed| {
      AttemptsAreARun(log, claimed, replies, n + 1);
      var r := replies[n];
      var rest := AttemptSteps(replies, n + 1);
      assert ([Attempt(r.wire, r.message, r.now, r.written)] + rest)[1..] == rest;
      assert claimed[n..][1..] == claimed[n + 1..];
    }
  }

  /** A tick of the worker is a run of the machine that starts and ends with an empty queue. */
  lemma TickIsARun(log: Log, now: Instant, picked: seq<nat>, replies: seq<Reply>)
    requires DeliveryClaim(log, now, picked) && |replies| == |picked|
    ensures var marked := MarkClaimed(log, picked, now);
            var run := [ClaimBatch(now, picked)] + AttemptSteps(replies, 0);
            Run(WorkerState(log, []), run)
            && Final(WorkerState(log, []), run)
               == WorkerState(AttemptAll(marked, Snapshot(marked, picked), replies, |picked|), [])
  {
    var marked := MarkClaimed(log, picked, now);
    var claimed := Snapshot(marked, picked);
    AttemptsAreARun(marked, claimed, replies, 0);
    assert claimed[0..] == claimed;
    var run := [ClaimBatch(now, picked)] + AttemptSteps(replies, 0);
    assert run[1..] == AttemptSteps(replies, 0);
  }
}
