/**
 Evaluating one claimed rule: its condition over the query's answer, the state
 transition, and the write that ends the evaluation.
 */
module Evaluator {
  import opened Prelude
  import opened GoTime
  import opened Transitions
  import opened RuleStore

  /** The longest duration in minutes a time.Duration can hold. */
  const MAX_EXACT_MINUTES := 153722867

  // ---- condition.go ---------------------------------------------------

  datatype Cell = Number(value: real) | NotNumeric

  type QueryResult = seq<seq<Cell>>

  datatype Verdict = Decided(conditionTrue: bool, value: Option<real>) | CannotTell(message: string)

  function Compare(value: real, comparator: Comparator, threshold: real): bool {
    match comparator
    case Gt => value > threshold
    case Gte => value >= threshold
    case Lt => value < threshold
    case Lte => value <= threshold
    case Eq => value == threshold
    case Ne => value != threshold
    case UnknownComparator => false
  }

  function EvaluateCondition(rule: Rule, rows: QueryResult): Verdict {
    match rule.conditionType
    case Absence => Decided(|rows| == 0, None)
    case Threshold =>
      if |rows| != 1 then CannotTell("threshold rule query must return exactly 1 row")
      else if |rows[0]| == 0 then CannotTell("threshold rule query returned a row with no columns")
      else if rows[0][0].NotNumeric? then CannotTell("first column value is not numeric")
      else if rule.comparator.None? || rule.thresholdValue.None? then
        CannotTell("missing comparator or threshold_value")
      else Decided(Compare(rows[0][0].value, rule.comparator.value, rule.thresholdValue.value), Some(rows[0][0].value))
    case UnknownCondition => CannotTell("unknown condition_type")
  }

  /** "Ran and found nothing" is never read as a value: only absence rules decide on anything but one numeric cell. */
  lemma DecidedExactly(rule: Rule, rows: QueryResult)
    ensures EvaluateCondition(rule, rows).Decided? <==>
            || rule.conditionType.Absence?
            || (&& rule.conditionType.Threshold? && rule.comparator.Some? && rule.thresholdValue.Some?
                && exists cells: seq<Cell> :: rows == [cells] && cells != [] && cells[0].Number?)
    ensures rule.conditionType.Absence? ==> EvaluateCondition(rule, rows) == Decided(rows == [], None)
  {
    if rule.conditionType.Threshold? && |rows| == 1 {
      assert rows == [rows[0]];
    }
  }

  /** A threshold rule's verdict with comparator `c` on a row whose first cell is `v`. */
  predicate HoldsAt(rule: Rule, c: Comparator, v: real, more: seq<Cell>) {
    var verdict := EvaluateCondition(rule.(comparator := Some(c)), [[Number(v)] + more]);
    verdict.Decided? && verdict.conditionTrue
  }

  /**
   The six comparators as the order of the reals has them: raising the value
   never ends a "greater" verdict and lowering it never a "less" one, exactly one
   of greater, equal and less holds, the other three are their negations, and the
   value reported is the one compared.
   */
  lemma ThresholdVerdicts(rule: Rule, v: real, w: real, more: seq<Cell>)
    requires rule.conditionType.Threshold? && rule.thresholdValue.Some?
    ensures v <= w ==>
              && (HoldsAt(rule, Gt, v, more) ==> HoldsAt(rule, Gt, w, more))
              && (HoldsAt(rule, Gte, v, more) ==> HoldsAt(rule, Gte, w, more))
              && (HoldsAt(rule, Lt, w, more) ==> HoldsAt(rule, Lt, v, more))
              && (HoldsAt(rule, Lte, w, more) ==> HoldsAt(rule, Lte, v, more))
    ensures HoldsAt(rule, Eq, v, more) <==> v == rule.thresholdValue.value
    ensures HoldsAt(rule, Gt, v, more) || HoldsAt(rule, Eq, v, more) || HoldsAt(rule, Lt, v, more)
    ensures !(HoldsAt(rule, Gt, v, more) && HoldsAt(rule, Eq, v, more))
    ensures !(HoldsAt(rule, Gt, v, more) && HoldsAt(rule, Lt, v, more))
    ensures !(HoldsAt(rule, Eq, v, more) && HoldsAt(rule, Lt, v, more))
    ensures HoldsAt(rule, Gte, v, more) <==> !HoldsAt(rule, Lt, v, more)
    ensures HoldsAt(rule, Lte, v, more) <==> !HoldsAt(rule, Gt, v, more)
    ensures HoldsAt(rule, Ne, v, more) <==> !HoldsAt(rule, Eq, v, more)
    ensures !HoldsAt(rule, UnknownComparator, v, more)
    ensures forall c :: EvaluateCondition(rule.(comparator := Some(c)), [[Number(v)] + more])
                        == Decided(HoldsAt(rule, c, v, more), Some(v))
  {
    assert ([Number(v)] + more)[0] == Number(v) && ([Number(w)] + more)[0] == Number(w);
  }

  // ---- evaluateOne ----------------------------------------------------

  datatype QueryOutcome = QueryRows(rows: QueryResult) | QueryError(message: string)

  /**
   What the world does to one evaluation: the query's rows or its error, the
   evaluator's clock, the rendered payload if the target lookup and template
   succeed, the database clock, and whether the final write commits.
   */
  datatype Evaluation = Evaluation(
    result: QueryOutcome, now: Instant, payload: Option<string>, dbNow: Instant, commits: bool)

  function PolicyOf(r: Rule): Policy {
    Policy(Times(r.forMinutes, MINUTE),
           if r.renotifyIntervalMinutes.Some? then Some(Times(r.renotifyIntervalMinutes.value, MINUTE)) else None)
  }

  function Judge(c: RuleWithState, e: Evaluation): Verdict {
    match e.result
    case QueryError(message) => CannotTell(message)
    case QueryRows(rows) => EvaluateCondition(c.rule, rows)
  }

  function Transition(c: RuleWithState, e: Evaluation, conditionTrue: bool): TransitionResult {
    Step(PolicyOf(c.rule), c.core, Obs(e.now, conditionTrue))
  }

  /** A failed lookup or template drops the notification, not the transition. */
  function BuildNotifyEvent(r: Rule, decision: Option<Event>, payload: Option<string>): Option<NotifyEvent> {
    if decision.None? || payload.None? then None else Some(NotifyEvent(r.target, decision.value, payload.value))
  }

  function AfterEvaluation(db: Db, c: RuleWithState, e: Evaluation): Db {
    if !e.commits then db
    else match Judge(c, e)
      case CannotTell(message) => AfterError(db, c.id, message, e.dbNow)
      case Decided(conditionTrue, value) =>
        var t := Transition(c, e, conditionTrue);
        AfterApply(db, c.id, t.next, value, BuildNotifyEvent(c.rule, t.notify, e.payload), e.dbNow)
  }

  method EvaluateOne(store: Store, c: RuleWithState, e: Evaluation)
    modifies store
    ensures store.Tables() == AfterEvaluation(old(store.Tables()), c, e)
  {
    if e.result.QueryError? {
      store.RecordError(c.id, e.result.message, e.dbNow, e.commits);
      return;
    }
    match EvaluateCondition(c.rule, e.result.rows) {
      case CannotTell(message) =>
        store.RecordError(c.id, message, e.dbNow, e.commits);
      case Decided(conditionTrue, value) =>
        var renotify := None;
        if c.rule.renotifyIntervalMinutes.Some? {
          renotify := Some(Times(c.rule.renotifyIntervalMinutes.value, MINUTE));
        }
        var policy := Policy(Times(c.rule.forMinutes, MINUTE), renotify);
        var t := ComputeTransition(TransitionInput(c.core, policy, e.now, conditionTrue));
        var notify := BuildNotifyEvent(c.rule, t.notify, e.payload);
        store.ApplyTransition(c.id, t.next, value, notify, e.dbNow, e.commits);
    }
  }

  /**
   What a committed evaluation of a threshold rule leaves in its row: the value
   the query answered, no error, and a state other than ok exactly when the value
   is on the far side of the threshold.
   */
  lemma ThresholdEvaluation(db: Db, c: RuleWithState, e: Evaluation, v: real, more: seq<Cell>)
    requires c.id in db.rules && c.id in db.alertState && e.commits
    requires c.rule.conditionType.Threshold? && c.rule.comparator.Some? && c.rule.thresholdValue.Some?
    requires e.result == QueryRows([[Number(v)] + more])
    ensures var row, t := AfterEvaluation(db, c, e).alertState[c.id], c.rule.thresholdValue.value;
            && row.lastValue == Some(v) && row.lastEvalStatus == EvalOk && row.lastError.None?
            && row.lastEvaluatedAt == Some(e.dbNow)
            && (c.rule.comparator.value.Gt? ==> (row.core.state == Ok <==> v <= t))
            && (c.rule.comparator.value.Gte? ==> (row.core.state == Ok <==> v < t))
            && (c.rule.comparator.value.Lt? ==> (row.core.state == Ok <==> v >= t))
            && (c.rule.comparator.value.Lte? ==> (row.core.state == Ok <==> v > t))
            && (c.rule.comparator.value.Eq? ==> (row.core.state == Ok <==> v != t))
            && (c.rule.comparator.value.Ne? ==> (row.core.state == Ok <==> v == t))
            && (c.rule.comparator.value.UnknownComparator? ==> row.core.state == Ok)
  {
    assert ([Number(v)] + more)[0] == Number(v);
  }

  /** A rule that cannot tell keeps its state and says why. */
  lemma ErrorEvaluation(db: Db, c: RuleWithState, e: Evaluation)
    requires c.id in db.alertState && e.commits && Judge(c, e).CannotTell?
    ensures var row, row' := db.alertState[c.id], AfterEvaluation(db, c, e).alertState[c.id];
            && row'.core == row.core && row'.lastValue == row.lastValue && row'.nextEvalAt == row.nextEvalAt
            && row'.lastEvalStatus == EvalError && row'.lastError.Some? && row'.lastEvaluatedAt == Some(e.dbNow)
            && (e.result.QueryError? ==> row'.lastError == Some(e.result.message))
    ensures AfterEvaluation(db, c, e).deliveryLog == db.deliveryLog
  {
  }

  // ---- Error columns over a run ---------------------------------------

  /** A snapshot of the rule and what the world did to its evaluation. */
  datatype Trial = Trial(c: RuleWithState, e: Evaluation)

  function AfterTrials(db: Db, trials: seq<Trial>): Db {
    if trials == [] then db
    else
      var last := trials[|trials| - 1];
      AfterEvaluation(AfterTrials(db, trials[..|trials| - 1]), last.c, last.e)
  }

  /** How many of the last evaluations of rule `id` in a row, among those whose write committed, could not tell. */
  function TrailingErrors(trials: seq<Trial>, id: RuleId, before: nat): nat {
    if trials == [] then before
    else
      var last, rest := trials[|trials| - 1], trials[..|trials| - 1];
      if last.c.id != id || !last.e.commits then TrailingErrors(rest, id, before)
      else if Judge(last.c, last.e).CannotTell? then TrailingErrors(rest, id, before) + 1
      else 0
  }

  /**
   Over any sequence of evaluations of any rules, a rule's consecutive_errors
   counts the errors since its last decided evaluation, and its status says
   whether there were any; other rules and failed writes make no difference.
   */
  lemma {:induction false} ErrorsSinceDecided(db: Db, trials: seq<Trial>, id: RuleId)
    requires id in db.rules && id in db.alertState
    requires db.alertState[id].consecutiveErrors == 0 <==> db.alertState[id].lastEvalStatus == EvalOk
    ensures var db' := AfterTrials(db, trials);
            && db'.rules == db.rules && id in db'.alertState
            && db'.alertState[id].consecutiveErrors == TrailingErrors(trials, id, db.alertState[id].consecutiveErrors)
            && (db'.alertState[id].consecutiveErrors == 0 <==> db'.alertState[id].lastEvalStatus == EvalOk)
            && db'.alertState[id].nextEvalAt == db.alertState[id].nextEvalAt
  {
    if trials != [] {
      ErrorsSinceDecided(db, trials[..|trials| - 1], id);
    }
  }

  /** for_minutes converts exactly as long as the product fits an int64: up to 153722867 minutes. */
  lemma MinutesExactly(n: int)
    requires FitsInt64(n)
    ensures Times(n, MINUTE) == n * MINUTE <==> -MAX_EXACT_MINUTES <= n <= MAX_EXACT_MINUTES
  {
    WrapFits(n);
    WrapFits(n * MINUTE);
  }

  /** The stored duration always fits, and is a whole number of microseconds when it is exact. */
  lemma MinutesFit(n: int)
    ensures FitsInt64(Times(n, MINUTE))
    ensures -MAX_EXACT_MINUTES <= n <= MAX_EXACT_MINUTES ==>
              Times(n, MINUTE) == n * MINUTE && Times(n, MINUTE) % MICROSECOND == 0
  {
    WrapFits(Wrap(n) * MINUTE);
    if -MAX_EXACT_MINUTES <= n <= MAX_EXACT_MINUTES {
      MinutesExactly(n);
      WholeMicros(n * 60_000_000);
      MinuteInMicros(n);
    }
  }

  lemma WholeMicros(k: int)
    ensures k * MICROSECOND % MICROSECOND == 0
  {
  }

  lemma MinuteInMicros(n: int)
    ensures n * MINUTE == n * 60_000_000 * MICROSECOND
  {
  }
}
