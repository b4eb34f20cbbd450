/**
 From a committed decision to the end of its notification: the alerting
 service's runs, seen by the delivery worker.
 */
module Pipeline {
  import opened Prelude
  import opened GoTime
  import opened RuleStore
  import opened Evaluator
  import opened AlertSystem
  import Delivery

  /** The part of the service the delivery worker works on. */
  function View(s: System): Delivery.WorkerState {
    Delivery.WorkerState(ById(s.db.deliveryLog), s.queue)
  }

  ghost predicate Distinct(log: seq<DeliveryRow>) {
    forall i, j :: 0 <= i < j < |log| ==> log[i].id != log[j].id
  }

  /** Row ids were given out in order, and none is due to be given out again. */
  ghost predicate Numbered(s: System) {
    && (forall i :: 0 <= i < |s.db.deliveryLog| ==> s.db.deliveryLog[i].id < s.db.nextDeliveryId)
    && Distinct(s.db.deliveryLog)
    && (forall i :: 0 <= i < |s.queue| ==> s.queue[i].id < s.db.nextDeliveryId)
  }

  function RowIds(log: Delivery.Log, rule: RuleId): set<nat> {
    set id | id in log && log[id].ruleId == rule
  }

  /** What the delivery worker sees of one step: nothing, or one step of its own machine. */
  function Seen(s: System, poolSize: nat, st: SystemStep): (r: seq<Delivery.WorkerStep>)
    requires CanStep(s, poolSize, st)
    ensures |r| <= 1
  {
    match st
    case Finish(_, _) =>
      var log := Next(s, poolSize, st).db.deliveryLog;
      if |log| > |s.db.deliveryLog| then [Delivery.Enqueue(log[|log| - 1])] else []
    case DeleteRule(id) => [Delivery.Cascade(RowIds(ById(s.db.deliveryLog), id))]
    case ClaimDeliveries(now, picked) => [Delivery.ClaimBatch(now, picked)]
    case AttemptDelivery(w, message, now, written) => [Delivery.Attempt(w, message, now, written)]
    case Kill => [Delivery.Abandon]
    case _ => []
  }

  // ---- The log as a map -----------------------------------------------

  lemma {:induction false} InById(log: seq<DeliveryRow>, id: nat)
    ensures id in ById(log) <==> exists i :: 0 <= i < |log| && log[i].id == id
    ensures id in ById(log) ==> ById(log)[id] in log && ById(log)[id].id == id
  {
    if log != [] {
      var n := |log| - 1;
      InById(log[..n], id);
      if id in ById(log[..n]) {
        var i :| 0 <= i < n && log[..n][i].id == id;
        assert log[i].id == id;
      }
      if exists i :: 0 <= i < |log| && log[i].id == id {
        var i :| 0 <= i < |log| && log[i].id == id;
        assert i < n ==> log[..n][i].id == id;
      }
    }
  }

  lemma {:induction false} MarkedById(log: seq<DeliveryRow>, picked: seq<nat>, now: Instant)
    ensures ById(Marked(log, picked, now)) == Delivery.MarkClaimed(ById(log), picked, now)
  {
    if log != [] {
      var n := |log| - 1;
      MarkedById(log[..n], picked, now);
      assert Marked(log, picked, now)[..n] == Marked(log[..n], picked, now);
    }
  }

  lemma {:induction false} TriedById(log: seq<DeliveryRow>, c: DeliveryRow, st: SystemStep)
    requires st.AttemptDelivery?
    ensures ById(Tried(log, c, st)) == Delivery.Attempted(ById(log), c, st.wire, st.message, st.now, st.written)
  {
    if log != [] {
      var n := |log| - 1;
      TriedById(log[..n], c, st);
      assert Tried(log, c, st)[..n] == Tried(log[..n], c, st);
    }
  }

  lemma ByIdAppend(log: seq<DeliveryRow>, row: DeliveryRow)
    ensures ById(log + [row]) == ById(log)[row.id := row]
  {
    assert (log + [row])[..|log|] == log;
  }

  lemma {:induction false} WithoutById(log: seq<DeliveryRow>, rule: RuleId)
    requires Distinct(log)
    ensures ById(RowsNotOf(log, rule)) == ById(log) - RowIds(ById(log), rule)
  {
    if log != [] {
      var front, last := log[..|log| - 1], log[|log| - 1];
      WithoutById(front, rule);
      LastIsNew(log);
      WithoutLast(ById(front), last, rule);
      if last.ruleId != rule {
        ByIdAppend(RowsNotOf(front, rule), last);
      }
    }
  }

  lemma LastIsNew(log: seq<DeliveryRow>)
    requires log != [] && Distinct(log)
    ensures Distinct(log[..|log| - 1]) && log[|log| - 1].id !in ById(log[..|log| - 1])
  {
    InById(log[..|log| - 1], log[|log| - 1].id);
  }

  lemma WithoutLast(log: Delivery.Log, row: DeliveryRow, rule: RuleId)
    requires row.id !in log
    ensures log[row.id := row] - RowIds(log[row.id := row], rule)
            == if row.ruleId == rule then log - RowIds(log, rule) else (log - RowIds(log, rule))[row.id := row]
  {
  }

  lemma {:induction false} WithoutKeepsDistinct(log: seq<DeliveryRow>, rule: RuleId)
    requires Distinct(log)
    ensures Distinct(RowsNotOf(log, rule)) && forall row :: row in RowsNotOf(log, rule) ==> row in log
  {
    if log != [] {
      var front, last := log[..|log| - 1], log[|log| - 1];
      WithoutKeepsDistinct(front, rule);
      var rest := RowsNotOf(front, rule);
      forall i | 0 <= i < |rest| ensures rest[i].id != last.id {
        assert rest[i] in front;
      }
    }
  }

  // ---- One step -------------------------------------------------------

  /** What one evaluation adds to the log: nothing, or one fresh outbox row. */
  lemma EvaluationAppends(db: Db, c: RuleWithState, e: Evaluation)
    ensures var db' := AfterEvaluation(db, c, e);
            || (db'.deliveryLog == db.deliveryLog && db'.nextDeliveryId == db.nextDeliveryId)
            || exists n :: db'.deliveryLog == db.deliveryLog + [Outbox(db, c.id, n, e.dbNow)]
                           && db'.nextDeliveryId == db.nextDeliveryId + 1
  {
    if e.commits && Judge(c, e).Decided? && c.id in db.alertState && c.id in db.rules {
      var n := BuildNotifyEvent(c.rule, Transition(c, e, Judge(c, e).conditionTrue).notify, e.payload);
      if n.Some? {
        assert AfterEvaluation(db, c, e).deliveryLog == db.deliveryLog + [Outbox(db, c.id, n.value, e.dbNow)];
      }
    }
  }

  /** The step is what the worker sees of it, and row ids stay numbered. */
  ghost predicate IsSeen(s: System, poolSize: nat, st: SystemStep)
    requires CanStep(s, poolSize, st)
  {
    var s', seen := Next(s, poolSize, st), Seen(s, poolSize, st);
    && Numbered(s')
    && s.db.nextDeliveryId <= s'.db.nextDeliveryId
    && (seen == [] ==> View(s') == View(s))
    && (seen != [] ==> Delivery.CanStep(View(s), seen[0]) && Delivery.Step(View(s), seen[0]) == View(s'))
    && (seen != [] && seen[0].Enqueue? ==> seen[0].row.id >= s.db.nextDeliveryId)
  }

  lemma FinishIsSeen(s: System, poolSize: nat, st: SystemStep)
    requires Numbered(s) && CanStep(s, poolSize, st) && st.Finish?
    ensures IsSeen(s, poolSize, st)
  {
    var c := s.tick.claimed[IndexOf(s.tick.claimed, st.id)];
    var s' := Next(s, poolSize, st);
    EvaluationAppends(s.db, c, st.evaluation);
    if s'.db.deliveryLog != s.db.deliveryLog {
      var row := s'.db.deliveryLog[|s.db.deliveryLog|];
      InById(s.db.deliveryLog, row.id);
      ByIdAppend(s.db.deliveryLog, row);
    }
  }

  lemma DeleteIsSeen(s: System, poolSize: nat, st: SystemStep)
    requires Numbered(s) && CanStep(s, poolSize, st) && st.DeleteRule?
    ensures IsSeen(s, poolSize, st)
  {
    WithoutById(s.db.deliveryLog, st.id);
    WithoutKeepsDistinct(s.db.deliveryLog, st.id);
    var log' := RowsNotOf(s.db.deliveryLog, st.id);
    forall i | 0 <= i < |log'| ensures log'[i].id < s.db.nextDeliveryId {
      assert log'[i] in s.db.deliveryLog;
    }
  }

  lemma ClaimIsSeen(s: System, poolSize: nat, st: SystemStep)
    requires Numbered(s) && CanStep(s, poolSize, st) && st.ClaimDeliveries?
    ensures IsSeen(s, poolSize, st)
  {
    MarkedById(s.db.deliveryLog, st.picked, st.now);
    var s' := Next(s, poolSize, st);
    assert Distinct(s'.db.deliveryLog);
    forall i | 0 <= i < |s'.queue| ensures s'.queue[i].id < s'.db.nextDeliveryId {
      InById(s.db.deliveryLog, st.picked[i]);
    }
  }

  lemma TriedKeepsIds(log: seq<DeliveryRow>, c: DeliveryRow, st: SystemStep)
    requires st.AttemptDelivery? && Distinct(log)
    ensures var log' := Tried(log, c, st);
            Distinct(log') && forall i :: 0 <= i < |log'| ==> log'[i].id == log[i].id
  {
  }

  lemma AttemptIsSeen(s: System, poolSize: nat, st: SystemStep)
    requires Numbered(s) && CanStep(s, poolSize, st) && st.AttemptDelivery?
    ensures IsSeen(s, poolSize, st)
  {
    TriedById(s.db.deliveryLog, s.queue[0], st);
    TriedKeepsIds(s.db.deliveryLog, s.queue[0], st);
  }

  lemma StepIsSeen(s: System, poolSize: nat, st: SystemStep)
    requires Numbered(s) && CanStep(s, poolSize, st)
    ensures IsSeen(s, poolSize, st)
  {
    match st
    case Finish(_, _) => FinishIsSeen(s, poolSize, st);
    case DeleteRule(_) => DeleteIsSeen(s, poolSize, st);
    case ClaimDeliveries(_, _) => ClaimIsSeen(s, poolSize, st);
    case AttemptDelivery(_, _, _, _) => AttemptIsSeen(s, poolSize, st);
    case _ =>
  }

  // ---- Whole runs -----------------------------------------------------

  /** Deliveries of row `id` posted during a run. */
  ghost function Attempts(s: System, poolSize: nat, run: seq<SystemStep>, id: nat): nat
    requires Run(s, poolSize, run)
    decreases |run|
  {
    if run == [] then 0
    else
      (if run[0].AttemptDelivery? && s.queue[0].id == id then 1 else 0)
      + Attempts(Next(s, poolSize, run[0]), poolSize, run[1..], id)
  }

  /** Those whose status write was lost. */
  ghost function Lost(s: System, poolSize: nat, run: seq<SystemStep>, id: nat): nat
    requires Run(s, poolSize, run)
    decreases |run|
  {
    if run == [] then 0
    else
      (if run[0].AttemptDelivery? && s.queue[0].id == id && !run[0].written then 1 else 0)
      + Lost(Next(s, poolSize, run[0]), poolSize, run[1..], id)
  }

  /** How those went that were written down, in order. */
  ghost function Answers(s: System, poolSize: nat, run: seq<SystemStep>, id: nat): seq<Delivery.Wire>
    requires Run(s, poolSize, run)
    decreases |run|
  {
    if run == [] then []
    else
      (if run[0].AttemptDelivery? && s.queue[0].id == id && run[0].written then [run[0].wire] else [])
      + Answers(Next(s, poolSize, run[0]), poolSize, run[1..], id)
  }

  ghost function SeenRun(s: System, poolSize: nat, run: seq<SystemStep>): seq<Delivery.WorkerStep>
    requires Run(s, poolSize, run)
    decreases |run|
  {
    if run == [] then [] else Seen(s, poolSize, run[0]) + SeenRun(Next(s, poolSize, run[0]), poolSize, run[1..])
  }

  /** Every run of the service is a run of the delivery worker on its log. */
  lemma {:induction false} RunIsSeen(s: System, poolSize: nat, run: seq<SystemStep>)
    requires Numbered(s) && Run(s, poolSize, run)
    ensures Numbered(Final(s, poolSize, run))
    ensures Delivery.Run(View(s), SeenRun(s, poolSize, run))
    ensures Delivery.Final(View(s), SeenRun(s, poolSize, run)) == View(Final(s, poolSize, run))
    decreases |run|
  {
    if run != [] {
      var s' := Next(s, poolSize, run[0]);
      StepIsSeen(s, poolSize, run[0]);
      RunIsSeen(s', poolSize, run[1..]);
      var seen, rest := Seen(s, poolSize, run[0]), SeenRun(s', poolSize, run[1..]);
      assert (seen + rest)[|seen|..] == rest;
    }
  }

  /** The worker never sees an id inserted twice. */
  lemma {:induction false} SeenOnce(s: System, poolSize: nat, run: seq<SystemStep>, id: nat)
    requires Numbered(s) && Run(s, poolSize, run) && id < s.db.nextDeliveryId
    ensures Delivery.NeverReused(SeenRun(s, poolSize, run), id)
    decreases |run|
  {
    if run != [] {
      var s' := Next(s, poolSize, run[0]);
      StepIsSeen(s, poolSize, run[0]);
      SeenOnce(s', poolSize, run[1..], id);
    }
  }

  /** The counts of a worker's run, taken after its first step. */
  lemma {:induction false} CountsAfterOne(w: Delivery.WorkerState, first: Delivery.WorkerStep,
                                          rest: seq<Delivery.WorkerStep>, id: nat)
    requires Delivery.Run(w, [first] + rest)
    ensures Delivery.CanStep(w, first) && Delivery.Run(Delivery.Step(w, first), rest)
    ensures var w', tries := Delivery.Step(w, first), Delivery.Tries(w, first, id);
            && Delivery.AttemptsOn(w, [first] + rest, id)
               == (if tries then 1 else 0) + Delivery.AttemptsOn(w', rest, id)
            && Delivery.LostOn(w, [first] + rest, id)
               == (if tries && !first.written then 1 else 0) + Delivery.LostOn(w', rest, id)
            && Delivery.AnswersOn(w, [first] + rest, id)
               == (if tries && first.written then [first.wire] else []) + Delivery.AnswersOn(w', rest, id)
  {
    assert ([first] + rest)[1..] == rest;
  }

  /** A delivery is posted exactly when the worker sees an attempt, with the same answer and write. */
  lemma SeenTries(s: System, poolSize: nat, st: SystemStep, id: nat)
    requires CanStep(s, poolSize, st)
    ensures var seen := Seen(s, poolSize, st);
            && (seen == [] ==> !st.AttemptDelivery?)
            && (seen != [] ==> (Delivery.Tries(View(s), seen[0], id) <==> st.AttemptDelivery? && s.queue[0].id == id))
            && (st.AttemptDelivery? ==> seen == [Delivery.Attempt(st.wire, st.message, st.now, st.written)])
  {
  }

  /** The counts of what the worker sees, taken after the service's first step. */
  lemma {:induction false} CountsAfterStep(s: System, poolSize: nat, st: SystemStep, rest: seq<Delivery.WorkerStep>,
                                           id: nat)
    requires Numbered(s) && CanStep(s, poolSize, st) && Delivery.Run(View(s), Seen(s, poolSize, st) + rest)
    ensures Numbered(Next(s, poolSize, st)) && Delivery.Run(View(Next(s, poolSize, st)), rest)
    ensures var w, w', all := View(s), View(Next(s, poolSize, st)), Seen(s, poolSize, st) + rest;
            var tries := st.AttemptDelivery? && s.queue[0].id == id;
            && Delivery.AttemptsOn(w, all, id) == (if tries then 1 else 0) + Delivery.AttemptsOn(w', rest, id)
            && Delivery.LostOn(w, all, id)
               == (if tries && !st.written then 1 else 0) + Delivery.LostOn(w', rest, id)
            && Delivery.AnswersOn(w, all, id)
               == (if tries && st.written then [st.wire] else []) + Delivery.AnswersOn(w', rest, id)
  {
    StepIsSeen(s, poolSize, st);
    SeenTries(s, poolSize, st, id);
    var seen := Seen(s, poolSize, st);
    if seen == [] {
      assert seen + rest == rest;
    } else {
      assert seen == [seen[0]];
      CountsAfterOne(View(s), seen[0], rest, id);
    }
  }

  lemma {:induction false} SeenCounts(s: System, poolSize: nat, run: seq<SystemStep>, id: nat)
    requires Numbered(s) && Run(s, poolSize, run) && Delivery.Run(View(s), SeenRun(s, poolSize, run))
    ensures Delivery.AttemptsOn(View(s), SeenRun(s, poolSize, run), id) == Attempts(s, poolSize, run, id)
    ensures Delivery.LostOn(View(s), SeenRun(s, poolSize, run), id) == Lost(s, poolSize, run, id)
    ensures Delivery.AnswersOn(View(s), SeenRun(s, poolSize, run), id) == Answers(s, poolSize, run, id)
    decreases |run|
  {
    if run != [] {
      var s' := Next(s, poolSize, run[0]);
      CountsAfterStep(s, poolSize, run[0], SeenRun(s', poolSize, run[1..]), id);
      SeenCounts(s', poolSize, run[1..], id);
    }
  }

  // ---- How a notification ends ----------------------------------------

  /** Only deleting its rule removes a row; nothing changes what it notifies of. */
  lemma StepKeepsRow(s: System, poolSize: nat, st: SystemStep, id: nat)
    requires Numbered(s) && CanStep(s, poolSize, st)
    requires id in View(s).log && st != DeleteRule(View(s).log[id].ruleId)
    ensures var log' := View(Next(s, poolSize, st)).log;
            id in log' && log'[id].ruleId == View(s).log[id].ruleId && log'[id].notify == View(s).log[id].notify
  {
    StepIsSeen(s, poolSize, st);
    InById(s.db.deliveryLog, id);
  }

  lemma {:induction false} RunKeepsRow(s: System, poolSize: nat, run: seq<SystemStep>, id: nat)
    requires Numbered(s) && Run(s, poolSize, run)
    requires id in View(s).log && DeleteRule(View(s).log[id].ruleId) !in run
    ensures var log' := View(Final(s, poolSize, run)).log;
            id in log' && log'[id].ruleId == View(s).log[id].ruleId && log'[id].notify == View(s).log[id].notify
    decreases |run|
  {
    if run != [] {
      assert run[0] in run;
      StepIsSeen(s, poolSize, run[0]);
      StepKeepsRow(s, poolSize, run[0], id);
      RunKeepsRow(Next(s, poolSize, run[0]), poolSize, run[1..], id);
    }
  }

  lemma {:induction false} WorkerStaysValid(w: Delivery.WorkerState, run: seq<Delivery.WorkerStep>)
    requires Delivery.Valid(w) && Delivery.Run(w, run)
    ensures Delivery.Valid(Delivery.Final(w, run))
    decreases |run|
  {
    if run != [] {
      Delivery.StepKeepsValid(w, run[0]);
      WorkerStaysValid(Delivery.Step(w, run[0]), run[1..]);
    }
  }

  /** A row not yet attempted, from any state of the service on. */
  lemma FreshRowEnds(s: System, poolSize: nat, run: seq<SystemStep>, id: nat)
    requires Numbered(s) && Delivery.Valid(View(s)) && Run(s, poolSize, run)
    requires id in View(s).log && View(s).log[id].status == AwaitingSend && View(s).log[id].attemptCount == 0
    ensures Attempts(s, poolSize, run, id) == |Answers(s, poolSize, run, id)| + Lost(s, poolSize, run, id)
    ensures |Answers(s, poolSize, run, id)| <= Max(1, View(s).log[id].maxAttempts)
    ensures id in View(Final(s, poolSize, run)).log ==>
              var row, answers := View(Final(s, poolSize, run)).log[id], Answers(s, poolSize, run, id);
              && row.attemptCount == |answers|
              && (row.status == Sent <==>
                  exists i :: 0 <= i < |answers| && answers[i].Response? && 200 <= answers[i].code <= 299)
              && (row.status == Failed <==>
                  && |answers| == Max(1, View(s).log[id].maxAttempts)
                  && forall i :: 0 <= i < |answers| && answers[i].Response? ==> !(200 <= answers[i].code <= 299))
              && row.responseStatus == Delivery.LastCode(answers, View(s).log[id].responseStatus)
  {
    InById(s.db.deliveryLog, id);
    RunIsSeen(s, poolSize, run);
    SeenOnce(s, poolSize, run, id);
    SeenCounts(s, poolSize, run, id);
    Delivery.InsertedRowEnds(View(s), SeenRun(s, poolSize, run), id);
  }

  /** What the log says of a notification at the end of the run `after` its row was inserted in `s`. */
  ghost predicate Ended(s: System, poolSize: nat, after: seq<SystemStep>, row: DeliveryRow)
    requires Run(s, poolSize, after)
  {
    var log := ById(Final(s, poolSize, after).db.deliveryLog);
    var answers := Answers(s, poolSize, after, row.id);
    && Attempts(s, poolSize, after, row.id) == |answers| + Lost(s, poolSize, after, row.id)
    && |answers| <= 5
    && (row.id !in log ==> DeleteRule(row.ruleId) in after)
    && (row.id in log ==>
          && log[row.id].attemptCount == |answers|
          && (log[row.id].status == Sent <==>
              exists i :: 0 <= i < |answers| && answers[i].Response? && 200 <= answers[i].code <= 299)
          && (log[row.id].status == Failed <==>
              && |answers| == 5
              && forall i :: 0 <= i < |answers| && answers[i].Response? ==> !(200 <= answers[i].code <= 299))
          && log[row.id].responseStatus == Delivery.LastCode(answers, None))
    && (DeleteRule(row.ruleId) !in after ==>
          row.id in log && log[row.id].ruleId == row.ruleId && log[row.id].notify == row.notify)
  }

  /** The last row of the log was just inserted by a decision. */
  predicate Fresh(s: System) {
    s.db.deliveryLog != [] &&
    var row := s.db.deliveryLog[|s.db.deliveryLog| - 1];
    row.status == AwaitingSend && row.attemptCount == 0 && row.maxAttempts == 5 && row.responseStatus.None?
  }

  lemma DecisionInserts(s: System, poolSize: nat, st: SystemStep)
    requires Numbered(s) && CanStep(s, poolSize, st) && st.Finish?
    requires |Next(s, poolSize, st).db.deliveryLog| > |s.db.deliveryLog|
    ensures Fresh(Next(s, poolSize, st))
  {
    EvaluationAppends(s.db, s.tick.claimed[IndexOf(s.tick.claimed, st.id)], st.evaluation);
  }

  lemma OutboxIsDue(db: Db, id: RuleId, n: NotifyEvent, inserted: Instant, now: Instant)
    ensures var row := Outbox(db, id, n, inserted);
            && (row.id in Delivery.DueIds(ById(db.deliveryLog + [row]), now) <==> now >= inserted)
            && row.createdAt == inserted
  {
    ByIdAppend(db.deliveryLog, Outbox(db, id, n, inserted));
  }

  /** The inserted row is created with the commit, and due from then on and no sooner. */
  lemma FreshRowIsDue(s: System, poolSize: nat, st: SystemStep, now: Instant)
    requires Numbered(s) && CanStep(s, poolSize, st) && st.Finish?
    requires |Next(s, poolSize, st).db.deliveryLog| > |s.db.deliveryLog|
    ensures var log := Next(s, poolSize, st).db.deliveryLog;
            && (log[|log| - 1].id in Delivery.DueIds(ById(log), now) <==> now >= st.evaluation.dbNow)
            && log[|log| - 1].createdAt == st.evaluation.dbNow
  {
    var c, e := s.tick.claimed[IndexOf(s.tick.claimed, st.id)], st.evaluation;
    EvaluationAppends(s.db, c, e);
    var n :| AfterEvaluation(s.db, c, e).deliveryLog == s.db.deliveryLog + [Outbox(s.db, c.id, n, e.dbNow)];
    OutboxIsDue(s.db, c.id, n, e.dbNow, now);
  }

  lemma DecisionKeepsValid(s: System, poolSize: nat, st: SystemStep)
    requires Numbered(s) && Delivery.Valid(View(s)) && CanStep(s, poolSize, st) && st.Finish?
    ensures Numbered(Next(s, poolSize, st)) && Delivery.Valid(View(Next(s, poolSize, st)))
  {
    StepIsSeen(s, poolSize, st);
    var seen := Seen(s, poolSize, st);
    if seen != [] {
      Delivery.StepKeepsValid(View(s), seen[0]);
    }
  }

  lemma ReachedIsValid(poolSize: nat, run: seq<SystemStep>)
    requires Run(START, poolSize, run)
    ensures Numbered(Final(START, poolSize, run)) && Delivery.Valid(View(Final(START, poolSize, run)))
  {
    RunIsSeen(START, poolSize, run);
    WorkerStaysValid(View(START), SeenRun(START, poolSize, run));
  }

  lemma FreshNotificationEnds(s: System, poolSize: nat, after: seq<SystemStep>)
    requires Numbered(s) && Delivery.Valid(View(s)) && Fresh(s) && Run(s, poolSize, after)
    ensures Ended(s, poolSize, after, s.db.deliveryLog[|s.db.deliveryLog| - 1])
  {
    var row := s.db.deliveryLog[|s.db.deliveryLog| - 1];
    FreshRowEnds(s, poolSize, after, row.id);
    if DeleteRule(row.ruleId) !in after {
      RunKeepsRow(s, poolSize, after, row.id);
    }
  }

  /**
   End to end, from an empty service: the row inserted with a committed decision
   is posted at most five times and once more for each status write that is lost,
   whatever evaluations, other rules, restarts and deliveries come in between. It
   leaves the log only with its rule; while it is there it is sent exactly when an
   attempt answered with a code from 200 to 299 was written down, failed exactly when
   five others were, and holds the code of the last response.
   */
  lemma NotificationEnds(poolSize: nat, before: seq<SystemStep>, decision: SystemStep, after: seq<SystemStep>)
    requires Run(START, poolSize, before) && decision.Finish?
    requires CanStep(Final(START, poolSize, before), poolSize, decision)
    requires var s := Final(START, poolSize, before);
             var s' := Next(s, poolSize, decision);
             && |s'.db.deliveryLog| > |s.db.deliveryLog|
             && Run(s', poolSize, after)
    ensures var s' := Next(Final(START, poolSize, before), poolSize, decision);
            Ended(s', poolSize, after, s'.db.deliveryLog[|s'.db.deliveryLog| - 1])
  {
    ReachedIsValid(poolSize, before);
    var s := Final(START, poolSize, before);
    DecisionInserts(s, poolSize, decision);
    DecisionKeepsValid(s, poolSize, decision);
    FreshNotificationEnds(Next(s, poolSize, decision), poolSize, after);
  }
}
