/**
 The alert_rules, alert_state and delivery_log tables and the operations on
 them. Each operation is one atomic statement or transaction; the class runs
 it in place and the functions below it say what it does to the tables.
 */
module RuleStore {
  import opened Prelude
  import opened GoTime
  import opened Transitions

  type RuleId = nat
  type TargetId = nat

  datatype ConditionType = Threshold | Absence | UnknownCondition

  datatype Comparator = Gt | Gte | Lt | Lte | Eq | Ne | UnknownComparator

  datatype Rule = Rule(
    conditionType: ConditionType, comparator: Option<Comparator>, thresholdValue: Option<real>,
    evalIntervalSeconds: int, forMinutes: int, renotifyIntervalMinutes: Option<int>,
    target: TargetId, enabled: bool)

  datatype EvalStatus = EvalOk | EvalError

  datatype AlertRow = AlertRow(
    core: Core, lastEvaluatedAt: Option<Instant>, lastEvalStatus: EvalStatus, lastError: Option<string>,
    lastValue: Option<real>, consecutiveErrors: nat, nextEvalAt: Instant, claimedAt: Option<Instant>)

  datatype RuleWithState = RuleWithState(id: RuleId, rule: Rule, core: Core)

  datatype NotifyEvent = NotifyEvent(target: TargetId, event: Event, payload: string)

  datatype DeliveryStatus = AwaitingSend | Retrying | Sent | Failed

  datatype DeliveryRow = DeliveryRow(
    id: nat, ruleId: RuleId, notify: NotifyEvent, status: DeliveryStatus, attemptCount: nat, maxAttempts: int,
    nextAttemptAt: Option<Instant>, lastAttemptAt: Option<Instant>, lastError: Option<string>,
    responseStatus: Option<int>, createdAt: Instant)

  datatype Db = Db(
    rules: map<RuleId, Rule>, alertState: map<RuleId, AlertRow>,
    deliveryLog: seq<DeliveryRow>, nextDeliveryId: nat)

  const DEFAULT_MAX_ATTEMPTS := 5

  /** make_interval(secs => r.eval_interval_seconds); Postgres intervals do not wrap. */
  function Interval(r: Rule): Duration {
    r.evalIntervalSeconds * SECOND
  }

  function AfterCreate(db: Db, id: RuleId, r: Rule, now: Instant): Db {
    db.(rules := db.rules[id := r],
        alertState := db.alertState[id := AlertRow(INITIAL, None, EvalOk, None, None, 0, now, None)])
  }

  /** Both alert_state and delivery_log reference the rule ON DELETE CASCADE. */
  function AfterDelete(db: Db, id: RuleId): Db {
    db.(rules := db.rules - {id}, alertState := db.alertState - {id},
        deliveryLog := RowsNotOf(db.deliveryLog, id))
  }

  function RowsNotOf(log: seq<DeliveryRow>, id: RuleId): seq<DeliveryRow> {
    if log == [] then []
    else
      var rest := RowsNotOf(log[..|log| - 1], id);
      if log[|log| - 1].ruleId == id then rest else rest + [log[|log| - 1]]
  }

  // ---- ClaimDueRules --------------------------------------------------

  /** Due, enabled rules whose rows no concurrent claim has locked (FOR UPDATE SKIP LOCKED). */
  function Candidates(db: Db, now: Instant, locked: set<RuleId>): set<RuleId> {
    set id | id in db.alertState && id in db.rules && db.rules[id].enabled
             && db.alertState[id].nextEvalAt <= now && id !in locked
  }

  /** The sets of rules one claim may pick: ORDER BY next_eval_at LIMIT batchSize, ties in any order. */
  ghost predicate Claims(db: Db, now: Instant, batchSize: nat, locked: set<RuleId>, picked: set<RuleId>) {
    && picked <= Candidates(db, now, locked)
    && |picked| <= batchSize
    && (picked == Candidates(db, now, locked) || |picked| == batchSize)
    && forall a, b :: a in picked && b in Candidates(db, now, locked) && b !in picked ==>
                        db.alertState[a].nextEvalAt <= db.alertState[b].nextEvalAt
  }

  function Bumped(row: AlertRow, r: Rule, now: Instant): AlertRow {
    row.(nextEvalAt := now + Interval(r), claimedAt := Some(now))
  }

  function AfterClaim(db: Db, picked: set<RuleId>, now: Instant): Db {
    db.(alertState := map id | id in db.alertState ::
          if id in picked && id in db.rules then Bumped(db.alertState[id], db.rules[id], now) else db.alertState[id])
  }

  // ---- ApplyTransition and RecordError --------------------------------

  function Outbox(db: Db, id: RuleId, notify: NotifyEvent, now: Instant): DeliveryRow {
    DeliveryRow(db.nextDeliveryId, id, notify, AwaitingSend, 0, DEFAULT_MAX_ATTEMPTS, Some(now), None, None, None, now)
  }

  /**
   The state update and the outbox insert commit together. For a rule deleted
   meanwhile the update touches no row and the insert breaks its foreign key,
   so the tables keep their contents either way.
   */
  function AfterApply(db: Db, id: RuleId, next: Core, value: Option<real>, notify: Option<NotifyEvent>,
                      now: Instant): Db
  {
    if id !in db.alertState || id !in db.rules then db
    else
      var row := db.alertState[id].(core := Stored(next), lastEvaluatedAt := Some(now), lastEvalStatus := EvalOk,
                                    lastError := None, lastValue := value, consecutiveErrors := 0);
      var updated := db.(alertState := db.alertState[id := row]);
      if notify.None? then updated
      else updated.(deliveryLog := db.deliveryLog + [Outbox(db, id, notify.value, now)],
                    nextDeliveryId := db.nextDeliveryId + 1)
  }

  function AfterError(db: Db, id: RuleId, message: string, now: Instant): Db {
    if id !in db.alertState then db
    else
      var row := db.alertState[id];
      db.(alertState := db.alertState[id := row.(lastEvaluatedAt := Some(now), lastEvalStatus := EvalError,
                                                 lastError := Some(message),
                                                 consecutiveErrors := row.consecutiveErrors + 1)])
  }

  // ---- Proof of the claim loop ----------------------------------------

  /** A row with the least next_eval_at among `s`: the head of the ORDER BY. */
  method Earliest(s: set<RuleId>, table: map<RuleId, AlertRow>) returns (id: RuleId)
    requires s != {} && s <= table.Keys
    ensures id in s && forall o :: o in s ==> table[id].nextEvalAt <= table[o].nextEvalAt
  {
    id :| id in s;
    var rest := s - {id};
    while rest != {}
      invariant rest <= s && id in s
      invariant forall o :: o in s && o !in rest ==> table[id].nextEvalAt <= table[o].nextEvalAt
      decreases rest
    {
      var o :| o in rest;
      if table[o].nextEvalAt < table[id].nextEvalAt {
        id := o;
      }
      rest := rest - {o};
    }
  }

  function IdsOf(claimed: seq<RuleWithState>): set<RuleId> {
    set c | c in claimed :: c.id
  }

  lemma IdsOfAppend(claimed: seq<RuleWithState>, c: RuleWithState)
    ensures IdsOf(claimed + [c]) == IdsOf(claimed) + {c.id}
  {
    assert forall x :: x in claimed + [c] <==> x in claimed || x == c;
  }

  lemma ClaimOneMore(db: Db, picked: set<RuleId>, id: RuleId, now: Instant)
    requires id in db.alertState && id in db.rules && id !in picked
    ensures AfterClaim(db, picked + {id}, now).alertState
         == AfterClaim(db, picked, now).alertState[id := Bumped(db.alertState[id], db.rules[id], now)]
  {
  }

  /** The rows a claim returns: the rule and its state machine columns as they were before the bump. */
  predicate Snapshots(db: Db, claimed: seq<RuleWithState>) {
    forall i :: 0 <= i < |claimed| ==>
      && claimed[i].id in db.rules && claimed[i].id in db.alertState
      && claimed[i].rule == db.rules[claimed[i].id]
      && claimed[i].core == db.alertState[claimed[i].id].core
  }

  /** Halfway through a claim: `picked` is marked in `table`, `rest` is still to be picked from. */
  ghost predicate PartialPick(
    db: Db, now: Instant, locked: set<RuleId>, picked: set<RuleId>, rest: set<RuleId>, table: map<RuleId, AlertRow>)
  {
    var due := Candidates(db, now, locked);
    && picked <= due && rest == due - picked
    && table == AfterClaim(db, picked, now).alertState
    && forall a, b :: a in picked && b in rest ==> db.alertState[a].nextEvalAt <= db.alertState[b].nextEvalAt
  }

  ghost predicate PartialClaim(
    db: Db, now: Instant, locked: set<RuleId>, out: seq<RuleWithState>, rest: set<RuleId>,
    table: map<RuleId, AlertRow>)
  {
    && PartialPick(db, now, locked, IdsOf(out), rest, table)
    && |IdsOf(out)| == |out|
    && Snapshots(db, out)
  }

  lemma PickStep(
    db: Db, now: Instant, locked: set<RuleId>, picked: set<RuleId>, rest: set<RuleId>,
    table: map<RuleId, AlertRow>, id: RuleId)
    requires PartialPick(db, now, locked, picked, rest, table)
    requires id in rest && forall o :: o in rest ==> table[id].nextEvalAt <= table[o].nextEvalAt
    ensures table[id] == db.alertState[id]
    ensures PartialPick(db, now, locked, picked + {id}, rest - {id}, table[id := Bumped(table[id], db.rules[id], now)])
  {
    UnclaimedRows(db, picked, rest, now);
    EarliestFirst(db, picked, rest, id);
    ClaimOneMore(db, picked, id, now);
  }

  lemma PartialClaimStart(db: Db, now: Instant, locked: set<RuleId>)
    ensures PartialClaim(db, now, locked, [], Candidates(db, now, locked), db.alertState)
  {
    assert IdsOf([]) == {};
    assert AfterClaim(db, {}, now).alertState == db.alertState;
  }

  lemma PartialClaimDone(
    db: Db, now: Instant, batchSize: nat, locked: set<RuleId>, out: seq<RuleWithState>, rest: set<RuleId>,
    table: map<RuleId, AlertRow>)
    requires PartialClaim(db, now, locked, out, rest, table)
    requires |out| <= batchSize && (|out| == batchSize || rest == {})
    ensures Claims(db, now, batchSize, locked, IdsOf(out))
    ensures db.(alertState := table) == AfterClaim(db, IdsOf(out), now)
    ensures |IdsOf(out)| == |out| && Snapshots(db, out)
  {
    var due, picked := Candidates(db, now, locked), IdsOf(out);
    assert due == picked + rest;
    if rest == {} {
      assert picked + rest == picked;
    }
  }

  lemma PartialClaimStep(
    db: Db, now: Instant, locked: set<RuleId>, out: seq<RuleWithState>, rest: set<RuleId>, table: map<RuleId, AlertRow>,
    id: RuleId)
    requires PartialClaim(db, now, locked, out, rest, table)
    requires id in rest && forall o :: o in rest ==> table[id].nextEvalAt <= table[o].nextEvalAt
    ensures PartialClaim(db, now, locked, out + [RuleWithState(id, db.rules[id], table[id].core)], rest - {id},
                         table[id := Bumped(table[id], db.rules[id], now)])
  {
    var c := RuleWithState(id, db.rules[id], table[id].core);
    PickStep(db, now, locked, IdsOf(out), rest, table, id);
    SnapshotsAppend(db, out, c);
  }

  lemma SnapshotsAppend(db: Db, out: seq<RuleWithState>, c: RuleWithState)
    requires Snapshots(db, out) && |IdsOf(out)| == |out| && c.id !in IdsOf(out)
    requires c.id in db.rules && c.id in db.alertState && c.rule == db.rules[c.id] && c.core == db.alertState[c.id].core
    ensures Snapshots(db, out + [c]) && IdsOf(out + [c]) == IdsOf(out) + {c.id} && |IdsOf(out + [c])| == |out| + 1
  {
    IdsOfAppend(out, c);
  }

  lemma EarliestFirst(db: Db, picked: set<RuleId>, rest: set<RuleId>, id: RuleId)
    requires picked + rest <= db.alertState.Keys && id in rest
    requires forall a, b :: a in picked && b in rest ==> db.alertState[a].nextEvalAt <= db.alertState[b].nextEvalAt
    requires forall o :: o in rest ==> db.alertState[id].nextEvalAt <= db.alertState[o].nextEvalAt
    ensures forall a, b :: a in picked + {id} && b in rest - {id} ==>
                           db.alertState[a].nextEvalAt <= db.alertState[b].nextEvalAt
  {
  }

  lemma UnclaimedRows(db: Db, picked: set<RuleId>, rest: set<RuleId>, now: Instant)
    requires rest <= db.alertState.Keys && rest !! picked
    ensures forall o :: o in rest ==> o in AfterClaim(db, picked, now).alertState &&
                                      AfterClaim(db, picked, now).alertState[o] == db.alertState[o]
  {
  }

  // ---------------------------------------------------------------------
  // The store itself
  // ---------------------------------------------------------------------

  class Store {
    var rules: map<RuleId, Rule>
    var alertState: map<RuleId, AlertRow>
    var deliveryLog: seq<DeliveryRow>
    var nextDeliveryId: nat

    function Tables(): Db
      reads this
    {
      Db(rules, alertState, deliveryLog, nextDeliveryId)
    }

    constructor ()
      ensures Tables() == Db(map[], map[], [], 0)
    {
      rules, alertState, deliveryLog, nextDeliveryId := map[], map[], [], 0;
    }

    /** Inserts the rule and its initial alert_state row in one transaction. */
    method Create(id: RuleId, r: Rule, now: Instant)
      requires id !in rules
      modifies this
      ensures Tables() == AfterCreate(old(Tables()), id, r, now)
    {
      rules := rules[id := r];
      alertState := alertState[id := AlertRow(INITIAL, None, EvalOk, None, None, 0, now, None)];
    }

    /** Picks the rule due longest and marks its row. */
    method ClaimNext(ghost db: Db, now: Instant, ghost locked: set<RuleId>, ghost out: seq<RuleWithState>,
                     rest: set<RuleId>)
      returns (c: RuleWithState)
      requires rest != {} && PartialClaim(db, now, locked, out, rest, alertState) && rules == db.rules
      modifies `alertState
      ensures c.id in rest && PartialClaim(db, now, locked, out + [c], rest - {c.id}, alertState)
    {
      var id := Earliest(rest, alertState);
      PartialClaimStep(db, now, locked, out, rest, alertState, id);
      c := RuleWithState(id, rules[id], alertState[id].core);
      alertState := alertState[id := Bumped(alertState[id], rules[id], now)];
    }

    /** A negative LIMIT is a database error and claims nothing. */
    method ClaimDueRules(now: Instant, batchSize: int, locked: set<RuleId>)
      returns (claimed: Option<seq<RuleWithState>>)
      modifies this
      ensures claimed.None? <==> batchSize < 0
      ensures claimed.None? ==> Tables() == old(Tables())
      ensures claimed.Some? ==>
                && Claims(old(Tables()), now, batchSize, locked, IdsOf(claimed.value))
                && Tables() == AfterClaim(old(Tables()), IdsOf(claimed.value), now)
                && |IdsOf(claimed.value)| == |claimed.value|
                && Snapshots(old(Tables()), claimed.value)
    {
      if batchSize < 0 {
        return None;
      }
      ghost var db := Tables();
      var rest := Candidates(Tables(), now, locked);
      var out: seq<RuleWithState> := [];
      PartialClaimStart(db, now, locked);
      while |out| < batchSize && rest != {}
        invariant |out| <= batchSize
        invariant PartialClaim(db, now, locked, out, rest, alertState)
        invariant Tables() == db.(alertState := alertState)
        decreases rest
      {
        var c := ClaimNext(db, now, locked, out, rest);
        out := out + [c];
        rest := rest - {c.id};
      }
      PartialClaimDone(db, now, batchSize, locked, out, rest, alertState);
      return Some(out);
    }

    method ApplyTransition(id: RuleId, next: Core, value: Option<real>, notify: Option<NotifyEvent>, now: Instant,
                           commits: bool)
      modifies this
      ensures Tables() == if commits then AfterApply(old(Tables()), id, next, value, notify, now) else old(Tables())
    {
      if !commits || id !in alertState || id !in rules {
        return;
      }
      if notify.Some? {
        deliveryLog := deliveryLog + [Outbox(Tables(), id, notify.value, now)];
        nextDeliveryId := nextDeliveryId + 1;
      }
      var row := alertState[id].(core := Stored(next), lastEvaluatedAt := Some(now), lastEvalStatus := EvalOk,
                                 lastError := None, lastValue := value, consecutiveErrors := 0);
      alertState := alertState[id := row];
    }

    method RecordError(id: RuleId, message: string, now: Instant, commits: bool)
      modifies this
      ensures Tables() == if commits then AfterError(old(Tables()), id, message, now) else old(Tables())
    {
      if commits && id in alertState {
        var row := alertState[id];
        alertState := alertState[id := row.(lastEvaluatedAt := Some(now), lastEvalStatus := EvalError,
                                            lastError := Some(message),
                                            consecutiveErrors := row.consecutiveErrors + 1)];
      }
    }
  }
}
