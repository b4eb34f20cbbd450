/**
 The alerting service as one transition system: a single evaluator ticking
 over the shared tables, rules being created and deleted, the delivery worker
 updating its log, and the service being killed and started again, in any interleaving.
 */
module AlertSystem {
  import opened Prelude
  import opened GoTime
  import opened Transitions
  import opened RuleStore
  import opened Evaluator
  import Delivery

  /**
   One tick of the evaluator. claimed[..spawned] have been handed to a
   goroutine; `running` hold a semaphore slot; `finished` is the order in
   which evaluations ended.
   */
  datatype Tick = Idle | Ticking(claimed: seq<RuleWithState>, spawned: nat, running: set<RuleId>, finished: seq<RuleId>)

  /** A committed evaluation, and the payload that was rendered for its notification, if any. */
  datatype Entry = Entry(obs: Obs, payload: Option<string>)

  /**
   `queue` is the delivery worker's claimed rows. `history` records, per existing
   rule, the evaluations that committed: what the tables are compared with.
   */
  datatype System = System(db: Db, tick: Tick, queue: seq<DeliveryRow>, history: map<RuleId, seq<Entry>>)

  datatype SystemStep =
    | ClaimTick(now: Instant, batchSize: nat, claimed: seq<RuleWithState>)
    | Spawn
    | Finish(id: RuleId, evaluation: Evaluation)
    | Return
    | CreateRule(id: RuleId, rule: Rule, now: Instant)
    | DeleteRule(id: RuleId)
    | ClaimDeliveries(now: Instant, picked: seq<nat>)
    | AttemptDelivery(wire: Delivery.Wire, message: string, now: Instant, written: bool)
    | Kill

  const START := System(Db(map[], map[], [], 0), Idle, [], map[])

  /** delivery_log by row id. */
  function ById(log: seq<DeliveryRow>): Delivery.Log {
    if log == [] then map[] else ById(log[..|log| - 1])[log[|log| - 1].id := log[|log| - 1]]
  }

  function Marked(log: seq<DeliveryRow>, picked: seq<nat>, now: Instant): seq<DeliveryRow> {
    seq(|log|, i requires 0 <= i < |log| => if log[i].id in picked then log[i].(lastAttemptAt := Some(now)) else log[i])
  }

  /** The status write after an attempt on the claimed row `c`. */
  function Tried(log: seq<DeliveryRow>, c: DeliveryRow, st: SystemStep): seq<DeliveryRow>
    requires st.AttemptDelivery?
  {
    seq(|log|, i requires 0 <= i < |log| =>
      if st.written && log[i].id == c.id then Delivery.AfterAttempt(log[i], c, st.wire, st.message, st.now) else log[i])
  }

  function Ids(claimed: seq<RuleWithState>): seq<RuleId> {
    seq(|claimed|, i requires 0 <= i < |claimed| => claimed[i].id)
  }

  function IndexOf(claimed: seq<RuleWithState>, id: RuleId): (i: nat)
    requires id in Ids(claimed)
    ensures i < |claimed| && claimed[i].id == id
  {
    if claimed[0].id == id then 0
    else
      assert Ids(claimed)[1..] == Ids(claimed[1..]);
      1 + IndexOf(claimed[1..], id)
  }

  ghost predicate CanStep(s: System, poolSize: nat, st: SystemStep) {
    match st
    case ClaimTick(now, batchSize, claimed) =>
      && s.tick.Idle?
      && Claims(s.db, now, batchSize, {}, IdsOf(claimed))
      && Snapshots(s.db, claimed)
      && |IdsOf(claimed)| == |claimed|
    case Spawn => s.tick.Ticking? && s.tick.spawned < |s.tick.claimed| && |s.tick.running| < poolSize
    case Finish(id, _) => s.tick.Ticking? && id in s.tick.running && id in Ids(s.tick.claimed)
    case Return => s.tick.Ticking? && s.tick.spawned == |s.tick.claimed| && s.tick.running == {}
    case CreateRule(id, _, _) => id !in s.db.rules && (s.tick.Ticking? ==> id !in Ids(s.tick.claimed))
    case DeleteRule(_) => true
    case ClaimDeliveries(now, picked) => s.queue == [] && Delivery.DeliveryClaim(ById(s.db.deliveryLog), now, picked)
    case AttemptDelivery(_, _, _, _) => s.queue != []
    case Kill => true
  }

  function Recorded(s: System, c: RuleWithState, e: Evaluation): map<RuleId, seq<Entry>> {
    if e.commits && Judge(c, e).Decided? && c.id in s.history
    then s.history[c.id := s.history[c.id] + [Entry(Obs(e.now, Judge(c, e).conditionTrue), e.payload)]]
    else s.history
  }

  function Next(s: System, poolSize: nat, st: SystemStep): System
    requires CanStep(s, poolSize, st)
  {
    match st
    case ClaimTick(now, _, claimed) =>
      s.(db := AfterClaim(s.db, IdsOf(claimed), now),
         tick := if claimed == [] then Idle else Ticking(claimed, 0, {}, []))
    case Spawn =>
      s.(tick := s.tick.(running := s.tick.running + {s.tick.claimed[s.tick.spawned].id},
                         spawned := s.tick.spawned + 1))
    case Finish(id, e) =>
      var c := s.tick.claimed[IndexOf(s.tick.claimed, id)];
      s.(db := AfterEvaluation(s.db, c, e),
         tick := s.tick.(running := s.tick.running - {id}, finished := s.tick.finished + [id]),
         history := Recorded(s, c, e))
    case Return => s.(tick := Idle)
    case CreateRule(id, rule, now) => s.(db := AfterCreate(s.db, id, rule, now), history := s.history[id := []])
    case DeleteRule(id) => s.(db := AfterDelete(s.db, id), history := s.history - {id})
    case ClaimDeliveries(now, picked) =>
      s.(db := s.db.(deliveryLog := Marked(s.db.deliveryLog, picked, now)),
         queue := Delivery.Snapshot(Delivery.MarkClaimed(ById(s.db.deliveryLog), picked, now), picked))
    case AttemptDelivery(_, _, _, _) =>
      s.(db := s.db.(deliveryLog := Tried(s.db.deliveryLog, s.queue[0], st)), queue := s.queue[1..])
    case Kill => s.(tick := Idle, queue := [])
  }

  // ---------------------------------------------------------------------
  // What the tables mean
  // ---------------------------------------------------------------------

  function Observations(entries: seq<Entry>): seq<Obs> {
    seq(|entries|, i requires 0 <= i < |entries| => entries[i].obs)
  }

  /** The notifications a rule owes: committed decisions whose payload was built, in order. */
  function Owed(r: Rule, entries: seq<Entry>): seq<NotifyEvent> {
    if entries == [] then []
    else
      var rest := Owed(r, entries[..|entries| - 1]);
      var d := LastDecision(PolicyOf(r), Observations(entries));
      var n := BuildNotifyEvent(r, d, entries[|entries| - 1].payload);
      if n.Some? then rest + [n.value] else rest
  }

  /** The notifications delivery_log holds for a rule, in insertion order. */
  function Logged(log: seq<DeliveryRow>, id: RuleId): seq<NotifyEvent> {
    if log == [] then []
    else
      var rest := Logged(log[..|log| - 1], id);
      if log[|log| - 1].ruleId == id then rest + [log[|log| - 1].notify] else rest
  }

  /** State columns and outbox rows that are what a committed history says. */
  predicate RowMatches(r: Rule, core: Core, logged: seq<NotifyEvent>, entries: seq<Entry>) {
    core == Replay(PolicyOf(r), Observations(entries)) && logged == Owed(r, entries)
  }

  predicate RuleMatches(s: System, id: RuleId) {
    && id in s.db.rules && id in s.db.alertState && id in s.history
    && RowMatches(s.db.rules[id], s.db.alertState[id].core, Logged(s.db.deliveryLog, id), s.history[id])
  }

  ghost predicate TablesMatchHistory(s: System) {
    && s.db.rules.Keys == s.db.alertState.Keys == s.history.Keys
    && forall id :: id in s.db.rules ==> RuleMatches(s, id)
  }

  /** Rows in the log belong to existing rules. */
  ghost predicate LogIsOwned(s: System) {
    forall i :: 0 <= i < |s.db.deliveryLog| ==> s.db.deliveryLog[i].ruleId in s.db.rules
  }

  /** No lost update: until its own evaluation finishes, a claimed row is what the claim returned. */
  ghost predicate SnapshotsFresh(s: System) {
    s.tick.Ticking? ==>
      forall i :: 0 <= i < |s.tick.claimed| && s.tick.claimed[i].id !in s.tick.finished
                  && s.tick.claimed[i].id in s.db.rules && s.tick.claimed[i].id in s.db.alertState ==>
        && s.db.rules[s.tick.claimed[i].id] == s.tick.claimed[i].rule
        && s.db.alertState[s.tick.claimed[i].id].core == s.tick.claimed[i].core
  }

  /** The pool: handed-out rules are running or finished, never both, and running ones hold a slot. */
  ghost predicate PoolValid(s: System, poolSize: nat) {
    s.tick.Ticking? ==>
      var t := s.tick;
      && t.spawned <= |t.claimed|
      && |t.running| <= poolSize
      && (poolSize == 0 ==> t.spawned == 0)
      && multiset(t.running) + multiset(t.finished) == multiset(Ids(t.claimed)[..t.spawned])
      && (forall i, j :: 0 <= i < j < |t.claimed| ==> t.claimed[i].id != t.claimed[j].id)
  }

  ghost predicate Inv(s: System, poolSize: nat) {
    TablesMatchHistory(s) && LogIsOwned(s) && SnapshotsFresh(s) && PoolValid(s, poolSize)
  }

  // ---------------------------------------------------------------------
  // Every step keeps it
  // ---------------------------------------------------------------------

  lemma {:induction false} DistinctIds(claimed: seq<RuleWithState>)
    requires |IdsOf(claimed)| == |claimed|
    ensures forall i, j :: 0 <= i < j < |claimed| ==> claimed[i].id != claimed[j].id
  {
    if claimed != [] {
      var n := |claimed| - 1;
      var front := claimed[..n];
      assert claimed == front + [claimed[n]];
      IdsOfAppend(front, claimed[n]);
      IdsAtMost(front);
      DistinctIds(front);
      forall i | 0 <= i < n ensures claimed[i].id != claimed[n].id {
        assert front[i] in front;
        assert claimed[n].id in IdsOf(front) ==> IdsOf(claimed) == IdsOf(front);
      }
    }
  }

  lemma {:induction false} IdsAtMost(claimed: seq<RuleWithState>)
    ensures |IdsOf(claimed)| <= |claimed|
  {
    if claimed != [] {
      var front := claimed[..|claimed| - 1];
      assert claimed == front + [claimed[|claimed| - 1]];
      IdsOfAppend(front, claimed[|claimed| - 1]);
      IdsAtMost(front);
    } else {
      assert IdsOf(claimed) == {};
    }
  }

  lemma ClaimKeepsInv(s: System, poolSize: nat, st: SystemStep)
    requires Inv(s, poolSize) && CanStep(s, poolSize, st) && st.ClaimTick?
    ensures Inv(Next(s, poolSize, st), poolSize)
  {
    ClaimKeepsTables(s, st.claimed, st.now);
    ClaimStartsPool(s, poolSize, st);
  }

  /** A claim moves no column the history speaks of. */
  lemma ClaimKeepsTables(s: System, claimed: seq<RuleWithState>, now: Instant)
    requires TablesMatchHistory(s) && LogIsOwned(s)
    ensures var db := AfterClaim(s.db, IdsOf(claimed), now);
            && (forall id :: id in s.db.alertState ==>
                  id in db.alertState && db.alertState[id].core == s.db.alertState[id].core)
            && forall tick :: TablesMatchHistory(s.(db := db, tick := tick)) && LogIsOwned(s.(db := db, tick := tick))
  {
    var db := AfterClaim(s.db, IdsOf(claimed), now);
    forall tick ensures TablesMatchHistory(s.(db := db, tick := tick)) {
      var s' := s.(db := db, tick := tick);
      assert s'.db.alertState.Keys == s.db.alertState.Keys;
      forall id | id in s.db.rules ensures RuleMatches(s', id) {
        assert RuleMatches(s, id);
      }
    }
  }

  lemma ClaimStartsPool(s: System, poolSize: nat, st: SystemStep)
    requires Inv(s, poolSize) && CanStep(s, poolSize, st) && st.ClaimTick?
    ensures SnapshotsFresh(Next(s, poolSize, st)) && PoolValid(Next(s, poolSize, st), poolSize)
  {
    ClaimKeepsTables(s, st.claimed, st.now);
    DistinctIds(st.claimed);
    var s' := Next(s, poolSize, st);
    if s'.tick.Ticking? {
      assert Ids(s'.tick.claimed)[..0] == [];
    }
  }

  lemma SpawnKeepsInv(s: System, poolSize: nat)
    requires Inv(s, poolSize) && CanStep(s, poolSize, Spawn)
    ensures Inv(Next(s, poolSize, Spawn), poolSize)
  {
    SpawnKeepsPool(s, poolSize);
    SameTables(s, Next(s, poolSize, Spawn));
  }

  lemma SpawnKeepsPool(s: System, poolSize: nat)
    requires PoolValid(s, poolSize) && CanStep(s, poolSize, Spawn)
    ensures PoolValid(Next(s, poolSize, Spawn), poolSize)
  {
    var t, t' := s.tick, Next(s, poolSize, Spawn).tick;
    var ids, id := Ids(t.claimed), t.claimed[t.spawned].id;
    assert ids[..t'.spawned] == ids[..t.spawned] + [id];
    assert id !in multiset(ids[..t.spawned]) by {
      assert forall i :: 0 <= i < t.spawned ==> ids[..t.spawned][i] == t.claimed[i].id;
    }
    assert id !in multiset(t.running) + multiset(t.finished);
    assert id !in t.running;
    assert multiset(t'.running) == multiset(t.running) + multiset{id};
  }

  lemma {:induction false} LoggedAppend(log: seq<DeliveryRow>, row: DeliveryRow, id: RuleId)
    ensures Logged(log + [row], id) == if row.ruleId == id then Logged(log, id) + [row.notify] else Logged(log, id)
  {
    assert (log + [row])[..|log|] == log;
  }

  /** The same notifications for the same rules, in the same places. */
  predicate SameNotices(log: seq<DeliveryRow>, log': seq<DeliveryRow>) {
    |log'| == |log| && forall i :: 0 <= i < |log| ==> log'[i].ruleId == log[i].ruleId && log'[i].notify == log[i].notify
  }

  lemma {:induction false} LoggedSame(log: seq<DeliveryRow>, log': seq<DeliveryRow>, id: RuleId)
    requires SameNotices(log, log')
    ensures Logged(log', id) == Logged(log, id)
  {
    if log != [] {
      LoggedSame(log[..|log| - 1], log'[..|log| - 1], id);
    }
  }

  lemma {:induction false} LoggedWithout(log: seq<DeliveryRow>, gone: RuleId, id: RuleId)
    ensures forall row :: row in RowsNotOf(log, gone) ==> row in log && row.ruleId != gone
    ensures id != gone ==> Logged(RowsNotOf(log, gone), id) == Logged(log, id)
    ensures (forall i :: 0 <= i < |log| ==> log[i].ruleId != id) ==> Logged(log, id) == []
  {
    if log != [] {
      var front, last := log[..|log| - 1], log[|log| - 1];
      LoggedWithout(front, gone, id);
      LoggedAppend(RowsNotOf(front, gone), last, id);
    }
  }

  /** The heart of the refinement: one committed evaluation replays one more observation. */
  lemma ReplayOneMore(r: Rule, entries: seq<Entry>, entry: Entry)
    ensures var t := Step(PolicyOf(r), Replay(PolicyOf(r), Observations(entries)), entry.obs);
            var n := BuildNotifyEvent(r, t.notify, entry.payload);
            && Replay(PolicyOf(r), Observations(entries + [entry])) == Stored(t.next)
            && Owed(r, entries + [entry]) == Owed(r, entries) + (if n.Some? then [n.value] else [])
  {
    var after := entries + [entry];
    assert Observations(after)[..|entries|] == Observations(entries);
    assert after[..|entries|] == entries;
  }

  lemma AppliedLog(db: Db, c: RuleWithState, e: Evaluation, id: RuleId)
    requires Judge(c, e).Decided? && e.commits && c.id in db.rules && c.id in db.alertState
    ensures var n := BuildNotifyEvent(c.rule, Transition(c, e, Judge(c, e).conditionTrue).notify, e.payload);
            Logged(AfterEvaluation(db, c, e).deliveryLog, id)
            == Logged(db.deliveryLog, id) + (if id == c.id && n.Some? then [n.value] else [])
  {
    var n := BuildNotifyEvent(c.rule, Transition(c, e, Judge(c, e).conditionTrue).notify, e.payload);
    if n.Some? {
      LoggedAppend(db.deliveryLog, Outbox(db, c.id, n.value, e.dbNow), id);
    }
  }

  function Finished(s: System, c: RuleWithState, e: Evaluation): System {
    s.(db := AfterEvaluation(s.db, c, e), history := Recorded(s, c, e))
  }

  lemma FinishOneRule(s: System, c: RuleWithState, e: Evaluation, id: RuleId)
    requires RuleMatches(s, id) && s.db.rules.Keys == s.db.alertState.Keys == s.history.Keys
    requires c.id in s.db.rules ==> s.db.rules[c.id] == c.rule && s.db.alertState[c.id].core == c.core
    ensures RuleMatches(Finished(s, c, e), id)
  {
    if e.commits && Judge(c, e).Decided? && c.id in s.db.rules {
      AppliedLog(s.db, c, e, id);
      if id == c.id {
        ReplayOneMore(c.rule, s.history[id], Entry(Obs(e.now, Judge(c, e).conditionTrue), e.payload));
      }
    }
  }

  lemma FinishExtendsHistory(s: System, c: RuleWithState, e: Evaluation)
    requires TablesMatchHistory(s)
    requires c.id in s.db.rules ==> s.db.rules[c.id] == c.rule && s.db.alertState[c.id].core == c.core
    ensures TablesMatchHistory(Finished(s, c, e))
  {
    FinishKeepsKeys(s, c, e);
    forall id | id in s.db.rules ensures RuleMatches(Finished(s, c, e), id) {
      FinishOneRule(s, c, e, id);
    }
  }

  lemma FinishKeepsKeys(s: System, c: RuleWithState, e: Evaluation)
    requires s.db.rules.Keys == s.db.alertState.Keys == s.history.Keys
    ensures var s' := Finished(s, c, e);
            && s'.db.rules == s.db.rules
            && s'.db.rules.Keys == s'.db.alertState.Keys == s'.history.Keys
  {
    var s' := Finished(s, c, e);
    assert s'.history.Keys == s.history.Keys;
    assert s'.db.alertState.Keys == s.db.alertState.Keys;
  }

  lemma ApplyFrame(db: Db, id: RuleId, next: Core, value: Option<real>, notify: Option<NotifyEvent>, now: Instant)
    ensures var db' := AfterApply(db, id, next, value, notify, now);
            && db'.rules == db.rules
            && (forall o :: o in db.alertState && o != id ==>
                  o in db'.alertState && db'.alertState[o] == db.alertState[o])
            && |db.deliveryLog| <= |db'.deliveryLog|
            && forall i :: 0 <= i < |db'.deliveryLog| ==>
                 db'.deliveryLog[i].ruleId == if i < |db.deliveryLog| then db.deliveryLog[i].ruleId else id
  {
  }

  lemma FinishFrame(s: System, c: RuleWithState, e: Evaluation)
    requires LogIsOwned(s) && s.db.rules.Keys == s.db.alertState.Keys
    ensures var db' := AfterEvaluation(s.db, c, e);
            && db'.rules == s.db.rules
            && (forall id :: id in s.db.alertState && id != c.id ==>
                  id in db'.alertState && db'.alertState[id] == s.db.alertState[id])
            && forall i :: 0 <= i < |db'.deliveryLog| ==> db'.deliveryLog[i].ruleId in s.db.rules
  {
    if Judge(c, e).Decided? {
      var t := Transition(c, e, Judge(c, e).conditionTrue);
      ApplyFrame(s.db, c.id, t.next, Judge(c, e).value, BuildNotifyEvent(c.rule, t.notify, e.payload), e.dbNow);
    }
  }

  lemma FinishKeepsInv(s: System, poolSize: nat, st: SystemStep)
    requires Inv(s, poolSize) && CanStep(s, poolSize, st) && st.Finish?
    ensures Inv(Next(s, poolSize, st), poolSize)
  {
    var c := s.tick.claimed[IndexOf(s.tick.claimed, st.id)];
    var s' := Next(s, poolSize, st);
    NotFinished(s, poolSize, st.id);
    FinishExtendsHistory(s, c, st.evaluation);
    SameTables(Finished(s, c, st.evaluation), s');
    FinishFrame(s, c, st.evaluation);
    FinishKeepsPool(s, poolSize, st);
    FinishKeepsSnapshots(s, poolSize, st);
  }

  lemma SameTables(s: System, s': System)
    requires TablesMatchHistory(s) && s'.db == s.db && s'.history == s.history
    ensures TablesMatchHistory(s')
  {
    forall id | id in s.db.rules ensures RuleMatches(s', id) {
      assert RuleMatches(s, id);
    }
  }

  lemma FinishKeepsPool(s: System, poolSize: nat, st: SystemStep)
    requires PoolValid(s, poolSize) && CanStep(s, poolSize, st) && st.Finish?
    ensures PoolValid(Next(s, poolSize, st), poolSize)
  {
    assert multiset(s.tick.running - {st.id}) == multiset(s.tick.running) - multiset{st.id};
  }

  lemma FinishKeepsSnapshots(s: System, poolSize: nat, st: SystemStep)
    requires Inv(s, poolSize) && CanStep(s, poolSize, st) && st.Finish?
    ensures SnapshotsFresh(Next(s, poolSize, st))
  {
    var c := s.tick.claimed[IndexOf(s.tick.claimed, st.id)];
    FinishFrame(s, c, st.evaluation);
    assert forall id :: id in s.tick.finished + [st.id] <==> id in s.tick.finished || id == st.id;
  }

  lemma NotFinished(s: System, poolSize: nat, id: RuleId)
    requires PoolValid(s, poolSize) && s.tick.Ticking? && id in s.tick.running
    ensures id !in s.tick.finished
  {
    var t := s.tick;
    var ids := Ids(t.claimed)[..t.spawned];
    assert forall i, j :: 0 <= i < j < |ids| ==> ids[i] != ids[j];
    DistinctCount(ids, id);
    assert (multiset(t.running) + multiset(t.finished))[id] == multiset(ids)[id];
    assert id in t.finished <==> multiset(t.finished)[id] >= 1;
  }

  lemma {:induction false} DistinctCount(ids: seq<RuleId>, id: RuleId)
    requires forall i, j :: 0 <= i < j < |ids| ==> ids[i] != ids[j]
    ensures multiset(ids)[id] <= 1
  {
    if ids != [] {
      var front, last := ids[..|ids| - 1], ids[|ids| - 1];
      assert ids == front + [last];
      DistinctCount(front, id);
      if id == last {
        assert id !in front;
        assert id !in multiset(front);
      }
    }
  }

  lemma CreateKeepsInv(s: System, poolSize: nat, st: SystemStep)
    requires Inv(s, poolSize) && CanStep(s, poolSize, st) && st.CreateRule?
    ensures Inv(Next(s, poolSize, st), poolSize)
  {
    CreateKeepsTables(s, poolSize, st);
    if s.tick.Ticking? {
      forall i | 0 <= i < |s.tick.claimed| ensures s.tick.claimed[i].id != st.id {
        assert Ids(s.tick.claimed)[i] in Ids(s.tick.claimed);
      }
    }
  }

  lemma CreateKeepsTables(s: System, poolSize: nat, st: SystemStep)
    requires TablesMatchHistory(s) && LogIsOwned(s) && CanStep(s, poolSize, st) && st.CreateRule?
    ensures TablesMatchHistory(Next(s, poolSize, st)) && LogIsOwned(Next(s, poolSize, st))
  {
    var s' := Next(s, poolSize, st);
    forall id | id in s'.db.rules ensures RuleMatches(s', id) {
      if id != st.id {
        assert RuleMatches(s, id);
      } else {
        NewRuleMatches(s, st);
      }
    }
  }

  lemma NewRuleMatches(s: System, st: SystemStep)
    requires LogIsOwned(s) && st.CreateRule? && st.id !in s.db.rules
    ensures RuleMatches(s.(db := AfterCreate(s.db, st.id, st.rule, st.now), history := s.history[st.id := []]), st.id)
  {
    LoggedWithout(s.db.deliveryLog, st.id, st.id);
    assert Observations([]) == [];
  }

  lemma DeleteKeepsInv(s: System, poolSize: nat, gone: RuleId)
    requires Inv(s, poolSize)
    ensures Inv(Next(s, poolSize, DeleteRule(gone)), poolSize)
  {
    var s' := Next(s, poolSize, DeleteRule(gone));
    forall id | id in s'.db.rules ensures RuleMatches(s', id) {
      assert RuleMatches(s, id);
      LoggedWithout(s.db.deliveryLog, gone, id);
    }
    DeleteKeepsOwners(s, poolSize, gone);
  }

  lemma DeleteKeepsOwners(s: System, poolSize: nat, gone: RuleId)
    requires LogIsOwned(s)
    ensures LogIsOwned(Next(s, poolSize, DeleteRule(gone)))
  {
    var log' := RowsNotOf(s.db.deliveryLog, gone);
    LoggedWithout(s.db.deliveryLog, gone, gone);
    assert forall i :: 0 <= i < |log'| ==> log'[i] in log';
  }

  /** The worker rewrites rows of the log, never which notification they carry. */
  lemma WorkerKeepsInv(s: System, poolSize: nat, log: seq<DeliveryRow>, queue: seq<DeliveryRow>)
    requires Inv(s, poolSize) && SameNotices(s.db.deliveryLog, log)
    ensures Inv(s.(db := s.db.(deliveryLog := log), queue := queue), poolSize)
  {
    var s' := s.(db := s.db.(deliveryLog := log), queue := queue);
    forall id | id in s'.db.rules ensures RuleMatches(s', id) {
      assert RuleMatches(s, id);
      LoggedSame(s.db.deliveryLog, log, id);
    }
  }

  /** What the delivery worker's steps may change. */
  lemma WorkerFrame(s: System, poolSize: nat, st: SystemStep)
    requires CanStep(s, poolSize, st) && (st.ClaimDeliveries? || st.AttemptDelivery?)
    ensures var s' := Next(s, poolSize, st);
            && SameNotices(s.db.deliveryLog, s'.db.deliveryLog)
            && s' == s.(db := s.db.(deliveryLog := s'.db.deliveryLog), queue := s'.queue)
  {
  }

  lemma WorkerStepKeepsInv(s: System, poolSize: nat, st: SystemStep)
    requires Inv(s, poolSize) && CanStep(s, poolSize, st) && (st.ClaimDeliveries? || st.AttemptDelivery?)
    ensures Inv(Next(s, poolSize, st), poolSize)
  {
    var s' := Next(s, poolSize, st);
    WorkerFrame(s, poolSize, st);
    WorkerKeepsInv(s, poolSize, s'.db.deliveryLog, s'.queue);
  }

  /** Ending a tick, or losing it with the process, leaves the tables as they are. */
  lemma IdleKeepsInv(s: System, poolSize: nat, queue: seq<DeliveryRow>)
    requires Inv(s, poolSize)
    ensures Inv(s.(tick := Idle, queue := queue), poolSize)
  {
    SameTables(s, s.(tick := Idle, queue := queue));
  }

  lemma StepKeepsInv(s: System, poolSize: nat, st: SystemStep)
    requires Inv(s, poolSize) && CanStep(s, poolSize, st)
    ensures Inv(Next(s, poolSize, st), poolSize)
  {
    match st
    case ClaimTick(_, _, _) => ClaimKeepsInv(s, poolSize, st);
    case Spawn => SpawnKeepsInv(s, poolSize);
    case Finish(_, _) => FinishKeepsInv(s, poolSize, st);
    case Return => IdleKeepsInv(s, poolSize, s.queue);
    case CreateRule(_, _, _) => CreateKeepsInv(s, poolSize, st);
    case DeleteRule(gone) => DeleteKeepsInv(s, poolSize, gone);
    case ClaimDeliveries(_, _) => WorkerStepKeepsInv(s, poolSize, st);
    case AttemptDelivery(_, _, _, _) => WorkerStepKeepsInv(s, poolSize, st);
    case Kill => IdleKeepsInv(s, poolSize, []);
  }

  // ---------------------------------------------------------------------
  // Whole runs
  // ---------------------------------------------------------------------

  ghost predicate Run(s: System, poolSize: nat, run: seq<SystemStep>)
    decreases |run|
  {
    run != [] ==> CanStep(s, poolSize, run[0]) && Run(Next(s, poolSize, run[0]), poolSize, run[1..])
  }

  ghost function Final(s: System, poolSize: nat, run: seq<SystemStep>): System
    requires Run(s, poolSize, run)
    decreases |run|
  {
    if run == [] then s else Final(Next(s, poolSize, run[0]), poolSize, run[1..])
  }

  lemma {:induction false} RunKeepsInv(s: System, poolSize: nat, run: seq<SystemStep>)
    requires Inv(s, poolSize) && Run(s, poolSize, run)
    ensures Inv(Final(s, poolSize, run), poolSize)
    decreases |run|
  {
    if run != [] {
      StepKeepsInv(s, poolSize, run[0]);
      RunKeepsInv(Next(s, poolSize, run[0]), poolSize, run[1..]);
    }
  }

  /**
   History refinement: in every reachable state, whatever errors, failed commits,
   restarts, other rules and deliveries came in between, a rule's state columns are
   the meaning of its committed evaluations and its outbox rows are exactly
   the committed decisions whose payload was built.
   */
  lemma HistoryRefinement(poolSize: nat, run: seq<SystemStep>, id: RuleId)
    requires Run(START, poolSize, run) && id in Final(START, poolSize, run).db.rules
    ensures var s := Final(START, poolSize, run);
            && id in s.db.alertState && id in s.history
            && s.db.alertState[id].core == Meaning(PolicyOf(s.db.rules[id]), Observations(s.history[id]))
            && Logged(s.db.deliveryLog, id) == Owed(s.db.rules[id], s.history[id])
  {
    RunKeepsInv(START, poolSize, run);
    var s := Final(START, poolSize, run);
    assert RuleMatches(s, id);
    ReplayIsMeaning(PolicyOf(s.db.rules[id]), Observations(s.history[id]));
  }

  /** The committed evaluations of a rule, in order. */
  ghost function HistoryOf(poolSize: nat, run: seq<SystemStep>, id: RuleId): seq<Obs>
    requires Run(START, poolSize, run) && id in Final(START, poolSize, run).history
  {
    Observations(Final(START, poolSize, run).history[id])
  }

  /**
   For every run in which a rule's committed evaluations come in time order: its
   stored state is ok iff the trailing run of trues is empty, and firing iff the
   condition has held for its for_minutes -- in whole microseconds, from the
   first evaluation of that run to the last.
   */
  lemma StoredStateOfRun(poolSize: nat, run: seq<SystemStep>, id: RuleId)
    requires Run(START, poolSize, run) && id in Final(START, poolSize, run).db.rules
    requires id in Final(START, poolSize, run).history && Chronological(HistoryOf(poolSize, run, id))
    ensures id in Final(START, poolSize, run).db.alertState
    ensures var s, h := Final(START, poolSize, run), HistoryOf(poolSize, run, id);
            var state, minutes := s.db.alertState[id].core.state, s.db.rules[id].forMinutes;
            && (state == Ok <==> RunStart(h) == |h|)
            && (state == Firing <==> RunStart(h) < |h| && HeldFor(h, |h| - 1) >= Times(minutes, MINUTE))
            && (-MAX_EXACT_MINUTES <= minutes <= MAX_EXACT_MINUTES ==>
                  (state == Firing <==>
                   RunStart(h) < |h| && Micro(h[|h| - 1].at) - Micro(h[RunStart(h)].at) >= minutes * MINUTE))
  {
    var s, h := Final(START, poolSize, run), HistoryOf(poolSize, run, id);
    HistoryRefinement(poolSize, run, id);
    var p := PolicyOf(s.db.rules[id]);
    ReplayIsMeaning(p, h);
    MinutesFit(s.db.rules[id].forMinutes);
    StateOfChronologicalHistory(p, h);
  }

  function EventsOwed(owed: seq<NotifyEvent>): seq<Event> {
    seq(|owed|, i requires 0 <= i < |owed| => owed[i].event)
  }

  lemma {:induction false} OwedAreNotes(r: Rule, entries: seq<Entry>)
    requires forall i :: 0 <= i < |entries| ==> entries[i].payload.Some?
    ensures EventsOwed(Owed(r, entries)) == Events(Notes(PolicyOf(r), Observations(entries)))
  {
    if entries != [] {
      var front, last := entries[..|entries| - 1], entries[|entries| - 1];
      OwedAreNotes(r, front);
      var p, obs := PolicyOf(r), Observations(entries);
      assert obs[..|obs| - 1] == Observations(front);
      var d := LastDecision(p, obs);
      if d.Some? {
        assert Owed(r, entries) == Owed(r, front) + [NotifyEvent(r.target, d.value, last.payload.value)];
        assert EventsOwed(Owed(r, entries)) == EventsOwed(Owed(r, front)) + [d.value];
        assert Events(Notes(p, obs)) == Events(Notes(p, Observations(front))) + [d.value];
      }
    }
  }

  /** End to end: if every payload renders, a rule's delivery_log rows read (firing+ resolved)*, cut off anywhere. */
  lemma DeliveryLogReadsAsEpisodes(poolSize: nat, run: seq<SystemStep>, id: RuleId)
    requires Run(START, poolSize, run) && id in Final(START, poolSize, run).db.rules
    requires var s := Final(START, poolSize, run);
             id in s.history && forall i :: 0 <= i < |s.history[id]| ==> s.history[id][i].payload.Some?
    ensures IsEpisodeTrace(EventsOwed(Logged(Final(START, poolSize, run).db.deliveryLog, id)))
  {
    var s := Final(START, poolSize, run);
    HistoryRefinement(poolSize, run, id);
    OwedAreNotes(s.db.rules[id], s.history[id]);
    NotesAreEpisodes(PolicyOf(s.db.rules[id]), Observations(s.history[id]));
  }

  /**
   Each outbox row stands for one decision of the history, in order, and two
   firing rows with no resolution in between were decided at least the
   renotify interval apart.
   */
  lemma OutboxIsSpaced(poolSize: nat, run: seq<SystemStep>, id: RuleId)
    requires Run(START, poolSize, run) && id in Final(START, poolSize, run).db.rules
    requires var s := Final(START, poolSize, run);
             id in s.history && forall i :: 0 <= i < |s.history[id]| ==> s.history[id][i].payload.Some?
    ensures var s := Final(START, poolSize, run);
            var p, rows := PolicyOf(s.db.rules[id]), Logged(s.db.deliveryLog, id);
            var notes := Notes(p, HistoryOf(poolSize, run, id));
            && |rows| == |notes|
            && (forall i :: 0 <= i < |rows| ==> rows[i].event == notes[i].event)
            && forall i :: 0 <= i < |rows| - 1 && rows[i].event == rows[i + 1].event == FiringEvent ==>
                 var minutes := s.db.rules[id].renotifyIntervalMinutes;
                 minutes.Some? && Sub(notes[i + 1].at, Micro(notes[i].at)) >= Times(minutes.value, MINUTE)
  {
    var s := Final(START, poolSize, run);
    var p, h := PolicyOf(s.db.rules[id]), HistoryOf(poolSize, run, id);
    HistoryRefinement(poolSize, run, id);
    OwedAreNotes(s.db.rules[id], s.history[id]);
    NotesFollowRow(p, h);
    var rows, notes := Logged(s.db.deliveryLog, id), Notes(p, h);
    assert |EventsOwed(rows)| == |Events(notes)|;
    forall i | 0 <= i < |rows| ensures rows[i].event == notes[i].event {
      assert EventsOwed(rows)[i] == Events(notes)[i];
    }
  }

  /** Notification `n` is the one evaluation `k` of the history decided, for the rule's target, with its payload. */
  ghost predicate DecidedBy(r: Rule, entries: seq<Entry>, n: NotifyEvent, k: int) {
    && 0 <= k < |entries| && n.target == r.target && entries[k].payload == Some(n.payload)
    && LastDecision(PolicyOf(r), Observations(entries[..k + 1])) == Some(n.event)
  }

  lemma {:induction false} OwedDecided(r: Rule, entries: seq<Entry>, i: nat)
    requires i < |Owed(r, entries)|
    ensures exists k :: DecidedBy(r, entries, Owed(r, entries)[i], k)
  {
    var last := |entries| - 1;
    var front := entries[..last];
    if i < |Owed(r, front)| {
      OwedDecided(r, front, i);
      var k :| DecidedBy(r, front, Owed(r, front)[i], k);
      assert front[..k + 1] == entries[..k + 1];
      assert DecidedBy(r, entries, Owed(r, entries)[i], k);
    } else {
      assert entries[..last + 1] == entries;
      assert DecidedBy(r, entries, Owed(r, entries)[i], last);
    }
  }

  /**
   In every reachable state each outbox row of a rule goes to the rule's own
   target, with the event and the payload of one committed evaluation that decided it.
   */
  lemma OutboxCarriesDecisions(poolSize: nat, run: seq<SystemStep>, id: RuleId, i: nat)
    requires Run(START, poolSize, run) && id in Final(START, poolSize, run).db.rules
    requires i < |Logged(Final(START, poolSize, run).db.deliveryLog, id)|
    ensures var s := Final(START, poolSize, run);
            id in s.history && exists k :: DecidedBy(s.db.rules[id], s.history[id], Logged(s.db.deliveryLog, id)[i], k)
  {
    HistoryRefinement(poolSize, run, id);
    var s := Final(START, poolSize, run);
    OwedDecided(s.db.rules[id], s.history[id], i);
  }

  lemma MatureFires(db: Db, c: RuleWithState, e: Evaluation)
    requires c.id in db.rules && c.id in db.alertState && c.core.state == Pending && c.core.since.Some?
    requires e.commits && e.payload.Some? && Judge(c, e).Decided? && Judge(c, e).conditionTrue
    requires Sub(e.now, c.core.since.value) >= PolicyOf(c.rule).forMinutes
    ensures var db' := AfterEvaluation(db, c, e);
            && c.id in db'.rules && c.id in db'.alertState
            && Logged(db'.deliveryLog, c.id)
               == Logged(db.deliveryLog, c.id) + [NotifyEvent(c.rule.target, FiringEvent, e.payload.value)]
  {
    AppliedLog(db, c, e, c.id);
  }

  /**
   Why one evaluator: two evaluations that overlap work from the same
   snapshot, so a mature pending rule is announced as firing twice even when
   it asks for a single notification per episode.
   */
  lemma OverlapFiresTwice(db: Db, c: RuleWithState, first: Evaluation, second: Evaluation)
    requires c.id in db.rules && c.id in db.alertState && c.core.state == Pending && c.core.since.Some?
    requires forall e :: e in [first, second] ==>
               && e.commits && e.payload.Some? && Judge(c, e).Decided? && Judge(c, e).conditionTrue
               && Sub(e.now, c.core.since.value) >= PolicyOf(c.rule).forMinutes
    ensures Logged(AfterEvaluation(AfterEvaluation(db, c, first), c, second).deliveryLog, c.id)
         == Logged(db.deliveryLog, c.id) + [NotifyEvent(c.rule.target, FiringEvent, first.payload.value),
                                            NotifyEvent(c.rule.target, FiringEvent, second.payload.value)]
  {
    assert first in [first, second] && second in [first, second];
    MatureFires(db, c, first);
    MatureFires(AfterEvaluation(db, c, first), c, second);
    var before := Logged(db.deliveryLog, c.id);
    var n1 := NotifyEvent(c.rule.target, FiringEvent, first.payload.value);
    var n2 := NotifyEvent(c.rule.target, FiringEvent, second.payload.value);
    assert before + [n1] + [n2] == before + [n1, n2];
  }

  // ---------------------------------------------------------------------
  // The worker pool
  // ---------------------------------------------------------------------

  /** At most poolSize evaluations run at once, and a rule is never evaluated twice at a time or again in the tick. */
  lemma PoolIsBounded(poolSize: nat, run: seq<SystemStep>)
    requires Run(START, poolSize, run) && Final(START, poolSize, run).tick.Ticking?
    ensures var t := Final(START, poolSize, run).tick;
            && |t.running| <= poolSize
            && (forall id :: id in t.running ==> id !in t.finished)
            && (forall id :: id in t.running || id in t.finished ==> multiset(Ids(t.claimed))[id] == 1)
  {
    RunKeepsInv(START, poolSize, run);
    var s := Final(START, poolSize, run);
    var t := s.tick;
    var ids := Ids(t.claimed);
    forall id | id in t.running ensures id !in t.finished {
      NotFinished(s, poolSize, id);
    }
    forall id | id in t.running || id in t.finished ensures multiset(ids)[id] == 1 {
      DistinctCount(ids, id);
      assert id in multiset(ids[..t.spawned]) by {
        assert id in multiset(t.running) + multiset(t.finished);
      }
      assert ids == ids[..t.spawned] + ids[t.spawned..];
    }
  }

  /** A tick returns only after every claimed rule was evaluated exactly once. */
  lemma TickEvaluatesEachOnce(poolSize: nat, run: seq<SystemStep>)
    requires Run(START, poolSize, run) && CanStep(Final(START, poolSize, run), poolSize, Return)
    ensures var t := Final(START, poolSize, run).tick;
            multiset(t.finished) == multiset(Ids(t.claimed))
  {
    RunKeepsInv(START, poolSize, run);
    var t := Final(START, poolSize, run).tick;
    assert Ids(t.claimed)[..t.spawned] == Ids(t.claimed);
  }

  /** Spawns and finishes left before a tick can return. */
  function Remaining(t: Tick): nat
    requires t.Ticking? && t.spawned <= |t.claimed|
  {
    2 * (|t.claimed| - t.spawned) + |t.running|
  }

  /** Each pool step brings the tick one closer to returning; no other step touches the pool. */
  lemma PoolProgress(s: System, poolSize: nat, st: SystemStep)
    requires Inv(s, poolSize) && CanStep(s, poolSize, st) && s.tick.Ticking? && st != Return && st != Kill
    ensures var t' := Next(s, poolSize, st).tick;
            && t'.Ticking? && t'.claimed == s.tick.claimed && t'.spawned <= |t'.claimed|
            && Remaining(t') == Remaining(s.tick) - (if st.Spawn? || st.Finish? then 1 else 0)
  {
    StepKeepsInv(s, poolSize, st);
    if st.Spawn? {
      var id := s.tick.claimed[s.tick.spawned].id;
      var ids := Ids(s.tick.claimed);
      assert id !in multiset(ids[..s.tick.spawned]) by {
        assert forall i :: 0 <= i < s.tick.spawned ==> ids[..s.tick.spawned][i] == s.tick.claimed[i].id;
      }
      assert id !in multiset(s.tick.running) + multiset(s.tick.finished);
    }
  }

  /** A ticking evaluator can always take a pool step or return, exactly when the pool has a slot at all. */
  lemma PoolNeverStuck(s: System, poolSize: nat, e: Evaluation)
    requires Inv(s, poolSize) && s.tick.Ticking? && s.tick.claimed != []
    ensures poolSize >= 1 <==>
            || CanStep(s, poolSize, Spawn) || CanStep(s, poolSize, Return)
            || exists id :: CanStep(s, poolSize, Finish(id, e))
  {
    var t := s.tick;
    if t.running != {} {
      var id :| id in t.running;
      assert id in multiset(t.running) + multiset(t.finished);
      assert id in multiset(Ids(t.claimed)[..t.spawned]);
      assert CanStep(s, poolSize, Finish(id, e));
    }
  }
}
