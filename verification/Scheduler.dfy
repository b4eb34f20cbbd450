/**
 Fairness and spacing of rule claims, over every run of the rule store: any
 number of schedulers claiming, rules created and deleted, evaluations
 committing and failing in between.
 */
module Scheduler {
  import opened Prelude
  import opened GoTime
  import opened Transitions
  import opened RuleStore

  datatype DbStep =
    | Claim(now: Instant, batchSize: nat, locked: set<RuleId>, picked: set<RuleId>)
    | Insert(id: RuleId, rule: Rule, now: Instant)
    | Remove(id: RuleId)
    | Apply(id: RuleId, next: Core, value: Option<real>, notify: Option<NotifyEvent>, now: Instant)
    | Fail(id: RuleId, message: string, now: Instant)

  /** Every rule has its alert_state row, and eval_interval_seconds passes the table's CHECK. */
  ghost predicate ValidDb(db: Db) {
    && db.rules.Keys == db.alertState.Keys
    && forall id :: id in db.rules ==> db.rules[id].evalIntervalSeconds >= 30
  }

  ghost predicate Enabled(db: Db, st: DbStep) {
    match st
    case Claim(now, batchSize, locked, picked) => Claims(db, now, batchSize, locked, picked)
    case Insert(id, rule, _) => id !in db.rules && rule.evalIntervalSeconds >= 30
    case _ => true
  }

  function Do(db: Db, st: DbStep): Db {
    match st
    case Claim(now, _, _, picked) => AfterClaim(db, picked, now)
    case Insert(id, rule, now) => AfterCreate(db, id, rule, now)
    case Remove(id) => AfterDelete(db, id)
    case Apply(id, next, value, notify, now) => AfterApply(db, id, next, value, notify, now)
    case Fail(id, message, now) => AfterError(db, id, message, now)
  }

  ghost predicate Run(db: Db, run: seq<DbStep>)
    decreases |run|
  {
    run != [] ==> Enabled(db, run[0]) && Run(Do(db, run[0]), run[1..])
  }

  function StateAt(db: Db, run: seq<DbStep>, i: nat): Db
    requires i <= |run|
    decreases i
  {
    if i == 0 then db else StateAt(Do(db, run[0]), run[1..], i - 1)
  }

  predicate Picks(st: DbStep, id: RuleId) {
    st.Claim? && id in st.picked
  }

  lemma StepKeepsValid(db: Db, st: DbStep)
    requires ValidDb(db) && Enabled(db, st)
    ensures ValidDb(Do(db, st))
  {
  }

  // ---------------------------------------------------------------------
  // Spacing
  // ---------------------------------------------------------------------

  /** While a rule exists, its next_eval_at never moves back, so nobody claims it before then. */
  lemma {:induction false} NotClaimedEarly(db: Db, run: seq<DbStep>, id: RuleId, t: Instant, j: nat)
    requires ValidDb(db) && Run(db, run)
    requires id in db.rules ==> db.alertState[id].nextEvalAt >= t
    requires j < |run| && Picks(run[j], id)
    requires forall k :: 0 <= k < j ==> !(run[k].Insert? && run[k].id == id)
    ensures run[j].now >= t
    decreases |run|
  {
    if j > 0 {
      StepKeepsValid(db, run[0]);
      NotClaimedEarly(Do(db, run[0]), run[1..], id, t, j - 1);
    }
  }

  /** Two claims of one rule are at least its evaluation interval apart, whoever made them. */
  lemma {:induction false} ClaimsAreSpaced(db: Db, run: seq<DbStep>, id: RuleId, i: nat, j: nat)
    requires ValidDb(db) && Run(db, run)
    requires i < j < |run| && Picks(run[i], id) && Picks(run[j], id)
    requires forall k :: i < k < j ==> !(run[k].Insert? && run[k].id == id)
    ensures id in StateAt(db, run, i).rules
    ensures run[j].now - run[i].now >= StateAt(db, run, i).rules[id].evalIntervalSeconds * SECOND
    decreases |run|
  {
    StepKeepsValid(db, run[0]);
    if i == 0 {
      var next := run[0].now + db.rules[id].evalIntervalSeconds * SECOND;
      NotClaimedEarly(Do(db, run[0]), run[1..], id, next, j - 1);
    } else {
      ClaimsAreSpaced(Do(db, run[0]), run[1..], id, i - 1, j - 1);
    }
  }

  /**
   Whoever claims, a claimed rule exists, is enabled, was due, and its row was
   free; the claim is recorded, puts the rule off by its interval, and leaves its state.
   */
  lemma {:induction false} OnlyDueRulesClaimed(db: Db, run: seq<DbStep>, id: RuleId, j: nat)
    requires ValidDb(db) && Run(db, run) && j < |run| && Picks(run[j], id)
    ensures var at := StateAt(db, run, j);
            && id in at.rules && at.rules[id].enabled && id in at.alertState
            && at.alertState[id].nextEvalAt <= run[j].now && id !in run[j].locked
    ensures var at, row := StateAt(db, run, j), Do(StateAt(db, run, j), run[j]).alertState[id];
            && row.nextEvalAt == run[j].now + at.rules[id].evalIntervalSeconds * SECOND
            && row.claimedAt == Some(run[j].now) && row.core == at.alertState[id].core
    decreases |run|
  {
    if j > 0 {
      StepKeepsValid(db, run[0]);
      OnlyDueRulesClaimed(Do(db, run[0]), run[1..], id, j - 1);
    }
  }

  // ---------------------------------------------------------------------
  // Bounded bypass
  // ---------------------------------------------------------------------

  /** The other enabled rules a claim may take before `id`. */
  function Ahead(db: Db, id: RuleId): set<RuleId>
    requires id in db.alertState
  {
    set o | o in db.alertState && o in db.rules && db.rules[o].enabled && o != id
            && db.alertState[o].nextEvalAt <= db.alertState[id].nextEvalAt
  }

  function ClaimCount(run: seq<DbStep>): nat {
    if run == [] then 0 else (if run[0].Claim? then 1 else 0) + ClaimCount(run[1..])
  }

  /** The step leaves the waiting rule in place, sees it due, and creates only rules due after it. */
  predicate PatientStep(st: DbStep, id: RuleId, due: Instant, batchSize: nat) {
    match st
    case Claim(now, b, locked, _) => now >= due && b == batchSize && id !in locked
    case Insert(_, _, now) => now > due
    case Remove(other) => other != id
    case _ => true
  }

  ghost predicate Patient(run: seq<DbStep>, id: RuleId, due: Instant, batchSize: nat) {
    forall i :: 0 <= i < |run| ==> PatientStep(run[i], id, due, batchSize)
  }

  function Weight(st: DbStep, batchSize: nat): nat {
    if st.Claim? then batchSize else 0
  }

  /** A claim that passes the waiting rule over takes a whole batch from the rules ahead of it. */
  lemma ClaimTakesFromAhead(db: Db, now: Instant, batchSize: nat, locked: set<RuleId>, picked: set<RuleId>, id: RuleId)
    requires ValidDb(db) && Claims(db, now, batchSize, locked, picked)
    requires id in db.rules && db.rules[id].enabled && db.alertState[id].nextEvalAt <= now && id !in locked
    requires id !in picked
    ensures |Ahead(AfterClaim(db, picked, now), id)| + batchSize <= |Ahead(db, id)|
  {
    assert id in Candidates(db, now, locked);
    var before, after := Ahead(db, id), Ahead(AfterClaim(db, picked, now), id);
    assert picked <= before;
    forall o | o in after ensures o in before - picked {
    }
    Subset(after, before - picked);
    Subset(picked, before);
  }

  lemma AheadShrinks(db: Db, st: DbStep, id: RuleId, batchSize: nat)
    requires ValidDb(db) && Enabled(db, st) && id in db.rules
    requires PatientStep(st, id, db.alertState[id].nextEvalAt, batchSize)
    requires !Picks(st, id) && db.rules[id].enabled
    ensures id in Do(db, st).rules && Do(db, st).rules[id] == db.rules[id] && id in Do(db, st).alertState
    ensures Do(db, st).alertState[id].nextEvalAt == db.alertState[id].nextEvalAt
    ensures |Ahead(Do(db, st), id)| + Weight(st, batchSize) <= |Ahead(db, id)|
  {
    if st.Claim? {
      ClaimTakesFromAhead(db, st.now, st.batchSize, st.locked, st.picked, id);
    } else {
      forall o | o in Ahead(Do(db, st), id) ensures o in Ahead(db, id) {
      }
      Subset(Ahead(Do(db, st), id), Ahead(db, id));
    }
  }

  function TotalWeight(run: seq<DbStep>, batchSize: nat): nat {
    if run == [] then 0 else Weight(run[0], batchSize) + TotalWeight(run[1..], batchSize)
  }

  lemma {:induction false} ClaimedOnceOutnumbered(db: Db, run: seq<DbStep>, id: RuleId, batchSize: nat) returns (i: nat)
    requires ValidDb(db) && Run(db, run)
    requires id in db.rules && db.rules[id].enabled
    requires Patient(run, id, db.alertState[id].nextEvalAt, batchSize)
    requires TotalWeight(run, batchSize) > |Ahead(db, id)|
    ensures i < |run| && Picks(run[i], id)
    decreases |run|
  {
    if Picks(run[0], id) {
      i := 0;
    } else {
      StepKeepsValid(db, run[0]);
      AheadShrinks(db, run[0], id, batchSize);
      i := ClaimedOnceOutnumbered(Do(db, run[0]), run[1..], id, batchSize);
      i := i + 1;
    }
  }

  lemma {:induction false} WeightOfClaims(run: seq<DbStep>, batchSize: nat)
    ensures TotalWeight(run, batchSize) == ClaimCount(run) * batchSize
  {
    if run != [] {
      WeightOfClaims(run[1..], batchSize);
    }
  }

  /** A due rule with k rules at or before its next_eval_at is claimed within floor(k / B) + 1 claims. */
  lemma BoundedBypass(db: Db, run: seq<DbStep>, id: RuleId, batchSize: nat)
    requires ValidDb(db) && Run(db, run)
    requires id in db.rules && db.rules[id].enabled
    requires batchSize >= 1
    requires Patient(run, id, db.alertState[id].nextEvalAt, batchSize)
    requires ClaimCount(run) >= |Ahead(db, id)| / batchSize + 1
    ensures exists i :: 0 <= i < |run| && Picks(run[i], id)
  {
    FloorBound(|Ahead(db, id)|, batchSize, ClaimCount(run));
    WeightOfClaims(run, batchSize);
    var i := ClaimedOnceOutnumbered(db, run, id, batchSize);
  }

  /** A rule is due from its creation on: it is claimed within floor(k / B) + 1 claims made after it. */
  lemma NewRuleIsClaimed(db: Db, id: RuleId, rule: Rule, created: Instant, run: seq<DbStep>, batchSize: nat)
    requires ValidDb(db) && Enabled(db, Insert(id, rule, created)) && rule.enabled
    requires Run(Do(db, Insert(id, rule, created)), run) && batchSize >= 1
    requires Patient(run, id, created, batchSize)
    requires ClaimCount(run) >= |Ahead(Do(db, Insert(id, rule, created)), id)| / batchSize + 1
    ensures exists i :: 0 <= i < |run| && Picks(run[i], id)
  {
    StepKeepsValid(db, Insert(id, rule, created));
    BoundedBypass(Do(db, Insert(id, rule, created)), run, id, batchSize);
  }

  lemma FloorBound(k: nat, b: nat, count: nat)
    requires b >= 1 && count >= k / b + 1
    ensures count * b > k
  {
    assert k == (k / b) * b + k % b;
    assert count * b >= (k / b + 1) * b == (k / b) * b + b;
  }

  lemma Subset(a: set<RuleId>, b: set<RuleId>)
    requires a <= b
    ensures |a| <= |b|
    ensures |b - a| == |b| - |a|
  {
    assert b == a + (b - a);
  }
}
