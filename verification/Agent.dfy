/**
 The agent's collection loop: the batcher, the flush timer, and remote
 configuration overrides that replace the batcher, the source task and the set
 of extra files tailed while records keep arriving.
 */
module Agent {
  import opened Prelude

  type Record = string
  type TaskId = nat

  /** A file path, compared only for equality. */
  type Path = string

  /** Milliseconds on the agent's clock. */
  type Millis = int

  datatype Source = Journald(unit: Option<string>) | OtherSource(detail: string)

  datatype Settings = Settings(maxSize: nat, flushMs: nat, heartbeat: bool, heartbeatMs: nat, source: Source)

  /** A desired override: every scalar optional, the extra paths always the complete list. */
  datatype Override = Override(
    version: string, maxSize: Option<nat>, flushMs: Option<nat>, heartbeat: Option<bool>, heartbeatMs: Option<nat>,
    unit: Option<string>, extraPaths: set<Path>)

  datatype Buffer = Buffer(maxSize: nat, flushMs: nat, buf: seq<Record>, lastFlush: Millis)

  /** A batch handed to the sender, with the batch size limit it was collected under. */
  datatype Sent = Sent(batch: seq<Record>, limit: nat)

  /** The running tasks, and the history of those started and stopped; ids are handed out in order. */
  datatype Tasks = Tasks(source: TaskId, extra: map<Path, TaskId>, next: TaskId, stopped: set<TaskId>)

  datatype State = State(
    settings: Settings, buffer: Buffer, tasks: Tasks, version: string, running: bool,
    sent: seq<Sent>, received: seq<Record>, applied: seq<Override>)

  /**
   What the select loop can see. `SourceExit` is the closed-channel branch; the
   loop itself keeps a sender open, so it is more than can happen.
   */
  datatype Event =
    | Line(rec: Record, now: Millis)
    | FlushTick(now: Millis)
    | CheckIn(desired: Option<Override>, restart: bool, now: Millis, started: seq<Path>)
    | SourceExit(now: Millis)

  // ---------------------------------------------------------------------
  // The batcher
  // ---------------------------------------------------------------------

  function Drained(b: Buffer, now: Millis): Buffer {
    b.(buf := [], lastFlush := now)
  }

  predicate FillsUp(b: Buffer) {
    |b.buf| + 1 >= b.maxSize
  }

  predicate TimedOut(b: Buffer, now: Millis) {
    b.buf != [] && now - b.lastFlush >= b.flushMs
  }

  class Batcher {
    const maxSize: nat
    const flushMs: nat
    var buf: seq<Record>
    var lastFlush: Millis

    ghost function Now(): Buffer
      reads this
    {
      Buffer(maxSize, flushMs, buf, lastFlush)
    }

    constructor (maxSize: nat, flushMs: nat, now: Millis)
      ensures Now() == Buffer(maxSize, flushMs, [], now)
    {
      this.maxSize, this.flushMs := maxSize, flushMs;
      buf, lastFlush := [], now;
    }

    method Drain(now: Millis) returns (batch: seq<Record>)
      modifies this
      ensures batch == old(buf) && Now() == Drained(old(Now()), now)
    {
      lastFlush := now;
      batch := buf;
      buf := [];
    }

    method Push(rec: Record, now: Millis) returns (full: Option<seq<Record>>)
      modifies this
      ensures full.Some? <==> FillsUp(old(Now()))
      ensures full.Some? ==> full.value == old(buf) + [rec] && Now() == Drained(old(Now()), now)
      ensures full.None? ==> Now() == old(Now()).(buf := old(buf) + [rec])
    {
      buf := buf + [rec];
      if |buf| >= maxSize {
        var batch := Drain(now);
        return Some(batch);
      }
      return None;
    }

    method PollTimeout(now: Millis) returns (due: Option<seq<Record>>)
      modifies this
      ensures due.Some? <==> TimedOut(old(Now()), now)
      ensures due.Some? ==> due.value == old(buf) && Now() == Drained(old(Now()), now)
      ensures due.None? ==> Now() == old(Now())
    {
      if buf != [] && now - lastFlush >= flushMs {
        var batch := Drain(now);
        return Some(batch);
      }
      return None;
    }

    method FlushAll(now: Millis) returns (rest: Option<seq<Record>>)
      modifies this
      ensures rest.Some? <==> old(buf) != []
      ensures rest.Some? ==> rest.value == old(buf) && Now() == Drained(old(Now()), now)
      ensures rest.None? ==> Now() == old(Now())
    {
      if buf == [] {
        return None;
      }
      var batch := Drain(now);
      return Some(batch);
    }
  }

  // ---------------------------------------------------------------------
  // One event
  // ---------------------------------------------------------------------

  function Send(s: State, batch: seq<Record>, now: Millis): State {
    s.(sent := s.sent + [Sent(batch, s.buffer.maxSize)], buffer := Drained(s.buffer, now))
  }

  function FlushAll(s: State, now: Millis): State {
    if s.buffer.buf == [] then s else Send(s, s.buffer.buf, now)
  }

  function Or<T>(o: Option<T>, current: T): T { if o.Some? then o.value else current }

  function UnitOf(text: string): Option<string> { if text == "" then None else Some(text) }

  function MergeSource(source: Source, unit: Option<string>): Source {
    if unit.Some? && source.Journald? then Journald(UnitOf(unit.value)) else source
  }

  function Merge(s: Settings, ov: Override): Settings {
    Settings(Or(ov.maxSize, s.maxSize), Or(ov.flushMs, s.flushMs), Or(ov.heartbeat, s.heartbeat),
             Or(ov.heartbeatMs, s.heartbeatMs), MergeSource(s.source, ov.unit))
  }

  /** The source task restarts only when what it reads changes. */
  function AfterSource(t: Tasks, before: Source, after: Source): Tasks {
    if before == after then t else t.(source := t.next, next := t.next + 1, stopped := t.stopped + {t.source})
  }

  /** Task ids given out from `next` on, in order. */
  function Numbering(next: TaskId, order: seq<Path>): map<Path, TaskId> {
    if order == [] then map[]
    else Numbering(next, order[..|order| - 1])[order[|order| - 1] := next + |order| - 1]
  }

  predicate NoDuplicates(order: seq<Path>) {
    forall i, j :: 0 <= i < j < |order| ==> order[i] != order[j]
  }

  /** `order` is the newly listed paths, as the set difference yields them. */
  ghost predicate Starts(t: Tasks, desired: set<Path>, order: seq<Path>) {
    NoDuplicates(order) && forall p :: p in order <==> p in desired && p !in t.extra
  }

  function IdsOf(m: map<Path, TaskId>, paths: set<Path>): set<TaskId>
    requires paths <= m.Keys
  {
    set p | p in paths :: m[p]
  }

  ghost predicate HasId(tasks: map<Path, TaskId>, id: TaskId) {
    exists p :: p in tasks && tasks[p] == id
  }

  function Kept(m: map<Path, TaskId>, desired: set<Path>): map<Path, TaskId> {
    map p | p in m && p in desired :: m[p]
  }

  function AfterExtra(t: Tasks, desired: set<Path>, started: seq<Path>): Tasks {
    Tasks(t.source, Kept(t.extra, desired) + Numbering(t.next, started), t.next + |started|,
          t.stopped + IdsOf(t.extra, t.extra.Keys - desired))
  }

  function AfterOverride(s: State, ov: Override, now: Millis, started: seq<Path>): State {
    var settings := Merge(s.settings, ov);
    FlushAll(s, now).(
      settings := settings,
      buffer := Buffer(settings.maxSize, settings.flushMs, [], now),
      tasks := AfterExtra(AfterSource(s.tasks, s.settings.source, settings.source), ov.extraPaths, started),
      version := ov.version,
      applied := s.applied + [ov])
  }

  /** An override is applied when its version is not the one applied last. */
  predicate Applies(s: State, desired: Option<Override>) {
    desired.Some? && desired.value.version != s.version
  }

  function Shutdown(s: State, now: Millis): State {
    FlushAll(s, now).(running := false, tasks := s.tasks.(stopped := s.tasks.stopped + {s.tasks.source}))
  }

  function Next(s: State, e: Event): State {
    match e
    case Line(rec, now) =>
      var s' := s.(received := s.received + [rec]);
      if FillsUp(s.buffer) then Send(s', s.buffer.buf + [rec], now)
      else s'.(buffer := s.buffer.(buf := s.buffer.buf + [rec]))
    case FlushTick(now) => if TimedOut(s.buffer, now) then Send(s, s.buffer.buf, now) else s
    case CheckIn(desired, restart, now, started) =>
      var s' := if Applies(s, desired) then AfterOverride(s, desired.value, now, started) else s;
      if restart then Shutdown(s', now) else s'
    case SourceExit(now) => Shutdown(s, now)
  }

  ghost predicate CanHappen(s: State, e: Event) {
    && s.running
    && (e.CheckIn? && Applies(s, e.desired) ==>
          var after := Merge(s.settings, e.desired.value);
          Starts(AfterSource(s.tasks, s.settings.source, after.source), e.desired.value.extraPaths, e.started))
  }

  ghost predicate Run(s: State, events: seq<Event>)
    decreases |events|
  {
    events == [] || (CanHappen(s, events[0]) && Run(Next(s, events[0]), events[1..]))
  }

  function Final(s: State, events: seq<Event>): State
    decreases |events|
  {
    if events == [] then s else Final(Next(s, events[0]), events[1..])
  }

  function Initial(local: Settings, now: Millis): State {
    State(local, Buffer(local.maxSize, local.flushMs, [], now), Tasks(0, map[], 1, {}), "", true, [], [], [])
  }

  // ---------------------------------------------------------------------
  // Nothing is lost
  // ---------------------------------------------------------------------

  function Flatten(sent: seq<Sent>): seq<Record> {
    if sent == [] then [] else Flatten(sent[..|sent| - 1]) + sent[|sent| - 1].batch
  }

  ghost predicate Conserved(s: State) {
    && Flatten(s.sent) + s.buffer.buf == s.received
    && (forall i :: 0 <= i < |s.sent| ==> 1 <= |s.sent[i].batch| <= Max(1, s.sent[i].limit))
    && |s.buffer.buf| < Max(1, s.buffer.maxSize)
    && s.buffer.maxSize == s.settings.maxSize && s.buffer.flushMs == s.settings.flushMs
    && (!s.running ==> s.buffer.buf == [])
  }

  lemma SendConserves(s: State, batch: seq<Record>, now: Millis)
    requires Flatten(s.sent) + batch == s.received && 1 <= |batch| <= Max(1, s.buffer.maxSize)
    requires forall i :: 0 <= i < |s.sent| ==> 1 <= |s.sent[i].batch| <= Max(1, s.sent[i].limit)
    requires s.buffer.maxSize == s.settings.maxSize && s.buffer.flushMs == s.settings.flushMs
    ensures Conserved(Send(s, batch, now))
  {
    var s' := Send(s, batch, now);
    assert s'.sent[..|s.sent|] == s.sent;
  }

  lemma FlushConserves(s: State, now: Millis)
    requires Conserved(s)
    ensures Conserved(FlushAll(s, now)) && FlushAll(s, now).buffer.buf == [] && FlushAll(s, now).received == s.received
  {
    if s.buffer.buf != [] {
      SendConserves(s, s.buffer.buf, now);
    }
  }

  lemma LineConserves(s: State, rec: Record, now: Millis)
    requires Conserved(s) && s.running
    ensures Conserved(Next(s, Line(rec, now)))
  {
    assert Flatten(s.sent) + (s.buffer.buf + [rec]) == s.received + [rec];
    if FillsUp(s.buffer) {
      SendConserves(s.(received := s.received + [rec]), s.buffer.buf + [rec], now);
    }
  }

  lemma OverrideConserves(s: State, ov: Override, now: Millis, started: seq<Path>)
    requires Conserved(s) && s.running
    ensures Conserved(AfterOverride(s, ov, now, started))
  {
    FlushConserves(s, now);
    Rebuffered(FlushAll(s, now), AfterOverride(s, ov, now, started));
  }

  /** An empty buffer may be exchanged for another with the settings then in force. */
  lemma Rebuffered(s: State, s': State)
    requires Conserved(s) && s.buffer.buf == [] && s'.sent == s.sent && s'.received == s.received
    requires s'.buffer.buf == [] && s'.buffer.maxSize == s'.settings.maxSize && s'.buffer.flushMs == s'.settings.flushMs
    ensures Conserved(s')
  {
  }

  lemma ShutdownConserves(s: State, now: Millis)
    requires Conserved(s)
    ensures Conserved(Shutdown(s, now))
  {
    FlushConserves(s, now);
  }

  lemma EventConserves(s: State, e: Event)
    requires Conserved(s) && s.running
    ensures Conserved(Next(s, e))
  {
    match e
    case Line(rec, now) => LineConserves(s, rec, now);
    case FlushTick(now) => TickConserves(s, now);
    case CheckIn(_, _, _, _) => CheckInConserves(s, e);
    case SourceExit(now) => ShutdownConserves(s, now);
  }

  lemma TickConserves(s: State, now: Millis)
    requires Conserved(s) && s.running
    ensures Conserved(Next(s, FlushTick(now)))
  {
    if TimedOut(s.buffer, now) {
      SendConserves(s, s.buffer.buf, now);
    }
  }

  lemma CheckInConserves(s: State, e: Event)
    requires Conserved(s) && s.running && e.CheckIn?
    ensures Conserved(Next(s, e))
  {
    var applies := Applies(s, e.desired);
    var s' := if applies then AfterOverride(s, e.desired.value, e.now, e.started) else s;
    if applies {
      OverrideConserves(s, e.desired.value, e.now, e.started);
    }
    ShutdownConserves(s', e.now);
  }

  /**
   Over every run of lines, ticks, overrides and shutdowns: the batches sent in
   order, then the buffer, are exactly the records received; no batch is larger
   than max(1, the limit it was collected under); and a stopped agent has sent everything.
   */
  lemma {:induction false} NothingLost(s: State, events: seq<Event>)
    requires Conserved(s) && Run(s, events)
    ensures Conserved(Final(s, events))
    decreases |events|
  {
    if events != [] {
      EventConserves(s, events[0]);
      NothingLost(Next(s, events[0]), events[1..]);
    }
  }

  /** Outside overrides and shutdowns a batch goes out exactly when it is full or its interval has elapsed. */
  lemma SendsExactlyWhenDue(s: State, e: Event)
    requires e.Line? || e.FlushTick?
    ensures var s' := Next(s, e);
            var due := if e.Line? then |s.buffer.buf| + 1 >= s.buffer.maxSize
                       else s.buffer.buf != [] && e.now - s.buffer.lastFlush >= s.buffer.flushMs;
            var batch := if e.Line? then s.buffer.buf + [e.rec] else s.buffer.buf;
            if due then
              && s'.sent == s.sent + [Sent(batch, s.buffer.maxSize)]
              && s'.buffer == s.buffer.(buf := [], lastFlush := e.now)
            else s'.sent == s.sent && s'.buffer == s.buffer.(buf := batch)
  {
  }

  // ---- How long a record waits ----------------------------------------

  /** When the records received during these events arrived. */
  function Arrivals(events: seq<Event>): seq<Millis> {
    if events == [] then []
    else Arrival(events[0]) + Arrivals(events[1..])
  }

  /** The clock does not run backwards from `start` on. */
  predicate Ticking(start: Millis, events: seq<Event>)
    decreases |events|
  {
    events == [] || (start <= events[0].now && Ticking(events[0].now, events[1..]))
  }

  /** What is buffered arrived after the last flush. */
  ghost predicate Waiting(s: State, times: seq<Millis>) {
    && |s.buffer.buf| <= |times|
    && forall i :: |times| - |s.buffer.buf| <= i < |times| ==> times[i] >= s.buffer.lastFlush
  }

  lemma EventKeepsWaiting(s: State, e: Event, times: seq<Millis>)
    requires Waiting(s, times) && s.buffer.lastFlush <= e.now
    ensures Waiting(Next(s, e), times + Arrival(e))
    ensures Next(s, e).buffer.lastFlush <= e.now
  {
  }

  /** The arrival of one event, if it is a record's. */
  function Arrival(e: Event): seq<Millis> {
    if e.Line? then [e.now] else []
  }

  lemma {:induction false} ArrivalsOneMore(times: seq<Millis>, events: seq<Event>)
    requires events != []
    ensures times + Arrivals(events) == times + Arrival(events[0]) + Arrivals(events[1..])
  {
  }

  lemma {:induction false} RunKeepsWaiting(s: State, events: seq<Event>, start: Millis, times: seq<Millis>)
    requires Run(s, events) && Ticking(start, events) && s.buffer.lastFlush <= start && Waiting(s, times)
    ensures Waiting(Final(s, events), times + Arrivals(events))
    decreases |events|
  {
    if events == [] {
      assert times + Arrivals(events) == times;
    } else {
      EventKeepsWaiting(s, events[0], times);
      RunKeepsWaiting(Next(s, events[0]), events[1..], events[0].now, times + Arrival(events[0]));
      ArrivalsOneMore(times, events);
    }
  }

  /**
   No record waits longer than the flush interval past the next tick: after a tick
   at any point of any run, whatever overrides came before, every record still
   buffered arrived less than the interval in force ago.
   */
  lemma {:induction false} WaitsLessThanInterval(local: Settings, start: Millis, events: seq<Event>, now: Millis,
                                                 i: nat)
    requires Run(Initial(local, start), events) && Ticking(start, events)
    requires Final(Initial(local, start), events).running
    requires var s := Next(Final(Initial(local, start), events), FlushTick(now));
             |Arrivals(events)| - |s.buffer.buf| <= i < |Arrivals(events)|
    ensures now - Arrivals(events)[i] < Final(Initial(local, start), events).settings.flushMs
  {
    var s := Final(Initial(local, start), events);
    NothingLost(Initial(local, start), events);
    RunKeepsWaiting(Initial(local, start), events, start, []);
    assert [] + Arrivals(events) == Arrivals(events);
    SendsExactlyWhenDue(s, FlushTick(now));
  }

  /** A check-in leaves the agent under the desired version, having applied it exactly if it was not already. */
  lemma CheckInCatchesUp(s: State, e: Event)
    requires e.CheckIn?
    ensures var s' := Next(s, e);
            && s'.running == (s.running && !e.restart)
            && (e.desired.Some? ==> s'.version == e.desired.value.version)
            && s'.applied == (if e.desired.Some? && e.desired.value.version != s.version
                              then s.applied + [e.desired.value] else s.applied)
            && (s'.tasks.source == s.tasks.source || s'.settings.source != s.settings.source)
  {
  }

  /** When its source ends the agent sends what it has, stops the source task and is done. */
  lemma SourceExitStops(s: State, now: Millis)
    ensures var s' := Next(s, SourceExit(now));
            && !s'.running && s'.buffer.buf == [] && s'.tasks.source in s'.tasks.stopped
            && s'.sent == (if s.buffer.buf == [] then s.sent else s.sent + [Sent(s.buffer.buf, s.buffer.maxSize)])
  {
  }

  /** The source task is replaced exactly when what it reads changes, and the old one is stopped. */
  lemma SourceRestartsExactly(s: State, e: Event)
    requires Accounted(s.tasks, true) && s.running && CanHappen(s, e)
    ensures Next(s, e).tasks.source != s.tasks.source <==> Next(s, e).settings.source != s.settings.source
    ensures Next(s, e).tasks.source != s.tasks.source ==> s.tasks.source in Next(s, e).tasks.stopped
  {
  }

  // ---------------------------------------------------------------------
  // Settings: the last override to set a value wins
  // ---------------------------------------------------------------------

  /** The value `pick` last set by the overrides, or the local one. */
  function LastSet<T>(applied: seq<Override>, pick: Override -> Option<T>, local: T): T {
    if applied == [] then local
    else
      var last := applied[|applied| - 1];
      if pick(last).Some? then pick(last).value else LastSet(applied[..|applied| - 1], pick, local)
  }

  ghost predicate InForce(s: State, local: Settings) {
    && s.settings.maxSize == LastSet(s.applied, (o: Override) => o.maxSize, local.maxSize)
    && s.settings.flushMs == LastSet(s.applied, (o: Override) => o.flushMs, local.flushMs)
    && s.settings.heartbeat == LastSet(s.applied, (o: Override) => o.heartbeat, local.heartbeat)
    && s.settings.heartbeatMs == LastSet(s.applied, (o: Override) => o.heartbeatMs, local.heartbeatMs)
    && s.settings.source == (if local.source.Journald?
                             then Journald(LastSet(s.applied, UnitSet, local.source.unit))
                             else local.source)
    && s.version == (if s.applied == [] then "" else s.applied[|s.applied| - 1].version)
    && s.tasks.extra.Keys == (if s.applied == [] then {} else s.applied[|s.applied| - 1].extraPaths)
  }

  function UnitSet(o: Override): Option<Option<string>> {
    if o.unit.None? then None else if o.unit == Some("") then Some(None) else Some(o.unit)
  }

  lemma {:induction false} LastSetNext<T>(applied: seq<Override>, ov: Override, pick: Override -> Option<T>, local: T)
    ensures LastSet(applied + [ov], pick, local) == Or(pick(ov), LastSet(applied, pick, local))
  {
    assert (applied + [ov])[..|applied|] == applied;
  }

  lemma OverrideInForce(s: State, local: Settings, ov: Override, now: Millis, started: seq<Path>)
    requires InForce(s, local)
    requires Starts(AfterSource(s.tasks, s.settings.source, Merge(s.settings, ov).source), ov.extraPaths, started)
    ensures InForce(AfterOverride(s, ov, now, started), local)
  {
    LastSetNext(s.applied, ov, (o: Override) => o.maxSize, local.maxSize);
    LastSetNext(s.applied, ov, (o: Override) => o.flushMs, local.flushMs);
    LastSetNext(s.applied, ov, (o: Override) => o.heartbeat, local.heartbeat);
    LastSetNext(s.applied, ov, (o: Override) => o.heartbeatMs, local.heartbeatMs);
    if local.source.Journald? {
      LastSetNext(s.applied, ov, UnitSet, local.source.unit);
    }
    var t := AfterSource(s.tasks, s.settings.source, Merge(s.settings, ov).source);
    forall p ensures p in AfterExtra(t, ov.extraPaths, started).extra <==> p in ov.extraPaths {
      ExtraAt(t, ov.extraPaths, started, p);
    }
  }

  lemma FlushLeaves(s: State, now: Millis)
    ensures var s' := FlushAll(s, now);
            s'.settings == s.settings && s'.applied == s.applied && s'.version == s.version && s'.tasks == s.tasks
  {
  }

  lemma SameInForce(s: State, s': State, local: Settings)
    requires InForce(s, local)
    requires s'.settings == s.settings && s'.applied == s.applied
    requires s'.version == s.version && s'.tasks.extra == s.tasks.extra
    ensures InForce(s', local)
  {
  }

  lemma EventInForce(s: State, local: Settings, e: Event)
    requires InForce(s, local) && CanHappen(s, e)
    ensures InForce(Next(s, e), local)
  {
    if e.CheckIn? && Applies(s, e.desired) {
      var s' := AfterOverride(s, e.desired.value, e.now, e.started);
      OverrideInForce(s, local, e.desired.value, e.now, e.started);
      FlushLeaves(s', e.now);
      SameInForce(s', Next(s, e), local);
    } else {
      SameInForce(s, Next(s, e), local);
    }
  }

  /** The settings are the last-set-wins fold of the applied overrides, and the tailed files exactly the latest list. */
  lemma {:induction false} SettingsFollowOverrides(s: State, local: Settings, events: seq<Event>)
    requires InForce(s, local) && Run(s, events)
    ensures InForce(Final(s, events), local)
    decreases |events|
  {
    if events != [] {
      EventInForce(s, local, events[0]);
      SettingsFollowOverrides(Next(s, events[0]), local, events[1..]);
    }
  }

  // ---------------------------------------------------------------------
  // Tasks
  // ---------------------------------------------------------------------

  /** Each path has its own task, and every task ever started is either running or was stopped, never both. */
  ghost predicate Accounted(t: Tasks, running: bool) {
    && (forall p, q :: p in t.extra && q in t.extra && t.extra[p] == t.extra[q] ==> p == q)
    && (forall p :: p in t.extra ==> t.extra[p] != t.source && t.extra[p] < t.next)
    && t.source < t.next
    && (forall id :: id in t.stopped ==> id < t.next)
    && forall id: TaskId :: id < t.next ==> (id !in t.stopped <==> (running && id == t.source) || HasId(t.extra, id))
  }

  lemma SourceAccounted(t: Tasks, before: Source, after: Source)
    requires Accounted(t, true)
    ensures Accounted(AfterSource(t, before, after), true)
  {
    var t' := AfterSource(t, before, after);
    assert t'.extra == t.extra;
    forall id: TaskId ensures HasId(t'.extra, id) == HasId(t.extra, id) {
    }
  }

  lemma {:induction false} NumberingKeys(next: TaskId, order: seq<Path>, p: Path)
    ensures p in Numbering(next, order) <==> p in order
    ensures p in order ==> exists i :: 0 <= i < |order| && order[i] == p && Numbering(next, order)[p] == next + i
  {
    if order != [] {
      var front := order[..|order| - 1];
      NumberingKeys(next, front, p);
      assert order == front + [order[|order| - 1]];
      if p in front && p != order[|order| - 1] {
        var i :| 0 <= i < |front| && front[i] == p && Numbering(next, front)[p] == next + i;
        assert order[i] == p;
      }
    }
  }

  lemma ExtraAt(t: Tasks, desired: set<Path>, started: seq<Path>, p: Path)
    requires Starts(t, desired, started)
    ensures var extra := AfterExtra(t, desired, started).extra;
            && (p in extra <==> p in desired)
            && (p in extra && p in t.extra ==> extra[p] == t.extra[p])
            && (p in extra && p !in t.extra ==>
                  exists i :: 0 <= i < |started| && started[i] == p && extra[p] == t.next + i)
  {
    NumberingKeys(t.next, started, p);
  }

  lemma ExtraDistinct(t: Tasks, desired: set<Path>, started: seq<Path>, p: Path, q: Path)
    requires Accounted(t, true) && Starts(t, desired, started)
    requires var extra := AfterExtra(t, desired, started).extra; p in extra && q in extra && extra[p] == extra[q]
    ensures p == q
  {
    ExtraAt(t, desired, started, p);
    ExtraAt(t, desired, started, q);
  }

  lemma ExtraAccounted(t: Tasks, desired: set<Path>, started: seq<Path>)
    requires Accounted(t, true) && Starts(t, desired, started)
    ensures Accounted(AfterExtra(t, desired, started), true)
  {
    var t' := AfterExtra(t, desired, started);
    forall p, q | p in t'.extra && q in t'.extra && t'.extra[p] == t'.extra[q] ensures p == q {
      ExtraDistinct(t, desired, started, p, q);
    }
    forall p | p in t'.extra ensures t'.extra[p] != t'.source && t'.extra[p] < t'.next {
      ExtraAt(t, desired, started, p);
    }
    forall id: TaskId | id < t'.next ensures id !in t'.stopped <==> id == t'.source || HasId(t'.extra, id) {
      if id < t.next {
        OldTask(t, desired, started, id);
      } else {
        NewTask(t, desired, started, id);
      }
    }
  }

  lemma NewTask(t: Tasks, desired: set<Path>, started: seq<Path>, id: TaskId)
    requires Accounted(t, true) && Starts(t, desired, started) && t.next <= id < t.next + |started|
    ensures var t' := AfterExtra(t, desired, started);
            id !in t'.stopped && HasId(t'.extra, id)
  {
    var p := started[id - t.next];
    assert p in started;
    ExtraAt(t, desired, started, p);
  }

  lemma OldTask(t: Tasks, desired: set<Path>, started: seq<Path>, id: TaskId)
    requires Accounted(t, true) && Starts(t, desired, started) && id < t.next
    ensures var t' := AfterExtra(t, desired, started);
            id !in t'.stopped <==> id == t'.source || HasId(t'.extra, id)
  {
    var t' := AfterExtra(t, desired, started);
    if HasId(t.extra, id) {
      var p :| p in t.extra && t.extra[p] == id;
      ExtraAt(t, desired, started, p);
    }
    if HasId(t'.extra, id) {
      var p :| p in t'.extra && t'.extra[p] == id;
      ExtraAt(t, desired, started, p);
    }
  }

  lemma EventAccounted(s: State, e: Event)
    requires s.running && Accounted(s.tasks, true) && CanHappen(s, e)
    ensures Accounted(Next(s, e).tasks, Next(s, e).running)
  {
    if e.CheckIn? && Applies(s, e.desired) {
      var after := Merge(s.settings, e.desired.value);
      SourceAccounted(s.tasks, s.settings.source, after.source);
      ExtraAccounted(AfterSource(s.tasks, s.settings.source, after.source), e.desired.value.extraPaths, e.started);
      var s' := AfterOverride(s, e.desired.value, e.now, e.started);
      StopAccounted(s'.tasks);
    } else {
      StopAccounted(s.tasks);
    }
  }

  lemma StopAccounted(t: Tasks)
    requires Accounted(t, true)
    ensures Accounted(t.(stopped := t.stopped + {t.source}), false)
  {
    var t' := t.(stopped := t.stopped + {t.source});
    forall id: TaskId ensures HasId(t'.extra, id) == HasId(t.extra, id) {
    }
  }

  /** No run of events leaks a task, stops one twice over, or lets two paths share one. */
  lemma {:induction false} TasksAccounted(s: State, events: seq<Event>)
    requires Accounted(s.tasks, s.running) && Run(s, events)
    ensures Accounted(Final(s, events).tasks, Final(s, events).running)
    decreases |events|
  {
    if events != [] {
      EventAccounted(s, events[0]);
      TasksAccounted(Next(s, events[0]), events[1..]);
    }
  }

  predicate Lists(s: State, e: Event, path: Path) {
    e.CheckIn? && Applies(s, e.desired) ==> path in e.desired.value.extraPaths
  }

  /** Every override applied during the run lists `path`. */
  predicate StaysListed(s: State, events: seq<Event>, path: Path)
    decreases |events|
  {
    events == [] || (Lists(s, events[0], path) && StaysListed(Next(s, events[0]), events[1..], path))
  }

  lemma EventKeepsTask(s: State, e: Event, path: Path)
    requires CanHappen(s, e) && path in s.tasks.extra
    requires Lists(s, e, path)
    ensures path in Next(s, e).tasks.extra && Next(s, e).tasks.extra[path] == s.tasks.extra[path]
  {
    if e.CheckIn? && Applies(s, e.desired) {
      var after := Merge(s.settings, e.desired.value);
      ExtraAt(AfterSource(s.tasks, s.settings.source, after.source), e.desired.value.extraPaths, e.started, path);
      FlushLeaves(AfterOverride(s, e.desired.value, e.now, e.started), e.now);
    } else {
      assert Next(s, e).tasks.extra == s.tasks.extra;
    }
  }

  /** A file that stays listed keeps its running task through any number of overrides. */
  lemma {:induction false} ListedKeepsTask(s: State, events: seq<Event>, path: Path)
    requires Run(s, events) && path in s.tasks.extra && StaysListed(s, events, path)
    ensures path in Final(s, events).tasks.extra && Final(s, events).tasks.extra[path] == s.tasks.extra[path]
    decreases |events|
  {
    if events != [] {
      EventKeepsTask(s, events[0], path);
      ListedKeepsTask(Next(s, events[0]), events[1..], path);
    }
  }

  /** From startup, all of it together. */
  lemma FromStartup(local: Settings, now: Millis, events: seq<Event>)
    requires Run(Initial(local, now), events)
    ensures var s := Final(Initial(local, now), events);
            Conserved(s) && InForce(s, local) && Accounted(s.tasks, s.running)
  {
    var s := Initial(local, now);
    assert Accounted(s.tasks, true);
    NothingLost(s, events);
    SettingsFollowOverrides(s, local, events);
    TasksAccounted(s, events);
  }

  // ---------------------------------------------------------------------
  // The loop's state
  // ---------------------------------------------------------------------

  lemma MergeOne(m: map<Path, TaskId>, n: map<Path, TaskId>, p: Path, id: TaskId)
    ensures m + n[p := id] == (m + n)[p := id]
  {
    var a, b := m + n[p := id], (m + n)[p := id];
    assert forall q :: q in a <==> q in b;
  }

  lemma KeepListed(m: map<Path, TaskId>, desired: set<Path>)
    ensures m - (m.Keys - desired) == Kept(m, desired)
  {
  }

  lemma OneMoreId(m: map<Path, TaskId>, paths: set<Path>, p: Path)
    requires paths <= m.Keys && p in m
    ensures IdsOf(m, paths + {p}) == IdsOf(m, paths) + {m[p]}
  {
    var more := paths + {p};
    assert p in more;
    forall id | id in IdsOf(m, paths) + {m[p]} ensures id in IdsOf(m, more) {
      if id in IdsOf(m, paths) {
        var q :| q in paths && m[q] == id;
        assert q in more;
      }
    }
  }

  class Collector {
    var settings: Settings
    var batcher: Batcher
    var sourceTask: TaskId
    var extraTasks: map<Path, TaskId>
    var nextTask: TaskId
    var version: string
    var running: bool
    ghost var stopped: set<TaskId>
    ghost var sent: seq<Sent>
    ghost var received: seq<Record>
    ghost var applied: seq<Override>

    ghost function Running(): Tasks
      reads this
    {
      Tasks(sourceTask, extraTasks, nextTask, stopped)
    }

    ghost function Now(): State
      reads this, batcher
    {
      State(settings, batcher.Now(), Running(), version, running, sent, received, applied)
    }

    constructor (local: Settings, now: Millis)
      ensures Now() == Initial(local, now) && fresh(batcher)
    {
      settings := local;
      batcher := new Batcher(local.maxSize, local.flushMs, now);
      sourceTask, extraTasks, nextTask, stopped := 0, map[], 1, {};
      version, running := "", true;
      sent, received, applied := [], [], [];
    }

    method StopUnlisted(desired: set<Path>)
      modifies `extraTasks, `stopped
      ensures extraTasks == Kept(old(extraTasks), desired)
      ensures stopped == old(stopped) + IdsOf(old(extraTasks), old(extraTasks).Keys - desired)
    {
      ghost var tasks := extraTasks;
      var left := extraTasks.Keys - desired;
      ghost var gone: set<Path> := {};
      while left != {}
        invariant left !! gone && left + gone == tasks.Keys - desired
        invariant extraTasks == tasks - gone
        invariant stopped == old(stopped) + IdsOf(tasks, gone)
        decreases left
      {
        var path :| path in left;
        OneMoreId(tasks, gone, path);
        stopped := stopped + {extraTasks[path]};
        extraTasks := extraTasks - {path};
        left, gone := left - {path}, gone + {path};
        assert extraTasks == tasks - gone;
      }
      assert gone == tasks.Keys - desired;
      KeepListed(tasks, desired);
    }

    method SpawnListed(desired: set<Path>) returns (ghost started: seq<Path>)
      modifies `extraTasks, `nextTask
      ensures NoDuplicates(started) && forall p :: p in started <==> p in desired && p !in old(extraTasks)
      ensures extraTasks == old(extraTasks) + Numbering(old(nextTask), started)
      ensures nextTask == old(nextTask) + |started|
    {
      ghost var tasks := extraTasks;
      var left := desired - extraTasks.Keys;
      started := [];
      assert tasks + map[] == tasks;
      while left != {}
        invariant NoDuplicates(started)
        invariant forall p :: p in desired && p !in tasks <==> p in left || p in started
        invariant forall p :: p in left ==> p !in started
        invariant extraTasks == tasks + Numbering(old(nextTask), started)
        invariant nextTask == old(nextTask) + |started|
        decreases left
      {
        var path :| path in left;
        MergeOne(tasks, Numbering(old(nextTask), started), path, nextTask);
        assert (started + [path])[..|started|] == started;
        started := started + [path];
        extraTasks := extraTasks[path := nextTask];
        nextTask := nextTask + 1;
        left := left - {path};
      }
    }

    /** Diffs the wanted paths against the running ones: stop what is gone, start what is new, leave the rest. */
    method Retarget(desired: set<Path>) returns (ghost started: seq<Path>)
      modifies `extraTasks, `nextTask, `stopped
      ensures Starts(old(Running()), desired, started)
      ensures Running() == AfterExtra(old(Running()), desired, started)
    {
      ghost var before := extraTasks;
      StopUnlisted(desired);
      assert forall p :: p in desired && p !in extraTasks <==> p in desired && p !in before;
      started := SpawnListed(desired);
    }

    /** Hands on what the batcher still holds. */
    method Flush(now: Millis)
      modifies batcher, `sent
      ensures Now() == FlushAll(old(Now()), now) && batcher == old(batcher)
    {
      var rest := batcher.FlushAll(now);
      if rest.Some? {
        sent := sent + [Sent(rest.value, batcher.maxSize)];
      }
    }

    /** Flushes the old batcher before replacing it, so that nothing buffered is dropped. */
    method Rebuild(ov: Override, now: Millis)
      modifies this, batcher
      ensures fresh(batcher)
      ensures var merged := Merge(old(settings), ov).(source := old(settings).source);
              Now() == FlushAll(old(Now()), now).(
                settings := merged, buffer := Buffer(merged.maxSize, merged.flushMs, [], now))
    {
      Flush(now);
      settings := settings.(maxSize := Or(ov.maxSize, settings.maxSize), flushMs := Or(ov.flushMs, settings.flushMs));
      batcher := new Batcher(settings.maxSize, settings.flushMs, now);
      settings := settings.(heartbeat := Or(ov.heartbeat, settings.heartbeat),
                            heartbeatMs := Or(ov.heartbeatMs, settings.heartbeatMs));
    }

    /** Restarts the source task when the override changes which journal unit it follows. */
    method Resource(unit: Option<string>)
      modifies `settings, `sourceTask, `nextTask, `stopped
      ensures settings == old(settings).(source := MergeSource(old(settings).source, unit))
      ensures Running() == AfterSource(old(Running()), old(settings).source, settings.source)
    {
      if unit.Some? && settings.source.Journald? {
        var follow := UnitOf(unit.value);
        if settings.source.unit != follow {
          settings := settings.(source := Journald(follow));
          stopped := stopped + {sourceTask};
          sourceTask, nextTask := nextTask, nextTask + 1;
        }
      }
    }

    method ApplyOverride(ov: Override, now: Millis) returns (ghost started: seq<Path>)
      modifies this, batcher
      ensures var tasks := AfterSource(old(Running()), old(settings).source, Merge(old(settings), ov).source);
              Starts(tasks, ov.extraPaths, started)
      ensures Now() == AfterOverride(old(Now()), ov, now, started) && fresh(batcher)
    {
      FlushLeaves(Now(), now);
      Rebuild(ov, now);
      Resource(ov.unit);
      started := Retarget(ov.extraPaths);
      version := ov.version;
      applied := applied + [ov];
    }

    method OnLine(rec: Record, now: Millis)
      modifies this, batcher
      ensures Now() == Next(old(Now()), Line(rec, now)) && batcher == old(batcher)
    {
      received := received + [rec];
      var full := batcher.Push(rec, now);
      if full.Some? {
        sent := sent + [Sent(full.value, batcher.maxSize)];
      }
    }

    method OnFlushTick(now: Millis)
      modifies this, batcher
      ensures Now() == Next(old(Now()), FlushTick(now)) && batcher == old(batcher)
    {
      var due := batcher.PollTimeout(now);
      if due.Some? {
        sent := sent + [Sent(due.value, batcher.maxSize)];
      }
    }

    /** The source exited, or the server asked for a restart. */
    method ShutDown(now: Millis)
      modifies this, batcher
      ensures Now() == Shutdown(old(Now()), now) && batcher == old(batcher)
    {
      Flush(now);
      running := false;
      stopped := stopped + {sourceTask};
    }

    method OnCheckIn(desired: Option<Override>, restart: bool, now: Millis) returns (ghost started: seq<Path>)
      requires running
      modifies this, batcher
      ensures CanHappen(old(Now()), CheckIn(desired, restart, now, started))
      ensures Now() == Next(old(Now()), CheckIn(desired, restart, now, started))
      ensures batcher == old(batcher) || fresh(batcher)
    {
      started := [];
      if desired.Some? && desired.value.version != version {
        started := ApplyOverride(desired.value, now);
      }
      if restart {
        ShutDown(now);
      }
    }
  }
}
