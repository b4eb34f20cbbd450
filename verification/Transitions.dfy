/**
 The debounced ok/pending/firing state machine of one alert rule, and what it
 means in terms of the whole history of committed evaluations.
 */
module Transitions {
  import opened Prelude
  import opened GoTime

  datatype State = Ok | Pending | Firing

  datatype Event = FiringEvent | ResolvedEvent

  /** The columns of an alert_state row the state machine owns. */
  datatype Core = Core(state: State, since: Option<Instant>, firedAt: Option<Instant>, lastNotifiedAt: Option<Instant>)

  /** A rule's debounce and renotify settings, already converted to durations. */
  datatype Policy = Policy(forMinutes: Duration, renotify: Option<Duration>)

  datatype TransitionInput = TransitionInput(current: Core, policy: Policy, now: Instant, conditionTrue: bool)

  datatype TransitionResult = TransitionResult(next: Core, notify: Option<Event>)

  const INITIAL := Core(Ok, None, None, None)

  function ComputeTransition(input: TransitionInput): TransitionResult {
    if input.conditionTrue then ComputeConditionTrue(input) else ComputeConditionFalse(input)
  }

  function ComputeConditionTrue(input: TransitionInput): TransitionResult {
    match input.current.state
    case Pending =>
      // A pending row without a recorded start is treated as if the condition just became true.
      var since := if input.current.since.Some? then input.current.since.value else input.now;
      if Sub(input.now, since) >= input.policy.forMinutes
      then Fire(since, input.now)
      else TransitionResult(Core(Pending, Some(since), None, None), None)
    case Firing =>
      var due :=
        && input.policy.renotify.Some?
        && input.current.lastNotifiedAt.Some?
        && Sub(input.now, input.current.lastNotifiedAt.value) >= input.policy.renotify.value;
      if due
      then TransitionResult(input.current.(lastNotifiedAt := Some(input.now)), Some(FiringEvent))
      else TransitionResult(input.current, None)
    case Ok =>
      if input.policy.forMinutes <= 0
      then Fire(input.now, input.now)
      else TransitionResult(Core(Pending, Some(input.now), None, None), None)
  }

  function ComputeConditionFalse(input: TransitionInput): TransitionResult {
    TransitionResult(INITIAL, if input.current.state == Firing then Some(ResolvedEvent) else None)
  }

  function Fire(since: Instant, now: Instant): TransitionResult {
    TransitionResult(Core(Firing, Some(since), Some(now), Some(now)), Some(FiringEvent))
  }

  // ---------------------------------------------------------------------
  // Replaying a history of committed evaluations
  // ---------------------------------------------------------------------

  /** One committed evaluation: when it ran and whether the condition held. */
  datatype Obs = Obs(at: Instant, holds: bool)

  /** One notification decision. */
  datatype Note = Note(at: Instant, event: Event)

  function Step(p: Policy, c: Core, o: Obs): TransitionResult {
    ComputeTransition(TransitionInput(c, p, o.at, o.holds))
  }

  function MicroOf(t: Option<Instant>): Option<Instant> {
    if t.Some? then Some(Micro(t.value)) else None
  }

  /** The row as the database keeps it. */
  function Stored(c: Core): Core {
    Core(c.state, MicroOf(c.since), MicroOf(c.firedAt), MicroOf(c.lastNotifiedAt))
  }

  function Replay(p: Policy, h: seq<Obs>): Core {
    if h == [] then INITIAL else Stored(Step(p, Replay(p, h[..|h| - 1]), h[|h| - 1]).next)
  }

  /** The decision taken by the last evaluation of a non-empty history. */
  function LastDecision(p: Policy, h: seq<Obs>): Option<Event>
    requires h != []
  {
    Step(p, Replay(p, h[..|h| - 1]), h[|h| - 1]).notify
  }

  function Notes(p: Policy, h: seq<Obs>): seq<Note> {
    if h == [] then []
    else
      var rest := Notes(p, h[..|h| - 1]);
      var d := LastDecision(p, h);
      if d.Some? then rest + [Note(h[|h| - 1].at, d.value)] else rest
  }

  // ---------------------------------------------------------------------
  // Reference meaning: a function of the history with no machine in it
  // ---------------------------------------------------------------------

  /** `k` is where the trailing run of true evaluations starts (|h| when there is none). */
  ghost predicate IsRunStart(h: seq<Obs>, k: nat) {
    && k <= |h|
    && (forall i :: k <= i < |h| ==> h[i].holds)
    && (k > 0 ==> !h[k - 1].holds)
  }

  function RunStart(h: seq<Obs>): (k: nat)
    ensures IsRunStart(h, k)
  {
    if h == [] || !h[|h| - 1].holds then |h| else RunStart(h[..|h| - 1])
  }

  /** How long the condition has held at evaluation `i` of the current run, counted from the stored start. */
  function HeldFor(h: seq<Obs>, i: nat): Duration
    requires RunStart(h) <= i < |h|
  {
    if i == RunStart(h) then 0 else Sub(h[i].at, Micro(h[RunStart(h)].at))
  }

  /** At evaluation `i` the condition of the current run had held for at least for_minutes. */
  predicate Mature(p: Policy, h: seq<Obs>, i: nat)
    requires i < |h|
  {
    RunStart(h) <= i && HeldFor(h, i) >= p.forMinutes
  }

  predicate Debounced(p: Policy, h: seq<Obs>) {
    exists i: nat :: i < |h| && Mature(p, h, i)
  }

  /** The first mature evaluation of the current run: the one that fired. */
  function FireIndex(p: Policy, h: seq<Obs>): (f: nat)
    requires Debounced(p, h)
    ensures f < |h| && Mature(p, h, f)
    ensures forall i: nat :: i < f ==> !Mature(p, h, i)
  {
    var n := |h| - 1;
    PrefixDebounced(p, h);
    if h[n].holds && Debounced(p, h[..n]) then FireIndex(p, h[..n]) else n
  }

  predicate Spaced(p: Policy, h: seq<Obs>, m: nat, n: nat)
    requires m < |h| && n < |h|
  {
    p.renotify.Some? && Sub(h[n].at, Micro(h[m].at)) >= p.renotify.value
  }

  /** The last evaluation of the firing run that notified: greedy spacing from the fire index on. */
  function LastNote(p: Policy, h: seq<Obs>): (k: nat)
    requires Debounced(p, h)
    ensures FireIndex(p, h) <= k < |h|
  {
    var n := |h| - 1;
    if FireIndex(p, h) == n then n
    else
      var m := LastNote(p, h[..n]);
      if Spaced(p, h, m, n) then n else m
  }

  function Meaning(p: Policy, h: seq<Obs>): Core {
    var k := RunStart(h);
    if k == |h| then INITIAL
    else if Debounced(p, h)
    then Core(Firing, Some(Micro(h[k].at)), Some(Micro(h[FireIndex(p, h)].at)), Some(Micro(h[LastNote(p, h)].at)))
    else Core(Pending, Some(Micro(h[k].at)), None, None)
  }

  /** What one more evaluation does to debouncing. */
  lemma PrefixDebounced(p: Policy, h: seq<Obs>)
    requires h != []
    ensures !h[|h| - 1].holds ==> !Debounced(p, h)
    ensures h[|h| - 1].holds ==>
              RunStart(h) == RunStart(h[..|h| - 1])
              && (Debounced(p, h) <==> Debounced(p, h[..|h| - 1]) || Mature(p, h, |h| - 1))
              && forall i: nat :: i < |h| - 1 ==> (Mature(p, h, i) <==> Mature(p, h[..|h| - 1], i))
  {
    var n := |h| - 1;
    if h[n].holds {
      forall i: nat | i < n ensures Mature(p, h, i) <==> Mature(p, h[..n], i) {
        PrefixMature(p, h, i);
      }
    }
  }

  lemma PrefixMature(p: Policy, h: seq<Obs>, i: nat)
    requires i < |h| - 1 && h[|h| - 1].holds
    ensures Mature(p, h, i) <==> Mature(p, h[..|h| - 1], i)
  {
    assert RunStart(h) == RunStart(h[..|h| - 1]);
    assert h[..|h| - 1][i] == h[i];
  }

  /** Refinement: for every policy and every history, the stored columns are the meaning of the history. */
  lemma {:induction false} ReplayIsMeaning(p: Policy, h: seq<Obs>)
    ensures Replay(p, h) == Meaning(p, h)
  {
    if h != [] {
      var n := |h| - 1;
      ReplayIsMeaning(p, h[..n]);
      PrefixDebounced(p, h);
      if h[n].holds && RunStart(h) < n {
        if Debounced(p, h[..n]) {
          FiringMeaning(p, h);
        } else {
          PendingMeaning(p, h);
        }
      }
    }
  }

  /** A pending run: the stored start is kept, and the run fires once it is mature. */
  lemma PendingMeaning(p: Policy, h: seq<Obs>)
    requires h != [] && h[|h| - 1].holds && RunStart(h) < |h| - 1 && !Debounced(p, h[..|h| - 1])
    ensures Stored(Step(p, Meaning(p, h[..|h| - 1]), h[|h| - 1]).next) == Meaning(p, h)
  {
    PrefixDebounced(p, h);
    MicroAgain(h[RunStart(h)].at);
  }

  /** A firing run: only the last notification moves. */
  lemma FiringMeaning(p: Policy, h: seq<Obs>)
    requires h != [] && h[|h| - 1].holds && RunStart(h) < |h| - 1 && Debounced(p, h[..|h| - 1])
    ensures Stored(Step(p, Meaning(p, h[..|h| - 1]), h[|h| - 1]).next) == Meaning(p, h)
  {
    var front := h[..|h| - 1];
    PrefixDebounced(p, h);
    MicroAgain(h[RunStart(h)].at);
    MicroAgain(h[FireIndex(p, front)].at);
    MicroAgain(h[LastNote(p, front)].at);
    assert FireIndex(p, h) == FireIndex(p, front);
  }

  ghost predicate Chronological(h: seq<Obs>) {
    forall i, j :: 0 <= i <= j < |h| ==> h[i].at <= h[j].at
  }

  lemma StillMature(p: Policy, h: seq<Obs>, i: nat)
    requires Chronological(h) && FitsInt64(p.forMinutes) && i < |h| && Mature(p, h, i)
    ensures Mature(p, h, |h| - 1)
  {
    var start := h[RunStart(h)].at;
    assert Micro(start) <= start <= h[i].at <= h[|h| - 1].at;
    SubComparesExactly(h[i].at, Micro(start), p.forMinutes);
    SubComparesExactly(h[|h| - 1].at, Micro(start), p.forMinutes);
  }

  /**
   With a clock that never steps back the state depends only on the ends of the
   trailing run: in whole microseconds, ok iff the run is empty and firing iff
   its last evaluation came at least for_minutes after its first.
   */
  lemma StateOfChronologicalHistory(p: Policy, h: seq<Obs>)
    requires Chronological(h) && FitsInt64(p.forMinutes)
    ensures Replay(p, h).state == Ok <==> RunStart(h) == |h|
    ensures Replay(p, h).state == Firing <==> RunStart(h) < |h| && HeldFor(h, |h| - 1) >= p.forMinutes
    ensures p.forMinutes % MICROSECOND == 0 ==>
              (Replay(p, h).state == Firing <==>
               RunStart(h) < |h| && Micro(h[|h| - 1].at) - Micro(h[RunStart(h)].at) >= p.forMinutes)
  {
    ReplayIsMeaning(p, h);
    var k := RunStart(h);
    if k < |h| {
      forall i: nat | i < |h| && Mature(p, h, i) ensures Mature(p, h, |h| - 1) {
        StillMature(p, h, i);
      }
      if p.forMinutes % MICROSECOND == 0 {
        HeldForMicros(h, p.forMinutes);
      }
    }
  }

  lemma HeldForMicros(h: seq<Obs>, d: Duration)
    requires Chronological(h) && FitsInt64(d) && RunStart(h) < |h| && d % MICROSECOND == 0
    ensures HeldFor(h, |h| - 1) >= d <==> Micro(h[|h| - 1].at) - Micro(h[RunStart(h)].at) >= d
  {
    var start, last := h[RunStart(h)].at, h[|h| - 1].at;
    assert start <= last;
    SubComparesExactly(last, Micro(start), d);
    MicroCompares(last, start, d);
  }

  /** Exactly when an evaluation decides to notify, and with which event. */
  lemma DecisionMeaning(p: Policy, h: seq<Obs>)
    requires h != []
    ensures LastDecision(p, h) == Some(ResolvedEvent) <==> !h[|h| - 1].holds && Debounced(p, h[..|h| - 1])
    ensures LastDecision(p, h) == Some(FiringEvent) <==> Debounced(p, h) && LastNote(p, h) == |h| - 1
  {
    ReplayIsMeaning(p, h[..|h| - 1]);
    PrefixDebounced(p, h);
  }

  // ---------------------------------------------------------------------
  // The shape of the notification trace
  // ---------------------------------------------------------------------

  function Repeat(n: nat): seq<Event> {
    seq(n, _ => FiringEvent)
  }

  /** (firing+ resolved)* followed by `open` firings; episode i has episodes[i] + 1 firings. */
  function Word(episodes: seq<nat>, open: nat): seq<Event> {
    if episodes == [] then Repeat(open)
    else Repeat(episodes[0] + 1) + [ResolvedEvent] + Word(episodes[1..], open)
  }

  ghost predicate IsEpisodeTrace(w: seq<Event>) {
    exists episodes: seq<nat>, open: nat :: w == Word(episodes, open)
  }

  lemma {:induction false} WordExtends(episodes: seq<nat>, open: nat)
    ensures Word(episodes, open) + [FiringEvent] == Word(episodes, open + 1)
    ensures open > 0 ==> Word(episodes, open) + [ResolvedEvent] == Word(episodes + [open - 1], 0)
  {
    if episodes == [] {
      if open > 0 {
        assert [open - 1][1..] == [];
      }
    } else {
      WordExtends(episodes[1..], open);
      assert (episodes + [open - 1])[1..] == episodes[1..] + [open - 1];
    }
  }

  function Events(notes: seq<Note>): seq<Event> {
    seq(|notes|, i requires 0 <= i < |notes| => notes[i].event)
  }

  /** Two firings with no resolution in between are at least the renotify interval apart. */
  ghost predicate SpacedNotes(p: Policy, notes: seq<Note>) {
    forall i :: 0 <= i < |notes| - 1 && notes[i].event == FiringEvent && notes[i + 1].event == FiringEvent ==>
      p.renotify.Some? && Sub(notes[i + 1].at, Micro(notes[i].at)) >= p.renotify.value
  }

  /** What the stored row remembers of the trace: whether an episode is open, and when it last notified. */
  ghost predicate RowMatchesTrace(c: Core, notes: seq<Note>) {
    && (c.state == Firing <==> notes != [] && notes[|notes| - 1].event == FiringEvent)
    && (c.state == Firing ==> c.lastNotifiedAt == Some(Micro(notes[|notes| - 1].at)))
  }

  lemma {:induction false} NotesFollowRow(p: Policy, h: seq<Obs>)
    ensures RowMatchesTrace(Replay(p, h), Notes(p, h))
    ensures SpacedNotes(p, Notes(p, h))
  {
    if h != [] {
      NotesFollowRow(p, h[..|h| - 1]);
    }
  }

  /** Per rule, the notification trace is a prefix of (firing+ resolved)*. */
  lemma {:induction false} NotesAreEpisodes(p: Policy, h: seq<Obs>)
    ensures IsEpisodeTrace(Events(Notes(p, h)))
  {
    if h == [] {
      assert Events(Notes(p, h)) == Word([], 0);
    } else {
      var before := Notes(p, h[..|h| - 1]);
      NotesAreEpisodes(p, h[..|h| - 1]);
      NotesFollowRow(p, h[..|h| - 1]);
      var d := LastDecision(p, h);
      if d.Some? {
        assert Events(Notes(p, h)) == Events(before) + [d.value];
        EpisodesExtend(Events(before), d.value);
      }
    }
  }

  /** A firing may follow anything, a resolution only a firing. */
  lemma EpisodesExtend(w: seq<Event>, e: Event)
    requires IsEpisodeTrace(w) && (e == ResolvedEvent ==> w != [] && w[|w| - 1] == FiringEvent)
    ensures IsEpisodeTrace(w + [e])
  {
    var episodes: seq<nat>, open: nat :| w == Word(episodes, open);
    WordExtends(episodes, open);
    WordEndsOpen(episodes, open);
  }

  lemma {:induction false} WordEndsOpen(episodes: seq<nat>, open: nat)
    ensures var w := Word(episodes, open);
            w != [] && w[|w| - 1] == FiringEvent ==> open > 0
  {
    if episodes != [] {
      WordEndsOpen(episodes[1..], open);
    }
  }

  /** Without a renotify interval every episode, closed or open, holds exactly one firing. */
  lemma OneFiringPerEpisode(p: Policy, h: seq<Obs>)
    requires p.renotify.None?
    ensures forall i :: 0 <= i < |Notes(p, h)| - 1 ==> Notes(p, h)[i].event != Notes(p, h)[i + 1].event
    ensures Notes(p, h) != [] ==> Notes(p, h)[0].event == FiringEvent
  {
    NotesAreEpisodes(p, h);
    NotesFollowRow(p, h);
    var notes := Notes(p, h);
    var episodes: seq<nat>, open: nat :| Events(notes) == Word(episodes, open);
    forall i | 0 <= i < |notes| ensures notes[i].event == ResolvedEvent ==> i > 0 && notes[i - 1].event == FiringEvent {
      assert Events(notes)[i] == notes[i].event;
      if i > 0 {
        assert Events(notes)[i - 1] == notes[i - 1].event;
      }
      if notes[i].event == ResolvedEvent {
        WordResolvesFirings(episodes, open, i);
      }
    }
  }

  lemma {:induction false} WordResolvesFirings(episodes: seq<nat>, open: nat, i: nat)
    requires i < |Word(episodes, open)| && Word(episodes, open)[i] == ResolvedEvent
    ensures i > 0 && Word(episodes, open)[i - 1] == FiringEvent
  {
    var closed := episodes[0] + 2;
    if i >= closed {
      WordResolvesFirings(episodes[1..], open, i - closed);
    }
  }
}
