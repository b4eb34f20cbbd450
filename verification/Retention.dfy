/**
 Deleting old logs by age: request targets are deduplicated, split by the
 retention floors configured per host and service, and only records of allowed
 targets older than the cutoff are deleted.
 */
module Retention {
  import opened Prelude
  import opened GoTime
  import opened Authz

  const MAX_OLDER_THAN_HOURS := 10 * 365 * 24
  const MAX_TARGETS := 2000

  /** The longest floor a time.Duration can hold, in days; the settings accept at most 3650. */
  const MAX_EXACT_DAYS := 106751

  datatype Target = Target(host: string, service: string)

  /** A host's floors in days: per service, and a default for the rest. */
  datatype HostFloor = HostFloor(defaultDays: Option<int>, serviceDays: map<string, int>)

  type Floors = map<string, HostFloor>

  datatype Blocked = Blocked(target: Target, days: int)

  datatype LogRow = LogRow(target: Target, timestamp: Instant, message: string)

  function Effective(floor: HostFloor, service: string): Option<int> {
    if service in floor.serviceDays then Some(floor.serviceDays[service]) else floor.defaultDays
  }

  /** A host without an entry has no floor. */
  function FloorOf(floors: Floors, t: Target): Option<int> {
    if t.host in floors then Effective(floors[t.host], t.service) else None
  }

  // ---------------------------------------------------------------------
  // Durations
  // ---------------------------------------------------------------------

  /** -time.Duration(days) * 24 * time.Hour */
  function MinusDays(days: int): Duration {
    Times(Wrap(Wrap(-days) * 24), HOUR)
  }

  /** -time.Duration(hours) * time.Hour */
  function MinusHours(hours: int): Duration {
    Times(Wrap(-hours), HOUR)
  }

  /** A floor's length is exact if and only if it is at most 106751 days either way. */
  lemma DaysExactly(days: int)
    requires FitsInt64(days)
    ensures MinusDays(days) == -days * 24 * HOUR <==> -MAX_EXACT_DAYS <= days <= MAX_EXACT_DAYS
  {
    WrapFits(-days);
    WrapFits(-days * 24);
    WrapFits(-days * 24 * HOUR);
    WrapFits(Wrap(Wrap(Wrap(-days) * 24)) * HOUR);
    WrapFits(Wrap(Wrap(-days) * 24));
  }

  lemma HoursExactly(hours: int)
    requires FitsInt64(hours)
    ensures MinusHours(hours) == -hours * HOUR <==> -2562047 <= hours <= 2562047
  {
    WrapFits(-hours);
    WrapFits(Wrap(-hours));
    WrapFits(Wrap(Wrap(-hours)) * HOUR);
  }

  // ---------------------------------------------------------------------
  // Targets
  // ---------------------------------------------------------------------

  /** The first occurrence of every target, in order. */
  function Firsts(targets: seq<Target>): seq<Target> {
    if targets == [] then []
    else
      var front, last := targets[..|targets| - 1], targets[|targets| - 1];
      if last in front then Firsts(front) else Firsts(front) + [last]
  }

  predicate Named(t: Target) {
    t.host != "" && t.service != ""
  }

  function Parsed(targets: seq<Target>): Option<seq<Target>> {
    if (exists i :: 0 <= i < |targets| && !Named(targets[i])) || !(0 < |Firsts(targets)| <= MAX_TARGETS) then None
    else Some(Firsts(targets))
  }

  lemma {:induction false} FirstsMembers(targets: seq<Target>, t: Target)
    ensures t in Firsts(targets) <==> t in targets
  {
    if targets != [] {
      var front := targets[..|targets| - 1];
      FirstsMembers(front, t);
      assert targets == front + [targets[|targets| - 1]];
    }
  }

  lemma {:induction false} FirstsCount(targets: seq<Target>)
    ensures |Firsts(targets)| == |set t | t in targets|
  {
    if targets != [] {
      var front, last := targets[..|targets| - 1], targets[|targets| - 1];
      FirstsCount(front);
      FirstsMembers(front, last);
      var before, all := (set t | t in front), (set t | t in targets);
      assert all == before + {last} by {
        assert targets == front + [last];
      }
      assert last in before <==> last in front;
    }
  }

  /** A target list is taken if every target is named and there are 1 to 2000 different ones. */
  lemma ParsedExactly(targets: seq<Target>)
    ensures Parsed(targets).None? <==>
            || (exists i :: 0 <= i < |targets| && (targets[i].host == "" || targets[i].service == ""))
            || !(1 <= |set t | t in targets| <= 2000)
    ensures Parsed(targets).Some? ==> Parsed(targets).value == Firsts(targets)
  {
    FirstsCount(targets);
  }

  /** Where `t` first occurs; |targets| if it does not. */
  function FirstIndex(targets: seq<Target>, t: Target): nat {
    if targets == [] then 0 else if targets[0] == t then 0 else 1 + FirstIndex(targets[1..], t)
  }

  lemma {:induction false} FirstIndexIn(targets: seq<Target>, t: Target)
    ensures t in targets <==> FirstIndex(targets, t) < |targets|
    ensures FirstIndex(targets, t) <= |targets|
  {
    if targets != [] {
      FirstIndexIn(targets[1..], t);
      assert targets == [targets[0]] + targets[1..];
    }
  }

  lemma {:induction false} FirstIndexAppend(targets: seq<Target>, last: Target, t: Target)
    ensures t in targets ==> FirstIndex(targets + [last], t) == FirstIndex(targets, t)
    ensures t !in targets && t == last ==> FirstIndex(targets + [last], t) == |targets|
  {
    if targets != [] {
      FirstIndexAppend(targets[1..], last, t);
      assert (targets + [last])[1..] == targets[1..] + [last];
      assert targets == [targets[0]] + targets[1..];
    }
  }

  /** Deduplication keeps every target once, ordered by first occurrence. */
  lemma {:induction false} FirstsInOrder(targets: seq<Target>, i: nat, j: nat)
    requires i < j < |Firsts(targets)|
    ensures FirstIndex(targets, Firsts(targets)[i]) < FirstIndex(targets, Firsts(targets)[j]) < |targets|
    ensures Firsts(targets)[i] != Firsts(targets)[j]
  {
    var front, last := targets[..|targets| - 1], targets[|targets| - 1];
    var a, b := Firsts(targets)[i], Firsts(targets)[j];
    assert targets == front + [last];
    FirstIndexAppend(front, last, a);
    FirstIndexAppend(front, last, b);
    if j < |Firsts(front)| {
      FirstsInOrder(front, i, j);
      FirstsMembers(front, a);
      FirstsMembers(front, b);
      assert a in Firsts(front) && b in Firsts(front);
    } else {
      assert a in Firsts(front);
      FirstsMembers(front, a);
      FirstIndexIn(front, a);
    }
  }

  method ParseTargets(targets: seq<Target>) returns (out: Option<seq<Target>>)
    ensures out == Parsed(targets)
  {
    var seen: set<Target> := {};
    var kept: seq<Target> := [];
    for i := 0 to |targets|
      invariant kept == Firsts(targets[..i])
      invariant forall t :: t in seen <==> t in targets[..i]
      invariant forall k :: 0 <= k < i ==> Named(targets[k])
    {
      var t := targets[i];
      if t.host == "" || t.service == "" {
        return None;
      }
      assert targets[..i + 1][..i] == targets[..i];
      if t !in seen {
        seen := seen + {t};
        kept := kept + [t];
      }
    }
    assert targets[..|targets|] == targets;
    return if |kept| == 0 || |kept| > MAX_TARGETS then None else Some(kept);
  }

  // ---------------------------------------------------------------------
  // Floors
  // ---------------------------------------------------------------------

  /** A floor protects a target when the cutoff is after the protected boundary. */
  predicate Protects(floors: Floors, now: Instant, cutoff: Instant, t: Target) {
    FloorOf(floors, t).Some? && cutoff > now + MinusDays(FloorOf(floors, t).value)
  }

  function AllowedOf(floors: Floors, now: Instant, cutoff: Instant, targets: seq<Target>): seq<Target> {
    if targets == [] then []
    else
      var front, last := AllowedOf(floors, now, cutoff, targets[..|targets| - 1]), targets[|targets| - 1];
      if Protects(floors, now, cutoff, last) then front else front + [last]
  }

  function BlockedOf(floors: Floors, now: Instant, cutoff: Instant, targets: seq<Target>): seq<Blocked> {
    if targets == [] then []
    else
      var front, last := BlockedOf(floors, now, cutoff, targets[..|targets| - 1]), targets[|targets| - 1];
      if Protects(floors, now, cutoff, last) then front + [Blocked(last, FloorOf(floors, last).value)] else front
  }

  /** The floor that counts: the service's own if it has one, else the host's default, if that is set. */
  ghost predicate HasFloor(floors: Floors, t: Target, days: int) {
    && t.host in floors
    && if t.service in floors[t.host].serviceDays then days == floors[t.host].serviceDays[t.service]
       else floors[t.host].defaultDays == Some(days)
  }

  /** A target is protected exactly when the cutoff is younger than its floor's number of days. */
  lemma ProtectsExactly(floors: Floors, now: Instant, cutoff: Instant, t: Target)
    requires forall days :: HasFloor(floors, t, days) ==> -MAX_EXACT_DAYS <= days <= MAX_EXACT_DAYS
    ensures Protects(floors, now, cutoff, t) <==>
            exists days :: HasFloor(floors, t, days) && cutoff > now - days * 24 * HOUR
  {
    var floor := FloorOf(floors, t);
    assert forall days :: HasFloor(floors, t, days) <==> floor == Some(days);
    if floor.Some? {
      assert HasFloor(floors, t, floor.value);
      DaysExactly(floor.value);
    }
  }

  /** An order-preserving merge of the two lists gives back the targets. */
  ghost predicate Splits(targets: seq<Target>, allowed: seq<Target>, blocked: seq<Blocked>)
    decreases |targets|
  {
    if targets == [] then allowed == [] && blocked == []
    else
      var n := |targets| - 1;
      || (allowed != [] && allowed[|allowed| - 1] == targets[n] &&
          Splits(targets[..n], allowed[..|allowed| - 1], blocked))
      || (blocked != [] && blocked[|blocked| - 1].target == targets[n] &&
          Splits(targets[..n], allowed, blocked[..|blocked| - 1]))
  }

  /** Allowed and blocked are the targets in order; exactly the protected ones are blocked, with their floor. */
  lemma {:induction false} PartitionSplits(floors: Floors, now: Instant, cutoff: Instant, targets: seq<Target>)
    ensures var allowed, blocked := AllowedOf(floors, now, cutoff, targets), BlockedOf(floors, now, cutoff, targets);
            && Splits(targets, allowed, blocked)
            && (forall i :: 0 <= i < |allowed| ==> !Protects(floors, now, cutoff, allowed[i]))
            && (forall i :: 0 <= i < |blocked| ==>
                  Protects(floors, now, cutoff, blocked[i].target) &&
                  FloorOf(floors, blocked[i].target) == Some(blocked[i].days))
  {
    if targets != [] {
      var front := targets[..|targets| - 1];
      PartitionSplits(floors, now, cutoff, front);
      var a, b := AllowedOf(floors, now, cutoff, front), BlockedOf(floors, now, cutoff, front);
      var last := targets[|targets| - 1];
      assert (a + [last])[..|a|] == a;
      if Protects(floors, now, cutoff, last) {
        assert (b + [Blocked(last, FloorOf(floors, last).value)])[..|b|] == b;
      }
    }
  }

  lemma {:induction false} AllowedUnprotected(floors: Floors, now: Instant, cutoff: Instant, targets: seq<Target>,
                                              t: Target)
    ensures t in AllowedOf(floors, now, cutoff, targets) <==> t in targets && !Protects(floors, now, cutoff, t)
  {
    if targets != [] {
      var front := targets[..|targets| - 1];
      AllowedUnprotected(floors, now, cutoff, front, t);
      assert targets == front + [targets[|targets| - 1]];
    }
  }

  /** An owner is never blocked. */
  method PartitionTargets(role: Role, floors: Floors, now: Instant, cutoff: Instant, targets: seq<Target>)
    returns (allowed: seq<Target>, blocked: seq<Blocked>)
    ensures allowed == if role.Owner? then targets else AllowedOf(floors, now, cutoff, targets)
    ensures blocked == if role.Owner? then [] else BlockedOf(floors, now, cutoff, targets)
  {
    if role.Owner? {
      return targets, [];
    }
    allowed, blocked := [], [];
    for i := 0 to |targets|
      invariant allowed == AllowedOf(floors, now, cutoff, targets[..i])
      invariant blocked == BlockedOf(floors, now, cutoff, targets[..i])
    {
      var t := targets[i];
      assert targets[..i + 1][..i] == targets[..i];
      var days := FloorOf(floors, t);
      if days.None? {
        allowed := allowed + [t];
        continue;
      }
      var boundary := now + MinusDays(days.value);
      if cutoff > boundary {
        blocked := blocked + [Blocked(t, days.value)];
      } else {
        allowed := allowed + [t];
      }
    }
    assert targets[..|targets|] == targets;
  }

  // ---------------------------------------------------------------------
  // Deletion
  // ---------------------------------------------------------------------

  predicate Deletable(row: LogRow, cutoff: Instant, targets: seq<Target>) {
    row.timestamp < cutoff && row.target in targets
  }

  function Remaining(rows: seq<LogRow>, cutoff: Instant, targets: seq<Target>): seq<LogRow> {
    if rows == [] then []
    else
      var front, last := Remaining(rows[..|rows| - 1], cutoff, targets), rows[|rows| - 1];
      if Deletable(last, cutoff, targets) then front else front + [last]
  }

  lemma {:induction false} RemainingMembers(rows: seq<LogRow>, cutoff: Instant, targets: seq<Target>, row: LogRow)
    ensures row in Remaining(rows, cutoff, targets) <==>
            row in rows && !(row.timestamp < cutoff && row.target in targets)
  {
    if rows != [] {
      var front := rows[..|rows| - 1];
      RemainingMembers(front, cutoff, targets, row);
      assert rows == front + [rows[|rows| - 1]];
    }
  }

  /** A request's identity, if one was resolved; without one the floors do not apply. */
  function RoleForFloorCheck(identity: Option<Role>): Role {
    if identity.Some? then identity.value else Owner
  }

  datatype DeleteRequest = DeleteRequest(olderThanHours: int, targets: seq<Target>)

  datatype DeleteReply = Rejected | Deleted(cutoff: Instant, targets: seq<Target>, blocked: seq<Blocked>)

  /** Within the accepted range the cutoff's duration does not wrap. */
  method Cutoff(start: Instant, hours: int) returns (cutoff: Instant)
    requires 1 <= hours <= MAX_OLDER_THAN_HOURS
    ensures cutoff == start - hours * HOUR
  {
    HoursExactly(hours);
    cutoff := start + MinusHours(hours);
  }

  class LogStore {
    var rows: seq<LogRow>

    method DeleteOlderThan(cutoff: Instant, targets: seq<Target>)
      modifies this
      ensures rows == Remaining(old(rows), cutoff, targets)
    {
      rows := Remaining(rows, cutoff, targets);
    }

    /**
     One delete request, received at `start` and checked against the floors at
     `now`. A rejected request deletes nothing; otherwise exactly the allowed
     targets' records older than the cutoff go.
     */
    method HandleDelete(identity: Option<Role>, floors: Floors, start: Instant, now: Instant, r: DeleteRequest)
      returns (reply: DeleteReply)
      modifies this
      ensures reply.Rejected? <==>
                || !(1 <= r.olderThanHours <= 87600)
                || (exists i :: 0 <= i < |r.targets| && (r.targets[i].host == "" || r.targets[i].service == ""))
                || !(1 <= |set t | t in r.targets| <= 2000)
      ensures reply.Rejected? ==> rows == old(rows)
      ensures reply.Deleted? ==>
                && reply.cutoff == start - r.olderThanHours * HOUR
                && rows == Remaining(old(rows), reply.cutoff, reply.targets)
                && (identity.None? || identity == Some(Owner) ==>
                      reply.targets == Firsts(r.targets) && reply.blocked == [])
                && (identity.Some? && identity != Some(Owner) ==>
                      && reply.targets == AllowedOf(floors, now, reply.cutoff, Firsts(r.targets))
                      && reply.blocked == BlockedOf(floors, now, reply.cutoff, Firsts(r.targets)))
    {
      ParsedExactly(r.targets);
      if r.olderThanHours < 1 || r.olderThanHours > MAX_OLDER_THAN_HOURS {
        return Rejected;
      }
      var targets := ParseTargets(r.targets);
      if targets.None? {
        return Rejected;
      }
      var cutoff := Cutoff(start, r.olderThanHours);
      var allowed, blocked := PartitionTargets(RoleForFloorCheck(identity), floors, now, cutoff, targets.value);
      if |allowed| > 0 {
        DeleteOlderThan(cutoff, allowed);
      } else {
        NothingDeletable(rows, cutoff);
      }
      return Deleted(cutoff, allowed, blocked);
    }
  }

  lemma {:induction false} NothingDeletable(rows: seq<LogRow>, cutoff: Instant)
    ensures Remaining(rows, cutoff, []) == rows
  {
    if rows != [] {
      NothingDeletable(rows[..|rows| - 1], cutoff);
      assert rows == rows[..|rows| - 1] + [rows[|rows| - 1]];
    }
  }

  /**
   Every record that goes when the allowed targets are deleted was asked for, is
   older than the cutoff, and is older than its effective floor at the check instant.
   */
  lemma DeletedAreOlderThanFloor(rows: seq<LogRow>, floors: Floors, now: Instant, cutoff: Instant,
                                 targets: seq<Target>, row: LogRow)
    requires FloorOf(floors, row.target).Some? ==>
               -MAX_EXACT_DAYS <= FloorOf(floors, row.target).value <= MAX_EXACT_DAYS
    requires row in rows && row !in Remaining(rows, cutoff, AllowedOf(floors, now, cutoff, targets))
    ensures row.target in targets && row.timestamp < cutoff
    ensures FloorOf(floors, row.target).Some? ==> row.timestamp < now - FloorOf(floors, row.target).value * 24 * HOUR
  {
    RemainingMembers(rows, cutoff, AllowedOf(floors, now, cutoff, targets), row);
    AllowedUnprotected(floors, now, cutoff, targets, row.target);
    if FloorOf(floors, row.target).Some? {
      DaysExactly(FloorOf(floors, row.target).value);
    }
  }

  /** A floor too long for its duration stops protecting: 106752 days wraps to a boundary in the future. */
  lemma OverlongFloorWraps(now: Instant)
    ensures now + MinusDays(106752) > now
  {
  }

  // ---------------------------------------------------------------------
  // Listing by host
  // ---------------------------------------------------------------------

  datatype Count = Count(target: Target, n: nat)

  datatype HostEntry = HostEntry(host: string, counts: seq<Count>)

  function Flatten(hosts: seq<HostEntry>): seq<Count> {
    if hosts == [] then [] else Flatten(hosts[..|hosts| - 1]) + hosts[|hosts| - 1].counts
  }

  /** Non-empty groups, each of one host, neighbours different. */
  ghost predicate Grouped(hosts: seq<HostEntry>) {
    && (forall i :: 0 <= i < |hosts| ==> hosts[i].counts != [])
    && (forall i, k :: 0 <= i < |hosts| && 0 <= k < |hosts[i].counts| ==>
          hosts[i].counts[k].target.host == hosts[i].host)
    && (forall i :: 0 < i < |hosts| ==> hosts[i - 1].host != hosts[i].host)
  }

  ghost predicate DistinctHosts(hosts: seq<HostEntry>) {
    forall i, j :: 0 <= i < j < |hosts| ==> hosts[i].host != hosts[j].host
  }

  /** Rows of one host are next to each other. */
  ghost predicate Contiguous(counts: seq<Count>) {
    forall i, j, k :: 0 <= i < j < k < |counts| && counts[i].target.host == counts[k].target.host ==>
                      counts[j].target.host == counts[i].target.host
  }

  method GroupByHost(counts: seq<Count>) returns (hosts: seq<HostEntry>)
    ensures Flatten(hosts) == counts && Grouped(hosts)
  {
    hosts := [];
    for i := 0 to |counts|
      invariant Flatten(hosts) == counts[..i] && Grouped(hosts)
    {
      assert counts[..i + 1] == counts[..i] + [counts[i]];
      hosts := AddCount(hosts, counts[i]);
    }
    assert counts[..|counts|] == counts;
  }

  /** A row opens a group of its own, unless the last group is its host's. */
  method AddCount(hosts: seq<HostEntry>, c: Count) returns (more: seq<HostEntry>)
    requires Grouped(hosts)
    ensures Grouped(more) && Flatten(more) == Flatten(hosts) + [c]
  {
    if |hosts| == 0 || hosts[|hosts| - 1].host != c.target.host {
      AppendGroup(hosts, HostEntry(c.target.host, [c]));
      return hosts + [HostEntry(c.target.host, [c])];
    }
    var last := hosts[|hosts| - 1];
    ExtendGroup(hosts, c);
    return hosts[..|hosts| - 1] + [HostEntry(last.host, last.counts + [c])];
  }

  lemma {:induction false} AppendGroup(hosts: seq<HostEntry>, e: HostEntry)
    requires Grouped(hosts) && |e.counts| == 1 && e.counts[0].target.host == e.host
    requires hosts == [] || hosts[|hosts| - 1].host != e.host
    ensures Grouped(hosts + [e]) && Flatten(hosts + [e]) == Flatten(hosts) + e.counts
  {
    assert (hosts + [e])[..|hosts|] == hosts;
  }

  lemma {:induction false} ExtendGroup(hosts: seq<HostEntry>, c: Count)
    requires Grouped(hosts) && hosts != [] && hosts[|hosts| - 1].host == c.target.host
    ensures var n := |hosts| - 1;
            var longer := hosts[..n] + [HostEntry(hosts[n].host, hosts[n].counts + [c])];
            Grouped(longer) && Flatten(longer) == Flatten(hosts) + [c]
  {
    var n := |hosts| - 1;
    var more := hosts[n].counts + [c];
    var longer := hosts[..n] + [HostEntry(hosts[n].host, more)];
    assert longer[..n] == hosts[..n];
    assert Flatten(hosts[..n]) + more == Flatten(hosts[..n]) + hosts[n].counts + [c];
    assert forall i :: 0 <= i < n ==> longer[i] == hosts[i];
    assert forall k :: 0 <= k < |more| ==> more[k].target.host == hosts[n].host;
  }

  lemma {:induction false} GroupShows(hosts: seq<HostEntry>, i: nat)
    requires Grouped(hosts) && i < |hosts|
    ensures exists a :: 0 <= a < |Flatten(hosts)| && Flatten(hosts)[a].target.host == hosts[i].host
  {
    var n := |hosts| - 1;
    var before := Flatten(hosts[..n]);
    if i == n {
      assert Flatten(hosts)[|before|] == hosts[n].counts[0];
    } else {
      GroupShows(hosts[..n], i);
      var a :| 0 <= a < |before| && before[a].target.host == hosts[i].host;
      assert Flatten(hosts)[a] == before[a];
    }
  }

  lemma {:induction false} ShownInGroup(hosts: seq<HostEntry>, a: nat)
    requires Grouped(hosts) && a < |Flatten(hosts)|
    ensures exists i :: 0 <= i < |hosts| && hosts[i].host == Flatten(hosts)[a].target.host
  {
    var n := |hosts| - 1;
    var before := Flatten(hosts[..n]);
    if a < |before| {
      ShownInGroup(hosts[..n], a);
      var i :| 0 <= i < |hosts[..n]| && hosts[..n][i].host == before[a].target.host;
      assert hosts[i] == hosts[..n][i];
    } else {
      assert Flatten(hosts)[a] == hosts[n].counts[a - |before|];
    }
  }

  lemma {:induction false} LastGroupApart(hosts: seq<HostEntry>, i: nat, k: nat)
    requires hosts != [] && Grouped(hosts) && DistinctHosts(hosts)
    requires i < |Flatten(hosts[..|hosts| - 1])| <= k < |Flatten(hosts)|
    ensures Flatten(hosts)[i].target.host != Flatten(hosts)[k].target.host
  {
    var n := |hosts| - 1;
    var front, all := Flatten(hosts[..n]), Flatten(hosts);
    ShownInGroup(hosts[..n], i);
    var g :| 0 <= g < |hosts[..n]| && hosts[..n][g].host == front[i].target.host;
    assert all[k] == hosts[n].counts[k - |front|] && all[i] == front[i];
  }

  lemma {:induction false} ContiguousIfDistinct(hosts: seq<HostEntry>)
    requires Grouped(hosts) && DistinctHosts(hosts)
    ensures Contiguous(Flatten(hosts))
  {
    if hosts != [] {
      var n := |hosts| - 1;
      var front, all := Flatten(hosts[..n]), Flatten(hosts);
      ContiguousIfDistinct(hosts[..n]);
      forall i, k | 0 <= i < |front| <= k < |all| ensures all[i].target.host != all[k].target.host {
        LastGroupApart(hosts, i, k);
      }
      forall i, j, k | 0 <= i < j < k < |all| && all[i].target.host == all[k].target.host
        ensures all[j].target.host == all[i].target.host
      {
        if k < |front| {
          assert all[i] == front[i] && all[j] == front[j] && all[k] == front[k];
        } else if i >= |front| {
          assert all[i] == hosts[n].counts[i - |front|] && all[j] == hosts[n].counts[j - |front|];
        }
      }
    }
  }

  lemma {:induction false} LastIsNew(hosts: seq<HostEntry>, i: nat)
    requires Grouped(hosts) && Contiguous(Flatten(hosts)) && i < |hosts| - 1
    ensures hosts[i].host != hosts[|hosts| - 1].host
  {
    var n := |hosts| - 1;
    if i < n - 1 {
      var early, front, all := Flatten(hosts[..n][..n - 1]), Flatten(hosts[..n]), Flatten(hosts);
      assert hosts[..n][..n - 1] == hosts[..n - 1];
      GroupShows(hosts[..n - 1], i);
      var a :| 0 <= a < |early| && early[a].target.host == hosts[i].host;
      assert all[a] == front[a] == early[a];
      assert all[|early|] == front[|early|] == hosts[n - 1].counts[0];
      assert all[|front|] == hosts[n].counts[0];
      assert a < |early| < |front|;
    }
  }

  lemma {:induction false} DistinctIfContiguous(hosts: seq<HostEntry>)
    requires Grouped(hosts) && Contiguous(Flatten(hosts))
    ensures DistinctHosts(hosts)
  {
    if hosts != [] {
      var n := |hosts| - 1;
      var front, all := Flatten(hosts[..n]), Flatten(hosts);
      assert forall a :: 0 <= a < |front| ==> front[a] == all[a];
      DistinctIfContiguous(hosts[..n]);
      forall i | 0 <= i < n ensures hosts[i].host != hosts[n].host {
        LastIsNew(hosts, i);
      }
    }
  }

  /** Rows ordered by host, under whatever order the database sorts text, come together. */
  lemma OrderedIsContiguous(counts: seq<Count>, leq: (string, string) -> bool)
    requires forall a, b :: leq(a, b) && leq(b, a) ==> a == b
    requires forall i, j :: 0 <= i < j < |counts| ==> leq(counts[i].target.host, counts[j].target.host)
    ensures Contiguous(counts)
  {
    forall i, j, k | 0 <= i < j < k < |counts| && counts[i].target.host == counts[k].target.host
      ensures counts[j].target.host == counts[i].target.host
    {
      assert leq(counts[i].target.host, counts[j].target.host) && leq(counts[j].target.host, counts[k].target.host);
    }
  }

  /** The one-pass grouping yields each host once exactly when the rows of every host come together. */
  lemma HostsDistinctExactly(hosts: seq<HostEntry>)
    requires Grouped(hosts)
    ensures DistinctHosts(hosts) <==> Contiguous(Flatten(hosts))
  {
    if DistinctHosts(hosts) {
      ContiguousIfDistinct(hosts);
    } else if Contiguous(Flatten(hosts)) {
      DistinctIfContiguous(hosts);
    }
  }
}
