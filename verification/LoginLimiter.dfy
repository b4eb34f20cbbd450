/**
 The login rate limiter: a pruned list of recent attempts per client, against
 the specification that looks at the whole history of allowed attempts.
 */
module LoginLimiter {
  import opened GoTime

  datatype Attempt = Attempt(key: string, now: Instant)

  /** The limit, and the length of the window. */
  datatype Limit = Limit(max: int, window: Duration)

  /** The attempts still inside the window that ends at `now`. */
  function Recent(limit: Limit, times: seq<Instant>, now: Instant): seq<Instant> {
    if times == [] then []
    else
      var front, last := Recent(limit, times[..|times| - 1], now), times[|times| - 1];
      if last > now - limit.window then front + [last] else front
  }

  /** One call on a client's list: prune, then refuse or record. */
  function AfterAllow(limit: Limit, times: seq<Instant>, now: Instant): seq<Instant> {
    var kept := Recent(limit, times, now);
    if |kept| >= limit.max then kept else kept + [now]
  }

  predicate Allows(limit: Limit, times: seq<Instant>, now: Instant) {
    |Recent(limit, times, now)| < limit.max
  }

  /** The list the limiter holds for `key` after these calls. */
  function Pruned(limit: Limit, calls: seq<Attempt>, key: string): seq<Instant> {
    if calls == [] then []
    else
      var before, c := Pruned(limit, calls[..|calls| - 1], key), calls[|calls| - 1];
      if c.key == key then AfterAllow(limit, before, c.now) else before
  }

  /** The specification: every attempt ever allowed for `key`. */
  function History(limit: Limit, calls: seq<Attempt>, key: string): seq<Instant> {
    if calls == [] then []
    else
      var before, c := History(limit, calls[..|calls| - 1], key), calls[|calls| - 1];
      if c.key == key && Allows(limit, before, c.now) then before + [c.now] else before
  }

  predicate Nondecreasing(calls: seq<Attempt>) {
    forall i, j :: 0 <= i < j < |calls| ==> calls[i].now <= calls[j].now
  }

  // ---------------------------------------------------------------------
  // Pruning loses nothing
  // ---------------------------------------------------------------------

  lemma {:induction false} RecentAgain(limit: Limit, times: seq<Instant>, now: Instant, later: Instant)
    requires now <= later
    ensures Recent(limit, Recent(limit, times, now), later) == Recent(limit, times, later)
  {
    if times != [] {
      RecentAgain(limit, times[..|times| - 1], now, later);
      var front, last := Recent(limit, times[..|times| - 1], now), times[|times| - 1];
      assert (front + [last])[..|front|] == front;
    }
  }

  lemma RecentOneMore(limit: Limit, times: seq<Instant>, t: Instant, later: Instant)
    ensures Recent(limit, times + [t], later)
            == Recent(limit, times, later) + (if t > later - limit.window then [t] else [])
  {
    assert (times + [t])[..|times|] == times;
  }

  /**
   With a clock that does not run backwards, the pruned list and the whole
   history show the same attempts in every window from the last call on, so the
   next call is decided exactly as the specification decides it.
   */
  lemma {:induction false} PrunedIsRecentHistory(limit: Limit, calls: seq<Attempt>, key: string, later: Instant)
    requires Nondecreasing(calls) && (calls != [] ==> calls[|calls| - 1].now <= later)
    ensures Recent(limit, Pruned(limit, calls, key), later) == Recent(limit, History(limit, calls, key), later)
    ensures Allows(limit, Pruned(limit, calls, key), later) <==> Allows(limit, History(limit, calls, key), later)
  {
    if calls != [] {
      var n := |calls| - 1;
      var front, now := calls[..n], calls[n].now;
      PrunedIsRecentHistory(limit, front, key, now);
      PrunedIsRecentHistory(limit, front, key, later);
      var p, h := Pruned(limit, front, key), History(limit, front, key);
      RecentAgain(limit, p, now, later);
      RecentOneMore(limit, Recent(limit, p, now), now, later);
      RecentOneMore(limit, h, now, later);
    }
  }

  /** The list held after a call for `key` is literally the allowed history inside the window. */
  lemma PrunedExactly(limit: Limit, calls: seq<Attempt>)
    requires limit.window > 0 && calls != [] && Nondecreasing(calls)
    ensures var c := calls[|calls| - 1];
            Pruned(limit, calls, c.key) == Recent(limit, History(limit, calls, c.key), c.now)
  {
    var n := |calls| - 1;
    var c := calls[n];
    PrunedIsRecentHistory(limit, calls, c.key, c.now);
    RecentAgain(limit, Pruned(limit, calls[..n], c.key), c.now, c.now);
    RecentOneMore(limit, Recent(limit, Pruned(limit, calls[..n], c.key), c.now), c.now, c.now);
  }

  // ---------------------------------------------------------------------
  // The rate bound
  // ---------------------------------------------------------------------

  /** How many of `times` lie in [from, from + window). */
  function CountWithin(limit: Limit, times: seq<Instant>, from: Instant): nat {
    if times == [] then 0
    else
      CountWithin(limit, times[..|times| - 1], from) +
      (if from <= times[|times| - 1] < from + limit.window then 1 else 0)
  }

  lemma {:induction false} WithinIsRecent(limit: Limit, times: seq<Instant>, from: Instant, now: Instant)
    requires now < from + limit.window
    ensures CountWithin(limit, times, from) <= |Recent(limit, times, now)|
  {
    if times != [] {
      WithinIsRecent(limit, times[..|times| - 1], from, now);
    }
  }

  /** No interval as long as the window ever holds more than `max` allowed attempts of one client. */
  lemma {:induction false} RateBound(limit: Limit, calls: seq<Attempt>, key: string, from: Instant)
    ensures CountWithin(limit, History(limit, calls, key), from) <= if limit.max < 0 then 0 else limit.max
  {
    if calls != [] {
      var front, c := calls[..|calls| - 1], calls[|calls| - 1];
      RateBound(limit, front, key, from);
      var h := History(limit, front, key);
      assert (h + [c.now])[..|h|] == h;
      if c.now < from + limit.window {
        WithinIsRecent(limit, h, from, c.now);
      }
    }
  }

  // ---------------------------------------------------------------------
  // Exactly which attempts are allowed
  // ---------------------------------------------------------------------

  /** The limiter's answer to call i. */
  predicate Allowed(limit: Limit, calls: seq<Attempt>, i: nat)
    requires i < |calls|
  {
    Allows(limit, Pruned(limit, calls[..i], calls[i].key), calls[i].now)
  }

  /** The earlier calls of `key` that were allowed after `since`. */
  ghost function AllowedSince(limit: Limit, calls: seq<Attempt>, n: nat, key: string, since: Instant): set<nat>
    requires n <= |calls|
  {
    set i: nat | i < n && calls[i].key == key && Allowed(limit, calls, i) && calls[i].now > since
  }

  lemma PrefixNondecreasing(calls: seq<Attempt>, n: nat)
    requires n <= |calls| && Nondecreasing(calls)
    ensures Nondecreasing(calls[..n])
  {
  }

  /** Call n - 1 is one more of the allowed ones, or makes no difference. */
  lemma {:induction false} AllowedOneMore(limit: Limit, calls: seq<Attempt>, n: nat, key: string, since: Instant)
    requires 0 < n <= |calls|
    ensures var counts := calls[n - 1].key == key && Allowed(limit, calls, n - 1) && calls[n - 1].now > since;
            |AllowedSince(limit, calls, n, key, since)|
            == |AllowedSince(limit, calls, n - 1, key, since)| + (if counts then 1 else 0)
  {
    var before, after := AllowedSince(limit, calls, n - 1, key, since), AllowedSince(limit, calls, n, key, since);
    assert after - {n - 1} == before;
  }

  lemma {:induction false} HistoryOneMore(limit: Limit, calls: seq<Attempt>, n: nat, key: string)
    requires 0 < n <= |calls| && Nondecreasing(calls)
    ensures History(limit, calls[..n], key)
            == History(limit, calls[..n - 1], key)
               + (if calls[n - 1].key == key && Allowed(limit, calls, n - 1) then [calls[n - 1].now] else [])
  {
    var c := calls[n - 1];
    assert calls[..n][..n - 1] == calls[..n - 1];
    PrefixNondecreasing(calls, n - 1);
    PrunedIsRecentHistory(limit, calls[..n - 1], c.key, c.now);
  }

  lemma {:induction false} RecentOneMoreCall(limit: Limit, calls: seq<Attempt>, n: nat, key: string, now: Instant)
    requires 0 < n <= |calls| && Nondecreasing(calls)
    ensures var c := calls[n - 1];
            var counts := c.key == key && Allowed(limit, calls, n - 1) && c.now > now - limit.window;
            |Recent(limit, History(limit, calls[..n], key), now)|
            == |Recent(limit, History(limit, calls[..n - 1], key), now)| + (if counts then 1 else 0)
  {
    HistoryOneMore(limit, calls, n, key);
    var before := History(limit, calls[..n - 1], key);
    assert before + [] == before;
    RecentOneMore(limit, before, calls[n - 1].now, now);
  }

  lemma {:induction false} RecentCounts(limit: Limit, calls: seq<Attempt>, n: nat, key: string, now: Instant)
    requires n <= |calls| && Nondecreasing(calls)
    ensures |Recent(limit, History(limit, calls[..n], key), now)|
            == |AllowedSince(limit, calls, n, key, now - limit.window)|
  {
    if n == 0 {
      NoCallsYet(limit, calls, key, now);
    } else {
      RecentCounts(limit, calls, n - 1, key, now);
      AllowedOneMore(limit, calls, n, key, now - limit.window);
      RecentOneMoreCall(limit, calls, n, key, now);
    }
  }

  lemma {:induction false} NoCallsYet(limit: Limit, calls: seq<Attempt>, key: string, now: Instant)
    ensures Recent(limit, History(limit, calls[..0], key), now) == []
    ensures AllowedSince(limit, calls, 0, key, now - limit.window) == {}
  {
  }

  /**
   An attempt is allowed exactly when fewer than `max` attempts of the same
   client were allowed within the window before it.
   */
  lemma {:induction false} AllowedExactly(limit: Limit, calls: seq<Attempt>, n: nat)
    requires n < |calls| && Nondecreasing(calls)
    ensures Allowed(limit, calls, n) <==>
            |set i: nat | i < n && calls[i].key == calls[n].key && Allowed(limit, calls, i)
                          && calls[i].now > calls[n].now - limit.window| < limit.max
  {
    var c := calls[n];
    PrefixNondecreasing(calls, n);
    PrunedIsRecentHistory(limit, calls[..n], c.key, c.now);
    RecentCounts(limit, calls, n, c.key, c.now);
    assert AllowedSince(limit, calls, n, c.key, c.now - limit.window)
        == set i: nat | i < n && calls[i].key == c.key && Allowed(limit, calls, i)
                        && calls[i].now > c.now - limit.window;
  }

  function Only(calls: seq<Attempt>, key: string): seq<Attempt> {
    if calls == [] then []
    else
      var front, c := Only(calls[..|calls| - 1], key), calls[|calls| - 1];
      if c.key == key then front + [c] else front
  }

  /** What other clients do makes no difference. */
  lemma {:induction false} KeysIndependent(limit: Limit, calls: seq<Attempt>, key: string)
    ensures Pruned(limit, calls, key) == Pruned(limit, Only(calls, key), key)
    ensures History(limit, calls, key) == History(limit, Only(calls, key), key)
  {
    if calls != [] {
      var front, c := calls[..|calls| - 1], calls[|calls| - 1];
      KeysIndependent(limit, front, key);
      assert (Only(front, key) + [c])[..|Only(front, key)|] == Only(front, key);
    }
  }

  // ---------------------------------------------------------------------
  // The limiter
  // ---------------------------------------------------------------------

  class Limiter {
    const limit: Limit
    var attempts: map<string, seq<Instant>>

    ghost function Times(key: string): seq<Instant>
      reads this
    {
      if key in attempts then attempts[key] else []
    }

    /** The lists are those of the calls made so far. */
    ghost predicate After(calls: seq<Attempt>)
      reads this
    {
      forall key :: Times(key) == Pruned(limit, calls, key)
    }

    constructor (max: int, window: Duration)
      ensures limit == Limit(max, window) && After([])
    {
      limit, attempts := Limit(max, window), map[];
    }

    method Allow(key: string, now: Instant, ghost calls: seq<Attempt>) returns (ok: bool)
      requires After(calls)
      modifies this
      ensures After(calls + [Attempt(key, now)])
      ensures ok == Allows(limit, old(Times(key)), now)
      ensures Nondecreasing(calls + [Attempt(key, now)]) ==> ok == Allows(limit, History(limit, calls, key), now)
    {
      var kept: seq<Instant> := [];
      var times := if key in attempts then attempts[key] else [];
      for i := 0 to |times|
        invariant kept == Recent(limit, times[..i], now)
      {
        assert times[..i + 1][..i] == times[..i];
        if times[i] > now - limit.window {
          kept := kept + [times[i]];
        }
      }
      assert times[..|times|] == times;
      ok := |kept| < limit.max;
      attempts := attempts[key := if ok then kept + [now] else kept];
      AfterOneCall(limit, calls, Attempt(key, now));
    }
  }

  lemma AfterOneCall(limit: Limit, calls: seq<Attempt>, c: Attempt)
    ensures Pruned(limit, calls + [c], c.key) == AfterAllow(limit, Pruned(limit, calls, c.key), c.now)
    ensures forall key :: key != c.key ==> Pruned(limit, calls + [c], key) == Pruned(limit, calls, key)
    ensures Nondecreasing(calls + [c]) ==>
              (Allows(limit, Pruned(limit, calls, c.key), c.now) <==>
               Allows(limit, History(limit, calls, c.key), c.now))
  {
    var all := calls + [c];
    assert all[..|calls|] == calls;
    if Nondecreasing(all) {
      assert forall i :: 0 <= i < |calls| ==> calls[i] == all[i] && all[i].now <= all[|calls|].now;
      PrunedIsRecentHistory(limit, calls, c.key, c.now);
    }
  }
}
