/** The rate limit on login challenges: a sliding minute per source inside a sliding minute over all sources.
    The limiter keeps only what it needs; it is held against one that keeps every grant. Times are nanoseconds. */
module ChallengeLimit {
  const PER_IP_LIMIT := 10
  const GLOBAL_LIMIT := 200
  const WINDOW := 60_000_000_000

  // ---- the specification: nothing is ever forgotten ----

  datatype Grant = Grant(ip: string, at: int)

  function Times(h: seq<Grant>): (r: seq<int>) {
    if h == [] then [] else Times(h[..|h| - 1]) + [h[|h| - 1].at]
  }

  function TimesOf(h: seq<Grant>, ip: string): (r: seq<int>) {
    if h == [] then []
    else
      var front, g := TimesOf(h[..|h| - 1], ip), h[|h| - 1];
      if g.ip == ip then front + [g.at] else front
  }

  /** The times within the closed interval. */
  function Between(s: seq<int>, a: int, b: int): seq<int> {
    if s == [] then []
    else
      var front, t := Between(s[..|s| - 1], a, b), s[|s| - 1];
      if a <= t <= b then front + [t] else front
  }

  datatype Decision = Allowed | Refused(retry: int)

  function Verdict(recent: seq<int>, limit: nat, now: int): Decision {
    if |recent| >= limit && recent != [] then Refused(recent[0] + WINDOW - now) else Allowed
  }

  /** Counts every grant of the last minute, both ends included: over all sources first, then of this source. */
  function Decide(h: seq<Grant>, ip: string, now: int): Decision {
    var overall := Verdict(Between(Times(h), now - WINDOW, now), GLOBAL_LIMIT, now);
    if overall.Refused? then overall else Verdict(Between(TimesOf(h, ip), now - WINDOW, now), PER_IP_LIMIT, now)
  }

  datatype Request = Request(ip: string, now: int)

  ghost predicate ClockNeverBack(rs: seq<Request>) {
    forall i, j :: 0 <= i < j < |rs| ==> rs[i].now <= rs[j].now
  }

  function Served(h: seq<Grant>, r: Request): seq<Grant> {
    if Decide(h, r.ip, r.now).Allowed? then h + [Grant(r.ip, r.now)] else h
  }

  /** The grants a run of requests leads to. */
  function Granted(rs: seq<Request>): seq<Grant> {
    if rs == [] then [] else Served(Granted(rs[..|rs| - 1]), rs[|rs| - 1])
  }

  ghost predicate Rising(s: seq<int>) {
    forall i, j :: 0 <= i < j < |s| ==> s[i] <= s[j]
  }

  ghost predicate UpTo(s: seq<int>, now: int) {
    forall i :: 0 <= i < |s| ==> s[i] <= now
  }

  /** A list of times in order, none after now. */
  predicate Log(s: seq<int>, now: int) {
    s == [] || (s[|s| - 1] <= now && Log(s[..|s| - 1], s[|s| - 1]))
  }

  lemma LogAppends(s: seq<int>, before: int, now: int)
    requires Log(s, before) && before <= now
    ensures Log(s, now) && Log(s + [now], now)
  {}

  lemma {:induction false} LogRises(s: seq<int>, now: int)
    requires Log(s, now)
    ensures Rising(s) && UpTo(s, now)
  {
    if s != [] {
      LogRises(s[..|s| - 1], s[|s| - 1]);
    }
  }

  lemma OneMore(h: seq<Grant>, g: Grant, ip: string)
    ensures Times(h + [g]) == Times(h) + [g.at]
    ensures TimesOf(h + [g], ip) == if g.ip == ip then TimesOf(h, ip) + [g.at] else TimesOf(h, ip)
  {}

  lemma OneMoreTime(s: seq<int>, t: int, a: int, b: int)
    ensures Between(s + [t], a, b) == if a <= t <= b then Between(s, a, b) + [t] else Between(s, a, b)
  {}

  lemma LogsGrow(h: seq<Grant>, r: Request, ip: string)
    requires Log(Times(h), r.now) && Log(TimesOf(h, ip), r.now)
    ensures Log(Times(Served(h, r)), r.now) && Log(TimesOf(Served(h, r), ip), r.now)
  {}

  lemma {:induction false} TimesRise(rs: seq<Request>, ip: string, now: int)
    requires ClockNeverBack(rs) && (rs != [] ==> rs[|rs| - 1].now <= now)
    ensures Log(Times(Granted(rs)), now) && Log(TimesOf(Granted(rs), ip), now)
  {
    if rs != [] {
      var front, r := rs[..|rs| - 1], rs[|rs| - 1];
      TimesRise(front, ip, r.now);
      LogsGrow(Granted(front), r, ip);
      LogAppends(Times(Granted(rs)), r.now, now);
      LogAppends(TimesOf(Granted(rs), ip), r.now, now);
    }
  }

  lemma {:induction false} BetweenGrows(s: seq<int>, a: int, b: int, c: int, d: int)
    requires c <= a && b <= d
    ensures |Between(s, a, b)| <= |Between(s, c, d)|
  {
    if s != [] {
      BetweenGrows(s[..|s| - 1], a, b, c, d);
    }
  }

  lemma {:induction false} BetweenUpTo(s: seq<int>, a: int, b: int, now: int)
    requires UpTo(s, now) && now <= b
    ensures Between(s, a, b) == Between(s, a, now)
  {
    if s != [] {
      BetweenUpTo(s[..|s| - 1], a, b, now);
    }
  }

  /** How many times fall in the closed minute from a on. */
  function InMinute(s: seq<int>, a: int): nat {
    |Between(s, a, a + WINDOW)|
  }

  lemma AppendCounts(s: seq<int>, now: int, limit: nat, a: int)
    requires InMinute(s, a) <= limit && Log(s, now) && |Between(s, now - WINDOW, now)| < limit
    ensures InMinute(s + [now], a) <= limit
  {
    var b := a + WINDOW;
    OneMoreTime(s, now, a, b);
    if a <= now <= b {
      LogRises(s, now);
      CountUpTo(s, a, b, now);
    }
  }

  lemma CountUpTo(s: seq<int>, a: int, b: int, now: int)
    requires UpTo(s, now) && a <= now <= b && now - WINDOW <= a
    ensures |Between(s, a, b)| <= |Between(s, now - WINDOW, now)|
  {
    BetweenUpTo(s, a, b, now);
    BetweenGrows(s, a, now, now - WINDOW, now);
  }

  /** In every run, every closed minute holds at most 200 grants, and at most 10 to one source. */
  lemma {:induction false} EveryMinuteIsBounded(rs: seq<Request>, ip: string, a: int)
    requires ClockNeverBack(rs)
    ensures InMinute(Times(Granted(rs)), a) <= GLOBAL_LIMIT && InMinute(TimesOf(Granted(rs), ip), a) <= PER_IP_LIMIT
  {
    if rs != [] {
      var front, r := rs[..|rs| - 1], rs[|rs| - 1];
      EveryMinuteIsBounded(front, ip, a);
      TimesRise(front, ip, r.now);
      ServedStaysBounded(Granted(front), r, ip, a);
    }
  }

  lemma ServedStaysBounded(h: seq<Grant>, r: Request, ip: string, a: int)
    requires Log(Times(h), r.now) && Log(TimesOf(h, ip), r.now)
    requires InMinute(Times(h), a) <= GLOBAL_LIMIT && InMinute(TimesOf(h, ip), a) <= PER_IP_LIMIT
    ensures InMinute(Times(Served(h, r)), a) <= GLOBAL_LIMIT && InMinute(TimesOf(Served(h, r), ip), a) <= PER_IP_LIMIT
  {
    var allowed := Decide(h, r.ip, r.now).Allowed?;
    if allowed {
      AllowedHasRoom(h, r.ip, r.now);
      OneMore(h, Grant(r.ip, r.now), ip);
    }
    CountsAfter(Times(h), Times(Served(h, r)), r.now, GLOBAL_LIMIT, a);
    CountsAfter(TimesOf(h, ip), TimesOf(Served(h, r), ip), r.now, PER_IP_LIMIT, a);
  }

  lemma CountsAfter(s: seq<int>, s2: seq<int>, now: int, limit: nat, a: int)
    requires Log(s, now) && InMinute(s, a) <= limit
    requires s2 == s || (s2 == s + [now] && |Between(s, now - WINDOW, now)| < limit)
    ensures InMinute(s2, a) <= limit
  {
    if s2 != s {
      AppendCounts(s, now, limit, a);
    }
  }

  lemma AllowedHasRoom(h: seq<Grant>, ip: string, now: int)
    requires Decide(h, ip, now).Allowed?
    ensures |Between(Times(h), now - WINDOW, now)| < GLOBAL_LIMIT &&
            |Between(TimesOf(h, ip), now - WINDOW, now)| < PER_IP_LIMIT
  {}

  // ---- pruning ----

  predicate Stale(t: int, now: int) {
    t < now - WINDOW
  }

  ghost predicate AllStale(s: seq<int>, now: int) {
    forall i :: 0 <= i < |s| ==> Stale(s[i], now)
  }

  lemma {:induction false} BetweenNone(s: seq<int>, now: int)
    requires AllStale(s, now)
    ensures Between(s, now - WINDOW, now) == []
  {
    if s != [] {
      BetweenNone(s[..|s| - 1], now);
    }
  }

  lemma {:induction false} BetweenDropsStale(gone: seq<int>, kept: seq<int>, now: int)
    requires AllStale(gone, now) && UpTo(kept, now) && (forall i :: 0 <= i < |kept| ==> !Stale(kept[i], now))
    ensures Between(gone + kept, now - WINDOW, now) == kept
    decreases |kept|
  {
    if kept == [] {
      assert gone + kept == gone;
      BetweenNone(gone, now);
    } else {
      var front, t := kept[..|kept| - 1], kept[|kept| - 1];
      BetweenDropsStale(gone, front, now);
      OneMoreTime(gone + front, t, now - WINDOW, now);
      assert gone + kept == (gone + front) + [t];
    }
  }

  /** `kept` is `full` without some stale times at its front. */
  predicate Left(kept: seq<int>, full: seq<int>, now: int) {
    kept == full || (full != [] && Stale(full[0], now) && Left(kept, full[1..], now))
  }

  lemma {:induction false} LeftTransitive(r: seq<int>, kept: seq<int>, full: seq<int>, now: int)
    requires Left(r, kept, now) && Left(kept, full, now)
    ensures Left(r, full, now)
    decreases |full|
  {
    if kept != full {
      LeftTransitive(r, kept, full[1..], now);
    }
  }

  lemma {:induction false} LeftLater(kept: seq<int>, full: seq<int>, before: int, now: int)
    requires Left(kept, full, before) && before <= now
    ensures Left(kept, full, now)
    decreases |full|
  {
    if kept != full {
      LeftLater(kept, full[1..], before, now);
    }
  }

  lemma {:induction false} LeftAppends(kept: seq<int>, full: seq<int>, t: int, now: int)
    requires Left(kept, full, now)
    ensures Left(kept + [t], full + [t], now)
    decreases |full|
  {
    if kept != full {
      LeftAppends(kept, full[1..], t, now);
      assert (full + [t])[1..] == full[1..] + [t];
    }
  }

  lemma {:induction false} WhatIsGone(kept: seq<int>, full: seq<int>, now: int) returns (gone: seq<int>)
    requires Left(kept, full, now)
    ensures full == gone + kept && AllStale(gone, now)
    decreases |full|
  {
    if kept == full {
      gone := [];
    } else {
      var rest := WhatIsGone(kept, full[1..], now);
      gone := [full[0]] + rest;
    }
  }

  lemma NothingLeft(r: seq<int>, kept: seq<int>, now: int)
    requires Left(r, kept, now) && (r != [] ==> !Stale(r[0], now))
    ensures r == [] <==> AllStale(kept, now)
  {
    var gone := WhatIsGone(r, kept, now);
    assert r != [] ==> kept[|gone|] == r[0];
  }

  /** prune: drops the stale times at the front. */
  method Prune(times: seq<int>, now: int) returns (r: seq<int>)
    ensures Left(r, times, now) && (r != [] ==> !Stale(r[0], now))
  {
    var i := 0;
    while i < |times| && times[i] < now - WINDOW
      invariant 0 <= i <= |times| && Left(times[i..], times, now)
    {
      LeftTransitive(times[i + 1..], times[i..], times, now);
      i := i + 1;
    }
    if i == 0 {
      return times;
    }
    return times[i..];
  }

  method RetryAfter(times: seq<int>, now: int) returns (d: int)
    ensures d == if times == [] || times[0] + WINDOW < now then 0 else times[0] + WINDOW - now
  {
    if |times| == 0 {
      return 0;
    }
    d := times[0] + WINDOW - now;
    if d < 0 {
      d := 0;
    }
  }

  /** `kept` is what is left of the full log once some times that are stale by now are dropped. */
  predicate Tracks(kept: seq<int>, full: seq<int>, now: int) {
    Log(full, now) && Left(kept, full, now)
  }

  lemma TracksLater(kept: seq<int>, full: seq<int>, before: int, now: int)
    requires Tracks(kept, full, before) && before <= now
    ensures Tracks(kept, full, now)
  {
    LogAppends(full, before, now);
    LeftLater(kept, full, before, now);
  }

  lemma TracksAppends(kept: seq<int>, full: seq<int>, now: int)
    requires Tracks(kept, full, now)
    ensures Tracks(kept + [now], full + [now], now)
  {
    LogAppends(full, now, now);
    LeftAppends(kept, full, now, now);
  }

  /** In a log, what follows a time that is not stale is not stale either. */
  lemma RestIsRecent(front: seq<int>, rest: seq<int>, now: int)
    requires Rising(front + rest) && UpTo(front + rest, now) && (rest != [] ==> !Stale(rest[0], now))
    ensures UpTo(rest, now) && forall i :: 0 <= i < |rest| ==> !Stale(rest[i], now)
  {
    var s := front + rest;
    forall i | 0 <= i < |rest| ensures rest[i] <= now && !Stale(rest[i], now) {
      assert s[|front|] == rest[0] && s[|front| + i] == rest[i];
    }
  }

  /** Pruning what is left gives exactly the last minute of the full log. */
  lemma PrunedIsTheMinute(kept: seq<int>, full: seq<int>, now: int, r: seq<int>)
    requires Tracks(kept, full, now) && Left(r, kept, now) && (r != [] ==> !Stale(r[0], now))
    ensures r == Between(full, now - WINDOW, now) && Tracks(r, full, now)
  {
    LeftTransitive(r, kept, full, now);
    var gone := WhatIsGone(r, full, now);
    LogRises(full, now);
    RestIsRecent(gone, r, now);
    BetweenDropsStale(gone, r, now);
  }

  // ---- the limiter ----

  function Bucket(perIP: map<string, seq<int>>, ip: string): seq<int> {
    if ip in perIP then perIP[ip] else []
  }

  ghost predicate AllTrack(perIP: map<string, seq<int>>, h: seq<Grant>, now: int) {
    forall ip :: Tracks(Bucket(perIP, ip), TimesOf(h, ip), now)
  }

  lemma AllTrackLater(perIP: map<string, seq<int>>, h: seq<Grant>, before: int, now: int)
    requires AllTrack(perIP, h, before) && before <= now
    ensures AllTrack(perIP, h, now)
  {
    forall ip ensures Tracks(Bucket(perIP, ip), TimesOf(h, ip), now) {
      TracksLater(Bucket(perIP, ip), TimesOf(h, ip), before, now);
    }
  }

  lemma AllTrackReplaced(perIP: map<string, seq<int>>, perIP2: map<string, seq<int>>, h: seq<Grant>, now: int,
                         ip: string)
    requires AllTrack(perIP, h, now) && Tracks(Bucket(perIP2, ip), TimesOf(h, ip), now)
    requires forall other :: other != ip ==> Bucket(perIP2, other) == Bucket(perIP, other)
    ensures AllTrack(perIP2, h, now)
  {}

  lemma GrantTracked(perIP: map<string, seq<int>>, overall: seq<int>, h: seq<Grant>, now: int, ip: string,
                     bucket: seq<int>)
    requires AllTrack(perIP, h, now) && Tracks(overall, Times(h), now) && Tracks(bucket, TimesOf(h, ip), now)
    ensures AllTrack(perIP[ip := bucket + [now]], h + [Grant(ip, now)], now)
    ensures Tracks(overall + [now], Times(h + [Grant(ip, now)]), now)
  {
    OneMore(h, Grant(ip, now), ip);
    TracksAppends(overall, Times(h), now);
    TracksAppends(bucket, TimesOf(h, ip), now);
    forall other ensures Tracks(Bucket(perIP[ip := bucket + [now]], other), TimesOf(h + [Grant(ip, now)], other), now) {
      OneMore(h, Grant(ip, now), other);
      assert Tracks(Bucket(perIP, other), TimesOf(h, other), now);
    }
  }

  class ChallengeLimiter {
    var perIP: map<string, seq<int>>
    var overall: seq<int>
    var swept: bool       // false while lastSweep is the zero time
    var lastSweep: int
    ghost var history: seq<Grant>
    ghost var clock: int

    ghost predicate Valid()
      reads this
    {
      Tracks(overall, Times(history), clock) && AllTrack(perIP, history, clock)
    }

    constructor ()
      ensures Valid() && history == []
    {
      perIP, overall, swept, lastSweep, history, clock := map[], [], false, 0, [], 0;
    }

    method Sweep(now: int)
      requires AllTrack(perIP, history, now)
      modifies `perIP, `swept, `lastSweep
      ensures AllTrack(perIP, history, now)
      ensures if old(swept) && now - old(lastSweep) < 60_000_000_000 then perIP == old(perIP)
              else perIP == map ip | ip in old(perIP) && !AllStale(old(perIP)[ip], now) :: old(perIP)[ip]
    {
      if swept && now - lastSweep < WINDOW {
        return;
      }
      swept, lastSweep := true, now;
      var todo := perIP.Keys;
      while todo != {}
        invariant todo <= perIP.Keys
        invariant AllTrack(perIP, history, now)
        invariant perIP == map ip | ip in old(perIP) && (ip in todo || !AllStale(old(perIP)[ip], now))
                             :: old(perIP)[ip]
      {
        var ip :| ip in todo;
        todo := todo - {ip};
        var left := Prune(perIP[ip], now);
        NothingLeft(left, perIP[ip], now);
        if |left| == 0 {
          assert Tracks(Bucket(perIP, ip), TimesOf(history, ip), now);
          PrunedIsTheMinute(perIP[ip], TimesOf(history, ip), now, left);
          AllTrackReplaced(perIP, perIP - {ip}, history, now, ip);
          perIP := perIP - {ip};
        }
      }
    }

    /** The first half of Allow: the window over all sources. */
    method AllowOverall(now: int) returns (d: Decision)
      requires Tracks(overall, Times(history), now)
      modifies `overall
      ensures Tracks(overall, Times(history), now)
      ensures d == Verdict(Between(Times(history), now - WINDOW, now), GLOBAL_LIMIT, now)
    {
      var pruned := Prune(overall, now);
      PrunedIsTheMinute(overall, Times(history), now, pruned);
      overall := pruned;
      if |overall| >= GLOBAL_LIMIT {
        var retry := RetryAfter(overall, now);
        return Refused(retry);
      }
      return Allowed;
    }

    method RecentOf(ip: string, now: int) returns (bucket: seq<int>)
      requires AllTrack(perIP, history, now)
      ensures bucket == Between(TimesOf(history, ip), now - WINDOW, now) && Tracks(bucket, TimesOf(history, ip), now)
      ensures bucket != [] ==> !Stale(bucket[0], now)
    {
      assert Tracks(Bucket(perIP, ip), TimesOf(history, ip), now);
      bucket := Prune(Bucket(perIP, ip), now);
      PrunedIsTheMinute(Bucket(perIP, ip), TimesOf(history, ip), now, bucket);
    }

    /** The second half: the source's own window. */
    method AllowSource(ip: string, now: int) returns (d: Decision)
      requires Valid() && clock == now
      modifies `perIP, `overall, `history
      ensures Valid()
      ensures d == Verdict(Between(TimesOf(old(history), ip), now - WINDOW, now), PER_IP_LIMIT, now)
      ensures history == if d.Allowed? then old(history) + [Grant(ip, now)] else old(history)
    {
      var bucket := RecentOf(ip, now);
      if |bucket| >= PER_IP_LIMIT {
        AllTrackReplaced(perIP, perIP[ip := bucket], history, now, ip);
        perIP := perIP[ip := bucket];
        var retry := RetryAfter(bucket, now);
        return Refused(retry);
      }
      GrantTracked(perIP, overall, history, now, ip, bucket);
      overall := overall + [now];
      perIP := perIP[ip := bucket + [now]];
      history := history + [Grant(ip, now)];
      return Allowed;
    }

    /** Decides as if every grant ever made were still on record. */
    method Allow(ip: string, now: int) returns (d: Decision)
      requires Valid() && clock <= now
      modifies this
      ensures Valid() && clock == now
      ensures d == Decide(old(history), ip, now)
      ensures history == if d.Allowed? then old(history) + [Grant(ip, now)] else old(history)
    {
      AllTrackLater(perIP, history, clock, now);
      TracksLater(overall, Times(history), clock, now);
      clock := now;
      Sweep(now);
      d := AllowOverall(now);
      if d.Allowed? {
        d := AllowSource(ip, now);
      }
    }
  }

  // ---- what the retry hint is worth ----

  /** In a rising list the times since a form a suffix. */
  lemma TailSince(s: seq<int>, a: int, now: int) returns (i: nat)
    requires Log(s, now) && a == now - WINDOW
    ensures i <= |s| && Between(s, a, now) == s[i..]
    ensures (forall j :: 0 <= j < i ==> s[j] < a) && (forall j :: i <= j < |s| ==> s[j] >= a)
  {
    LogRises(s, now);
    i := 0;
    while i < |s| && s[i] < a
      invariant i <= |s| && forall j :: 0 <= j < i ==> s[j] < a
    {
      i := i + 1;
    }
    assert s[..i] + s[i..] == s;
    BetweenDropsStale(s[..i], s[i..], now);
  }

  /** With nothing granted meanwhile, a refusal counts down to 0 -- and at 0 the request is still refused, because
      the window is closed at both ends: only one instant later does the refusing window have room. */
  lemma WindowCountsDown(s: seq<int>, limit: nat, now: int, later: int)
    requires 0 < limit && Log(s, now) && InMinute(s, now - WINDOW) <= limit && now <= later
    requires Verdict(Between(s, now - WINDOW, now), limit, now).Refused?
    ensures var d := Verdict(Between(s, now - WINDOW, now), limit, now).retry;
            0 <= d && Verdict(Between(s, later - WINDOW, later), limit, later)
                      == if later <= now + d then Refused(now + d - later) else Allowed
  {
    LogAppends(s, now, later);
    var i := TailSince(s, now - WINDOW, now);
    var j := TailSince(s, later - WINDOW, later);
    assert j < |s| ==> s[j] >= later - WINDOW;
    assert i <= j;
    assert later <= s[i] + WINDOW ==> i == j;
  }

  // ---- in literal terms ----

  /** The grants of the closed interval, to one source or to all, by their places in the record. */
  ghost function Places(h: seq<Grant>, ip: string, any: bool, a: int, b: int): (places: set<int>) {
    set i | 0 <= i < |h| && (any || h[i].ip == ip) && a <= h[i].at <= b
  }

  lemma OnePlace(h: seq<Grant>, g: Grant, ip: string, any: bool, a: int, b: int)
    ensures var counts := (any || g.ip == ip) && a <= g.at <= b;
            Places(h + [g], ip, any, a, b) == Places(h, ip, any, a, b) + if counts then {|h|} else {}
  {
    var longer := h + [g];
    forall i ensures i in Places(longer, ip, any, a, b) <==>
                     i in Places(h, ip, any, a, b) || (i == |h| && (any || g.ip == ip) && a <= g.at <= b) {}
  }

  lemma {:induction false} BetweenCounts(h: seq<Grant>, ip: string, a: int, b: int)
    ensures |Between(Times(h), a, b)| == |Places(h, ip, true, a, b)|
    ensures |Between(TimesOf(h, ip), a, b)| == |Places(h, ip, false, a, b)|
  {
    if h != [] {
      var front, g := h[..|h| - 1], h[|h| - 1];
      BetweenCounts(front, ip, a, b);
      assert h == front + [g];
      OneMore(front, g, ip);
      OneMoreTime(Times(front), g.at, a, b);
      OneMoreTime(TimesOf(front, ip), g.at, a, b);
      OnePlace(front, g, ip, true, a, b);
      OnePlace(front, g, ip, false, a, b);
    }
  }

  /** A request is granted exactly when the last closed minute holds fewer than 200 grants, and fewer than 10 to its
      source. */
  lemma GrantedExactly(h: seq<Grant>, ip: string, now: int)
    ensures Decide(h, ip, now).Allowed? <==>
              && |Places(h, ip, true, now - 60_000_000_000, now)| < 200
              && |Places(h, ip, false, now - 60_000_000_000, now)| < 10
  {
    BetweenCounts(h, ip, now - WINDOW, now);
  }

  /** So in every run no closed minute holds more than 200 grants, or more than 10 to one source. */
  lemma MinutesHoldNoMore(rs: seq<Request>, ip: string, a: int)
    requires ClockNeverBack(rs)
    ensures |Places(Granted(rs), ip, true, a, a + 60_000_000_000)| <= 200
    ensures |Places(Granted(rs), ip, false, a, a + 60_000_000_000)| <= 10
  {
    EveryMinuteIsBounded(rs, ip, a);
    BetweenCounts(Granted(rs), ip, a, a + WINDOW);
  }

  lemma {:induction false} FirstBetween(s: seq<int>, a: int, b: int)
    requires Between(s, a, b) != []
    ensures exists i :: 0 <= i < |s| && s[i] == Between(s, a, b)[0] && a <= s[i] <= b
                          && forall j :: 0 <= j < i ==> !(a <= s[j] <= b)
  {
    var front := s[..|s| - 1];
    if Between(front, a, b) != [] {
      FirstBetween(front, a, b);
      var i :| 0 <= i < |front| && front[i] == Between(front, a, b)[0] && a <= front[i] <= b
        && forall j :: 0 <= j < i ==> !(a <= front[j] <= b);
      assert s[i] == front[i] && forall j :: 0 <= j < i ==> s[j] == front[j];
    } else {
      forall j | 0 <= j < |front| ensures !(a <= s[j] <= b) { NoneBetween(front, a, b, j); }
      assert s[|s| - 1] == Between(s, a, b)[0];
    }
  }

  lemma {:induction false} NoneBetween(s: seq<int>, a: int, b: int, j: nat)
    requires Between(s, a, b) == [] && j < |s|
    ensures !(a <= s[j] <= b)
  {
    if j < |s| - 1 {
      NoneBetween(s[..|s| - 1], a, b, j);
    }
  }

  /** A refusal names the time until the first grant of the refusing minute is 60 seconds old: over all sources if there
      are 200 of them, else of this source. */
  lemma RetryMeans(h: seq<Grant>, ip: string, now: int)
    requires Decide(h, ip, now).Refused?
    ensures var full := |Places(h, ip, true, now - 60_000_000_000, now)| >= 200;
            var s := if full then Times(h) else TimesOf(h, ip);
            exists i :: 0 <= i < |s| && now - 60_000_000_000 <= s[i] <= now
                          && (forall j :: 0 <= j < i ==> !(now - 60_000_000_000 <= s[j] <= now))
                          && Decide(h, ip, now).retry == s[i] + 60_000_000_000 - now
  {
    BetweenCounts(h, ip, now - WINDOW, now);
    var full := |Places(h, ip, true, now - WINDOW, now)| >= 200;
    FirstBetween(if full then Times(h) else TimesOf(h, ip), now - WINDOW, now);
  }
}
