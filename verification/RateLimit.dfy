/** The login limiter: failures counted per source, a lockout that doubles with every further failure, and a
    sweep that forgets sources which have been quiet. Times and durations are nanoseconds. */
module RateLimit {
  import opened Options

  const SECOND := 1_000_000_000
  const MAX_FAILURES: nat := 5
  const LOCKOUT_BASE := 30 * SECOND
  const LOCKOUT_MAX := 15 * 60 * SECOND
  const FAILURE_WINDOW := 30 * 60 * SECOND

  // ---- the shift ----

  function Pow2(k: nat): nat {
    if k == 0 then 1 else 2 * Pow2(k - 1)
  }

  /** The value a signed 64-bit word holds once x is reduced to it. */
  function Wrap64(x: int): (r: int)
    ensures -0x8000_0000_0000_0000 <= r < 0x8000_0000_0000_0000
  {
    var low := x % 0x1_0000_0000_0000_0000;
    if low >= 0x8000_0000_0000_0000 then low - 0x1_0000_0000_0000_0000 else low
  }

  /** The guard against values that came out wrong. */
  function Guarded(d: int): int {
    if d > LOCKOUT_MAX || d <= 0 then LOCKOUT_MAX else d
  }

  /** `LockoutBase << k` on int64, guarded. */
  function Lockout(k: nat): int {
    Guarded(Wrap64(LOCKOUT_BASE * Pow2(k)))
  }

  function Min(a: int, b: int): int {
    if a <= b then a else b
  }

  lemma {:induction false} Pow2Split(a: nat, b: nat)
    ensures Pow2(a + b) == Pow2(a) * Pow2(b)
  {
    if b > 0 {
      Pow2Split(a, b - 1);
      assert Pow2(a + b) == 2 * Pow2(a + (b - 1));
    }
  }

  lemma {:induction false} Pow2Rises(a: nat, b: nat)
    requires a <= b
    ensures 1 <= Pow2(a) <= Pow2(b)
    decreases b
  {
    if a < b {
      Pow2Rises(a, b - 1);
    } else if a > 0 {
      Pow2Rises(a - 1, a - 1);
    }
  }

  lemma SmallPowers()
    ensures Pow2(5) == 32 && Pow2(28) == 268_435_456 && Pow2(29) == 536_870_912 && Pow2(30) == 1_073_741_824
  {
    assert Pow2(4) == 16 && Pow2(8) == 256;
    Pow2Split(4, 4);
    Pow2Split(8, 8);
    Pow2Split(16, 8);
    Pow2Split(24, 4);
  }

  lemma PowerRanges(k: nat)
    ensures 1 <= Pow2(k)
    ensures k <= 28 ==> Pow2(k) <= 268_435_456
    ensures k == 29 ==> Pow2(k) == 536_870_912
    ensures k >= 29 ==> Pow2(k) >= 32
    ensures k >= 30 ==> Pow2(k) == 1_073_741_824 * Pow2(k - 30)
  {
    SmallPowers();
    Pow2Rises(0, k);
    if k <= 28 {
      Pow2Rises(k, 28);
    } else {
      Pow2Rises(5, k);
    }
    if k >= 30 {
      Pow2Split(30, k - 30);
    }
  }

  /** Without overflow the guard is the cap; one bit too many comes out negative. */
  lemma GuardedProduct(p: nat)
    requires 1 <= p <= 536_870_912
    ensures p <= 268_435_456 ==> Guarded(Wrap64(30_000_000_000 * p)) == Min(30_000_000_000 * p, LOCKOUT_MAX)
    ensures p == 536_870_912 ==> Guarded(Wrap64(30_000_000_000 * p)) == LOCKOUT_MAX
  {}

  /** A multiple of 2^40 is never taken for a duration: after wrapping it is 0, negative or past the cap. */
  lemma GuardedMultiple(n: int)
    ensures Guarded(Wrap64(0x100_0000_0000 * n)) == LOCKOUT_MAX
  {
    var q, m := n / 0x100_0000, n % 0x100_0000;
    assert 0x100_0000_0000 * n == 0x1_0000_0000_0000_0000 * q + 0x100_0000_0000 * m;
    WrapsTo(q, 0x100_0000_0000 * m);
  }

  lemma WrapsTo(q: int, r: int)
    requires 0 <= r < 0x1_0000_0000_0000_0000
    ensures Wrap64(0x1_0000_0000_0000_0000 * q + r)
            == if r >= 0x8000_0000_0000_0000 then r - 0x1_0000_0000_0000_0000 else r
  {
    assert (0x1_0000_0000_0000_0000 * q + r) % 0x1_0000_0000_0000_0000 == r;
  }

  /** The wrapping computation is exactly the doubling one, capped: no overflowed value is ever taken for a duration.
      From k = 30 on the product is a multiple of 2^40, because 30 s is 2^10 times an integer. */
  lemma LockoutIsCappedDoubling(k: nat)
    ensures Lockout(k) == Min(LOCKOUT_BASE * Pow2(k), LOCKOUT_MAX)
    ensures LOCKOUT_BASE <= Lockout(k) <= LOCKOUT_MAX < FAILURE_WINDOW
  {
    PowerRanges(k);
    var p := Pow2(k);
    assert LOCKOUT_BASE * p == 30_000_000_000 * p;
    if k <= 29 {
      GuardedProduct(p);
    } else {
      GuardedMultiple(29_296_875 * Pow2(k - 30));
    }
  }

  lemma LockoutRises(k: nat, n: nat)
    requires k <= n
    ensures Lockout(k) <= Lockout(n)
  {
    Pow2Rises(k, n);
    LockoutIsCappedDoubling(k);
    LockoutIsCappedDoubling(n);
  }

  // ---- the table ----

  /** A bucket's contents; `until` is None while it is the zero time. */
  datatype Record = Record(failures: nat, last: int, until: Option<int>)

  type Table = map<string, Record>

  predicate Expired(r: Record, now: int) {
    now - r.last > FAILURE_WINDOW && (r.until.None? || now > r.until.value)
  }

  function Swept(t: Table, now: int): Table {
    map k | k in t && !Expired(t[k], now) :: t[k]
  }

  /** How long the source still has to wait, None when it may try. */
  function Answer(t: Table, key: string, now: int): Option<int> {
    if key in t && t[key].until.Some? && now < t[key].until.value then Some(t[key].until.value - now) else None
  }

  function Bumped(r: Record, now: int): Record {
    var f := r.failures + 1;
    Record(f, now, if f >= MAX_FAILURES then Some(now + Lockout(f - MAX_FAILURES)) else r.until)
  }

  const FRESH := Record(0, 0, None)

  function AfterFail(t: Table, key: string, now: int): Table {
    t[key := Bumped(if key !in t || now - t[key].last > FAILURE_WINDOW then FRESH else t[key], now)]
  }

  class Bucket {
    var failures: nat
    var last: int
    var until: Option<int>

    constructor ()
      ensures Contents() == FRESH
    {
      failures, last, until := 0, 0, None;
    }

    function Contents(): Record
      reads this
    {
      Record(failures, last, until)
    }

    method Bump(now: int)
      modifies this
      ensures Contents() == Bumped(old(Contents()), now)
    {
      failures := failures + 1;
      last := now;
      if failures >= MAX_FAILURES {
        var d := Wrap64(LOCKOUT_BASE * Pow2(failures - MAX_FAILURES));
        if d > LOCKOUT_MAX || d <= 0 {
          d := LOCKOUT_MAX;
        }
        until := Some(now + d);
      }
    }
  }

  class Limiter {
    var m: map<string, Bucket>

    /** No two sources share a bucket. */
    ghost predicate Valid()
      reads this
    {
      forall a, b :: a in m && b in m && a != b ==> m[a] != m[b]
    }

    ghost function View(): Table
      reads this, m.Values
    {
      map k | k in m :: m[k].Contents()
    }

    constructor ()
      ensures Valid() && View() == map[] && m.Values == {}
    {
      m := map[];
    }

    method Sweep(now: int)
      requires Valid()
      modifies this
      ensures Valid() && View() == Swept(old(View()), now)
      ensures m.Values <= old(m.Values)
    {
      var todo := m.Keys;
      while todo != {}
        invariant todo <= m.Keys <= old(m.Keys)
        invariant forall k :: k in m ==> m[k] == old(m[k])
        invariant forall k :: k in old(m) ==> (k in m <==> k in todo || !Expired(old(m[k].Contents()), now))
      {
        var k :| k in todo;
        todo := todo - {k};
        var b := m[k];
        if now - b.last > FAILURE_WINDOW && (b.until.None? || now > b.until.value) {
          m := m - {k};
        }
      }
    }

    /** Some(d): locked out for another d. */
    method Check(key: string, now: int) returns (retry: Option<int>)
      requires Valid()
      modifies this
      ensures Valid() && View() == Swept(old(View()), now)
      ensures retry == Answer(View(), key, now)
      ensures m.Values <= old(m.Values)
    {
      Sweep(now);
      if key !in m {
        return None;
      }
      var b := m[key];
      if b.until.Some? && now < b.until.value {
        return Some(b.until.value - now);
      }
      return None;
    }

    method Fail(key: string, now: int)
      requires Valid()
      modifies this, m.Values
      ensures Valid() && View() == AfterFail(old(View()), key, now)
      ensures fresh(m.Values - old(m.Values))
    {
      if key !in m || now - m[key].last > FAILURE_WINDOW {
        var added := new Bucket();
        m := m[key := added];
      }
      m[key].Bump(now);
    }

    method Succeed(key: string)
      requires Valid()
      modifies this
      ensures Valid() && View() == old(View()) - {key}
      ensures m.Values <= old(m.Values)
    {
      m := m - {key};
    }
  }

  // ---- against the whole history ----

  datatype Event = Checked(key: string, now: int) | Failed(key: string, now: int) | Succeeded(key: string)

  function Apply(t: Table, e: Event): Table {
    match e
    case Checked(_, now) => Swept(t, now)
    case Failed(key, now) => AfterFail(t, key, now)
    case Succeeded(key) => t - {key}
  }

  function TableAfter(h: seq<Event>): Table {
    if h == [] then map[] else Apply(TableAfter(h[..|h| - 1]), h[|h| - 1])
  }

  ghost predicate Timed(e: Event) {
    !e.Succeeded?
  }

  ghost predicate ClockNeverBack(h: seq<Event>) {
    forall i, j :: 0 <= i < j < |h| && Timed(h[i]) && Timed(h[j]) ==> h[i].now <= h[j].now
  }

  datatype Run = Run(failures: nat, last: int)

  /** The consecutive failures of a source at the end of the history: none more than half an hour after the one
      before, no success since. Nothing is ever swept here. */
  function Streak(h: seq<Event>, key: string): Option<Run> {
    if h == [] then None
    else
      var before, e := Streak(h[..|h| - 1], key), h[|h| - 1];
      if e.key != key then before
      else
        match e
        case Checked(_, _) => before
        case Succeeded(_) => None
        case Failed(_, now) =>
          if before.None? || now - before.value.last > FAILURE_WINDOW then Some(Run(1, now))
          else Some(Run(before.value.failures + 1, now))
  }

  /** When a source's lockout ends: min(30 s * 2^(f - 5), 15 min) after the last of f >= 5 failures in a row. */
  function LockedUntil(h: seq<Event>, key: string): Option<int> {
    match Streak(h, key)
    case None => None
    case Some(run) =>
      if run.failures < MAX_FAILURES then None
      else Some(run.last + Min(LOCKOUT_BASE * Pow2(run.failures - MAX_FAILURES), LOCKOUT_MAX))
  }

  ghost predicate NotBefore(h: seq<Event>, now: int) {
    forall i :: 0 <= i < |h| && Timed(h[i]) ==> h[i].now <= now
  }

  /** The table either holds the source's streak, or has dropped it no sooner than half an hour after its end. */
  ghost predicate Tracks(h: seq<Event>, key: string) {
    var t, s := TableAfter(h), Streak(h, key);
    if key in t
    then s.Some? && t[key] == Record(s.value.failures, s.value.last, LockedUntil(h, key)) && s.value.failures > 0
    else s.Some? ==> exists i :: 0 <= i < |h| && Timed(h[i]) && h[i].now - s.value.last > FAILURE_WINDOW
  }

  lemma LockoutEndsInTime(h: seq<Event>, key: string)
    requires LockedUntil(h, key).Some?
    ensures Streak(h, key).value.last < LockedUntil(h, key).value < Streak(h, key).value.last + FAILURE_WINDOW
  {}

  lemma {:induction false} TableTracks(h: seq<Event>, key: string)
    requires ClockNeverBack(h)
    ensures Tracks(h, key)
  {
    if h != [] {
      var front, e := h[..|h| - 1], h[|h| - 1];
      TableTracks(front, key);
      if LockedUntil(front, key).Some? {
        LockoutEndsInTime(front, key);
      }
      assert h[|h| - 1] == e;
      if e.Failed? && e.key == key {
        var s := Streak(h, key);
        if s.value.failures >= MAX_FAILURES {
          LockoutIsCappedDoubling(s.value.failures - MAX_FAILURES);
        }
      } else {
        assert LockedUntil(h, key) == if e.Succeeded? && e.key == key then None else LockedUntil(front, key);
        if key !in TableAfter(front) && Streak(front, key).Some? {
          var i :| 0 <= i < |front| && Timed(front[i]) && front[i].now - Streak(front, key).value.last > FAILURE_WINDOW;
          assert h[i] == front[i];
        }
      }
    }
  }

  /** The limiter with its sweeping and forgetting answers as one that keeps every event. */
  lemma AnswersAsFullHistory(h: seq<Event>, key: string, now: int)
    requires ClockNeverBack(h) && NotBefore(h, now)
    ensures Answer(Swept(TableAfter(h), now), key, now)
            == var u := LockedUntil(h, key); if u.Some? && now < u.value then Some(u.value - now) else None
  {
    TableTracks(h, key);
    if LockedUntil(h, key).Some? {
      LockoutEndsInTime(h, key);
    }
  }

  /** A lockout, once begun, is never lifted early or shortened by anything but a success of that source. */
  lemma {:induction false} LockoutHolds(h: seq<Event>, more: seq<Event>, key: string, now: int)
    requires ClockNeverBack(h + more) && NotBefore(h + more, now)
    requires forall i :: 0 <= i < |more| ==> more[i] != Succeeded(key)
    requires LockedUntil(h, key).Some? && now < LockedUntil(h, key).value
    ensures LockedUntil(h + more, key).Some? && LockedUntil(h + more, key).value >= LockedUntil(h, key).value
    decreases |more|
  {
    if more == [] {
      assert h + more == h;
    } else {
      var front, e := more[..|more| - 1], more[|more| - 1];
      assert (h + more)[..|h + more| - 1] == h + front;
      assert (h + more)[|h + more| - 1] == e;
      forall i | 0 <= i < |h + front| && Timed((h + front)[i]) ensures (h + front)[i].now <= now {
        assert (h + more)[i] == (h + front)[i];
      }
      LockoutHolds(h, front, key, now);
      if e.Failed? && e.key == key {
        LockoutEndsInTime(h + front, key);
        var k := Streak(h + front, key).value.failures - MAX_FAILURES;
        LockoutRises(k, k + 1);
        LockoutIsCappedDoubling(k);
        LockoutIsCappedDoubling(k + 1);
        StreakIsPast(h + front, key);
      }
    }
  }

  /** So until it ends every check of that source is refused, whatever else happens and is swept meanwhile. */
  lemma RefusedUntilTheEnd(h: seq<Event>, more: seq<Event>, key: string, now: int)
    requires ClockNeverBack(h + more) && NotBefore(h + more, now)
    requires forall i :: 0 <= i < |more| ==> more[i] != Succeeded(key)
    requires LockedUntil(h, key).Some? && now < LockedUntil(h, key).value
    ensures var a := Answer(Swept(TableAfter(h + more), now), key, now);
            a.Some? && now + a.value >= LockedUntil(h, key).value
  {
    LockoutHolds(h, more, key, now);
    AnswersAsFullHistory(h + more, key, now);
  }

  lemma {:induction false} StreakIsPast(h: seq<Event>, key: string)
    ensures Streak(h, key).Some? ==> exists i :: 0 <= i < |h| && h[i] == Failed(key, Streak(h, key).value.last)
  {
    if h != [] {
      var front := h[..|h| - 1];
      StreakIsPast(front, key);
      if Streak(h, key).Some? {
        if Streak(h, key) == Streak(front, key) {
          var i :| 0 <= i < |front| && front[i] == Failed(key, Streak(front, key).value.last);
          assert h[i] == front[i];
        } else {
          assert h[|h| - 1] == Failed(key, Streak(h, key).value.last);
        }
      }
    }
  }

  // ---- in literal terms ----

  /** A failure or a success of the source. */
  ghost predicate Tries(e: Event, key: string) {
    e.key == key && (e.Failed? || e.Succeeded?)
  }

  /** Nothing of the source between the two places. */
  ghost predicate QuietBetween(h: seq<Event>, key: string, i: int, j: int)
    requires 0 <= i && j <= |h|
  {
    forall k :: i < k < j ==> !Tries(h[k], key)
  }

  /** The failure at k is the first of its row: whatever the source did before was a success, or is more than half an
      hour older. */
  ghost predicate Begins(h: seq<Event>, key: string, k: nat)
    requires k < |h| && h[k].Failed?
  {
    forall i :: 0 <= i < k && h[i].key == key && h[i].Failed? && QuietBetween(h, key, i, k) ==>
      h[k].now - h[i].now > 1_800_000_000_000
  }

  /** The places of the failures in a row that the history ends with. */
  ghost predicate InARow(h: seq<Event>, key: string, ks: seq<nat>) {
    && ks != [] && (forall a :: 0 <= a < |ks| ==> ks[a] < |h| && h[ks[a]].key == key && h[ks[a]].Failed?)
    && (forall a :: 0 <= a < |ks| - 1 ==> Continues(h, key, ks, a))
    && QuietBetween(h, key, ks[|ks| - 1], |h|) && Begins(h, key, ks[0])
  }

  ghost predicate Continues(h: seq<Event>, key: string, ks: seq<nat>, a: nat)
    requires a + 1 < |ks| && forall b :: 0 <= b < |ks| ==> ks[b] < |h| && h[ks[b]].key == key && h[ks[b]].Failed?
  {
    && ks[a] < ks[a + 1] && QuietBetween(h, key, ks[a], ks[a + 1])
    && h[ks[a + 1]].now - h[ks[a]].now <= 1_800_000_000_000
  }

  lemma RowGrows(front: seq<Event>, e: Event, key: string, ks: seq<nat>)
    requires InARow(front, key, ks)
    ensures !Tries(e, key) ==> InARow(front + [e], key, ks)
    ensures Tries(e, key) && e.Failed? && e.now - front[ks[|ks| - 1]].now <= 1_800_000_000_000 ==>
              InARow(front + [e], key, ks + [|front|])
    ensures Tries(e, key) && e.Failed? && e.now - front[ks[|ks| - 1]].now > 1_800_000_000_000 ==>
              InARow(front + [e], key, [|front|])
  {
    var h, last := front + [e], ks[|ks| - 1];
    assert forall i :: 0 <= i < |front| ==> h[i] == front[i];
    forall a | 0 <= a < |ks| - 1 ensures Continues(h, key, ks, a) { assert Continues(front, key, ks, a); }
    if Tries(e, key) && e.Failed? {
      var longer := ks + [|front|];
      if e.now - front[last].now <= 1_800_000_000_000 {
        forall a | 0 <= a < |longer| - 1 ensures Continues(h, key, longer, a) {
          assert a < |ks| - 1 ==> Continues(h, key, ks, a);
        }
      } else {
        OnlyTheLast(front, h, key, last);
      }
    }
  }

  lemma OnlyTheLast(front: seq<Event>, h: seq<Event>, key: string, last: nat)
    requires front <= h && last < |front| < |h| && h[|front|].Failed? && QuietBetween(front, key, last, |front|)
    requires h[last].key == key && h[last].Failed? && h[|front|].now - h[last].now > 1_800_000_000_000
    ensures Begins(h, key, |front|)
  {
    assert Tries(h[last], key);
    assert forall i :: last < i < |front| ==> h[i] == front[i] && !Tries(h[i], key);
  }

  /** Every failure of the source was made good by a later success. */
  ghost predicate AllForgiven(h: seq<Event>, key: string) {
    forall i :: 0 <= i < |h| && h[i].key == key && h[i].Failed? ==> exists j :: i < j < |h| && h[j] == Succeeded(key)
  }

  lemma {:induction false} StreakMeans(h: seq<Event>, key: string) returns (ks: seq<nat>)
    ensures Streak(h, key).None? ==> AllForgiven(h, key)
    ensures Streak(h, key).Some? ==>
              InARow(h, key, ks) && Streak(h, key).value == Run(|ks|, h[ks[|ks| - 1]].now)
  {
    ks := [];
    if h != [] {
      var front, e := h[..|h| - 1], h[|h| - 1];
      assert h == front + [e];
      var before := StreakMeans(front, key);
      if Streak(front, key).Some? {
        ks := RowGoesOn(front, e, key, before);
      } else {
        ks := [|front|];
        AfterForgiven(front, e, key);
      }
    }
  }

  lemma RowGoesOn(front: seq<Event>, e: Event, key: string, before: seq<nat>) returns (ks: seq<nat>)
    requires InARow(front, key, before)
    requires Streak(front, key) == Some(Run(|before|, front[before[|before| - 1]].now))
    ensures Streak(front + [e], key).None? ==> AllForgiven(front + [e], key)
    ensures var h := front + [e];
            Streak(h, key).Some? ==> InARow(h, key, ks) && Streak(h, key).value == Run(|ks|, h[ks[|ks| - 1]].now)
  {
    var h := front + [e];
    assert h[..|h| - 1] == front && h[|h| - 1] == e;
    RowGrows(front, e, key, before);
    if !Tries(e, key) {
      ks := before;
    } else if e.Failed? && e.now - front[before[|before| - 1]].now <= 1_800_000_000_000 {
      ks := before + [|front|];
    } else {
      ks := [|front|];
    }
  }

  lemma AfterForgiven(front: seq<Event>, e: Event, key: string)
    requires AllForgiven(front, key)
    ensures !(e.key == key && e.Failed?) ==> AllForgiven(front + [e], key)
    ensures e.key == key && e.Failed? ==> InARow(front + [e], key, [|front|])
  {
    var h := front + [e];
    forall i | 0 <= i < |front| && h[i].key == key && h[i].Failed?
      ensures exists j :: i < j < |front| && h[j] == Succeeded(key)
    {
      var j :| i < j < |front| && front[j] == Succeeded(key);
      assert h[j] == Succeeded(key);
    }
  }

  /** When a lockout ends: with five failures in a row or more, each within half an hour of the one before, 30 seconds
      after the last of five, twice as long for each more, but never more than 15 minutes. */
  lemma LockoutMeans(h: seq<Event>, key: string) returns (ks: seq<nat>)
    ensures LockedUntil(h, key).Some? <==> Streak(h, key).Some? && |ks| >= 5
    ensures Streak(h, key).Some? ==> InARow(h, key, ks)
    ensures Streak(h, key).None? ==> AllForgiven(h, key)
    ensures LockedUntil(h, key).Some? ==>
              var wait := 30_000_000_000 * Pow2(|ks| - 5);
              LockedUntil(h, key).value
              == h[ks[|ks| - 1]].now + if wait <= 900_000_000_000 then wait else 900_000_000_000
  {
    ks := StreakMeans(h, key);
  }

  /** A sweep forgets exactly the sources that have been quiet for more than half an hour and whose lockout, if any, is
      over; the others it leaves as they are. */
  lemma SweepMeans(t: Table, now: int, key: string)
    ensures key in Swept(t, now) <==>
              && key in t
              && (now - t[key].last <= 1_800_000_000_000 || (t[key].until.Some? && now <= t[key].until.value))
    ensures key in Swept(t, now) ==> Swept(t, now)[key] == t[key]
  {}
}
