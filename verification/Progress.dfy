/** How a rollout gets on: when it succeeds if its instances come up, and what it takes to halt it. */
module Progress {
  import opened Options
  import opened Batches
  import opened Gate
  import opened Rollouts
  import opened RolloutRuns
  import opened Delivery
  import opened GateRuns

  // ---- when all goes well ----

  /** The batch at the front of the running rollout is out. */
  ghost predicate BatchOut(c: Component) {
    && c.rollouts != [] && Latest(c).phase == Running && Front(Latest(c).batches) < |Latest(c).batches|
    && FrontBatch(c).state == Released && FrontBatch(c).releasedAt.Some?
  }

  function FrontBatch(c: Component): Batch
    requires c.rollouts != [] && Front(Latest(c).batches) < |Latest(c).batches|
  {
    Latest(c).batches[Front(Latest(c).batches)]
  }

  ghost predicate AllConverged(ts: seq<Target>, e: Event)
    requires e.Tick?
  {
    forall t :: t in ts ==> t.id in Seen(e) && Seen(e)[t.id].converged
  }

  ghost predicate NoClimb(ts: seq<Target>, e: Event, f: Event)
    requires e.Tick? && f.Tick?
  {
    forall t :: t in ts && t.id in Seen(e) && t.id in Seen(f) ==> Seen(f)[t.id].restarts <= Seen(e)[t.id].restarts
  }

  /** A tick as it is when all goes well: no node has rolled back, and once the batch that is out has had its time to
      settle, its targets are shown converged, and their counters have not climbed since the tick before. */
  ghost predicate Calm(cs: seq<Component>, es: seq<Event>, i: nat, settle: int)
    requires 0 < i < |es| && |cs| == |es| + 1
  {
    && es[i].Tick? && !RolledBack(es[i].view)
    && (BatchOut(cs[i]) ==> ComesUp(FrontBatch(cs[i]), es[i - 1], es[i], settle))
  }

  ghost predicate ComesUp(b: Batch, last: Event, e: Event, settle: int)
    requires e.Tick? && b.releasedAt.Some?
  {
    && (e.now - b.releasedAt.value >= settle ==> AllConverged(b.targets, e))
    && (b.healthySince.Some? && last.Tick? && last.now - b.releasedAt.value >= settle ==> NoClimb(b.targets, last, e))
  }

  /** Calm ticks and nothing else, each at most `gap` after the event before it. */
  ghost predicate CalmStretch(cs: seq<Component>, es: seq<Event>, n: nat, m: nat, settle: int, gap: int)
    requires 0 < n <= m <= |es| && |cs| == |es| + 1
  {
    && (forall i :: n <= i < m ==> Calm(cs, es, i, settle))
    && (forall i :: n <= i < m ==> Paced(es, i, gap))
  }

  ghost predicate Paced(es: seq<Event>, i: nat, gap: int)
    requires 0 < i < |es|
  {
    es[i].now <= es[i - 1].now + gap
  }

  /** How long after a release nothing is left of what was seen while the batch settled. */
  function Onset(settle: int, gap: int): int {
    if settle == 0 then 0 else settle + gap
  }

  /** The time a batch is given: a gap until its window opens, the window, and a gap until that is seen. */
  function Allowance(settle: int, gap: int): int {
    Onset(settle, gap) + gap + STABLE_FOR + gap
  }

  /** So many allowances, one after another. */
  function Allowances(k: nat, settle: int, gap: int): int {
    if k == 0 then 0 else Allowance(settle, gap) + Allowances(k - 1, settle, gap)
  }

  lemma {:induction false} AllowancesAddUp(k: nat, settle: int, gap: int)
    ensures Allowances(k, settle, gap) == k * Allowance(settle, gap)
    ensures InTime(settle, gap) ==> Allowances(k, settle, gap) >= 0
  {
    if k > 0 {
      AllowancesAddUp(k - 1, settle, gap);
    }
  }

  /** The gate does not time out a batch that keeps to it. */
  predicate InTime(settle: int, gap: int) {
    0 <= settle && 0 <= gap && Allowance(settle, gap) - gap <= BATCH_TIMEOUT
  }

  // ---- one tick ----

  /** What the tick showed does not exceed what the window has on record. */
  ghost predicate Reads(b: Batch, e: Event) {
    e.Tick? && forall t :: t in b.targets ==>
      t.id in b.baseline && t.id in Seen(e) && Seen(e)[t.id].restarts <= b.baseline[t.id]
  }

  /** The front batch is released since `since`, and as far as it must be after event `last`: still settling, waiting
      for its window to open, or inside a window that will hold. */
  ghost predicate OnTime(r: Rollout, d: nat, since: int, last: Event, settle: int, gap: int) {
    && r.phase == Running && d < |r.batches| && Front(r.batches) == d && since <= last.now
    && r.batches[d].state == Released && r.batches[d].releasedAt == Some(since)
    && KeepsUp(r.batches[d], since, last, settle, gap)
  }

  ghost predicate KeepsUp(b: Batch, since: int, last: Event, settle: int, gap: int) {
    && (if b.healthySince == None then b.baseline == map[] else forall t :: t in b.targets ==> t.id in b.baseline)
    && (|| last.now < since + settle
        || (b.healthySince == None && last.now <= since + Onset(settle, gap))
        || (b.healthySince.Some? && b.healthySince.value <= since + Onset(settle, gap) + gap
            && last.now < b.healthySince.value + STABLE_FOR && Reads(b, last)))
  }

  /** The gate's record after a tick that the batch does not pass. */
  lemma StillKeepsUp(b: Batch, since: int, last: Event, f: Event, settle: int, gap: int)
    requires KeepsUp(b, since, last, settle, gap) && InTime(settle, gap) && b.releasedAt == Some(since)
    requires f.Tick? && since <= last.now <= f.now <= last.now + gap && ComesUp(b, last, f, settle)
    requires !Judge(b, Seen(f), f.now).passed
    requires b.healthySince.Some? ==> b.healthySince.value <= last.now
    ensures KeepsUp(WithGate(b, Judge(b, Seen(f), f.now)), since, f, settle, gap) && !TimedOut(b, f.now)
  {
    var states := Seen(f);
    PassesExactly(b, states, f.now);
    CountersRead(b.targets, b.baseline, states);
    if f.now >= since + settle && AllSteady(b.targets, b.baseline, states) {
      assert forall t :: t in b.targets ==> Steady(t, b.baseline, states);
    }
  }

  /** And it passes no later than its allowance. */
  lemma PassesInTime(b: Batch, since: int, last: Event, f: Event, settle: int, gap: int)
    requires KeepsUp(b, since, last, settle, gap) && InTime(settle, gap) && f.now <= last.now + gap
    ensures f.now <= since + Allowance(settle, gap)
  {}

  lemma TickOnLatest(cs: seq<Component>, es: seq<Event>, n: nat)
    requires Run(cs, es) && n < |es| && es[n].Tick? && cs[n].rollouts != []
    ensures |cs[n + 1].rollouts| == |cs[n].rollouts|
    ensures Latest(cs[n + 1]) == TickRollout(Latest(cs[n]), es[n].view, es[n].now)
    ensures RolloutInv(Latest(cs[n]), ClockAt(es, n))
  {
    Reachable(cs, es, n);
    assert Follows(cs, es, n);
    ActiveIsLatest(cs[n].rollouts);
    assert Latest(cs[n]) in cs[n].rollouts;
  }

  /** The batch has passed by then: the next one was released just now, or the rollout has succeeded. */
  ghost predicate Passes(r: Rollout, d: nat, f: Event, next: Rollout, settle: int, gap: int) {
    if d + 1 < |r.batches| then OnTime(next, d + 1, f.now, f, settle, gap) else next.phase == Succeeded
  }

  /** A calm tick leaves the front batch on time, or passes it. */
  lemma OneTick(r: Rollout, d: nat, since: int, last: Event, f: Event, settle: int, gap: int)
    requires RolloutInv(r, last.now) && OnTime(r, d, since, last, settle, gap) && InTime(settle, gap)
    requires f.Tick? && !RolledBack(f.view) && last.now <= f.now <= last.now + gap
    requires ComesUp(r.batches[d], last, f, settle)
    ensures var next := TickRollout(r, f.view, f.now);
            && |next.batches| == |r.batches|
            && (|| OnTime(next, d, since, f, settle, gap)
                || (f.now <= since + Allowance(settle, gap) && Passes(r, d, f, next, settle, gap)))
  {
    var bs, states := r.batches, Seen(f);
    AdvanceIsOneMove(bs, states, f.now);
    var next := TickRollout(r, f.view, f.now);
    if Judge(bs[d], states, f.now).passed {
      PassesInTime(bs[d], since, last, f, settle, gap);
      if d + 1 < |bs| {
        assert Fresh(bs[d + 1]);
        FrontIs(next.batches, d + 1);
      }
    } else {
      StillKeepsUp(bs[d], since, last, f, settle, gap);
      FrontIs(next.batches, d);
    }
  }

  // ---- along a run ----

  /** The latest rollout of every state from n on is running, until it has succeeded at m. */
  ghost predicate RunsUntil(cs: seq<Component>, n: nat, m: nat) {
    && n <= m < |cs| && (forall i :: n <= i < m ==> cs[i].rollouts != [] && Latest(cs[i]).phase == Running)
    && cs[m].rollouts != [] && Latest(cs[m]).phase == Succeeded
  }

  /** The front batch of the latest rollout is on time after event i - 1. */
  ghost predicate OnTimeAt(cs: seq<Component>, es: seq<Event>, i: nat, d: nat, since: int, settle: int, gap: int)
    requires 0 < i <= |es| && |cs| == |es| + 1
  {
    cs[i].rollouts != [] && OnTime(Latest(cs[i]), d, since, es[i - 1], settle, gap)
  }

  lemma TickOnTime(cs: seq<Component>, es: seq<Event>, i: nat, d: nat, since: int, settle: int, gap: int)
    requires Run(cs, es) && 0 < i < |es| && OnTimeAt(cs, es, i, d, since, settle, gap) && InTime(settle, gap)
    requires Calm(cs, es, i, settle) && Paced(es, i, gap)
    ensures cs[i + 1].rollouts != []
    ensures var r, next := Latest(cs[i]), Latest(cs[i + 1]);
            && |next.batches| == |r.batches|
            && (|| OnTimeAt(cs, es, i + 1, d, since, settle, gap)
                || (es[i].now <= since + Allowance(settle, gap) && Passes(r, d, es[i], next, settle, gap)))
  {
    TickOnLatest(cs, es, i);
    OneTick(Latest(cs[i]), d, since, es[i - 1], es[i], settle, gap);
  }

  /** What is left fits before the limit. */
  ghost predicate Fits(cs: seq<Component>, es: seq<Event>, i: nat, d: nat, since: int, settle: int, gap: int,
                       limit: int)
    requires 0 < i <= |es| && |cs| == |es| + 1
  {
    && OnTimeAt(cs, es, i, d, since, settle, gap)
    && since + Allowances(|Latest(cs[i]).batches| - d, settle, gap) <= limit
  }

  lemma StillFits(cs: seq<Component>, es: seq<Event>, n: nat, d: nat, since: int, settle: int, gap: int, limit: int)
      returns (d': nat, since': int)
    requires Run(cs, es) && 0 < n < |es| && Fits(cs, es, n, d, since, settle, gap, limit) && InTime(settle, gap)
    requires Calm(cs, es, n, settle) && Paced(es, n, gap)
    ensures || Fits(cs, es, n + 1, d', since', settle, gap, limit)
            || (cs[n + 1].rollouts != [] && Latest(cs[n + 1]).phase == Succeeded && es[n].now <= limit)
  {
    TickOnTime(cs, es, n, d, since, settle, gap);
    AllowancesAddUp(|Latest(cs[n]).batches| - d - 1, settle, gap);
    if OnTimeAt(cs, es, n + 1, d, since, settle, gap) {
      d', since' := d, since;
    } else {
      d', since' := d + 1, es[n].now;
    }
  }

  lemma RunsSince(cs: seq<Component>, n: nat, j: nat)
    requires n + 1 < |cs| && cs[n].rollouts != [] && Latest(cs[n]).phase == Running
    requires RunsUntil(cs, n + 1, j)
    ensures RunsUntil(cs, n, j)
  {}

  lemma CalmLater(cs: seq<Component>, es: seq<Event>, n: nat, m: nat, settle: int, gap: int)
    requires 0 < n < m <= |es| && |cs| == |es| + 1 && CalmStretch(cs, es, n, m, settle, gap)
    ensures Calm(cs, es, n, settle) && Paced(es, n, gap) && CalmStretch(cs, es, n + 1, m, settle, gap)
  {}

  /** While all goes well, a batch and those behind it succeed within an allowance for each: if the calm ticks reach
      that far, one of them is the success. */
  lemma {:induction false} CalmTicksFinish(cs: seq<Component>, es: seq<Event>, n: nat, m: nat, d: nat, since: int,
                                           settle: int, gap: int, limit: int)
      returns (j: nat)
    requires Run(cs, es) && 0 < n <= m <= |es| && CalmStretch(cs, es, n, m, settle, gap) && InTime(settle, gap)
    requires Fits(cs, es, n, d, since, settle, gap, limit) && limit <= es[m - 1].now
    ensures n < j <= m && RunsUntil(cs, n, j) && es[j - 1].now <= limit
    decreases m - n
  {
    StillToGo(Latest(cs[n]), d, since, es[n - 1], settle, gap, limit);
    CalmLater(cs, es, n, m, settle, gap);
    var d', since' := StillFits(cs, es, n, d, since, settle, gap, limit);
    j := n + 1;
    if Fits(cs, es, n + 1, d', since', settle, gap, limit) {
      j := CalmTicksFinish(cs, es, n + 1, m, d', since', settle, gap, limit);
      RunsSince(cs, n, j);
    }
  }

  /** A batch that is on time has not used up its allowance. */
  lemma StillToGo(r: Rollout, d: nat, since: int, last: Event, settle: int, gap: int, limit: int)
    requires OnTime(r, d, since, last, settle, gap) && InTime(settle, gap)
    requires since + Allowances(|r.batches| - d, settle, gap) <= limit
    ensures last.now < limit
  {
    AllowancesAddUp(|r.batches| - d - 1, settle, gap);
  }

  /** The front batch was released at this time and nothing has been seen of it yet. */
  ghost predicate JustReleased(r: Rollout, d: nat, since: int) {
    && r.phase == Running && d < |r.batches| && Front(r.batches) == d
    && r.batches[d].state == Released && r.batches[d].releasedAt == Some(since)
    && r.batches[d].healthySince == None && r.batches[d].baseline == map[]
  }

  /** The first tick releases the first batch, if there is any to release. */
  lemma FirstTick(r: Rollout, e: Event)
    requires FreshRecords(r.batches) && r.phase == Running && r.batches != [] && e.Tick? && !RolledBack(e.view)
    ensures var next, k := TickRollout(r, e.view, e.now), Gates(r.batches);
            && |next.batches| == |r.batches|
            && if k == 0 then next.phase == Succeeded else JustReleased(next, |r.batches| - k, e.now)
  {
    var bs := r.batches;
    var d := |bs| - Gates(bs);
    FreshRecordsShape(bs);
    FrontIs(bs, d);
    AdvanceIsOneMove(bs, Seen(e), e.now);
    if d < |bs| {
      FrontIs(Freed(bs, d, e.now), d);
    }
  }

  lemma ChangeOpens(cs: seq<Component>, es: seq<Event>, n: nat)
    requires Run(cs, es) && n < |es| && es[n].Change? && es[n].deployment == Deployed
    ensures cs[n + 1].rollouts != [] && FreshRecords(es[n].saved)
    ensures Latest(cs[n + 1]).phase == Running && Latest(cs[n + 1]).batches == es[n].saved
  {
    assert Follows(cs, es, n) && Wellformed(es[n]);
    PlannedRecordsAreFresh(es[n].input, es[n].saved);
  }

  lemma FirstRelease(cs: seq<Component>, es: seq<Event>, n: nat, settle: int, gap: int, limit: int)
    requires Run(cs, es) && n + 1 < |es| && es[n].Change? && es[n].deployment == Deployed && es[n].saved != []
    requires Calm(cs, es, n + 1, settle) && Paced(es, n + 1, gap) && InTime(settle, gap)
    requires limit == es[n].now + gap + Allowances(Gates(es[n].saved), settle, gap)
    ensures cs[n + 1].rollouts != [] && Latest(cs[n + 1]).phase == Running && cs[n + 2].rollouts != []
    ensures var k, d := Gates(es[n].saved), |es[n].saved| - Gates(es[n].saved);
            if k == 0 then Latest(cs[n + 2]).phase == Succeeded && es[n + 1].now <= limit
            else d >= 0 && Fits(cs, es, n + 2, d, es[n + 1].now, settle, gap, limit)
  {
    ChangeOpens(cs, es, n);
    TickOnLatest(cs, es, n + 1);
    FirstTick(Latest(cs[n + 1]), es[n + 1]);
  }

  /** A change of k batches that all goes well for succeeds within a gap and k allowances. */
  lemma HealthyChangeSucceeds(cs: seq<Component>, es: seq<Event>, n: nat, m: nat, settle: int, gap: int)
      returns (j: nat)
    requires Run(cs, es) && n + 1 < m <= |es| && es[n].Change? && es[n].deployment == Deployed && es[n].saved != []
    requires CalmStretch(cs, es, n + 1, m, settle, gap) && InTime(settle, gap)
    requires es[n].now + gap + Allowances(Gates(es[n].saved), settle, gap) <= es[m - 1].now
    ensures n + 1 < j <= m && RunsUntil(cs, n + 1, j)
    ensures es[j - 1].now <= es[n].now + gap + Allowances(Gates(es[n].saved), settle, gap)
  {
    var saved := es[n].saved;
    var limit := es[n].now + gap + Allowances(Gates(saved), settle, gap);
    CalmLater(cs, es, n + 1, m, settle, gap);
    FirstRelease(cs, es, n, settle, gap, limit);
    if Gates(saved) == 0 {
      j := n + 2;
    } else {
      j := CalmTicksFinish(cs, es, n + 2, m, |saved| - Gates(saved), es[n + 1].now, settle, gap, limit);
      RunsSince(cs, n + 1, j);
    }
  }

  lemma ResumeReleases(c: Component, e: Event, clock: int)
    requires Inv(c, clock) && e == SetPaused(false, e.now) && c.rollouts != [] && Latest(c).phase == Halted
    ensures Step(c, e).rollouts != []
    ensures JustReleased(Latest(Step(c, e)), Front(Latest(c).batches), e.now)
    ensures |Latest(Step(c, e)).batches| == |Latest(c).batches|
  {
    var r := Latest(c);
    assert r in c.rollouts;
    ActiveIsLatest(c.rollouts);
    ResumeAtTheBreakpoint(r, clock, e.now);
    FrontIs(PauseRollout(r, false, e.now).batches, Front(r.batches));
  }

  lemma ResumeFits(cs: seq<Component>, es: seq<Event>, n: nat, settle: int, gap: int)
    requires Run(cs, es) && n < |es| && es[n] == SetPaused(false, es[n].now) && cs[n].rollouts != []
    requires Latest(cs[n]).phase == Halted && InTime(settle, gap)
    ensures var bs := Latest(cs[n]).batches;
            Fits(cs, es, n + 1, Front(bs), es[n].now, settle, gap,
                 es[n].now + Allowances(|bs| - Front(bs), settle, gap))
  {
    Reachable(cs, es, n);
    assert Follows(cs, es, n);
    ResumeReleases(cs[n], es[n], ClockAt(es, n));
  }

  /** A halted rollout that is resumed succeeds within an allowance for its failed batch and each behind it. */
  lemma HealthyResumeSucceeds(cs: seq<Component>, es: seq<Event>, n: nat, m: nat, settle: int, gap: int)
      returns (j: nat)
    requires Run(cs, es) && n < m <= |es| && es[n] == SetPaused(false, es[n].now) && cs[n].rollouts != []
    requires Latest(cs[n]).phase == Halted && CalmStretch(cs, es, n + 1, m, settle, gap) && InTime(settle, gap)
    requires var bs := Latest(cs[n]).batches;
             es[n].now + Allowances(|bs| - Front(bs), settle, gap) <= es[m - 1].now
    ensures n + 1 < j <= m && RunsUntil(cs, n + 1, j)
    ensures var bs := Latest(cs[n]).batches;
            es[j - 1].now <= es[n].now + Allowances(|bs| - Front(bs), settle, gap)
  {
    var bs := Latest(cs[n]).batches;
    var limit := es[n].now + Allowances(|bs| - Front(bs), settle, gap);
    ResumeFits(cs, es, n, settle, gap);
    j := CalmTicksFinish(cs, es, n + 1, m, Front(bs), es[n].now, settle, gap, limit);
  }

  // ---- and it can go so ----

  /** A status query marks exactly the instances that are offered another version as waiting for their turn. */
  ghost predicate AsStatusShows(c: Component, view: StatusView) {
    forall iv :: iv in view.instances ==> iv.pendingVersion == WaitingFor(c, iv.id)
  }

  function WaitingFor(c: Component, id: int): string {
    if Offered(c, id) != c.version then Offered(c, id) else ""
  }

  /** The report of an instance that runs what it is offered, and is well. */
  function WellReport(c: Component, id: int): InstanceView {
    InstanceView(id, "digest", "digest", WaitingFor(c, id), "healthy", "ok", 0, false)
  }

  function WellReports(c: Component, ts: seq<Target>): (views: seq<InstanceView>)
    ensures |views| == |ts| && forall i :: 0 <= i < |ts| ==> views[i] == WellReport(c, ts[i].id)
  {
    seq(|ts|, i requires 0 <= i < |ts| => WellReport(c, ts[i].id))
  }

  /** All instances of the latest rollout, those in batches and those set aside, at one time. */
  function WellTick(c: Component, now: int): Event
    requires c.rollouts != []
  {
    Tick(StatusView(WellReports(c, Gathered(Latest(c).batches)), false, ""), now)
  }

  lemma WellSeen(c: Component, now: int, id: int)
    requires c.rollouts != [] && id in Seen(WellTick(c, now))
    ensures var st := Seen(WellTick(c, now))[id]; st.restarts == 0 && (WaitingFor(c, id) == "" ==> st.converged)
  {
    GateStatesRead(WellTick(c, now).view.instances, id);
  }

  /** A batch that is out is offered the new version, so nothing marks its instances as waiting. */
  lemma OutIsOffered(c: Component, t: Target)
    requires BatchOut(c) && t in FrontBatch(c).targets
    ensures WaitingFor(c, t.id) == "" && t in Gathered(Latest(c).batches)
  {
    var bs := Latest(c).batches;
    ReleasedExactly(bs);
    assert Offers(bs[Front(bs)]) && t.id in IdsOf(bs[Front(bs)].targets);
    GatheredMember(bs, Front(bs), t);
  }

  lemma WellTickConverges(c: Component, now: int)
    requires BatchOut(c)
    ensures AllConverged(FrontBatch(c).targets, WellTick(c, now))
  {
    var e := WellTick(c, now);
    forall t | t in FrontBatch(c).targets ensures t.id in Seen(e) && Seen(e)[t.id].converged {
      OutIsOffered(c, t);
      var i :| 0 <= i < |Gathered(Latest(c).batches)| && Gathered(Latest(c).batches)[i] == t;
      assert e.view.instances[i].id == t.id;
      GateStatesRead(e.view.instances, t.id);
      WellSeen(c, now, t.id);
    }
  }

  /** Event i is such a tick, a gap after the event before it. */
  ghost predicate WellAt(cs: seq<Component>, es: seq<Event>, i: nat, gap: int)
    requires 0 < i < |es| && |cs| == |es| + 1
  {
    cs[i].rollouts != [] && es[i] == WellTick(cs[i], es[i - 1].now + gap)
  }

  lemma WellIsCalm(cs: seq<Component>, es: seq<Event>, i: nat, settle: int, gap: int)
    requires 0 < i < |es| && |cs| == |es| + 1 && WellAt(cs, es, i, gap)
    requires es[i - 1].Tick? ==> i > 1 && WellAt(cs, es, i - 1, gap)
    ensures Calm(cs, es, i, settle) && Paced(es, i, gap) && AsStatusShows(cs[i], es[i].view)
  {
    if BatchOut(cs[i]) {
      WellTickConverges(cs[i], es[i].now);
      if es[i - 1].Tick? {
        forall t | t in FrontBatch(cs[i]).targets && t.id in Seen(es[i - 1]) && t.id in Seen(es[i])
          ensures Seen(es[i])[t.id].restarts <= Seen(es[i - 1])[t.id].restarts
        {
          WellSeen(cs[i], es[i].now, t.id);
          WellSeen(cs[i - 1], es[i - 1].now, t.id);
        }
      }
    }
  }

  lemma RunGoesOn(cs: seq<Component>, es: seq<Event>, e: Event)
    requires Run(cs, es) && es != [] && Wellformed(e) && es[|es| - 1].now <= e.now
    ensures Run(cs + [Step(cs[|es|], e)], es + [e])
  {
    var cs', es' := cs + [Step(cs[|es|], e)], es + [e];
    forall i | 0 <= i < |es'| ensures Follows(cs', es', i) {
      assert i < |es| ==> Follows(cs, es, i);
    }
  }

  /** Such ticks from event n on. */
  ghost predicate WellFrom(cs: seq<Component>, es: seq<Event>, n: nat, gap: int)
    requires |cs| == |es| + 1
  {
    forall i :: n < i < |es| ==> WellAt(cs, es, i, gap)
  }

  lemma WellOneMore(cs: seq<Component>, es: seq<Event>, n: nat, gap: int)
      returns (cs': seq<Component>, es': seq<Event>)
    requires Run(cs, es) && n < |es| && WellFrom(cs, es, n, gap) && cs[|es|].rollouts != [] && gap >= 0
    ensures Run(cs', es') && |es'| == |es| + 1 && es <= es' && cs <= cs' && cs'[|es'|].rollouts != []
    ensures WellFrom(cs', es', n, gap) && es'[|es|].now == es[|es| - 1].now + gap
  {
    var c := cs[|es|];
    var e := WellTick(c, es[|es| - 1].now + gap);
    cs', es' := cs + [Step(c, e)], es + [e];
    RunGoesOn(cs, es, e);
    TickOnLatest(cs', es', |es|);
    forall i | n < i < |es'| ensures WellAt(cs', es', i, gap) {
      assert i < |es| ==> WellAt(cs, es, i, gap);
    }
  }

  /** A run goes on with them up to any time. */
  lemma {:induction false} WellContinuation(cs: seq<Component>, es: seq<Event>, n: nat, gap: int, until: int)
      returns (cs': seq<Component>, es': seq<Event>)
    requires Run(cs, es) && n < |es| && WellFrom(cs, es, n, gap) && cs[|es|].rollouts != [] && gap > 0
    ensures Run(cs', es') && es <= es' && cs <= cs' && WellFrom(cs', es', n, gap) && es'[|es'| - 1].now >= until
    decreases until - es[|es| - 1].now
  {
    if es[|es| - 1].now >= until {
      cs', es' := cs, es;
    } else {
      var cs1, es1 := WellOneMore(cs, es, n, gap);
      cs', es' := WellContinuation(cs1, es1, n, gap, until);
    }
  }

  lemma WellIsCalmStretch(cs: seq<Component>, es: seq<Event>, n: nat, settle: int, gap: int)
    requires n < |es| && |cs| == |es| + 1 && WellFrom(cs, es, n, gap) && es[n].Change?
    ensures CalmStretch(cs, es, n + 1, |es|, settle, gap)
    ensures forall i :: n < i < |es| ==> es[i].Tick? && AsStatusShows(cs[i], es[i].view)
  {
    forall i | n < i < |es| ensures Calm(cs, es, i, settle) && Paced(es, i, gap) && AsStatusShows(cs[i], es[i].view) {
      assert WellAt(cs, es, i, gap) && (i > n + 1 ==> WellAt(cs, es, i - 1, gap));
      WellIsCalm(cs, es, i, settle, gap);
    }
  }

  /** Nothing in the way of success: every change with batches can go on so, with status queries that mark the
      instances still waiting, to the success of its rollout. */
  lemma EveryChangeCanSucceed(cs: seq<Component>, es: seq<Event>, settle: int, gap: int)
      returns (cs': seq<Component>, es': seq<Event>, j: nat)
    requires Run(cs, es) && es != [] && gap > 0 && InTime(settle, gap)
    requires var e := es[|es| - 1]; e.Change? && e.deployment == Deployed && e.saved != []
    ensures Run(cs', es') && es <= es' && cs <= cs' && |es| < j <= |es'| && RunsUntil(cs', |es|, j)
    ensures CalmStretch(cs', es', |es|, |es'|, settle, gap)
    ensures forall i :: |es| <= i < |es'| ==> es'[i].Tick? && AsStatusShows(cs'[i], es'[i].view)
  {
    var n := |es| - 1;
    ChangeOpens(cs, es, n);
    var limit := es[n].now + gap + Allowances(Gates(es[n].saved), settle, gap);
    AllowancesAddUp(Gates(es[n].saved), settle, gap);
    cs', es' := WellContinuation(cs, es, n, gap, limit);
    WellIsCalmStretch(cs', es', n, settle, gap);
    j := HealthyChangeSucceeds(cs', es', n, |es'|, settle, gap);
  }

  // ---- what it takes to halt ----

  /** Event j evaluates the gate of the front batch of the q-th rollout, which was released too long ago, in vain. */
  ghost predicate HaltsAt(cs: seq<Component>, es: seq<Event>, j: nat, q: nat, k: nat)
    requires j < |es| && |cs| == |es| + 1
  {
    && |cs[j].rollouts| == q + 1 && Evaluates(cs[j], es[j], k)
    && var b := Latest(cs[j]).batches[k];
       b.releasedAt.Some? && es[j].now - b.releasedAt.value > BATCH_TIMEOUT && !Judge(b, Seen(es[j]), es[j].now).passed
  }

  /** A tick halts a running rollout exactly then. */
  lemma HaltsExactly(cs: seq<Component>, es: seq<Event>, j: nat, q: nat)
    requires Run(cs, es) && j < |es| && es[j].Tick? && |cs[j].rollouts| == q + 1 && Latest(cs[j]).phase == Running
    ensures |cs[j + 1].rollouts| == q + 1
    ensures Latest(cs[j + 1]).phase == Halted <==> HaltsAt(cs, es, j, q, Front(Latest(cs[j]).batches))
  {
    TickOnLatest(cs, es, j);
    AdvanceIsOneMove(Latest(cs[j]).batches, Seen(es[j]), es[j].now);
  }

  lemma ChangeHaltsNothing(c: Component, e: Event, q: nat)
    requires e.Change? && OnlyLatestOpen(c.rollouts) && q < |Step(c, e).rollouts|
    ensures Step(c, e).rollouts[q].phase != Halted
  {
    ActiveIsLatest(c.rollouts);
  }

  lemma PauseHaltsNothing(c: Component, e: Event, q: nat)
    requires e.SetPaused? && OnlyLatestOpen(c.rollouts)
    requires q < |Step(c, e).rollouts| && Step(c, e).rollouts[q].phase == Halted
    ensures q < |c.rollouts| && c.rollouts[q].phase == Halted
  {
    ActiveIsLatest(c.rollouts);
  }

  lemma TickHaltsLatest(c: Component, e: Event, q: nat)
    requires e.Tick? && OnlyLatestOpen(c.rollouts)
    requires q < |Step(c, e).rollouts| && Step(c, e).rollouts[q].phase == Halted
    ensures q < |c.rollouts|
    ensures c.rollouts[q].phase != Halted ==> q + 1 == |c.rollouts| && c.rollouts[q].phase == Running
  {
    ActiveIsLatest(c.rollouts);
  }

  lemma TurnsHalted(cs: seq<Component>, es: seq<Event>, j: nat, q: nat)
    requires Run(cs, es) && j < |es| && q < |cs[j + 1].rollouts| && cs[j + 1].rollouts[q].phase == Halted
    requires q < |cs[j].rollouts| ==> cs[j].rollouts[q].phase != Halted
    ensures es[j].Tick? && |cs[j].rollouts| == q + 1 && Latest(cs[j]).phase == Running
  {
    Reachable(cs, es, j);
    assert Follows(cs, es, j);
    if es[j].Change? {
      ChangeHaltsNothing(cs[j], es[j], q);
    } else if es[j].SetPaused? {
      PauseHaltsNothing(cs[j], es[j], q);
    } else {
      TickHaltsLatest(cs[j], es[j], q);
    }
  }

  /** A rollout that is halted was halted by such an evaluation. */
  lemma {:induction false} HaltEvent(cs: seq<Component>, es: seq<Event>, n: nat, q: nat) returns (j: nat, k: nat)
    requires Run(cs, es) && n <= |es| && q < |cs[n].rollouts| && cs[n].rollouts[q].phase == Halted
    ensures j < n && HaltsAt(cs, es, j, q, k)
    ensures forall i :: j < i <= n ==> q < |cs[i].rollouts| && cs[i].rollouts[q].phase == Halted
  {
    assert n > 0;
    if q < |cs[n - 1].rollouts| && cs[n - 1].rollouts[q].phase == Halted {
      j, k := HaltEvent(cs, es, n - 1, q);
    } else {
      TurnsHalted(cs, es, n - 1, q);
      HaltsExactly(cs, es, n - 1, q);
      j, k := n - 1, Front(Latest(cs[n - 1]).batches);
    }
  }

  /** The batch is out since that time. */
  ghost predicate OutSince(c: Component, q: nat, k: nat, since: int) {
    && HasBatch(c, q, k)
    && c.rollouts[q].batches[k].state == Released && c.rollouts[q].batches[k].releasedAt == Some(since)
  }

  /** Where a step puts a batch out, it stamps the release. */
  ghost predicate Stamps(b: Batch, next: Batch, now: int) {
    next.state == Released ==>
      (b.state == Released && next.releasedAt == b.releasedAt) || next.releasedAt == Some(now)
  }

  lemma MoveStamps(bs: seq<Batch>, d: nat, states: map<int, GateState>, now: int, k: nat)
    requires d <= |bs| && k < |bs|
    ensures Stamps(bs[k], Move(bs, d, states, now).0[k], now)
  {}

  lemma PauseStamps(r: Rollout, pause: bool, now: int, k: nat)
    requires k < |r.batches|
    ensures Stamps(r.batches[k], PauseRollout(r, pause, now).batches[k], now)
  {}

  /** A step puts a batch out only with its own time on the release. */
  lemma StepReleases(cs: seq<Component>, es: seq<Event>, i: nat, q: nat, k: nat, since: int)
    requires Run(cs, es) && i < |es| && OutSince(cs[i + 1], q, k, since) && !OutSince(cs[i], q, k, since)
    ensures es[i].now == since
  {
    Reachable(cs, es, i);
    assert Follows(cs, es, i) && Wellformed(es[i]);
    var c, e := cs[i], es[i];
    if e.Change? {
      ChangeReleasesNothing(c, e, q, k);
    } else {
      ShortOfChange(c, e, ClockAt(es, i), q, k, since);
    }
  }

  lemma ChangeReleasesNothing(c: Component, e: Event, q: nat, k: nat)
    requires e.Change? && Wellformed(e) && HasBatch(Step(c, e), q, k)
    requires Step(c, e).rollouts[q].batches[k].state == Released
    ensures HasBatch(c, q, k) && c.rollouts[q].batches[k] == Step(c, e).rollouts[q].batches[k]
  {
    ChangeOnRecord(c, e, q, k);
    PlannedRecordsAreFresh(e.input, e.saved);
  }

  lemma TickStamps(r: Rollout, view: StatusView, now: int, clock: int, k: nat)
    requires RolloutInv(r, clock) && k < |r.batches|
    ensures k < |TickRollout(r, view, now).batches| && Stamps(r.batches[k], TickRollout(r, view, now).batches[k], now)
  {
    AdvanceIsOneMove(r.batches, GateStates(view.instances), now);
    MoveStamps(r.batches, Front(r.batches), GateStates(view.instances), now, k);
  }

  /** Short of a change a rollout is ticked, paused or resumed, or left alone. */
  lemma OneRolloutMoves(c: Component, e: Event, q: nat)
    requires OnlyLatestOpen(c.rollouts) && !e.Change? && q < |Step(c, e).rollouts|
    ensures q < |c.rollouts|
    ensures var r, next := c.rollouts[q], Step(c, e).rollouts[q];
            || next == r || (e.Tick? && next == TickRollout(r, e.view, e.now))
            || (e.SetPaused? && next == PauseRollout(r, e.pause, e.now))
  {
    ActiveIsLatest(c.rollouts);
  }

  lemma ShortOfChange(c: Component, e: Event, clock: int, q: nat, k: nat, since: int)
    requires Inv(c, clock) && !e.Change? && OutSince(Step(c, e), q, k, since) && !OutSince(c, q, k, since)
    ensures e.now == since
  {
    OneRolloutMoves(c, e, q);
    var r, next := c.rollouts[q], Step(c, e).rollouts[q];
    assert r in c.rollouts;
    if e.Tick? && next == TickRollout(r, e.view, e.now) {
      TickKeepsLength(r, e.view, e.now);
      TickStamps(r, e.view, e.now, clock, k);
    } else if e.SetPaused? && next == PauseRollout(r, e.pause, e.now) {
      PauseStamps(r, e.pause, e.now, k);
    }
  }

  lemma TickKeepsLength(r: Rollout, view: StatusView, now: int)
    ensures |TickRollout(r, view, now).batches| == |r.batches|
  {
    TickKeepsOffers(r, view, now);
  }

  /** A batch that is out has been out, unpassed, ever since the event that released it. */
  lemma {:induction false} ReleaseEvent(cs: seq<Component>, es: seq<Event>, n: nat, q: nat, k: nat, since: int)
    returns (m: nat)
    requires Run(cs, es) && n <= |es| && OutSince(cs[n], q, k, since)
    ensures m < n && es[m].now == since && forall i :: m < i <= n ==> OutSince(cs[i], q, k, since)
  {
    assert n > 0;
    if OutSince(cs[n - 1], q, k, since) {
      m := ReleaseEvent(cs, es, n - 1, q, k, since);
    } else {
      StepReleases(cs, es, n - 1, q, k, since);
      m := n - 1;
    }
  }

  /** A run reaches a halt only when a batch had been out for more than ten minutes since its last release, at event m,
      without passing, and was still not steady enough at event j, which halted it. */
  lemma HaltNeedsTimeout(cs: seq<Component>, es: seq<Event>, n: nat, q: nat) returns (m: nat, j: nat, k: nat)
    requires Run(cs, es) && n <= |es| && q < |cs[n].rollouts| && cs[n].rollouts[q].phase == Halted
    ensures m < j < n && es[j].now - es[m].now > BATCH_TIMEOUT && HaltsAt(cs, es, j, q, k)
    ensures forall i :: m < i <= j ==> OutSince(cs[i], q, k, es[m].now)
  {
    j, k := HaltEvent(cs, es, n, q);
    m := ReleaseEvent(cs, es, j, q, k, Latest(cs[j]).batches[k].releasedAt.value);
  }
}
