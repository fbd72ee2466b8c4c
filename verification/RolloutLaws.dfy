/** What each request does to the records, said outright: a tick, a pause or resume, a change; what the records mean
    for the versions offered; and what that comes to over a run. Durations are nanoseconds. */
module RolloutLaws {
  import opened Options
  import opened Batches
  import opened Gate
  import opened Rollouts
  import opened RolloutRuns
  import opened Delivery

  // ---- what is offered ----

  /** A batch that was released, whatever became of it, lets its instances have the new version. */
  ghost predicate InReleasedBatch(bs: seq<Batch>, id: int) {
    exists k, t :: 0 <= k < |bs| && t in bs[k].targets && t.id == id
      && (bs[k].state == Released || bs[k].state == Done || bs[k].state == Failed)
  }

  lemma ReleasedMeans(bs: seq<Batch>, id: int)
    ensures id in ReleasedIds(bs) <==> InReleasedBatch(bs, id)
  {
    ReleasedExactly(bs);
    if id in ReleasedIds(bs) {
      var k :| 0 <= k < |bs| && Offers(bs[k]) && id in IdsOf(bs[k].targets);
      var t :| t in bs[k].targets && t.id == id;
    }
  }

  /** The latest rollout has batches, is running, paused, halted or failed, knows the version it started from, and has
      not released this instance. */
  ghost predicate KeptBack(c: Component, id: int) {
    && c.rollouts != []
    && var r := c.rollouts[|c.rollouts| - 1];
       && (r.phase == Running || r.phase == Paused || r.phase == Halted || r.phase == GaveUp)
       && r.batches != [] && r.from != "" && !InReleasedBatch(r.batches, id)
  }

  /** Everyone is offered the component's version, except those kept back at the version the rollout started from. */
  lemma OfferedMeans(c: Component, id: int)
    ensures Offered(c, id) == if KeptBack(c, id) then c.rollouts[|c.rollouts| - 1].from else c.version
  {
    if c.rollouts != [] {
      ReleasedMeans(Latest(c).batches, id);
    }
  }

  // ---- a tick ----

  /** Ticks touch a running rollout only. */
  lemma OnlyRunningRolloutsMove(c: Component, e: Event)
    requires OnlyLatestOpen(c.rollouts) && e.Tick? && (c.rollouts != [] ==> Latest(c).phase != Running)
    ensures Step(c, e) == c
  {
    ActiveIsLatest(c.rollouts);
  }

  lemma TickRunning(c: Component, e: Event)
    requires OnlyLatestOpen(c.rollouts) && e.Tick? && c.rollouts != [] && Latest(c).phase == Running
    ensures Step(c, e) == c.(rollouts := c.rollouts[|c.rollouts| - 1 := TickRollout(Latest(c), e.view, e.now)])
  {
    ActiveIsLatest(c.rollouts);
  }

  /** A node that has rolled back ends a running rollout as failed, with its batches as they are -- and whoever was
      held back stays so: no offer changes. */
  lemma NodeRollbackStopsTheRollout(c: Component, e: Event, iv: InstanceView, id: int)
    requires OnlyLatestOpen(c.rollouts) && e.Tick? && c.rollouts != [] && Latest(c).phase == Running
    requires iv in e.view.instances && iv.rolledBack
    ensures var d := Step(c, e);
            && |d.rollouts| == |c.rollouts| && d.version == c.version && Offered(d, id) == Offered(c, id)
            && Latest(d) == Latest(c).(phase := GaveUp, reason := NodesRolledBack, endedAt := Some(e.now))
  {
    TickRunning(c, e);
    OfferedMeans(c, id);
    OfferedMeans(Step(c, e), id);
  }

  /** A rollout without batches succeeds once all has converged on its version, fails ten minutes after its start, and
      holds nobody back all the while. */
  lemma WithoutBatches(c: Component, e: Event, id: int)
    requires OnlyLatestOpen(c.rollouts) && e.Tick? && c.rollouts != [] && Latest(c).phase == Running
    requires Latest(c).batches == [] && forall iv :: iv in e.view.instances ==> !iv.rolledBack
    ensures var r, d := Latest(c), Step(c, e); var next := Latest(d);
            && (e.view.converged && e.view.version == r.to ==>
                  next == r.(phase := Succeeded, reason := Nothing, endedAt := Some(e.now)))
            && (!(e.view.converged && e.view.version == r.to) && e.now - r.startedAt > 600_000_000_000 ==>
                  next == r.(phase := GaveUp, reason := NeverConverged, endedAt := Some(e.now)))
            && (!(e.view.converged && e.view.version == r.to) && e.now - r.startedAt <= 600_000_000_000 ==> d == c)
            && Offered(c, id) == c.version == Offered(d, id)
  {
    TickRunning(c, e);
    OfferedMeans(c, id);
    OfferedMeans(Step(c, e), id);
  }

  /** With batches the front one is judged by the clock of the wall: it passes with a window of 30 seconds, and fails
      ten minutes after its release. */
  lemma WithBatches(c: Component, e: Event, clock: int, d: nat)
    requires Inv(c, clock) && e.Tick? && c.rollouts != [] && Latest(c).phase == Running
    requires Latest(c).batches != [] && forall iv :: iv in e.view.instances ==> !iv.rolledBack
    requires d < |Latest(c).batches| && d == Front(Latest(c).batches) && Latest(c).batches[d].state == Released
    ensures var bs, next := Latest(c).batches, Latest(Step(c, e)); var b := bs[d];
            var steady := AllSteady(b.targets, b.baseline, GateStates(e.view.instances));
            var passes := steady && b.healthySince.Some? && e.now - b.healthySince.value >= 30_000_000_000;
            && |next.batches| == |bs|
            && (forall k :: 0 <= k < |bs| && k != d && k != d + 1 ==> next.batches[k] == bs[k])
            && (passes ==> next.batches[d].state == Done && (d + 1 == |bs| ==> next.phase == Succeeded)
                           && (d + 1 < |bs| ==> next.phase == Running && next.batches[d + 1].state == Released
                                                && next.batches[d + 1].releasedAt == Some(e.now)))
            && (!passes && b.releasedAt.Some? && e.now - b.releasedAt.value > 600_000_000_000 ==>
                  next.batches[d].state == Failed && next.phase == Halted && next.endedAt == None
                  && next.reason == BatchTimedOut(b.num, Judge(b, GateStates(e.view.instances), e.now).blockers))
            && (!passes && (b.releasedAt.Some? ==> e.now - b.releasedAt.value <= 600_000_000_000) ==>
                  next.batches[d].state == Released && next.phase == Running
                  && (next.batches[d].healthySince.Some? <==> steady))
  {
    TickRunning(c, e);
    assert Latest(c) in c.rollouts && RolloutInv(Latest(c), clock);
    var bs := Latest(c).batches;
    AdvanceIsOneMove(bs, GateStates(e.view.instances), e.now);
    PassesExactly(bs[d], GateStates(e.view.instances), e.now);
  }

  /** A front batch that is still pending is released, and that is all; with none left the rollout succeeds. */
  lemma WithoutAnyOut(c: Component, e: Event, clock: int, d: nat)
    requires Inv(c, clock) && e.Tick? && c.rollouts != [] && Latest(c).phase == Running
    requires Latest(c).batches != [] && forall iv :: iv in e.view.instances ==> !iv.rolledBack
    requires d == Front(Latest(c).batches) && (d < |Latest(c).batches| ==> Latest(c).batches[d].state == Pending)
    ensures var r, next := Latest(c), Latest(Step(c, e));
            if d < |r.batches| then
              next == r.(batches := r.batches[d := r.batches[d].(state := Released, releasedAt := Some(e.now))])
            else next == r.(phase := Succeeded, reason := Nothing, endedAt := Some(e.now))
  {
    TickRunning(c, e);
    assert Latest(c) in c.rollouts && RolloutInv(Latest(c), clock);
    AdvanceIsOneMove(Latest(c).batches, GateStates(e.view.instances), e.now);
  }

  // ---- pause and resume ----

  /** The request finds an open rollout in a phase in which it means something: a pause a running one, a resume one
      that is paused or halted. */
  ghost predicate Accepted(c: Component, pause: bool) {
    && c.rollouts != []
    && if pause then Latest(c).phase == Running else Latest(c).phase == Paused || Latest(c).phase == Halted
  }

  /** And those are the requests that are not refused. */
  lemma AcceptedExactly(c: Component, pause: bool)
    requires OnlyLatestOpen(c.rollouts)
    ensures Accepted(c, pause) <==> var a := Active(c.rollouts); a.Some? && !Refused(c.rollouts[a.value], pause)
  {
    ActiveIsLatest(c.rollouts);
  }

  /** An accepted pause leaves the rollout paused and everything else as it is; a refused request changes nothing. */
  lemma PausePauses(c: Component, e: Event)
    requires OnlyLatestOpen(c.rollouts) && e.SetPaused?
    ensures !Accepted(c, e.pause) ==> Step(c, e) == c
    ensures Accepted(c, e.pause) && e.pause ==>
              Step(c, e) == c.(rollouts := c.rollouts[
                |c.rollouts| - 1 := Latest(c).(phase := Paused, reason := ManuallyPaused, endedAt := None)])
  {
    ActiveIsLatest(c.rollouts);
  }

  /** An accepted resume leaves it running, with its failed batches released again and started over. */
  lemma ResumeResumes(c: Component, e: Event, k: nat)
    requires OnlyLatestOpen(c.rollouts) && e.SetPaused? && !e.pause && Accepted(c, false) && k < |Latest(c).batches|
    ensures var r, next := Latest(c), Latest(Step(c, e));
            && |next.batches| == |r.batches| && next == r.(phase := Running, reason := Nothing, endedAt := None,
                                                          batches := next.batches)
            && next.batches[k] == if r.phase == Halted && r.batches[k].state == Failed
                                  then r.batches[k].(state := Released, releasedAt := Some(e.now),
                                                     healthySince := None, baseline := map[])
                                  else r.batches[k]
  {
    ActiveIsLatest(c.rollouts);
  }

  /** Neither a change nor an accepted resume. */
  ghost predicate LeavesPaused(e: Event) {
    !e.Change? && (e.SetPaused? ==> e.pause)
  }

  /** From an accepted pause on, until a resume or a change, nothing moves: no record and no offer, whatever the ticks
      show and however often a pause is asked for again. */
  lemma {:induction false} PausedStaysPut(cs: seq<Component>, es: seq<Event>, n: nat, later: nat, id: int)
    requires Run(cs, es) && n < later <= |es| && es[n].SetPaused? && es[n].pause && Accepted(cs[n], true)
    requires forall i :: n < i < later ==> LeavesPaused(es[i])
    ensures cs[later] == cs[n + 1] && cs[n].rollouts != [] && cs[n + 1].rollouts != []
    ensures Latest(cs[later]).phase == Paused
    ensures Latest(cs[later]).batches == Latest(cs[n]).batches && Offered(cs[later], id) == Offered(cs[n], id)
  {
    OnlyLatest(cs, es, n);
    assert Follows(cs, es, n);
    PausePauses(cs[n], es[n]);
    OfferedMeans(cs[n], id);
    OfferedMeans(cs[n + 1], id);
    if n + 1 < later {
      PausedStaysPut(cs, es, n, later - 1, id);
      OnlyLatest(cs, es, later - 1);
      assert Follows(cs, es, later - 1) && LeavesPaused(es[later - 1]);
      if es[later - 1].Tick? {
        OnlyRunningRolloutsMove(cs[later - 1], es[later - 1]);
      } else {
        PausePauses(cs[later - 1], es[later - 1]);
      }
    }
  }

  // ---- a change ----

  ghost predicate OpenPhase(p: Phase) {
    p == Running || p == Paused || p == Halted
  }

  /** A change ends the rollout that was open, as superseded, and appends its own: running, from the version so far. The
      component moves to the new version unless storing it failed; a failed deployment aborts the new rollout. */
  lemma ChangeMeans(c: Component, e: Event, i: nat)
    requires OnlyLatestOpen(c.rollouts) && e.Change? && i < |c.rollouts|
    ensures var d, r := Step(c, e), c.rollouts[i];
            && |d.rollouts| == |c.rollouts| + 1
            && d.rollouts[i] == (if OpenPhase(r.phase)
                                 then r.(phase := Aborted, reason := Superseded(e.to), endedAt := Some(e.now)) else r)
  {
    ActiveIsLatest(c.rollouts);
    var newest := Rollout(Running, c.version, e.to, e.now, None, Nothing, e.saved);
    var rs := Abort(c.rollouts, Superseded(e.to), e.now) + [newest];
    ActiveIsLatest(rs);
  }

  lemma ChangeAppends(c: Component, e: Event)
    requires OnlyLatestOpen(c.rollouts) && e.Change?
    ensures var d := Step(c, e);
            && d.version == (if e.deployment == NotStored then c.version else e.to) && d.rollouts != []
            && Latest(d) == if e.deployment == Deployed
                            then Rollout(Running, c.version, e.to, e.now, None, Nothing, e.saved)
                            else Rollout(Aborted, c.version, e.to, e.now, Some(e.now), NeverStarted, e.saved)
  {
    ActiveIsLatest(c.rollouts);
    var newest := Rollout(Running, c.version, e.to, e.now, None, Nothing, e.saved);
    var rs := Abort(c.rollouts, Superseded(e.to), e.now) + [newest];
    ActiveIsLatest(rs);
  }

  // ---- how waiting ends ----

  /** The instance's batch was released just now, or the rollout has succeeded, all its batches done or set aside. */
  ghost predicate LetsGo(r: Rollout, next: Rollout, now: int, id: int) {
    var bs := r.batches;
    && r.phase == Running && |next.batches| == |bs|
    && (|| (exists k, t :: 0 <= k < |bs| && t in bs[k].targets && t.id == id && bs[k].state == Pending
                             && next.batches[k].state == Released && next.batches[k].releasedAt == Some(now))
        || (next.phase == Succeeded
            && forall k :: 0 <= k < |bs| ==> next.batches[k].state == Done || next.batches[k].state == Skipped))
  }

  /** Event e, in state c, ends the waiting of this instance. */
  ghost predicate EndsWaiting(c: Component, e: Event, id: int)
    requires c.rollouts != [] && Step(c, e).rollouts != []
  {
    e.Tick? && LetsGo(Latest(c), Latest(Step(c, e)), e.now, id)
  }

  /** Short of a change nothing else ends it: no pause, no halt, no node rollback. */
  lemma WaitingEndsOnlySo(c: Component, e: Event, clock: int, id: int)
    requires Inv(c, clock) && clock <= e.now && !e.Change?
    requires Offered(c, id) != c.version && Offered(Step(c, e), id) == c.version
    ensures c.rollouts != [] && Step(c, e).rollouts != [] && EndsWaiting(c, e, id)
  {
    OfferedMeans(c, id);
    OfferedMeans(Step(c, e), id);
    StepKeepsOffers(c, e);
    if e.Tick? {
      TickEndsWaiting(c, e, clock, id);
    } else {
      PauseKeepsBack(c, e, id);
    }
  }

  lemma PauseKeepsBack(c: Component, e: Event, id: int)
    requires OnlyLatestOpen(c.rollouts) && e.SetPaused? && KeptBack(c, id)
    ensures KeptBack(Step(c, e), id)
  {
    ActiveIsLatest(c.rollouts);
    var r := Latest(c);
    PauseKeepsOffers(r, e.pause, e.now);
    ReleasedMeans(r.batches, id);
    ReleasedMeans(PauseRollout(r, e.pause, e.now).batches, id);
  }

  lemma TickEndsWaiting(c: Component, e: Event, clock: int, id: int)
    requires Inv(c, clock) && clock <= e.now && e.Tick? && KeptBack(c, id) && !KeptBack(Step(c, e), id)
    ensures Step(c, e).rollouts != [] && EndsWaiting(c, e, id)
  {
    if Latest(c).phase != Running {
      OnlyRunningRolloutsMove(c, e);
    } else {
      TickRunning(c, e);
      assert Latest(c) in c.rollouts && RolloutInv(Latest(c), clock);
      TickLetsGo(Latest(c), e.view, e.now, clock, id);
    }
  }

  lemma TickLetsGo(r: Rollout, view: StatusView, now: int, clock: int, id: int)
    requires RolloutInv(r, clock) && clock <= now && r.phase == Running && r.batches != []
    requires !InReleasedBatch(r.batches, id)
    ensures var next := TickRollout(r, view, now);
            next.from == r.from && next.batches != []
            && (next.phase == Succeeded || InReleasedBatch(next.batches, id) ==> LetsGo(r, next, now, id))
            && (next.phase == Running || next.phase == Halted || next.phase == GaveUp || next.phase == Succeeded)
  {
    var next := TickRollout(r, view, now);
    TickKeeps(r, view, clock, now);
    TickKeepsOffers(r, view, now);
    if next.phase == Succeeded {
      assert forall k :: 0 <= k < |next.batches| ==> Settled(next.batches[k]);
    } else if InReleasedBatch(next.batches, id) {
      var k := NewlyReleased(r.batches, next.batches, id);
      AdvanceIsOneMove(r.batches, GateStates(view.instances), now);
      MoveReleasesPending(r.batches, GateStates(view.instances), now, k);
    }
  }

  lemma NewlyReleased(bs: seq<Batch>, next: seq<Batch>, id: int) returns (k: nat)
    requires !InReleasedBatch(bs, id) && InReleasedBatch(next, id) && SameCuts(next, bs)
    ensures k < |bs| && Offers(next[k]) && !Offers(bs[k]) && exists t :: t in bs[k].targets && t.id == id
  {
    var t;
    k, t :| 0 <= k < |next| && t in next[k].targets && t.id == id
      && (next[k].state == Released || next[k].state == Done || next[k].state == Failed);
    assert SameCut(next[k], bs[k]);
  }

  lemma MoveReleasesPending(bs: seq<Batch>, states: map<int, GateState>, now: int, k: nat)
    requires Shape(bs) && k < |bs|
    ensures var next := Move(bs, Front(bs), states, now).0;
            && |next| == |bs| && next[k].targets == bs[k].targets
            && (Offers(next[k]) && !Offers(bs[k]) ==>
                  bs[k].state == Pending && next[k].state == Released && next[k].releasedAt == Some(now))
  {}

  /** So over any stretch of a run without a change: an instance that was waiting and no longer is had its waiting
      ended by such an event. */
  lemma {:induction false} WaitingEnds(cs: seq<Component>, es: seq<Event>, n: nat, later: nat, id: int)
      returns (j: nat)
    requires Run(cs, es) && n < later <= |es| && forall i :: n <= i < later ==> !es[i].Change?
    requires Offered(cs[n], id) != cs[n].version && Offered(cs[later], id) == cs[later].version
    ensures n <= j < later && cs[j].rollouts != [] && Step(cs[j], es[j]).rollouts != [] && EndsWaiting(cs[j], es[j], id)
  {
    var i := later - 1;
    assert Follows(cs, es, i);
    Reachable(cs, es, i);
    StepKeepsOffers(cs[i], es[i]);
    if Offered(cs[i], id) != cs[i].version {
      WaitingEndsOnlySo(cs[i], es[i], ClockAt(es, i), id);
      j := i;
    } else {
      j := WaitingEnds(cs, es, n, i, id);
    }
  }
}
