/** Who is offered which version: delivery is frozen while a rollout is stopped, only ever grows while it
    runs, and what happens to it on success and when a newer change takes over. */
module Delivery {
  import opened Options
  import opened Batches
  import opened Gate
  import opened Planning
  import opened Rollouts
  import opened RolloutRuns

  function Latest(c: Component): Rollout
    requires c.rollouts != []
  {
    c.rollouts[|c.rollouts| - 1]
  }

  /** Every batch that was released stays released. */
  ghost predicate OffersKept(a: seq<Batch>, b: seq<Batch>) {
    SameCuts(b, a) && forall k :: 0 <= k < |a| && Offers(a[k]) ==> Offers(b[k])
  }

  lemma KeptGrows(a: seq<Batch>, b: seq<Batch>)
    requires OffersKept(a, b)
    ensures ReleasedIds(a) <= ReleasedIds(b)
    ensures (forall k :: 0 <= k < |a| && Offers(b[k]) ==> Offers(a[k])) ==> ReleasedIds(a) == ReleasedIds(b)
  {
    ReleasedExactly(a);
    ReleasedExactly(b);
    forall k | 0 <= k < |a| ensures SameCut(b[k], a[k]) {}
  }

  lemma {:induction false} AdvanceKeepsOffers(bs: seq<Batch>, k: nat, states: map<int, GateState>, now: int)
    requires k <= |bs|
    ensures OffersKept(bs, Advance(bs, k, states, now).0)
    decreases |bs| - k
  {
    AdvanceKeepsCuts(bs, k, states, now);
    if k < |bs| {
      if Settled(bs[k]) {
        AdvanceKeepsOffers(bs, k + 1, states, now);
      } else if bs[k].state == Released && Judge(bs[k], states, now).passed {
        AdvanceKeepsOffers(bs[k := WithGate(bs[k], Judge(bs[k], states, now)).(state := Done)], k + 1, states, now);
      }
    }
  }

  lemma TickKeepsOffers(r: Rollout, view: StatusView, now: int)
    ensures OffersKept(r.batches, TickRollout(r, view, now).batches)
  {
    AdvanceKeepsOffers(r.batches, 0, GateStates(view.instances), now);
  }

  lemma PauseKeepsOffers(r: Rollout, pause: bool, now: int)
    ensures OffersKept(r.batches, PauseRollout(r, pause, now).batches)
    ensures ReleasedIds(r.batches) == ReleasedIds(PauseRollout(r, pause, now).batches)
  {
    KeptGrows(r.batches, PauseRollout(r, pause, now).batches);
  }

  /** Short of a new change, a step works on the latest rollout only, and keeps its origin and its offers. */
  lemma StepKeepsOffers(c: Component, e: Event)
    requires OnlyLatestOpen(c.rollouts) && !e.Change?
    ensures Step(c, e).version == c.version && |Step(c, e).rollouts| == |c.rollouts|
    ensures c.rollouts != []
            ==> Latest(Step(c, e)).from == Latest(c).from && OffersKept(Latest(c).batches, Latest(Step(c, e)).batches)
    ensures c.rollouts != [] && !GatesDelivery(Latest(c).phase) ==> Step(c, e) == c
  {
    ActiveIsLatest(c.rollouts);
    if c.rollouts != [] {
      if e.Tick? {
        TickKeepsOffers(Latest(c), e.view, e.now);
      } else {
        PauseKeepsOffers(Latest(c), e.pause, e.now);
      }
    }
  }

  /** Short of a new change, no step takes back the version an instance is already offered. */
  lemma StepNeverTakesBack(c: Component, e: Event, id: int)
    requires OnlyLatestOpen(c.rollouts) && !e.Change?
    ensures Step(c, e).version == c.version
    ensures Offered(c, id) == c.version ==> Offered(Step(c, e), id) == c.version
  {
    StepKeepsOffers(c, e);
    if c.rollouts != [] {
      KeptGrows(Latest(c).batches, Latest(Step(c, e)).batches);
    }
  }

  lemma OnlyLatest(cs: seq<Component>, es: seq<Event>, n: nat)
    requires Run(cs, es) && n <= |es|
    ensures OnlyLatestOpen(cs[n].rollouts)
  {
    Reachable(cs, es, n);
  }

  /** Over any stretch of a run without a new change, an instance that was offered the target version stays on it. */
  lemma {:induction false} NeverTakenBack(cs: seq<Component>, es: seq<Event>, n: nat, later: nat, id: int,
                                          target: string)
    requires Run(cs, es) && n <= later <= |es| && forall i :: n <= i < later ==> !es[i].Change?
    requires cs[n].version == target && Offered(cs[n], id) == target
    ensures cs[later].version == target && Offered(cs[later], id) == target
  {
    if n < later {
      NeverTakenBack(cs, es, n, later - 1, id, target);
      OnlyLatest(cs, es, later - 1);
      assert Follows(cs, es, later - 1);
      StepNeverTakesBack(cs[later - 1], es[later - 1], id);
    }
  }

  /** While the latest rollout is paused, halted or given up, nothing short of a new change alters any offer;
      not even the resume that puts a failed batch back to work. */
  lemma FrozenWhileStopped(c: Component, e: Event, id: int)
    requires OnlyLatestOpen(c.rollouts) && !e.Change? && c.rollouts != []
    requires Latest(c).phase == Paused || Latest(c).phase == Halted || Latest(c).phase == GaveUp
    ensures Offered(Step(c, e), id) == Offered(c, id)
  {
    ActiveIsLatest(c.rollouts);
    if e.SetPaused? {
      PauseKeepsOffers(Latest(c), e.pause, e.now);
    }
  }

  /** A tick offers the target version to the instances of at most one more batch. */
  lemma OneBatchAtATime(c: Component, e: Event, clock: int, i: nat, j: nat)
    requires Inv(c, clock) && e.Tick? && c.rollouts != [] && i < |Latest(c).batches| && j < |Latest(c).batches|
    ensures var a, b := Latest(c).batches, Latest(Step(c, e)).batches;
            |b| == |a| && (!Offers(a[i]) && Offers(b[i]) && !Offers(a[j]) && Offers(b[j]) ==> i == j)
  {
    ActiveIsLatest(c.rollouts);
    assert Latest(c) in c.rollouts;
    AdvanceIsOneMove(Latest(c).batches, GateStates(e.view.instances), e.now);
  }

  // ---- the offer in terms of the records ----

  /** The latest rollout holds the instance back at the version it started from, and that is another one. */
  ghost predicate HeldBack(c: Component, id: int) {
    && c.rollouts != [] && GatesDelivery(Latest(c).phase) && Latest(c).batches != []
    && Latest(c).from != "" && Latest(c).from != c.version && id !in ReleasedIds(Latest(c).batches)
  }

  lemma OfferedExactly(c: Component, id: int)
    ensures Offered(c, id) == if HeldBack(c, id) then Latest(c).from else c.version
  {}

  // ---- cordoned instances ----

  lemma {:induction false} SkippedAreInstances(p: PlanInput, stages: nat, t: Target) returns (role: string)
    requires stages <= |p.order| && t in AllInstances(p, stages)
    ensures t in InstancesOf(p, role)
  {
    role := p.order[stages - 1];
    if t !in multiset(InstancesOf(p, role)) {
      role := SkippedAreInstances(p, stages - 1, t);
    }
  }

  /** With distinct ids a skipped instance is in no batch: its node is cordoned, those of the batches are not. */
  lemma SkippedInNoBatch(ci: ChangeInput, p: PlanInput, batches: seq<Batch>, skipped: seq<Target>, saved: seq<Batch>,
                         t: Target, k: nat)
    requires InputOf(ci, p) && DistinctIds(ci) && SavedAs(p, batches, skipped, saved) && t in skipped && k < |batches|
    ensures t.id !in IdsOf(batches[k].targets)
  {
    assert t in multiset(skipped) && t in AllInstances(p, |p.order|);
    var role := SkippedAreInstances(p, |p.order|, t);
    PlannedBatches(p, batches, k);
    forall s | s in batches[k].targets ensures s.id != t.id {
      if s.id == t.id {
        OneTargetPerId(ci, p, batches[k].role, s, role, t);
      }
    }
  }

  lemma NotReleased(ci: ChangeInput, p: PlanInput, batches: seq<Batch>, skipped: seq<Target>, saved: seq<Batch>,
                    bs: seq<Batch>, t: Target)
    requires InputOf(ci, p) && DistinctIds(ci) && SavedAs(p, batches, skipped, saved) && t in skipped &&
             SameCuts(bs, saved)
    ensures t.id !in ReleasedIds(bs)
  {
    ListedAt(batches, skipped, saved);
    ReleasedExactly(bs);
    forall k | 0 <= k < |bs| && Offers(bs[k]) ensures t.id !in IdsOf(bs[k].targets) {
      assert SameCut(bs[k], saved[k]);
      SkippedInNoBatch(ci, p, batches, skipped, saved, t, k - 1);
    }
  }

  /** Planning from this input set the instance with this id aside. */
  ghost predicate SetAside(ci: ChangeInput, saved: seq<Batch>, id: int) {
    exists p: PlanInput, batches: seq<Batch>, skipped: seq<Target>, t: Target ::
      InputOf(ci, p) && SavedAs(p, batches, skipped, saved) && t in skipped && t.id == id
  }

  lemma SetAsideIsNotReleased(ci: ChangeInput, saved: seq<Batch>, bs: seq<Batch>, id: int)
    requires DistinctIds(ci) && SetAside(ci, saved, id) && SameCuts(bs, saved)
    ensures id !in ReleasedIds(bs)
  {
    var p: PlanInput, batches: seq<Batch>, skipped: seq<Target>, t: Target :|
      InputOf(ci, p) && SavedAs(p, batches, skipped, saved) && t in skipped && t.id == id;
    NotReleased(ci, p, batches, skipped, saved, bs, t);
  }

  lemma BatchesNeedInput(input: Option<ChangeInput>, saved: seq<Batch>, bs: seq<Batch>)
    requires PlannedFrom(input, saved) && SameCuts(bs, saved) && bs != []
    ensures input.Some?
  {}

  /** In every reachable state an instance that was set aside because its node is cordoned is offered the version the
      rollout started from, as long as the rollout gates delivery. */
  lemma CordonedStayBehind(cs: seq<Component>, es: seq<Event>, n: nat, id: int) returns (m: nat)
    requires Run(cs, es) && n <= |es| && cs[n].rollouts != [] && Latest(cs[n]).batches != []
    requires GatesDelivery(Latest(cs[n]).phase) && Latest(cs[n]).from != ""
    ensures m < n && es[m].Change? && es[m].input.Some? && SameCuts(Latest(cs[n]).batches, es[m].saved)
    ensures DistinctIds(es[m].input.value) && SetAside(es[m].input.value, es[m].saved, id)
            ==> Offered(cs[n], id) == Latest(cs[n]).from
  {
    m := Origin(cs, es, n, |cs[n].rollouts| - 1);
    var input, saved, bs := es[m].input, es[m].saved, Latest(cs[n]).batches;
    assert Wellformed(es[m]);
    BatchesNeedInput(input, saved, bs);
    if DistinctIds(input.value) && SetAside(input.value, saved, id) {
      SetAsideIsNotReleased(input.value, saved, bs, id);
      OfferedExactly(cs[n], id);
    }
  }

  /** When a rollout succeeds the gate disappears: exactly the instances it was still holding back change over. */
  lemma SuccessReleasesTheRest(c: Component, e: Event, clock: int, id: int)
    requires Inv(c, clock) && e.Tick? && clock <= e.now && c.rollouts != [] && Latest(c).batches != []
    requires Latest(c).phase == Running && Latest(Step(c, e)).phase == Succeeded
    ensures Offered(Step(c, e), id) == c.version
    ensures Offered(Step(c, e), id) != Offered(c, id) <==> HeldBack(c, id)
  {}

  // ---- a newer change ----

  lemma {:induction false} NothingReleased(saved: seq<Batch>)
    requires forall k :: 0 <= k < |saved| ==> !Offers(saved[k])
    ensures ReleasedIds(saved) == {}
  {
    if saved != [] {
      NothingReleased(saved[..|saved| - 1]);
    }
  }

  /** The version that a change offers to every instance at once: the one the component had just been moving to, or the
      new one where nothing gates it -- no batches, or no version to start from. */
  function OfferAfterTakeover(c: Component, e: Event): string
    requires e.Change?
  {
    if e.saved == [] || c.version == "" then e.to else c.version
  }

  /** The instances whose offer a change moves at once and ungated: those the rollout it takes over was still holding
      back, or, where nothing gates the new version, all that are offered another one. */
  ghost predicate MovedByChange(c: Component, e: Event, id: int)
    requires e.Change?
  {
    if e.deployment == NotStored || (e.deployment == Deployed && e.saved != [] && c.version != "")
    then HeldBack(c, id)
    else e.to != if HeldBack(c, id) then Latest(c).from else c.version
  }

  /** A change that takes over offers every instance the version the component had just been moving to, before any
      batch of its own is released. */
  lemma TakeoverSkipsTheQueue(c: Component, e: Event, id: int)
    requires e.Change? && e.deployment == Deployed && Wellformed(e) && OnlyLatestOpen(c.rollouts)
    ensures Offered(Step(c, e), id) == OfferAfterTakeover(c, e)
    ensures Offered(Step(c, e), id) != Offered(c, id) <==> MovedByChange(c, e, id)
  {
    PlannedRecordsAreFresh(e.input, e.saved);
    NothingReleased(e.saved);
    OfferedExactly(c, id);
  }

  /** A change whose deployment fails leaves an aborted rollout as the latest one, and an aborted rollout gates
      nothing: every instance is offered the component's version at once, which is already the new one when the
      failure came after it was stored. */
  lemma FailedDeploymentOpensTheGate(c: Component, e: Event, id: int)
    requires e.Change? && e.deployment != Deployed && OnlyLatestOpen(c.rollouts)
    ensures Offered(Step(c, e), id) == if e.deployment == NotStored then c.version else e.to
    ensures Offered(Step(c, e), id) != Offered(c, id) <==> MovedByChange(c, e, id)
  {
    OfferedExactly(c, id);
  }

  // ---- a new revision of the same version ----

  /** A deployed change holds an instance back exactly when it has batches, and starts from a version, which is another
      one. A new revision of the same version is offered to everyone at once. */
  lemma HeldBackFromTheStart(c: Component, e: Event, id: int)
    requires e.Change? && e.deployment == Deployed && Wellformed(e) && OnlyLatestOpen(c.rollouts)
    ensures HeldBack(Step(c, e), id) <==> e.saved != [] && c.version != "" && c.version != e.to
  {
    PlannedRecordsAreFresh(e.input, e.saved);
    NothingReleased(e.saved);
  }

  /** And it stays so while its batches are walked: in no state before the next change is anyone held back. */
  lemma {:induction false} NewRevisionGoesToAll(cs: seq<Component>, es: seq<Event>, n: nat, later: nat, id: int)
    requires Run(cs, es) && n < later <= |es| && es[n].Change? && es[n].deployment == Deployed
    requires es[n].to == cs[n].version && forall i :: n < i < later ==> !es[i].Change?
    ensures cs[later].rollouts != [] && Latest(cs[later]).from == cs[later].version == es[n].to
    ensures !HeldBack(cs[later], id) && Offered(cs[later], id) == cs[later].version
  {
    assert Follows(cs, es, later - 1);
    if n + 1 < later {
      NewRevisionGoesToAll(cs, es, n, later - 1, id);
      OnlyLatest(cs, es, later - 1);
      StepKeepsOffers(cs[later - 1], es[later - 1]);
    }
    OfferedExactly(cs[later], id);
  }
}
