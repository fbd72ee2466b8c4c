/** What every run of the rollout protocol keeps. */
module RolloutRuns {
  import opened Options
  import opened Roles
  import opened Batches
  import opened Gate
  import opened Planning
  import opened Rollouts

  // ---- the shape of the batch list ----

  predicate Settled(b: Batch) {
    b.state == Done || b.state == Skipped
  }

  /** The first batch from k on that is not settled. */
  function FrontFrom(bs: seq<Batch>, k: nat): (d: nat)
    requires k <= |bs|
    ensures k <= d <= |bs| && (d < |bs| ==> !Settled(bs[d]))
    ensures forall j :: k <= j < d ==> Settled(bs[j])
    decreases |bs| - k
  {
    if k < |bs| && Settled(bs[k]) then FrontFrom(bs, k + 1) else k
  }

  function Front(bs: seq<Batch>): nat {
    FrontFrom(bs, 0)
  }

  lemma FrontIs(bs: seq<Batch>, d: nat)
    requires d <= |bs| && (forall j :: 0 <= j < d ==> Settled(bs[j])) && (d < |bs| ==> !Settled(bs[d]))
    ensures Front(bs) == d
  {}

  /** In sequence order: settled batches, then at most one that is released or failed, then untouched ones. */
  ghost predicate Shape(bs: seq<Batch>) {
    && (forall k :: Front(bs) < k < |bs| ==> Fresh(bs[k]))
    && (Front(bs) < |bs| ==> bs[Front(bs)].state == Pending ==> Fresh(bs[Front(bs)]))
    && (forall k :: 0 < k < |bs| ==> bs[k].state != Skipped)
  }

  /** One move at the front: the reference that advanceBatches must agree with. It judges at most one batch
      and releases at most one. */
  function Move(bs: seq<Batch>, d: nat, states: map<int, GateState>, now: int): (seq<Batch>, Outcome)
    requires d <= |bs|
  {
    if d == |bs| then (bs, AllDone)
    else if bs[d].state == Pending then (Freed(bs, d, now), Waiting)
    else if bs[d].state != Released then (bs, Waiting)
    else
      var v := Judge(bs[d], states, now);
      if !v.passed && TimedOut(bs[d], now) then
        (bs[d := WithGate(bs[d], v).(state := Failed)], Halting(bs[d].num, v.blockers))
      else if !v.passed then (bs[d := WithGate(bs[d], v)], Waiting)
      else if d + 1 == |bs| then (bs[d := bs[d].(state := Done)], AllDone)
      else (Freed(bs[d := bs[d].(state := Done)], d + 1, now), Waiting)
  }

  function Freed(bs: seq<Batch>, d: nat, now: int): seq<Batch>
    requires d < |bs|
  {
    bs[d := bs[d].(state := Released, releasedAt := Some(now))]
  }

  lemma {:induction false} SettledAreSkipped(bs: seq<Batch>, k: nat, states: map<int, GateState>, now: int)
    requires k <= |bs|
    ensures Advance(bs, k, states, now) == Advance(bs, FrontFrom(bs, k), states, now)
    decreases |bs| - k
  {
    if k < |bs| && Settled(bs[k]) {
      SettledAreSkipped(bs, k + 1, states, now);
    }
  }

  lemma PassKeepsRecord(b: Batch, states: map<int, GateState>, now: int)
    ensures Judge(b, states, now).passed ==> WithGate(b, Judge(b, states, now)) == b
  {}

  /** However the loop over the batches is written, one tick is one move at the front. */
  lemma AdvanceIsOneMove(bs: seq<Batch>, states: map<int, GateState>, now: int)
    requires Shape(bs)
    ensures Advance(bs, 0, states, now) == Move(bs, Front(bs), states, now)
  {
    var d := Front(bs);
    SettledAreSkipped(bs, 0, states, now);
    if d < |bs| && bs[d].state == Released {
      PassKeepsRecord(bs[d], states, now);
      if Judge(bs[d], states, now).passed {
        var next := bs[d := bs[d].(state := Done)];
        if d + 1 < |bs| {
          assert next[d + 1] == bs[d + 1] && next[d + 1].state == Pending;
          assert Advance(next, d + 1, states, now) == (Freed(next, d + 1, now), Waiting);
        } else {
          assert Advance(next, d + 1, states, now) == (next, AllDone);
        }
      }
    }
  }

  // ---- the invariant ----

  /** How many batches have passed their gate. */
  function Passed(bs: seq<Batch>): (n: int)
    ensures n >= 0
  {
    if Front(bs) > 0 && bs[0].state == Skipped then Front(bs) - 1 else Front(bs)
  }

  /** The front batch's clock: it was released after everything before it passed, and its window opened after that. */
  ghost predicate Clocked(r: Rollout, b: Batch, clock: int) {
    && b.releasedAt.Some? && r.startedAt + STABLE_FOR * Passed(r.batches) <= b.releasedAt.value <= clock
    && (b.healthySince.Some? ==> b.releasedAt.value <= b.healthySince.value <= clock)
  }

  ghost predicate RolloutInv(r: Rollout, clock: int) {
    var bs, d := r.batches, Front(r.batches);
    && Shape(bs)
    && (d < |bs| && bs[d].state == Released ==> Clocked(r, bs[d], clock))
    && (r.phase == Halted <==> r.phase != Aborted && d < |bs| && bs[d].state == Failed)
    && (r.phase == Succeeded ==> d == |bs| && r.endedAt.Some?)
    && (Open(r) ==> r.endedAt == None)
    && (r.endedAt.Some? ==> r.endedAt.value <= clock)
    && r.startedAt + STABLE_FOR * Passed(bs) <= (if r.endedAt.Some? then r.endedAt.value else clock)
  }

  ghost predicate Inv(c: Component, clock: int) {
    OnlyLatestOpen(c.rollouts) && forall r :: r in c.rollouts ==> RolloutInv(r, clock)
  }

  /** Records as planning leaves them: untouched, led at most by the list of skipped targets. */
  ghost predicate FreshRecords(saved: seq<Batch>) {
    forall k :: 0 <= k < |saved| ==> Fresh(saved[k]) || (k == 0 && saved[k] == SkipList(saved[k].targets))
  }

  /** A change carries the records that planning from its input leaves. */
  ghost predicate Wellformed(e: Event) {
    e.Change? ==> PlannedFrom(e.input, e.saved)
  }

  lemma PlanIsFresh(p: PlanInput, batches: seq<Batch>)
    requires Plan(p, batches)
    ensures forall k :: 0 <= k < |batches| ==> Fresh(batches[k])
  {
    forall k | 0 <= k < |batches| ensures Fresh(batches[k]) {
      PlannedBatches(p, batches, k);
    }
  }

  lemma ListedIsFresh(batches: seq<Batch>, skipped: seq<Target>)
    requires forall k :: 0 <= k < |batches| ==> Fresh(batches[k])
    ensures FreshRecords(Listed(batches, skipped))
  {
    assert forall k :: 0 < k < |Listed(batches, skipped)| && skipped != [] ==>
        Listed(batches, skipped)[k] == batches[k - 1];
  }

  lemma PlannedRecordsAreFresh(input: Option<ChangeInput>, saved: seq<Batch>)
    requires PlannedFrom(input, saved)
    ensures FreshRecords(saved)
  {
    if input.Some? {
      var p :| InputOf(input.value, p) && SavedPlan(p, saved);
      var batches: seq<Batch>, skipped: seq<Target> :| SavedAs(p, batches, skipped, saved);
      PlanIsFresh(p, batches);
      ListedIsFresh(batches, skipped);
    }
  }

  lemma InvLater(r: Rollout, clock: int, later: int)
    requires RolloutInv(r, clock) && clock <= later
    ensures RolloutInv(r, later)
  {}

  /** What a tick leaves behind, with its outcome. */
  ghost predicate MovedWell(r: Rollout, bs: seq<Batch>, o: Outcome, now: int) {
    && Shape(bs)
    && r.startedAt + STABLE_FOR * Passed(bs) <= now
    && (o == AllDone <==> Front(bs) == |bs|)
    && (o.Halting? <==> Front(bs) < |bs| && bs[Front(bs)].state == Failed)
    && (Front(bs) < |bs| && bs[Front(bs)].state == Released ==> Clocked(r.(batches := bs), bs[Front(bs)], now))
  }

  lemma JudgingKeeps(r: Rollout, states: map<int, GateState>, clock: int, now: int)
    requires RolloutInv(r, clock) && r.phase == Running && clock <= now
    requires Front(r.batches) < |r.batches| && r.batches[Front(r.batches)].state == Released
    ensures var (bs, o) := Move(r.batches, Front(r.batches), states, now); MovedWell(r, bs, o, now)
  {
    var bs, d := r.batches, Front(r.batches);
    var (next, o) := Move(bs, d, states, now);
    var v := Judge(bs[d], states, now);
    PassesExactly(bs[d], states, now);
    FrontIs(next, if v.passed then d + 1 else d);
  }

  lemma MoveKeeps(r: Rollout, states: map<int, GateState>, clock: int, now: int)
    requires RolloutInv(r, clock) && r.phase == Running && clock <= now
    ensures var (bs, o) := Move(r.batches, Front(r.batches), states, now); MovedWell(r, bs, o, now)
  {
    var bs, d := r.batches, Front(r.batches);
    if d < |bs| {
      if bs[d].state == Pending {
        FrontIs(Move(bs, d, states, now).0, d);
      } else if bs[d].state == Released {
        JudgingKeeps(r, states, clock, now);
      }
    }
  }

  lemma TickKeeps(r: Rollout, view: StatusView, clock: int, now: int)
    requires RolloutInv(r, clock) && clock <= now
    ensures RolloutInv(TickRollout(r, view, now), now)
  {
    if r.phase == Running && !RolledBack(view) && r.batches != [] {
      AdvanceIsOneMove(r.batches, GateStates(view.instances), now);
      MoveKeeps(r, GateStates(view.instances), clock, now);
    }
  }

  lemma RewindShape(bs: seq<Batch>, now: int)
    requires Shape(bs)
    ensures var d, next := Front(bs), RewindAll(bs, now);
            && Shape(next) && Front(next) == d && Passed(next) == Passed(bs)
            && (d < |bs| ==> next == bs[d := Rewind(bs[d], now)])
            && (d == |bs| ==> next == bs)
  {
    var next := RewindAll(bs, now);
    FrontIs(next, Front(bs));
  }

  lemma PauseKeeps(r: Rollout, pause: bool, clock: int, now: int)
    requires RolloutInv(r, clock) && clock <= now && Open(r)
    ensures RolloutInv(PauseRollout(r, pause, now), now)
  {
    RewindShape(r.batches, now);
  }

  lemma FreshRecordsShape(saved: seq<Batch>)
    requires FreshRecords(saved)
    ensures Shape(saved) && Passed(saved) == 0
    ensures Front(saved) < |saved| ==> saved[Front(saved)].state == Pending
  {
    FrontIs(saved, if saved != [] && saved[0].state == Skipped then 1 else 0);
  }

  lemma AbortKeeps(rs: seq<Rollout>, reason: Reason, clock: int, now: int)
    requires OnlyLatestOpen(rs) && clock <= now && forall r :: r in rs ==> RolloutInv(r, clock)
    ensures var next := Abort(rs, reason, now);
            && |next| == |rs| && (forall i :: 0 <= i < |next| ==> !Open(next[i]))
            && (forall r :: r in next ==> RolloutInv(r, now))
  {
    ActiveIsLatest(rs);
    var next := Abort(rs, reason, now);
    forall i | 0 <= i < |next| ensures RolloutInv(next[i], now) && !Open(next[i]) {
      assert rs[i] in rs;
      InvLater(rs[i], clock, now);
    }
  }

  /** Every step keeps the invariant. */
  lemma StepKeeps(c: Component, e: Event, clock: int)
    requires Inv(c, clock) && Wellformed(e) && clock <= e.now
    ensures Inv(Step(c, e), e.now)
  {
    ActiveIsLatest(c.rollouts);
    var a, last := Active(c.rollouts), |c.rollouts| - 1;
    if e.Change? {
      AbortKeeps(c.rollouts, Superseded(e.to), clock, e.now);
      PlannedRecordsAreFresh(e.input, e.saved);
      var newest := Rollout(Running, c.version, e.to, e.now, None, Nothing, e.saved);
      FreshRecordsShape(e.saved);
      var rs := Abort(c.rollouts, Superseded(e.to), e.now) + [newest];
      assert RolloutInv(newest, e.now);
      assert forall r :: r in rs ==> RolloutInv(r, e.now);
      AbortKeeps(rs, NeverStarted, e.now, e.now);
    } else {
      forall r | r in Step(c, e).rollouts ensures RolloutInv(r, e.now) {
        if r in c.rollouts {
          InvLater(r, clock, e.now);
        } else {
          assert c.rollouts[last] in c.rollouts;
          if e.Tick? {
            TickKeeps(c.rollouts[last], e.view, clock, e.now);
          } else {
            PauseKeeps(c.rollouts[last], e.pause, clock, e.now);
          }
        }
      }
    }
  }

  // ---- runs ----

  ghost predicate Follows(cs: seq<Component>, es: seq<Event>, i: nat)
    requires i < |es| && |cs| == |es| + 1
  {
    cs[i + 1] == Step(cs[i], es[i])
  }

  /** A run: the component starts without rollouts, events come in time order, each change carries the records that
      planning from its input leaves, and cs[i + 1] is what event i makes of cs[i]. */
  ghost predicate Run(cs: seq<Component>, es: seq<Event>) {
    && |cs| == |es| + 1 && cs[0].rollouts == []
    && (forall i {:trigger Wellformed(es[i])} :: 0 <= i < |es| ==> Wellformed(es[i]))
    && (forall i, j :: 0 <= i < j < |es| ==> es[i].now <= es[j].now)
    && (forall i :: 0 <= i < |es| ==> Follows(cs, es, i))
  }

  function ClockAt(es: seq<Event>, n: nat): int
    requires n <= |es|
  {
    if n > 0 then es[n - 1].now else if es != [] then es[0].now else 0
  }

  /** The invariant holds in every reachable state. */
  lemma {:induction false} Reachable(cs: seq<Component>, es: seq<Event>, n: nat)
    requires Run(cs, es) && n <= |es|
    ensures Inv(cs[n], ClockAt(es, n))
  {
    if n > 0 {
      Reachable(cs, es, n - 1);
      assert Follows(cs, es, n - 1);
      StepKeeps(cs[n - 1], es[n - 1], ClockAt(es, n - 1));
    }
  }

  /** In every reachable state a batch is touched only once all earlier ones are settled; so the batches are
      done, then at most one released or failed, then pending. */
  lemma OneBatchInFlight(cs: seq<Component>, es: seq<Event>, n: nat, q: nat, i: nat, j: nat)
    requires Run(cs, es) && n <= |es| && q < |cs[n].rollouts|
    requires i < j < |cs[n].rollouts[q].batches|
    ensures var bs := cs[n].rollouts[q].batches; bs[j].state != Pending ==> Settled(bs[i])
  {
    Reachable(cs, es, n);
    var r := cs[n].rollouts[q];
    assert r in cs[n].rollouts && RolloutInv(r, ClockAt(es, n));
  }

  // ---- what a rollout keeps of its plan ----

  ghost predicate SameCut(a: Batch, b: Batch) {
    a.num == b.num && a.stage == b.stage && a.role == b.role && a.targets == b.targets &&
      (a.state == Skipped <==> b.state == Skipped)
  }

  /** The same batches, whatever became of them. */
  ghost predicate SameCuts(a: seq<Batch>, b: seq<Batch>) {
    |a| == |b| && forall i :: 0 <= i < |a| ==> SameCut(a[i], b[i])
  }

  lemma {:induction false} AdvanceKeepsCuts(bs: seq<Batch>, k: nat, states: map<int, GateState>, now: int)
    requires k <= |bs|
    ensures SameCuts(Advance(bs, k, states, now).0, bs)
    decreases |bs| - k
  {
    if k < |bs| {
      if Settled(bs[k]) {
        AdvanceKeepsCuts(bs, k + 1, states, now);
      } else if bs[k].state == Released && Judge(bs[k], states, now).passed {
        AdvanceKeepsCuts(bs[k := WithGate(bs[k], Judge(bs[k], states, now)).(state := Done)], k + 1, states, now);
      }
    }
  }

  /** A step leaves every rollout with the cuts it had; a change adds one more rollout. */
  lemma StepKeepsCuts(c: Component, e: Event, q: nat)
    requires q < |Step(c, e).rollouts|
    ensures |Step(c, e).rollouts| == |c.rollouts| + if e.Change? then 1 else 0
    ensures SameCuts(Step(c, e).rollouts[q].batches, if q < |c.rollouts| then c.rollouts[q].batches else e.saved)
  {
    if e.Tick? && q < |c.rollouts| {
      AdvanceKeepsCuts(c.rollouts[q].batches, 0, GateStates(e.view.instances), e.now);
    }
  }

  lemma CutsTransitive(a: seq<Batch>, b: seq<Batch>, c: seq<Batch>)
    requires SameCuts(a, b) && SameCuts(b, c)
    ensures SameCuts(a, c)
  {}

  /** The change event that opened the q-th rollout; its batches are still cut as that event saved them. */
  lemma {:induction false} Origin(cs: seq<Component>, es: seq<Event>, n: nat, q: nat) returns (m: nat)
    requires Run(cs, es) && n <= |es| && q < |cs[n].rollouts|
    ensures m < n && es[m].Change? && SameCuts(cs[n].rollouts[q].batches, es[m].saved)
  {
    assert n > 0 && Follows(cs, es, n - 1);
    var before, e := cs[n - 1], es[n - 1];
    StepKeepsCuts(before, e, q);
    if q < |before.rollouts| {
      m := Origin(cs, es, n - 1, q);
      CutsTransitive(Step(before, e).rollouts[q].batches, before.rollouts[q].batches, es[m].saved);
    } else {
      m := n - 1;
    }
  }

  /** In every reachable state of a rollout whose role graph is acyclic: before a batch of a role is released, every
      batch of every enabled role it requires is done. */
  lemma RequiredRolesFirst(cs: seq<Component>, es: seq<Event>, n: nat, q: nat, i: nat, j: nat) returns (m: nat)
    requires Run(cs, es) && n <= |es| && q < |cs[n].rollouts|
    requires i < |cs[n].rollouts[q].batches| && j < |cs[n].rollouts[q].batches|
    ensures m < n && es[m].Change? && es[m].input.Some? && SameCuts(cs[n].rollouts[q].batches, es[m].saved)
    ensures var bs, g := cs[n].rollouts[q].batches, EnabledGraph(es[m].input.value.roles);
            Acyclic(g) && Offers(bs[i]) && bs[j].state != Skipped && Edge(g, bs[i].role, bs[j].role)
            ==> bs[j].state == Done
  {
    m := Origin(cs, es, n, q);
    assert Wellformed(es[m]);
    var bs, saved, ci := cs[n].rollouts[q].batches, es[m].saved, es[m].input.value;
    var g, p := EnabledGraph(ci.roles), PlanInputOf(ci, saved);
    if Acyclic(g) && Offers(bs[i]) && bs[j].state != Skipped && Edge(g, bs[i].role, bs[j].role) {
      LaterInPlan(p, g, saved, i, j);
      OneBatchInFlight(cs, es, n, q, j, i);
    }
  }

  ghost function PlanInputOf(ci: ChangeInput, saved: seq<Batch>): (p: PlanInput)
    requires PlannedFrom(Some(ci), saved)
    ensures InputOf(ci, p) && SavedPlan(p, saved)
  {
    var p :| InputOf(ci, p) && SavedPlan(p, saved);
    p
  }

  /** Lint is enough: in a rollout of a Pack that passed it, under whichever profile, the dependencies are kept. */
  lemma LintedRolesFirst(cs: seq<Component>, es: seq<Event>, n: nat, q: nat, i: nat, j: nat) returns (m: nat)
    requires Run(cs, es) && n <= |es| && q < |cs[n].rollouts|
    requires i < |cs[n].rollouts[q].batches| && j < |cs[n].rollouts[q].batches|
    ensures m < n && es[m].Change? && es[m].input.Some? && SameCuts(cs[n].rollouts[q].batches, es[m].saved)
    ensures forall pack: seq<Declared>, disabled: set<string> ::
              Clean(pack) && es[m].input.value.roles == Effective(pack, disabled) ==>
                KeepsOrder(pack, disabled, cs[n].rollouts[q].batches, i, j)
  {
    m := RequiredRolesFirst(cs, es, n, q, i, j);
    forall pack: seq<Declared>, disabled: set<string>
      | Clean(pack) && es[m].input.value.roles == Effective(pack, disabled)
      ensures KeepsOrder(pack, disabled, cs[n].rollouts[q].batches, i, j)
    {
      CleanPackIsAcyclic(pack, disabled);
    }
  }

  /** If the role of the i-th batch requires that of the j-th, both enabled, then i is released only when j is done. */
  ghost predicate KeepsOrder(pack: seq<Declared>, disabled: set<string>, bs: seq<Batch>, i: nat, j: nat)
    requires i < |bs| && j < |bs|
  {
    Edge(EnabledGraph(Effective(pack, disabled)), bs[i].role, bs[j].role) && Offers(bs[i]) && bs[j].state != Skipped
    ==> bs[j].state == Done
  }

  /** Apart from s leading records of skipped targets, the records are these batches. */
  ghost predicate Behind(saved: seq<Batch>, batches: seq<Batch>, s: nat) {
    && |saved| == s + |batches|
    && forall k :: 0 <= k < |saved| && saved[k].state != Skipped ==> k >= s && saved[k] == batches[k - s]
  }

  /** The planned batches behind saved records, after s records of skipped targets. */
  lemma PlanBehind(p: PlanInput, saved: seq<Batch>) returns (batches: seq<Batch>, s: nat)
    requires SavedPlan(p, saved)
    ensures Plan(p, batches) && Behind(saved, batches, s)
  {
    var skipped: seq<Target>;
    batches, skipped :| SavedAs(p, batches, skipped, saved);
    s := if skipped == [] then 0 else 1;
    ListedAt(batches, skipped, saved);
  }

  lemma ListedAt(batches: seq<Batch>, skipped: seq<Target>, saved: seq<Batch>)
    requires saved == Listed(batches, skipped)
    ensures Behind(saved, batches, if skipped == [] then 0 else 1)
  {}

  lemma BeforeInOrder(g: Graph, order: seq<string>, a: string, b: string) returns (x: nat, y: nat)
    requires OrderOf(g, order) && DepsFirst(g, order) && Edge(g, a, b)
    ensures x < y < |order| && order[x] == b && order[y] == a
  {
    assert a in order;
    y :| y < |order| && order[y] == a;
    assert b in order[..y];
    x :| x < y && order[..y][x] == b;
  }

  lemma LaterInPlan(p: PlanInput, g: Graph, saved: seq<Batch>, i: nat, j: nat)
    requires SavedPlan(p, saved) && i < |saved| && j < |saved| && saved[i].state != Skipped && saved[j].state != Skipped
    requires OrderOf(g, p.order) && DepsFirst(g, p.order) && Edge(g, saved[i].role, saved[j].role)
    ensures j < i
  {
    var batches, s := PlanBehind(p, saved);
    var x, y := BeforeInOrder(g, p.order, saved[i].role, saved[j].role);
    PlanFollowsOrder(p, batches, j - s, i - s, x, y);
  }

  // ---- exposure: who may be running an unproven version ----

  lemma {:induction false} ReleasedExactly(bs: seq<Batch>)
    ensures forall id :: id in ReleasedIds(bs) <==>
              exists k :: 0 <= k < |bs| && Offers(bs[k]) && id in IdsOf(bs[k].targets)
  {
    if bs != [] {
      ReleasedExactly(bs[..|bs| - 1]);
      forall id
        ensures id in ReleasedIds(bs) <==> exists k :: 0 <= k < |bs| && Offers(bs[k]) && id in IdsOf(bs[k].targets)
      {
        if id in ReleasedIds(bs[..|bs| - 1]) {
          var k :| 0 <= k < |bs| - 1 && Offers(bs[..|bs| - 1][k]) && id in IdsOf(bs[..|bs| - 1][k].targets);
          assert Offers(bs[k]) && id in IdsOf(bs[k].targets);
        }
        if k :| 0 <= k < |bs| && Offers(bs[k]) && id in IdsOf(bs[k].targets) {
          assert k < |bs| - 1 ==> bs[..|bs| - 1][k] == bs[k];
        }
      }
    }
  }

  /** Offered the new version, in a batch that has not passed its gate. */
  ghost predicate Unproven(bs: seq<Batch>, k: nat)
    requires k < |bs|
  {
    Offers(bs[k]) && bs[k].state != Done
  }

  /** Only the batch at the front can be unproven. */
  lemma UnprovenIsAtTheFront(r: Rollout, clock: int, k: nat)
    requires RolloutInv(r, clock) && k < |r.batches| && Unproven(r.batches, k)
    ensures k == Front(r.batches)
  {}

  lemma SavedQuorum(p: PlanInput, saved: seq<Batch>, k: nat)
    requires SavedPlan(p, saved) && k < |saved| && saved[k].state != Skipped
    ensures saved[k].role in p.quorum && p.quorum[saved[k].role] && |InstancesOf(p, saved[k].role)| >= 3
            ==> 2 * (|InstancesOf(p, saved[k].role)| - |saved[k].targets|) > |InstancesOf(p, saved[k].role)|
  {
    var batches, s := PlanBehind(p, saved);
    if saved[k].role in p.quorum && p.quorum[saved[k].role] && |InstancesOf(p, saved[k].role)| >= 3 {
      QuorumKeepsMajority(p, batches, k - s);
    }
  }
}
