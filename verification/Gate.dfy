/** The health gate of a released batch: converged, healthy, not restarted, and steady for a while. */
module Gate {
  import opened Options
  import opened Batches

  const SECOND := 1_000_000_000
  const STABLE_FOR := 30 * SECOND
  const BATCH_TIMEOUT := 600 * SECOND

  /** The part of an instance's reported status that the gate looks at. */
  datatype InstanceView = InstanceView(id: int, got: string, want: string, pendingVersion: string,
                                       health: string, result: string, restarts: int, rolledBack: bool)

  datatype GateState = GateState(converged: bool, restarts: int, why: string)

  function GateStateOf(iv: InstanceView): GateState {
    if iv.got == "" then GateState(false, iv.restarts, "has not reported in yet")
    else if iv.pendingVersion != "" then GateState(false, iv.restarts, "not its turn yet (queued)")
    else if iv.want == "" || iv.got != iv.want then
      GateState(false, iv.restarts, "has not switched to the new version yet (digest mismatch)")
    else if iv.health == "unhealthy" then GateState(false, iv.restarts, "health check failed")
    else if iv.result == "failed" then GateState(false, iv.restarts, "reconciliation failed")
    else GateState(true, iv.restarts, "")
  }

  /** The gate's view of all instances; a later entry for the same instance wins. */
  function GateStates(views: seq<InstanceView>): map<int, GateState> {
    if views == [] then map[]
    else
      var last := views[|views| - 1];
      GateStates(views[..|views| - 1])[last.id := GateStateOf(last)]
  }

  /** Running the digest it should, not queued, and neither its health check nor its last reconcile failed. */
  predicate Healthy(iv: InstanceView) {
    iv.got != "" && iv.got == iv.want && iv.pendingVersion == "" && iv.health != "unhealthy" && iv.result != "failed"
  }

  ghost predicate ShownBy(views: seq<InstanceView>, id: int, st: GateState) {
    exists iv :: iv in views && iv.id == id && iv.restarts == st.restarts && (st.converged <==> Healthy(iv))
  }

  /** The gate knows exactly the instances in the view, and takes one for converged only if it is shown healthy. */
  lemma {:induction false} GateStatesRead(views: seq<InstanceView>, id: int)
    ensures id in GateStates(views) <==> exists iv :: iv in views && iv.id == id
    ensures id in GateStates(views) ==> ShownBy(views, id, GateStates(views)[id])
  {
    if views != [] {
      var front, last := views[..|views| - 1], views[|views| - 1];
      GateStatesRead(front, id);
      assert forall iv :: iv in views <==> iv in front || iv == last;
    }
  }

  datatype Blocker =
    | NotReported(node: string)
    | NotConverged(node: string, why: string)
    | Restarted(node: string, times: int)
    | Settling(left: int)

  datatype Verdict = Verdict(passed: bool, since: Option<int>, baseline: map<int, int>, blockers: seq<Blocker>)

  /** The target is converged and has not restarted beyond the recorded baseline. */
  predicate Steady(t: Target, baseline: map<int, int>, states: map<int, GateState>) {
    && t.id in states && states[t.id].converged
    && (t.id in baseline ==> states[t.id].restarts <= baseline[t.id])
  }

  predicate AllSteady(ts: seq<Target>, baseline: map<int, int>, states: map<int, GateState>) {
    forall t :: t in ts ==> Steady(t, baseline, states)
  }

  function BlockerOf(t: Target, baseline: map<int, int>, states: map<int, GateState>): Blocker
    requires !Steady(t, baseline, states)
  {
    if t.id !in states then NotReported(t.node)
    else if !states[t.id].converged then NotConverged(t.node, states[t.id].why)
    else Restarted(t.node, states[t.id].restarts - baseline[t.id])
  }

  /** One blocker for each target that is not steady, in batch order. */
  function BlockersOf(ts: seq<Target>, baseline: map<int, int>, states: map<int, GateState>): seq<Blocker> {
    if ts == [] then []
    else
      var front, t := BlockersOf(ts[..|ts| - 1], baseline, states), ts[|ts| - 1];
      if Steady(t, baseline, states) then front else front + [BlockerOf(t, baseline, states)]
  }

  /** The restart counters of the steady targets. */
  function Counters(ts: seq<Target>, baseline: map<int, int>, states: map<int, GateState>): map<int, int> {
    if ts == [] then map[]
    else
      var front, t := Counters(ts[..|ts| - 1], baseline, states), ts[|ts| - 1];
      if Steady(t, baseline, states) then front[t.id := states[t.id].restarts] else front
  }

  /** The verdict on a batch. */
  function Judge(b: Batch, states: map<int, GateState>, now: int): Verdict {
    var blockers, counters := BlockersOf(b.targets, b.baseline, states), Counters(b.targets, b.baseline, states);
    if blockers != [] then Verdict(false, None, map[], blockers)
    else if b.healthySince == None then Verdict(false, Some(now), counters, [])
    else if now - b.healthySince.value >= STABLE_FOR then Verdict(true, b.healthySince, counters, [])
    else Verdict(false, b.healthySince, counters, [Settling(STABLE_FOR - (now - b.healthySince.value))])
  }

  /** checkGate. */
  method CheckGate(b: Batch, states: map<int, GateState>, now: int) returns (v: Verdict)
    ensures v == Judge(b, states, now)
  {
    var baseline: map<int, int>, blockers := map[], [];
    var i := 0;
    while i < |b.targets|
      invariant 0 <= i <= |b.targets|
      invariant blockers == BlockersOf(b.targets[..i], b.baseline, states)
      invariant baseline == Counters(b.targets[..i], b.baseline, states)
    {
      var t := b.targets[i];
      assert b.targets[..i + 1][..i] == b.targets[..i];
      if t.id !in states {
        blockers := blockers + [NotReported(t.node)];
      } else if !states[t.id].converged {
        blockers := blockers + [NotConverged(t.node, states[t.id].why)];
      } else if t.id in b.baseline && states[t.id].restarts > b.baseline[t.id] {
        blockers := blockers + [Restarted(t.node, states[t.id].restarts - b.baseline[t.id])];
      } else {
        baseline := baseline[t.id := states[t.id].restarts];
      }
      i := i + 1;
    }
    assert b.targets[..i] == b.targets;
    if |blockers| > 0 {
      return Verdict(false, None, map[], blockers);
    }
    if b.healthySince == None {
      return Verdict(false, Some(now), baseline, []);
    }
    if now - b.healthySince.value >= STABLE_FOR {
      return Verdict(true, b.healthySince, baseline, []);
    }
    v := Verdict(false, b.healthySince, baseline, [Settling(STABLE_FOR - (now - b.healthySince.value))]);
  }

  predicate TimedOut(b: Batch, now: int) {
    b.releasedAt.Some? && now - b.releasedAt.value > BATCH_TIMEOUT
  }

  lemma {:induction false} BlockersNameTheUnsteady(ts: seq<Target>, baseline: map<int, int>,
                                                   states: map<int, GateState>)
    ensures BlockersOf(ts, baseline, states) == [] <==> AllSteady(ts, baseline, states)
    ensures forall t :: t in ts && !Steady(t, baseline, states) ==>
              BlockerOf(t, baseline, states) in BlockersOf(ts, baseline, states)
  {
    if ts != [] {
      BlockersNameTheUnsteady(ts[..|ts| - 1], baseline, states);
      assert forall t :: t in ts <==> t in ts[..|ts| - 1] || t == ts[|ts| - 1];
    }
  }

  lemma {:induction false} CountersRead(ts: seq<Target>, baseline: map<int, int>, states: map<int, GateState>)
    ensures forall t :: t in ts && Steady(t, baseline, states)
                        ==> t.id in Counters(ts, baseline, states)
                            && Counters(ts, baseline, states)[t.id] == states[t.id].restarts
    ensures forall id :: id in Counters(ts, baseline, states) ==>
              id in states && Counters(ts, baseline, states)[id] == states[id].restarts
  {
    if ts != [] {
      CountersRead(ts[..|ts| - 1], baseline, states);
      assert forall t :: t in ts <==> t in ts[..|ts| - 1] || t == ts[|ts| - 1];
    }
  }

  /** A batch passes exactly when a window is open, has lasted long enough, and every target is steady in it.
      In particular it never passes on the round that opens the window. */
  lemma PassesExactly(b: Batch, states: map<int, GateState>, now: int)
    ensures Judge(b, states, now).passed <==>
              b.healthySince.Some? && now - b.healthySince.value >= STABLE_FOR &&
                AllSteady(b.targets, b.baseline, states)
    ensures Judge(b, states, now).since.Some? <==> AllSteady(b.targets, b.baseline, states)
  {
    BlockersNameTheUnsteady(b.targets, b.baseline, states);
  }

  // ---- the reasons ----

  /** Why an instance does not count as converged: the first of these that applies. */
  lemma ReasonsMean(iv: InstanceView)
    ensures var st := GateStateOf(iv);
            && st.restarts == iv.restarts
            && (iv.got == "" ==> st.why == "has not reported in yet")
            && (iv.got != "" && iv.pendingVersion != "" ==> st.why == "not its turn yet (queued)")
            && (iv.got != "" && iv.pendingVersion == "" && iv.got != iv.want ==>
                  st.why == "has not switched to the new version yet (digest mismatch)")
            && (iv.got != "" && iv.pendingVersion == "" && iv.got == iv.want ==>
                  && (iv.health == "unhealthy" ==> st.why == "health check failed")
                  && (iv.health != "unhealthy" && iv.result == "failed" ==> st.why == "reconciliation failed"))
            && (st.converged <==> st.why == "") && (st.converged <==> Healthy(iv))
  {}

  /** The last report of an instance is the one that counts. */
  lemma {:induction false} LastReportCounts(views: seq<InstanceView>, i: nat)
    requires i < |views| && forall j :: i < j < |views| ==> views[j].id != views[i].id
    ensures views[i].id in GateStates(views) && GateStates(views)[views[i].id] == GateStateOf(views[i])
  {
    if i < |views| - 1 {
      LastReportCounts(views[..|views| - 1], i);
    }
  }

  ghost predicate ReasonFor(t: Target, baseline: map<int, int>, states: map<int, GateState>, r: Blocker) {
    match r
    case NotReported(node) => node == t.node && t.id !in states
    case NotConverged(node, why) =>
      node == t.node && t.id in states && !states[t.id].converged && why == states[t.id].why
    case Restarted(node, times) =>
      && node == t.node && t.id in states && states[t.id].converged && t.id in baseline
      && states[t.id].restarts > baseline[t.id] && times == states[t.id].restarts - baseline[t.id]
    case Settling(_) => false
  }

  /** One of the targets gives this reason. */
  ghost predicate Reasoned(ts: seq<Target>, baseline: map<int, int>, states: map<int, GateState>, r: Blocker) {
    exists t :: t in ts && ReasonFor(t, baseline, states, r)
  }

  lemma {:induction false} BlockersHaveReasons(ts: seq<Target>, baseline: map<int, int>, states: map<int, GateState>,
                                               r: Blocker)
    ensures r in BlockersOf(ts, baseline, states) <==> Reasoned(ts, baseline, states, r)
  {
    if ts != [] {
      var front, last := ts[..|ts| - 1], ts[|ts| - 1];
      BlockersHaveReasons(front, baseline, states, r);
      assert forall t :: t in ts <==> t in front || t == last;
      assert Reasoned(ts, baseline, states, r) <==>
             Reasoned(front, baseline, states, r) || ReasonFor(last, baseline, states, r);
    }
  }

  /** What blocks a batch: exactly the targets that did not report, did not converge, or restarted beyond the record,
      each with its reason; and when there are none, the rest of the 30 seconds of an open window. */
  lemma BlockersExactly(b: Batch, states: map<int, GateState>, now: int)
    ensures var v := Judge(b, states, now);
            if exists r :: Reasoned(b.targets, b.baseline, states, r) then
              forall r :: r in v.blockers <==> Reasoned(b.targets, b.baseline, states, r)
            else if b.healthySince.Some? && now < b.healthySince.value + 30_000_000_000 then
              v.blockers == [Settling(b.healthySince.value + 30_000_000_000 - now)]
            else v.blockers == []
  {
    forall r ensures r in BlockersOf(b.targets, b.baseline, states) <==> Reasoned(b.targets, b.baseline, states, r) {
      BlockersHaveReasons(b.targets, b.baseline, states, r);
    }
    if BlockersOf(b.targets, b.baseline, states) != [] {
      assert BlockersOf(b.targets, b.baseline, states)[0] in BlockersOf(b.targets, b.baseline, states);
    }
  }
}
