/** The gate over whole runs: what was observed before a batch passed, how long that takes, and where the
    clocks and the restart baseline do less than one would like. */
module GateRuns {
  import opened Options
  import opened Batches
  import opened Gate
  import opened Rollouts
  import opened RolloutRuns
  import opened Delivery

  /** Event e, in state c, evaluates the gate of the k-th batch of the latest rollout. */
  ghost predicate Evaluates(c: Component, e: Event, k: nat) {
    && e.Tick? && !RolledBack(e.view) && c.rollouts != [] && Latest(c).phase == Running
    && k == Front(Latest(c).batches) < |Latest(c).batches| && Latest(c).batches[k].state == Released
  }

  function Seen(e: Event): map<int, GateState>
    requires e.Tick?
  {
    GateStates(e.view.instances)
  }

  /** The k-th batch of the latest rollout has passed its gate. */
  ghost predicate PassedGate(c: Component, k: nat) {
    c.rollouts != [] && k < |Latest(c).batches| && Latest(c).batches[k].state == Done
  }

  ghost predicate SameBatches(c: Component, d: Component) {
    |d.rollouts| == |c.rollouts| && c.rollouts != [] && |Latest(d).batches| == |Latest(c).batches|
  }

  /** An evaluation writes the gate's record into the batch, and the batch is done exactly when the gate passes. */
  ghost predicate Judged(b: Batch, next: Batch, e: Event)
    requires e.Tick?
  {
    next == WithGate(b, Judge(b, Seen(e), e.now)).(state := next.state) &&
      (next.state == Done <==> Judge(b, Seen(e), e.now).passed)
  }

  predicate Unwatched(b: Batch, next: Batch) {
    next == b || (next.state == Released && next.healthySince == None)
  }

  lemma TickMoves(c: Component, e: Event, clock: int)
    requires Inv(c, clock) && e.Tick? && c.rollouts != []
    ensures var d, r := Step(c, e), Latest(c);
            SameBatches(c, d)
            && Latest(d).batches == if RolledBack(e.view) || r.phase != Running || r.batches == [] then r.batches
                                    else Move(r.batches, Front(r.batches), Seen(e), e.now).0
  {
    ActiveIsLatest(c.rollouts);
    assert Latest(c) in c.rollouts && RolloutInv(Latest(c), clock);
    AdvanceIsOneMove(Latest(c).batches, Seen(e), e.now);
  }

  lemma TickOnBatch(c: Component, e: Event, clock: int, k: nat)
    requires Inv(c, clock) && e.Tick? && c.rollouts != [] && k < |Latest(c).batches|
    ensures var d, b := Step(c, e), Latest(c).batches[k];
            && SameBatches(c, d)
            && if Evaluates(c, e, k) then Judged(b, Latest(d).batches[k], e) else Unwatched(b, Latest(d).batches[k])
  {
    TickMoves(c, e, clock);
    assert Latest(c) in c.rollouts && RolloutInv(Latest(c), clock);
    if Evaluates(c, e, k) {
      PassKeepsRecord(Latest(c).batches[k], Seen(e), e.now);
    }
  }

  /** What one step can do to the k-th batch: everything but an evaluation leaves its window alone or has none. */
  lemma StepOnBatch(c: Component, e: Event, clock: int, k: nat)
    requires Inv(c, clock) && !e.Change? && c.rollouts != [] && k < |Latest(c).batches|
    ensures var d, b := Step(c, e), Latest(c).batches[k];
            && SameBatches(c, d)
            && if Evaluates(c, e, k) then Judged(b, Latest(d).batches[k], e) else Unwatched(b, Latest(d).batches[k])
  {
    if e.Tick? {
      TickOnBatch(c, e, clock, k);
    } else {
      ActiveIsLatest(c.rollouts);
      assert Latest(c) in c.rollouts && RolloutInv(Latest(c), clock);
    }
  }

  /** The record of a window: the targets it watches, when it opened, and the counters read then. */
  datatype Window = Window(targets: seq<Target>, since: Option<int>, baseline: map<int, int>)

  function WindowOf(b: Batch): Window {
    Window(b.targets, b.healthySince, b.baseline)
  }

  /** The window was opened by event e: every target was converged then, and its counter was put on record. */
  ghost predicate OpenedBy(w: Window, e: Event) {
    && e.Tick? && w.since == Some(e.now)
    && forall t :: t in w.targets ==>
         t.id in Seen(e) && Seen(e)[t.id].converged && t.id in w.baseline && w.baseline[t.id] == Seen(e)[t.id].restarts
  }

  /** If event j evaluates the gate of the k-th batch, it finds all targets converged and none restarted since the
      window opened. */
  ghost predicate SteadyAt(cs: seq<Component>, es: seq<Event>, j: nat, k: nat, w: Window)
    requires j < |es| && |cs| == |es| + 1
  {
    !es[j].Change? && (Evaluates(cs[j], es[j], k) ==> AllSteady(w.targets, w.baseline, Seen(es[j])))
  }

  /** The window opened at event m and held through every event up to n. */
  ghost predicate HeldSince(cs: seq<Component>, es: seq<Event>, m: nat, n: nat, k: nat, w: Window)
    requires m < n <= |es| && |cs| == |es| + 1
  {
    && Evaluates(cs[m], es[m], k) && OpenedBy(w, es[m])
    && forall j :: m < j < n ==> SteadyAt(cs, es, j, k, w)
  }

  lemma WindowOpens(b: Batch, e: Event)
    requires e.Tick? && b.healthySince == None && Judge(b, Seen(e), e.now).since.Some?
    ensures OpenedBy(WindowOf(WithGate(b, Judge(b, Seen(e), e.now))), e)
  {
    PassesExactly(b, Seen(e), e.now);
    CountersRead(b.targets, b.baseline, Seen(e));
  }

  lemma WindowStays(b: Batch, states: map<int, GateState>, now: int)
    requires b.healthySince.Some? && Judge(b, states, now).since.Some?
    ensures AllSteady(b.targets, b.baseline, states) && WithGate(b, Judge(b, states, now)) == b
  {
    PassesExactly(b, states, now);
  }

  lemma ChangedBatchesHaveNoWindow(c: Component, e: Event, k: nat)
    requires e.Change? && Wellformed(e) && k < |Latest(Step(c, e)).batches|
    ensures Latest(Step(c, e)).batches[k].healthySince == None
  {
    PlannedRecordsAreFresh(e.input, e.saved);
  }

  /** One step of a window: it is opened by this step, or it was there before and this step found it steady. */
  lemma WindowStep(c: Component, e: Event, clock: int, k: nat)
    requires Inv(c, clock) && Wellformed(e) && Step(c, e).rollouts != [] && k < |Latest(Step(c, e)).batches|
    requires Latest(Step(c, e)).batches[k].healthySince.Some?
    ensures !e.Change? && c.rollouts != [] && k < |Latest(c).batches|
    ensures var w, w' := WindowOf(Latest(c).batches[k]), WindowOf(Latest(Step(c, e)).batches[k]);
            || (Evaluates(c, e, k) && OpenedBy(w', e))
            || (w' == w && (Evaluates(c, e, k) ==> AllSteady(w.targets, w.baseline, Seen(e))))
  {
    if e.Change? {
      ChangedBatchesHaveNoWindow(c, e, k);
    } else {
      ActiveIsLatest(c.rollouts);
      StepKeepsOffers(c, e);
      StepOnBatch(c, e, clock, k);
      var b := Latest(c).batches[k];
      if Evaluates(c, e, k) {
        if b.healthySince == None {
          WindowOpens(b, e);
        } else {
          WindowStays(b, Seen(e), e.now);
        }
      }
    }
  }

  ghost predicate HasWindow(c: Component, k: nat, w: Window) {
    c.rollouts != [] && k < |Latest(c).batches| && w == WindowOf(Latest(c).batches[k]) && w.since.Some?
  }

  lemma WindowBack(cs: seq<Component>, es: seq<Event>, n: nat, k: nat, w: Window)
    requires Run(cs, es) && n < |es| && HasWindow(cs[n + 1], k, w)
    ensures || (Evaluates(cs[n], es[n], k) && OpenedBy(w, es[n]))
            || (HasWindow(cs[n], k, w) && SteadyAt(cs, es, n, k, w))
  {
    Reachable(cs, es, n);
    assert Follows(cs, es, n);
    WindowStep(cs[n], es[n], ClockAt(es, n), k);
  }

  lemma HeldLonger(cs: seq<Component>, es: seq<Event>, m: nat, n: nat, k: nat, w: Window)
    requires m < n < |es| && |cs| == |es| + 1 && HeldSince(cs, es, m, n, k, w) && SteadyAt(cs, es, n, k, w)
    ensures HeldSince(cs, es, m, n + 1, k, w)
  {}

  lemma HeldAtFirst(cs: seq<Component>, es: seq<Event>, m: nat, k: nat, w: Window)
    requires m < |es| && |cs| == |es| + 1 && Evaluates(cs[m], es[m], k) && OpenedBy(w, es[m])
    ensures HeldSince(cs, es, m, m + 1, k, w)
  {}

  lemma NoWindowAtFirst(cs: seq<Component>, es: seq<Event>, k: nat, w: Window)
    requires Run(cs, es)
    ensures !HasWindow(cs[0], k, w)
  {}

  /** Every open window has such an origin in the run. */
  lemma {:induction false} WindowOrigin(cs: seq<Component>, es: seq<Event>, n: nat, k: nat, w: Window) returns (m: nat)
    requires Run(cs, es) && n <= |es| && HasWindow(cs[n], k, w)
    ensures m < n && HeldSince(cs, es, m, n, k, w)
  {
    NoWindowAtFirst(cs, es, k, w);
    WindowBack(cs, es, n - 1, k, w);
    if Evaluates(cs[n - 1], es[n - 1], k) && OpenedBy(w, es[n - 1]) {
      m := n - 1;
      HeldAtFirst(cs, es, n - 1, k, w);
    } else {
      m := WindowOrigin(cs, es, n - 1, k, w);
      HeldLonger(cs, es, m, n - 1, k, w);
    }
  }

  /** Gate soundness: if event n takes the k-th batch through its gate, then some earlier event m, at least 30
      seconds before, evaluated the gate too, and every evaluation from m to n found all targets converged and
      none restarted beyond its counter at m. */
  lemma PassNeedsSteadyWindow(cs: seq<Component>, es: seq<Event>, n: nat, k: nat, c: Component) returns (m: nat)
    requires Run(cs, es) && n < |es| && c == cs[n] && !es[n].Change?
    requires !PassedGate(c, k) && PassedGate(Step(c, es[n]), k)
    ensures m < n && es[n].now - es[m].now >= STABLE_FOR
    ensures Evaluates(c, es[n], k) && HeldSince(cs, es, m, n, k, WindowOf(Latest(c).batches[k]))
    ensures AllSteady(Latest(c).batches[k].targets, Latest(c).batches[k].baseline, Seen(es[n]))
  {
    Reachable(cs, es, n);
    ActiveIsLatest(c.rollouts);
    StepKeepsOffers(c, es[n]);
    StepOnBatch(c, es[n], ClockAt(es, n), k);
    var b := Latest(c).batches[k];
    PassesExactly(b, Seen(es[n]), es[n].now);
    m := WindowOrigin(cs, es, n, k, WindowOf(b));
  }

  /** In terms of what was reported: at every evaluation from m to n, each target of the batch was shown healthy. */
  lemma PassSawHealthyTargets(cs: seq<Component>, es: seq<Event>, m: nat, n: nat, j: nat, k: nat, t: Target)
    requires Run(cs, es) && m <= j <= n < |es| && m < n && cs[n].rollouts != [] && k < |Latest(cs[n]).batches|
    requires HeldSince(cs, es, m, n, k, WindowOf(Latest(cs[n]).batches[k]))
    requires Evaluates(cs[n], es[n], k) &&
             AllSteady(Latest(cs[n]).batches[k].targets, Latest(cs[n]).batches[k].baseline, Seen(es[n]))
    requires Evaluates(cs[j], es[j], k) && t in Latest(cs[n]).batches[k].targets
    ensures exists iv :: iv in es[j].view.instances && iv.id == t.id && Healthy(iv)
  {
    var w := WindowOf(Latest(cs[n]).batches[k]);
    if m < j < n {
      assert SteadyAt(cs, es, j, k, w);
      assert Steady(t, w.baseline, Seen(es[j]));
    }
    assert t.id in Seen(es[j]) && Seen(es[j])[t.id].converged;
    GateStatesRead(es[j].view.instances, t.id);
  }

  /** From event m to event n the reported counter of the instance never goes down. */
  ghost predicate NeverCountsBack(es: seq<Event>, m: nat, n: nat, id: int)
    requires m <= n < |es|
  {
    forall i, j :: m <= i <= j <= n && es[i].Tick? && es[j].Tick? && id in Seen(es[i]) && id in Seen(es[j])
      ==> Seen(es[i])[id].restarts <= Seen(es[j])[id].restarts
  }

  /** The counter shown at every evaluation from m to n is the one shown at m. */
  ghost predicate SameCounter(cs: seq<Component>, es: seq<Event>, m: nat, n: nat, k: nat, id: int)
    requires m <= n < |es| && |cs| == |es| + 1
  {
    forall j :: m <= j <= n && Evaluates(cs[j], es[j], k) ==>
      es[m].Tick? && id in Seen(es[m]) && id in Seen(es[j]) && Seen(es[j])[id].restarts == Seen(es[m])[id].restarts
  }

  /** If moreover the counters do not run backwards, every counter at the pass, and at every evaluation before it, is
      what it was when event m opened the window, however sparse the evaluations were. */
  lemma PassSeesNoRestart(cs: seq<Component>, es: seq<Event>, n: nat, k: nat, c: Component, t: Target) returns (m: nat)
    requires Run(cs, es) && n < |es| && c == cs[n] && !es[n].Change?
    requires !PassedGate(c, k) && PassedGate(Step(c, es[n]), k)
    requires c.rollouts != [] && k < |Latest(c).batches| && t in Latest(c).batches[k].targets
    ensures m < n && es[n].now - es[m].now >= STABLE_FOR && Evaluates(cs[m], es[m], k) && Evaluates(c, es[n], k)
    ensures HeldSince(cs, es, m, n, k, WindowOf(Latest(c).batches[k]))
    ensures NeverCountsBack(es, m, n, t.id) ==> SameCounter(cs, es, m, n, k, t.id)
  {
    m := PassNeedsSteadyWindow(cs, es, n, k, c);
    var w := WindowOf(Latest(c).batches[k]);
    if NeverCountsBack(es, m, n, t.id) {
      forall j | m <= j <= n && Evaluates(cs[j], es[j], k)
        ensures t.id in Seen(es[m]) && t.id in Seen(es[j]) && Seen(es[j])[t.id].restarts == Seen(es[m])[t.id].restarts
      {
        if m < j {
          assert j < n ==> SteadyAt(cs, es, j, k, w);
          assert Steady(t, w.baseline, Seen(es[j]));
        }
      }
    }
  }

  // ---- how long it takes ----

  /** A batch passes no sooner than 30 seconds after it was last released, resumed releases included; and the
      batch behind it is released no sooner than that. */
  lemma PassTakesWindow(c: Component, e: Event, clock: int, k: nat)
    requires Inv(c, clock) && clock <= e.now && !e.Change? && !PassedGate(c, k) && PassedGate(Step(c, e), k)
    ensures k < |Latest(c).batches| && Latest(c).batches[k].releasedAt.Some?
    ensures e.now - Latest(c).batches[k].releasedAt.value >= STABLE_FOR
    ensures k + 1 < |Latest(Step(c, e)).batches| ==> Latest(Step(c, e)).batches[k + 1].releasedAt == Some(e.now)
  {
    ActiveIsLatest(c.rollouts);
    StepKeepsOffers(c, e);
    StepOnBatch(c, e, clock, k);
    assert Latest(c) in c.rollouts && RolloutInv(Latest(c), clock);
    var bs := Latest(c).batches;
    PassesExactly(bs[k], Seen(e), e.now);
    AdvanceIsOneMove(bs, Seen(e), e.now);
  }

  /** The batches that had to pass a gate. */
  function Gates(bs: seq<Batch>): nat {
    if bs != [] && bs[0].state == Skipped then |bs| - 1 else |bs|
  }

  /** A rollout of m batches that succeeded ran for at least m windows of 30 seconds, halts and resumes included,
      and every one of its batches passed its own gate. */
  lemma SuccessTakesTime(cs: seq<Component>, es: seq<Event>, n: nat, q: nat)
    requires Run(cs, es) && n <= |es| && q < |cs[n].rollouts| && cs[n].rollouts[q].phase == Succeeded
    ensures var r := cs[n].rollouts[q];
            && r.endedAt.Some? && r.endedAt.value - r.startedAt >= STABLE_FOR * Gates(r.batches)
            && forall k :: 0 <= k < |r.batches| ==>
                 r.batches[k].state == Done || (k == 0 && r.batches[k].state == Skipped)
  {
    Reachable(cs, es, n);
    var r := cs[n].rollouts[q];
    assert r in cs[n].rollouts && RolloutInv(r, ClockAt(es, n));
  }

  // ---- the event at which each batch passed ----

  /** Event j takes the k-th batch of the q-th rollout, the latest one by then, through its gate. */
  ghost predicate PassesAt(cs: seq<Component>, es: seq<Event>, j: nat, q: nat, k: nat)
    requires j < |es| && |cs| == |es| + 1
  {
    |cs[j].rollouts| == q + 1 && !es[j].Change? && !PassedGate(cs[j], k) && PassedGate(cs[j + 1], k)
  }

  ghost predicate HasBatch(c: Component, q: nat, k: nat) {
    q < |c.rollouts| && k < |c.rollouts[q].batches|
  }

  /** What a step may do to a batch: a release is stamped with the step's own time, and done stays done. */
  predicate RecordMoves(b: Batch, next: Batch, now: int) {
    (next.releasedAt == b.releasedAt || next.releasedAt == Some(now)) && (b.state == Done ==> next.state == Done)
  }

  lemma TickOnRecord(r: Rollout, view: StatusView, now: int, clock: int, k: nat)
    requires RolloutInv(r, clock) && k < |r.batches|
    ensures k < |TickRollout(r, view, now).batches| &&
            RecordMoves(r.batches[k], TickRollout(r, view, now).batches[k], now)
  {
    AdvanceIsOneMove(r.batches, GateStates(view.instances), now);
  }

  lemma ChangeOnRecord(c: Component, e: Event, q: nat, k: nat)
    requires e.Change? && Wellformed(e) && HasBatch(Step(c, e), q, k)
    ensures if HasBatch(c, q, k) then Step(c, e).rollouts[q].batches[k] == c.rollouts[q].batches[k]
            else Step(c, e).rollouts[q].batches[k].state != Done
  {
    PlannedRecordsAreFresh(e.input, e.saved);
  }

  /** A step makes a batch done only in the latest rollout, and only short of a change. */
  lemma StepOnRecord(c: Component, e: Event, clock: int, q: nat, k: nat)
    requires Inv(c, clock) && Wellformed(e) && HasBatch(Step(c, e), q, k)
    ensures HasBatch(c, q, k) || Step(c, e).rollouts[q].batches[k].state != Done
    ensures HasBatch(c, q, k) ==> RecordMoves(c.rollouts[q].batches[k], Step(c, e).rollouts[q].batches[k], e.now)
    ensures HasBatch(c, q, k) && c.rollouts[q].batches[k].state != Done &&
            Step(c, e).rollouts[q].batches[k].state == Done
            ==> !e.Change? && |c.rollouts| == q + 1
  {
    if e.Change? {
      ChangeOnRecord(c, e, q, k);
    } else {
      ActiveIsLatest(c.rollouts);
      StepKeepsCuts(c, e, q);
      if e.Tick? && q == |c.rollouts| - 1 {
        assert c.rollouts[q] in c.rollouts && RolloutInv(c.rollouts[q], clock);
        TickOnRecord(c.rollouts[q], e.view, e.now, clock, k);
      }
    }
  }

  lemma {:induction false} PassEvent(cs: seq<Component>, es: seq<Event>, n: nat, q: nat, k: nat) returns (j: nat)
    requires Run(cs, es) && n <= |es| && HasBatch(cs[n], q, k) && cs[n].rollouts[q].batches[k].state == Done
    ensures j < n && PassesAt(cs, es, j, q, k)
  {
    assert n > 0 && Follows(cs, es, n - 1);
    Reachable(cs, es, n - 1);
    StepOnRecord(cs[n - 1], es[n - 1], ClockAt(es, n - 1), q, k);
    if cs[n - 1].rollouts[q].batches[k].state == Done {
      j := PassEvent(cs, es, n - 1, q, k);
    } else {
      j := n - 1;
    }
  }

  /** Once there, a batch stays; done stays done, and a release stamped from `since` on is only restamped later. */
  lemma {:induction false} RecordStays(cs: seq<Component>, es: seq<Event>, a: nat, b: nat, q: nat, k: nat, since: int)
    requires Run(cs, es) && a <= b <= |es| && HasBatch(cs[a], q, k) && forall i :: a <= i < b ==> since <= es[i].now
    ensures HasBatch(cs[b], q, k)
    ensures cs[a].rollouts[q].batches[k].state == Done ==> cs[b].rollouts[q].batches[k].state == Done
    ensures var x, y := cs[a].rollouts[q].batches[k].releasedAt, cs[b].rollouts[q].batches[k].releasedAt;
            x.Some? && since <= x.value ==> y.Some? && since <= y.value
    decreases b - a
  {
    if a < b {
      RecordStays(cs, es, a, b - 1, q, k, since);
      assert Follows(cs, es, b - 1);
      Reachable(cs, es, b - 1);
      RolloutsStay(cs[b - 1], es[b - 1], q);
      StepKeepsCuts(cs[b - 1], es[b - 1], q);
      StepOnRecord(cs[b - 1], es[b - 1], ClockAt(es, b - 1), q, k);
    }
  }

  /** Two consecutive batches pass one after the other: the first pass releases the second batch, and the second pass
      comes at least 30 seconds later. */
  lemma PassesInOrder(cs: seq<Component>, es: seq<Event>, n: nat, q: nat, k: nat) returns (j: nat, j2: nat)
    requires Run(cs, es) && n <= |es| && HasBatch(cs[n], q, k + 1)
    requires cs[n].rollouts[q].batches[k].state == Done && cs[n].rollouts[q].batches[k + 1].state == Done
    ensures j < j2 < n && PassesAt(cs, es, j, q, k) && PassesAt(cs, es, j2, q, k + 1)
    ensures HasBatch(cs[j + 1], q, k + 1) && cs[j + 1].rollouts[q].batches[k + 1].releasedAt == Some(es[j].now)
    ensures es[j2].now - es[j].now >= STABLE_FOR
  {
    j := PassEvent(cs, es, n, q, k);
    j2 := PassEvent(cs, es, n, q, k + 1);
    assert Follows(cs, es, j) && Follows(cs, es, j2);
    PassAtTheFront(cs, es, j, q, k);
    PassAtTheFront(cs, es, j2, q, k + 1);
    PassTakesWindow(cs[j], es[j], ClockAt(es, j), k);
    if j2 < j {
      RecordStays(cs, es, j2 + 1, j, q, k + 1, es[j2].now);
    }
    SameLength(cs, es, j + 1, n, q);
    RecordStays(cs, es, j + 1, j2, q, k + 1, es[j].now);
    PassTakesWindow(cs[j2], es[j2], ClockAt(es, j2), k + 1);
  }

  lemma {:induction false} SameLength(cs: seq<Component>, es: seq<Event>, a: nat, b: nat, q: nat)
    requires Run(cs, es) && a <= b <= |es| && q < |cs[a].rollouts|
    ensures q < |cs[b].rollouts| && |cs[a].rollouts[q].batches| == |cs[b].rollouts[q].batches|
    decreases b - a
  {
    if a < b {
      SameLength(cs, es, a, b - 1, q);
      assert Follows(cs, es, b - 1);
      RolloutsStay(cs[b - 1], es[b - 1], q);
      StepKeepsCuts(cs[b - 1], es[b - 1], q);
    }
  }

  lemma RolloutsStay(c: Component, e: Event, q: nat)
    requires q < |c.rollouts|
    ensures q < |Step(c, e).rollouts|
  {}

  lemma PassAtTheFront(cs: seq<Component>, es: seq<Event>, j: nat, q: nat, k: nat)
    requires Run(cs, es) && j < |es| && PassesAt(cs, es, j, q, k)
    ensures Evaluates(cs[j], es[j], k) && Inv(cs[j], ClockAt(es, j)) && ClockAt(es, j) <= es[j].now
    ensures forall i :: k < i < |Latest(cs[j]).batches| ==> Latest(cs[j]).batches[i].state == Pending
  {
    assert Follows(cs, es, j);
    Reachable(cs, es, j);
    var m := PassNeedsSteadyWindow(cs, es, j, k, cs[j]);
    assert Latest(cs[j]) in cs[j].rollouts && RolloutInv(Latest(cs[j]), ClockAt(es, j));
  }

  /** A pause freezes the judging but not the clock: after pause and resume the batch is judged on its original
      release time, and the tick halts exactly when the gate is not passed and that time is too long ago. */
  lemma PauseDoesNotStopTheClock(r: Rollout, clock: int, paused: int, resumed: int, view: StatusView, now: int)
    requires RolloutInv(r, clock) && r.phase == Running && !RolledBack(view)
    requires Front(r.batches) < |r.batches| && r.batches[Front(r.batches)].state == Released
    ensures var r' := PauseRollout(PauseRollout(r, true, paused), false, resumed);
            var b := r.batches[Front(r.batches)];
            && r'.phase == Running && r'.batches == r.batches
            && (TickRollout(r', view, now).phase == Halted <==>
                  !Judge(b, GateStates(view.instances), now).passed && now - b.releasedAt.value > BATCH_TIMEOUT)
  {
    AdvanceIsOneMove(r.batches, GateStates(view.instances), now);
  }

  /** A halted rollout resumes at its breakpoint: only the failed batch changes, and it starts over. */
  lemma ResumeAtTheBreakpoint(r: Rollout, clock: int, now: int)
    requires RolloutInv(r, clock) && r.phase == Halted
    ensures var d, next := Front(r.batches), PauseRollout(r, false, now);
            && d < |r.batches| && r.batches[d].state == Failed && next.phase == Running
            && next.batches == r.batches[
                 d := r.batches[d].(state := Released, releasedAt := Some(now),
                                    healthySince := None, baseline := map[])]
  {}

  // ---- the restart baseline ----

  /** The baseline is read when the window opens and never again. A restart inside the window is noticed exactly
      when the counter climbs above that reading; a counter that was reset in between can climb unseen. */
  lemma RestartNoticedExactly(b: Batch, t: Target, before: map<int, GateState>, after: map<int, GateState>, now: int)
    requires t in b.targets && b.healthySince.Some? && t.id in b.baseline
    requires AllSteady(b.targets, b.baseline, before) && t.id in after && before[t.id].restarts < after[t.id].restarts
    requires after[t.id].converged && forall s :: s in b.targets && s.id != t.id ==> Steady(s, b.baseline, after)
    ensures Judge(b, after, now).since == None <==> after[t.id].restarts > b.baseline[t.id]
  {
    PassesExactly(b, after, now);
  }

  /** A report in which the instance runs the wanted digest and its counter stands at this value. */
  function Reporting(t: Target, restarts: int, now: int): Event {
    Tick(StatusView([InstanceView(t.id, "new", "new", "", "healthy", "ok", restarts, false)], true, "v2"), now)
  }

  lemma ReportRead(t: Target, restarts: int, now: int)
    ensures Seen(Reporting(t, restarts, now)) == map[t.id := GateState(true, restarts, "")]
    ensures !RolledBack(Reporting(t, restarts, now).view)
  {
    var views := Reporting(t, restarts, now).view.instances;
    assert GateStates(views[..|views| - 1]) == map[];
    assert GateStateOf(views[|views| - 1]) == GateState(true, restarts, "");
  }

  /** One evaluation of a rollout whose only batch is this one. */
  lemma OnlyBatch(c: Component, t: Target, restarts: int, now: int)
    requires OnlyLatestOpen(c.rollouts) && c.rollouts != [] && Latest(c).phase == Running && |Latest(c).batches| == 1
    requires var b := Latest(c).batches[0];
             b.state == Released && b.targets == [t] && b.releasedAt.Some? && !TimedOut(b, now)
    ensures var d, b := Step(c, Reporting(t, restarts, now)), Latest(c).batches[0];
            var v := Judge(b, map[t.id := GateState(true, restarts, "")], now);
            && OnlyLatestOpen(d.rollouts) && d.rollouts != [] && |Latest(d).batches| == 1
            && Latest(d).batches[0] == WithGate(b, v).(state := if v.passed then Done else Released)
            && Latest(d).phase == if v.passed then Succeeded else Running
  {
    ActiveIsLatest(c.rollouts);
    ReportRead(t, restarts, now);
    var bs, states := Latest(c).batches, Seen(Reporting(t, restarts, now));
    var v := Judge(bs[0], states, now);
    if v.passed {
      var next := bs[0 := WithGate(bs[0], v).(state := Done)];
      assert Advance(next, 1, states, now) == (next, AllDone);
    }
  }

  /** The verdicts behind it: the window opens at 7, sees 0 and 1 as steady, and is old enough after 30 seconds. */
  lemma CrashVerdicts(b: Batch, t: Target, restarts: int, now: int)
    requires b.targets == [t]
    ensures var v := Judge(b, map[t.id := GateState(true, restarts, "")], now);
            && (b.healthySince == None && b.baseline == map[]
               ==> v.since == Some(now) && !v.passed && v.baseline == map[t.id := restarts])
            && (b.healthySince.Some? && t.id in b.baseline && restarts <= b.baseline[t.id] ==>
                  v.since == b.healthySince && (v.passed <==> now - b.healthySince.value >= STABLE_FOR))
  {
    var states := map[t.id := GateState(true, restarts, "")];
    PassesExactly(b, states, now);
    assert b.targets[..0] == [] && b.targets[0] == t;
    assert Counters(b.targets[..0], b.baseline, states) == map[];
    assert BlockersOf(b.targets[..0], b.baseline, states) == [];
  }

  /** Four ticks of the service: 7 restarts on record, the counter reset, a crash, and 30 seconds after the first the
      batch passes and the rollout succeeds. */
  lemma CrashAfterResetGoesUnseen(c: Component, t: Target)
    requires OnlyLatestOpen(c.rollouts) && c.rollouts != [] && Latest(c).phase == Running
    requires |Latest(c).batches| == 1 &&
             Latest(c).batches[0] == Batch(1, 1, t.role, [t], Released, Some(0), None, map[])
    ensures var first := Step(c, Reporting(t, 7, 0));
            var reset := Step(first, Reporting(t, 0, 10 * SECOND));
            var crashed := Step(reset, Reporting(t, 1, 20 * SECOND));
            Latest(Step(crashed, Reporting(t, 1, 30 * SECOND))).phase == Succeeded
  {
    var b0 := Latest(c).batches[0];
    OnlyBatch(c, t, 7, 0);
    CrashVerdicts(b0, t, 7, 0);
    var first := Step(c, Reporting(t, 7, 0));
    var b := Latest(first).batches[0];
    assert b.healthySince == Some(0) && b.baseline == map[t.id := 7] && b.state == Released;
    OnlyBatch(first, t, 0, 10 * SECOND);
    CrashVerdicts(b, t, 0, 10 * SECOND);
    var reset := Step(first, Reporting(t, 0, 10 * SECOND));
    assert Latest(reset).batches[0] == b;
    OnlyBatch(reset, t, 1, 20 * SECOND);
    CrashVerdicts(b, t, 1, 20 * SECOND);
    var crashed := Step(reset, Reporting(t, 1, 20 * SECOND));
    assert Latest(crashed).batches[0] == b;
    OnlyBatch(crashed, t, 1, 30 * SECOND);
    CrashVerdicts(b, t, 1, 30 * SECOND);
  }
}
