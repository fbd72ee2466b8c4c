/** The rollout protocol: the steps on the persisted records, as functions on values and as the service
    that performs them. The theorems about whole runs are in module RolloutRuns. */
module Rollouts {
  import opened Options
  import opened Batches
  import opened Gate
  import opened Planning

  const ROLLOUT_TIMEOUT := 600 * SECOND

  /** GaveUp is the state the store calls `failed`. */
  datatype Phase = Running | Paused | Halted | GaveUp | Succeeded | Aborted

  datatype Reason =
    | Nothing
    | ManuallyPaused
    | BatchTimedOut(num: nat, blockers: seq<Blocker>)
    | NodesRolledBack
    | NeverConverged
    | Superseded(newer: string)
    | NeverStarted

  datatype Rollout = Rollout(phase: Phase, from: string, to: string, startedAt: int, endedAt: Option<int>,
                             reason: Reason, batches: seq<Batch>)

  /** One component: its current version and every rollout it ever had, oldest first. */
  datatype Component = Component(version: string, rollouts: seq<Rollout>)

  /** What a status query shows. */
  datatype StatusView = StatusView(instances: seq<InstanceView>, converged: bool, version: string)

  predicate Open(r: Rollout) {
    r.phase == Running || r.phase == Paused || r.phase == Halted
  }

  /** The most recent rollout that is still open. */
  function Active(rs: seq<Rollout>): (i: Option<nat>)
    ensures i.Some? ==> i.value < |rs| && Open(rs[i.value])
  {
    if rs == [] then None
    else if Open(rs[|rs| - 1]) then Some(|rs| - 1)
    else Active(rs[..|rs| - 1])
  }

  // ---- delivery (release.go) ----

  predicate GatesDelivery(p: Phase) {
    p == Running || p == Paused || p == Halted || p == GaveUp
  }

  predicate Offers(b: Batch) {
    b.state == Released || b.state == Done || b.state == Failed
  }

  function IdsOf(ts: seq<Target>): (ids: set<int>)
    ensures forall id :: id in ids <==> exists t :: t in ts && t.id == id
  {
    set t | t in ts :: t.id
  }

  /** The instances of every batch that has been released. */
  function ReleasedIds(batches: seq<Batch>): set<int> {
    if batches == [] then {}
    else
      var b := batches[|batches| - 1];
      ReleasedIds(batches[..|batches| - 1]) + if Offers(b) then IdsOf(b.targets) else {}
  }

  datatype ReleaseState = ReleaseState(active: bool, from: string, released: set<int>, batches: seq<Batch>)

  const NO_RELEASE := ReleaseState(false, "", {}, [])

  function ReleaseStateOfRollout(r: Rollout): ReleaseState {
    if r.batches == [] then NO_RELEASE else ReleaseState(true, r.from, ReleasedIds(r.batches), r.batches)
  }

  /** Delivery looks at the latest rollout, open or not. */
  function ReleaseStateOf(rs: seq<Rollout>): ReleaseState {
    if rs == [] || !GatesDelivery(rs[|rs| - 1].phase) then NO_RELEASE else ReleaseStateOfRollout(rs[|rs| - 1])
  }

  function VersionFor(st: ReleaseState, id: int, current: string): string {
    if !st.active || id in st.released then current
    else if st.from == "" then current
    else st.from
  }

  /** The version instance `id` is offered. */
  function Offered(c: Component, id: int): string {
    VersionFor(ReleaseStateOf(c.rollouts), id, c.version)
  }

  // ---- the steps ----

  datatype Outcome = AllDone | Waiting | Halting(num: nat, blockers: seq<Blocker>)

  function WithGate(b: Batch, v: Verdict): Batch {
    if v.since == b.healthySince then b
    else b.(healthySince := v.since, baseline := if v.since == None then map[] else v.baseline)
  }

  /** advanceBatches from the k-th batch on. */
  function Advance(batches: seq<Batch>, k: nat, states: map<int, GateState>, now: int): (seq<Batch>, Outcome)
    requires k <= |batches|
    decreases |batches| - k
  {
    if k == |batches| then (batches, AllDone)
    else
      var b := batches[k];
      match b.state
      case Done | Skipped => Advance(batches, k + 1, states, now)
      case Released =>
        var v := Judge(b, states, now);
        var g := WithGate(b, v);
        if v.passed then Advance(batches[k := g.(state := Done)], k + 1, states, now)
        else if TimedOut(b, now) then (batches[k := g.(state := Failed)], Halting(b.num, v.blockers))
        else (batches[k := g], Waiting)
      case Pending => (batches[k := b.(state := Released, releasedAt := Some(now))], Waiting)
      case Failed => (batches, Waiting)
  }

  predicate RolledBack(view: StatusView) {
    exists iv :: iv in view.instances && iv.rolledBack
  }

  /** One rollout after one tick of its own (AdvanceRollout when it is both the active and the latest one). */
  function TickRollout(r: Rollout, view: StatusView, now: int): Rollout {
    if r.phase != Running then r
    else if RolledBack(view) then r.(phase := GaveUp, reason := NodesRolledBack, endedAt := Some(now))
    else if r.batches == [] then
      if view.converged && view.version == r.to then r.(phase := Succeeded, reason := Nothing, endedAt := Some(now))
      else if now - r.startedAt > ROLLOUT_TIMEOUT
        then r.(phase := GaveUp, reason := NeverConverged, endedAt := Some(now))
      else r
    else
      var (batches, outcome) := Advance(r.batches, 0, GateStates(view.instances), now);
      match outcome
      case AllDone => r.(batches := batches, phase := Succeeded, reason := Nothing, endedAt := Some(now))
      case Waiting => r.(batches := batches)
      case Halting(num, blockers) =>
        r.(batches := batches, phase := Halted, reason := BatchTimedOut(num, blockers), endedAt := None)
  }

  function Rewind(b: Batch, now: int): Batch {
    if b.state == Failed
    then b.(state := Released, releasedAt := Some(now), healthySince := None, baseline := map[])
    else b
  }

  function RewindAll(batches: seq<Batch>, now: int): (r: seq<Batch>) {
    seq(|batches|, i requires 0 <= i < |batches| => Rewind(batches[i], now))
  }

  /** Whether a pause or resume request is turned down. */
  predicate Refused(r: Rollout, pause: bool) {
    if pause then r.phase == Halted || r.phase == Paused else r.phase == Running
  }

  /** One open rollout after an accepted or refused pause or resume. */
  function PauseRollout(r: Rollout, pause: bool, now: int): Rollout {
    if Refused(r, pause) then r
    else if pause then r.(phase := Paused, reason := ManuallyPaused, endedAt := None)
    else if r.phase == Halted
      then r.(phase := Running, reason := Nothing, endedAt := None, batches := RewindAll(r.batches, now))
    else r.(phase := Running, reason := Nothing, endedAt := None)
  }

  function Abort(rs: seq<Rollout>, reason: Reason, now: int): seq<Rollout> {
    var i := Active(rs);
    if i == None then rs else rs[i.value := rs[i.value].(phase := Aborted, reason := reason, endedAt := Some(now))]
  }

  /** How deploying a new version ends: well, before the version is stored, or after it is stored. */
  datatype Deployment = Deployed | NotStored | StoredButFailed

  /** A version change: the open rollout is taken over, a new one starts with the saved batches, and the
      component moves to the new version once that is stored; if deploying fails the new rollout is aborted. */
  function ChangeVersion(c: Component, to: string, saved: seq<Batch>, deployment: Deployment, now: int): Component {
    var rs := Abort(c.rollouts, Superseded(to), now) + [Rollout(Running, c.version, to, now, None, Nothing, saved)];
    Component(if deployment == NotStored then c.version else to,
              if deployment == Deployed then rs else Abort(rs, NeverStarted, now))
  }

  datatype Event =
    | Change(to: string, input: Option<ChangeInput>, saved: seq<Batch>, deployment: Deployment, now: int)
    | Tick(view: StatusView, now: int)
    | SetPaused(pause: bool, now: int)

  /** Rollouts before the latest are closed for good. */
  ghost predicate OnlyLatestOpen(rs: seq<Rollout>) {
    forall i :: 0 <= i < |rs| - 1 ==> !Open(rs[i])
  }

  function Step(c: Component, e: Event): Component {
    match e
    case Change(to, _, saved, deployment, now) => ChangeVersion(c, to, saved, deployment, now)
    case Tick(view, now) =>
      var i := Active(c.rollouts);
      if i == None then c else c.(rollouts := c.rollouts[i.value := TickRollout(c.rollouts[i.value], view, now)])
    case SetPaused(pause, now) =>
      var i := Active(c.rollouts);
      if i == None then c else c.(rollouts := c.rollouts[i.value := PauseRollout(c.rollouts[i.value], pause, now)])
  }

  lemma ActiveIsLatest(rs: seq<Rollout>)
    requires OnlyLatestOpen(rs)
    ensures Active(rs) == if rs != [] && Open(rs[|rs| - 1]) then Some(|rs| - 1) else None
  {}

  /** The service of one component, with the rollout records it keeps. */
  class RolloutService {
    var version: string
    var rollouts: seq<Rollout>

    constructor (version: string)
      ensures Snapshot() == Component(version, [])
    {
      this.version, this.rollouts := version, [];
    }

    function Snapshot(): Component
      reads this
    {
      Component(version, rollouts)
    }

    method SaveBatch(i: nat, k: nat, b: Batch)
      requires i < |rollouts| && k < |rollouts[i].batches|
      modifies `rollouts
      ensures rollouts == old(rollouts)[i := old(rollouts[i]).(batches := old(rollouts[i].batches)[k := b])]
    {
      rollouts := rollouts[i := rollouts[i].(batches := rollouts[i].batches[k := b])];
    }

    method SetState(i: nat, phase: Phase, reason: Reason, endedAt: Option<int>)
      requires i < |rollouts|
      modifies `rollouts
      ensures rollouts == old(rollouts)[i := old(rollouts[i]).(phase := phase, reason := reason, endedAt := endedAt)]
    {
      rollouts := rollouts[i := rollouts[i].(phase := phase, reason := reason, endedAt := endedAt)];
    }

    /** Collects the released instances, batch by batch. */
    method ReadReleaseState() returns (st: ReleaseState)
      ensures st == ReleaseStateOf(rollouts)
    {
      if |rollouts| == 0 || !GatesDelivery(rollouts[|rollouts| - 1].phase) {
        return NO_RELEASE;
      }
      var r := rollouts[|rollouts| - 1];
      if |r.batches| == 0 {
        return NO_RELEASE;
      }
      var released, i := {}, 0;
      while i < |r.batches|
        invariant 0 <= i <= |r.batches|
        invariant released == ReleasedIds(r.batches[..i])
      {
        var b := r.batches[i];
        assert r.batches[..i + 1][..i] == r.batches[..i];
        if b.state == Released || b.state == Done || b.state == Failed {
          var ids, j := {}, 0;
          while j < |b.targets|
            invariant 0 <= j <= |b.targets|
            invariant ids == IdsOf(b.targets[..j])
          {
            assert b.targets[..j + 1] == b.targets[..j] + [b.targets[j]];
            ids := ids + {b.targets[j].id};
            j := j + 1;
          }
          assert b.targets[..j] == b.targets;
          released := released + ids;
        }
        i := i + 1;
      }
      assert r.batches[..i] == r.batches;
      st := ReleaseState(true, r.from, released, r.batches);
    }

    /** Walks the batches of the latest rollout, saving each change as it is made. */
    method AdvanceBatches(states: map<int, GateState>, now: int) returns (outcome: Outcome)
      requires rollouts != []
      modifies `rollouts
      ensures var last := old(rollouts)[|old(rollouts)| - 1];
              var (batches, o) := Advance(last.batches, 0, states, now);
              outcome == o && rollouts == old(rollouts)[|old(rollouts)| - 1 := last.(batches := batches)]
    {
      var i := |rollouts| - 1;
      var batches := rollouts[i].batches;
      var k := 0;
      assert rollouts == old(rollouts)[i := old(rollouts)[i].(batches := rollouts[i].batches)];
      while k < |batches|
        invariant 0 <= k <= |batches| && i == |rollouts| - 1
        invariant rollouts == old(rollouts)[i := old(rollouts)[i].(batches := rollouts[i].batches)]
        invariant |rollouts[i].batches| == |batches|
        invariant forall j :: k <= j < |batches| ==> rollouts[i].batches[j] == batches[j]
        invariant Advance(rollouts[i].batches, k, states, now) == Advance(old(rollouts)[i].batches, 0, states, now)
      {
        var b := batches[k];
        ghost var current := rollouts[i].batches;
        if b.state == Released {
          var v := CheckGate(b, states, now);
          var g := b;
          if v.since != b.healthySince {
            g := b.(healthySince := v.since, baseline := if v.since == None then map[] else v.baseline);
            SaveBatch(i, k, g);
          }
          assert rollouts[i].batches == current[k := g] && g == WithGate(b, v);
          if !v.passed {
            if TimedOut(b, now) {
              SaveBatch(i, k, g.(state := Failed));
              assert rollouts[i].batches == current[k := g.(state := Failed)];
              return Halting(b.num, v.blockers);
            }
            return Waiting;
          }
          SaveBatch(i, k, g.(state := Done));
          assert rollouts[i].batches == current[k := g.(state := Done)];
        } else if b.state == Pending {
          SaveBatch(i, k, b.(state := Released, releasedAt := Some(now)));
          return Waiting;
        } else if b.state == Failed {
          return Waiting;
        }
        k := k + 1;
      }
      outcome := AllDone;
    }

    /** AdvanceRollout. The batches it walks are those of the latest rollout. */
    method AdvanceRollout(view: StatusView, now: int)
      requires OnlyLatestOpen(rollouts)
      modifies `rollouts
      ensures Snapshot() == Step(old(Snapshot()), Tick(view, now))
    {
      ActiveIsLatest(rollouts);
      var a := Active(rollouts);
      if a == None {
        return;
      }
      var i := a.value;
      var r := rollouts[i];
      if r.phase == Paused || r.phase == Halted {
        return;
      }
      if RolledBack(view) {
        SetState(i, GaveUp, NodesRolledBack, Some(now));
        return;
      }
      var rel := ReadReleaseState();
      var done, batched := view.converged && view.version == r.to, false;
      if rel.active {
        var outcome := AdvanceBatches(GateStates(view.instances), now);
        if outcome.Halting? {
          SetState(i, Halted, BatchTimedOut(outcome.num, outcome.blockers), None);
        }
        done, batched := outcome.AllDone?, true;
      }
      if done {
        SetState(i, Succeeded, Nothing, Some(now));
      } else if !batched && now - r.startedAt > ROLLOUT_TIMEOUT {
        SetState(i, GaveUp, NeverConverged, Some(now));
      }
    }

    /** Puts the batch that failed the gate back to work: released again, with a fresh clock and no window. */
    method RewindFailedBatch(i: nat, now: int)
      requires i < |rollouts|
      modifies `rollouts
      ensures rollouts == old(rollouts)[i := old(rollouts)[i].(batches := RewindAll(old(rollouts)[i].batches, now))]
    {
      var batches, k := rollouts[i].batches, 0;
      while k < |batches|
        invariant 0 <= k <= |batches| && |rollouts| == |old(rollouts)|
        invariant rollouts == old(rollouts)[i := old(rollouts)[i].(batches := rollouts[i].batches)]
        invariant |rollouts[i].batches| == |batches|
        invariant forall j :: 0 <= j < |batches| ==>
                    rollouts[i].batches[j] == if j < k then Rewind(batches[j], now) else batches[j]
      {
        if batches[k].state == Failed {
          SaveBatch(i, k, batches[k].(state := Released, releasedAt := Some(now)));
          SaveBatch(i, k,
            batches[k].(state := Released, releasedAt := Some(now), healthySince := None, baseline := map[]));
        }
        k := k + 1;
      }
      assert rollouts[i].batches == RewindAll(batches, now);
    }

    /** SetRolloutPaused: freezes or resumes the active rollout, or says why it will not. */
    method SetRolloutPaused(pause: bool, now: int) returns (ok: bool)
      requires OnlyLatestOpen(rollouts)
      modifies `rollouts
      ensures Snapshot() == Step(old(Snapshot()), SetPaused(pause, now))
      ensures ok <==> Active(old(rollouts)).Some? && !Refused(old(rollouts)[Active(old(rollouts)).value], pause)
    {
      ActiveIsLatest(rollouts);
      var a := Active(rollouts);
      if a == None {
        return false;
      }
      var i := a.value;
      var want, reason := Running, Nothing;
      if pause {
        want, reason := Paused, ManuallyPaused;
        if rollouts[i].phase == Halted {
          return false;
        }
      }
      if rollouts[i].phase == want {
        return false;
      }
      if !pause && rollouts[i].phase == Halted {
        RewindFailedBatch(i, now);
      }
      SetState(i, want, reason, None);
      ok := true;
    }

    /** startRollout: the open rollout is taken over; the new one gets the planned batches, led by the list of
        skipped targets when there is one. `input` is absent when the target Pack or the instances cannot be read. */
    method StartRollout(to: string, input: Option<ChangeInput>, now: int) returns (saved: seq<Batch>)
      requires OnlyLatestOpen(rollouts)
      modifies `rollouts
      ensures rollouts == Abort(old(rollouts), Superseded(to), now)
                          + [Rollout(Running, version, to, now, None, Nothing, saved)]
      ensures PlannedFrom(input, saved)
    {
      var a := Active(rollouts);
      if a.Some? {
        SetState(a.value, Aborted, Superseded(to), Some(now));
      }
      saved := [];
      if input.Some? {
        saved := PlanAndSave(input.value);
      }
      rollouts := rollouts + [Rollout(Running, version, to, now, None, Nothing, saved)];
    }

    /** Upgrade and rollback: the rollout opens before anything is deployed. */
    method ChangeTo(to: string, input: Option<ChangeInput>, deployment: Deployment, now: int)
        returns (ghost saved: seq<Batch>)
      requires OnlyLatestOpen(rollouts)
      modifies this
      ensures Snapshot() == Step(old(Snapshot()), Change(to, input, saved, deployment, now))
      ensures PlannedFrom(input, saved)
    {
      saved := StartRollout(to, input, now);
      if deployment != NotStored {
        version := to;
      }
      if deployment != Deployed {
        var a := Active(rollouts);
        if a.Some? {
          SetState(a.value, Aborted, NeverStarted, Some(now));
        }
      }
    }
  }
}
