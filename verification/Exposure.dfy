/** Which instances are exposed to a version that has not proved itself, in terms of what they are offered, and when a
    quorum role keeps its majority through a step. */
module Exposure {
  import opened Options
  import opened Batches
  import opened Planning
  import opened Rollouts
  import opened RolloutRuns
  import opened Delivery

  // ---- while a rollout gates delivery ----

  /** The latest rollout gates delivery with batches, and started from another version than the current one. */
  ghost predicate Gating(c: Component) {
    && c.rollouts != [] && GatesDelivery(Latest(c).phase) && Latest(c).batches != []
    && Latest(c).from != "" && Latest(c).from != c.version
  }

  /** The instance is in a batch that passed its gate. */
  ghost predicate Proven(bs: seq<Batch>, id: int) {
    exists k :: 0 <= k < |bs| && bs[k].state == Done && id in IdsOf(bs[k].targets)
  }

  /** The instance is offered the current version without having proved itself on it. */
  ghost predicate Exposed(c: Component, id: int)
    requires c.rollouts != []
  {
    Offered(c, id) == c.version && !Proven(Latest(c).batches, id)
  }

  /** In every reachable state in which a rollout gates delivery, every exposed instance is in the batch at the front,
      which is released or failed. */
  lemma ExposedAreInOneBatch(cs: seq<Component>, es: seq<Event>, n: nat, id: int)
    requires Run(cs, es) && n <= |es| && Gating(cs[n]) && Exposed(cs[n], id)
    ensures var bs := Latest(cs[n]).batches;
            Front(bs) < |bs| && Unproven(bs, Front(bs)) && id in IdsOf(bs[Front(bs)].targets)
  {
    var c := cs[n];
    var r := Latest(c);
    Reachable(cs, es, n);
    assert r in c.rollouts && RolloutInv(r, ClockAt(es, n));
    OfferedExactly(c, id);
    ReleasedExactly(r.batches);
    var k :| 0 <= k < |r.batches| && Offers(r.batches[k]) && id in IdsOf(r.batches[k].targets);
    UnprovenIsAtTheFront(r, ClockAt(es, n), k);
  }

  // ---- quorum roles ----

  function IdsOfRole(ci: ChangeInput, role: string): (ids: set<int>) {
    set x | x in ci.instances && x.role == role :: x.id
  }

  /** The role declares quorum. */
  predicate IsQuorum(ci: ChangeInput, role: string) {
    role in QuorumOf(ci.roles) && QuorumOf(ci.roles)[role]
  }

  lemma IdsOfMore(ts: seq<Target>, t: Target)
    ensures IdsOf(ts + [t]) == IdsOf(ts) + {t.id}
  {
    assert forall s :: s in ts + [t] <==> s in ts || s == t;
  }

  lemma NewId(ts: seq<Target>, t: Target)
    requires NoIdTwice(ts + [t])
    ensures NoIdTwice(ts) && t.id !in IdsOf(ts)
  {
    assert (ts + [t])[|ts|] == t;
    assert forall i :: 0 <= i < |ts| ==> (ts + [t])[i] == ts[i];
  }

  lemma {:induction false} FewerIds(ts: seq<Target>)
    ensures |IdsOf(ts)| <= |ts|
    ensures NoIdTwice(ts) ==> |IdsOf(ts)| == |ts|
  {
    if ts != [] {
      var front, t := ts[..|ts| - 1], ts[|ts| - 1];
      assert ts == front + [t];
      FewerIds(front);
      IdsOfMore(front, t);
      if NoIdTwice(ts) {
        NewId(front, t);
      }
    }
  }

  lemma {:induction false} GroupedHas(xs: seq<Instance>, x: Instance)
    requires x in xs
    ensures x.role in Grouped(xs) && TargetOf(x) in Grouped(xs)[x.role]
  {
    var front, last := xs[..|xs| - 1], xs[|xs| - 1];
    if x != last {
      assert x in front;
      GroupedHas(front, x);
    }
  }

  /** The targets of a role are its instances, one each. */
  lemma RoleCounts(ci: ChangeInput, p: PlanInput, role: string)
    requires InputOf(ci, p) && DistinctIds(ci)
    ensures IdsOf(InstancesOf(p, role)) == IdsOfRole(ci, role) && |IdsOfRole(ci, role)| == |InstancesOf(p, role)|
  {
    var ts := InstancesOf(p, role);
    forall id ensures id in IdsOf(ts) <==> id in IdsOfRole(ci, role) {
      if id in IdsOf(ts) {
        var t :| t in ts && t.id == id;
        GroupedFrom(ci.instances, role, t);
      }
      if id in IdsOfRole(ci, role) {
        var x :| x in ci.instances && x.role == role && x.id == id;
        GroupedHas(ci.instances, x);
      }
    }
    FewerIds(ts);
    if role in p.roles {
      GroupedDistinct(ci.instances, role);
    }
  }

  lemma SubsetLeavesMajority(all: set<int>, some: set<int>, bound: nat)
    requires some <= all && |some| <= bound && 2 * (|all| - bound) > |all|
    ensures 2 * |all - some| > |all|
  {
    assert |all - some| == |all| - |some|;
  }

  ghost function ExposedOf(c: Component, ids: set<int>): set<int>
    requires c.rollouts != []
  {
    set id | id in ids && Exposed(c, id)
  }

  /** In every reachable state in which a rollout gates delivery, a quorum role of three or more instances, cordoned
      ones counted, has more than half of them not exposed. */
  lemma QuorumNeverAtRisk(cs: seq<Component>, es: seq<Event>, n: nat, role: string) returns (m: nat)
    requires Run(cs, es) && n <= |es| && Gating(cs[n])
    ensures m < n && es[m].Change? && es[m].input.Some? && SameCuts(Latest(cs[n]).batches, es[m].saved)
    ensures var ci := es[m].input.value; var ids := IdsOfRole(ci, role);
            DistinctIds(ci) && IsQuorum(ci, role) && |ids| >= 3 ==> 2 * |ids - ExposedOf(cs[n], ids)| > |ids|
  {
    m := Origin(cs, es, n, |cs[n].rollouts| - 1);
    assert Wellformed(es[m]);
    var ci, bs := es[m].input.value, Latest(cs[n]).batches;
    var ids := IdsOfRole(ci, role);
    if DistinctIds(ci) && IsQuorum(ci, role) && |ids| >= 3 {
      var exposed := ExposedOf(cs[n], ids);
      if exposed != {} {
        var one :| one in exposed;
        ExposedAreInOneBatch(cs, es, n, one);
        var front := bs[Front(bs)];
        forall id | id in exposed ensures id in IdsOf(front.targets) { ExposedAreInOneBatch(cs, es, n, id); }
        BatchOfRole(ci, es[m].saved, bs, Front(bs), role, one);
        SubsetOfIds(exposed, front.targets);
        SubsetLeavesMajority(ids, exposed, |front.targets|);
      }
    }
  }

  lemma SubsetOfIds(ids: set<int>, ts: seq<Target>)
    requires ids <= IdsOf(ts)
    ensures |ids| <= |ts|
  {
    FewerIds(ts);
    assert |IdsOf(ts) - ids| == |IdsOf(ts)| - |ids|;
  }

  /** A batch with an instance of a quorum role leaves more than half of the role outside. */
  lemma BatchOfRole(ci: ChangeInput, saved: seq<Batch>, bs: seq<Batch>, k: nat, role: string, id: int)
    requires PlannedFrom(Some(ci), saved) && SameCuts(bs, saved) && k < |bs| && bs[k].state != Skipped &&
             DistinctIds(ci)
    requires IsQuorum(ci, role) && id in IdsOfRole(ci, role) && |IdsOfRole(ci, role)| >= 3 && id in IdsOf(bs[k].targets)
    ensures 2 * (|IdsOfRole(ci, role)| - |bs[k].targets|) > |IdsOfRole(ci, role)|
  {
    var p := PlanInputOf(ci, saved);
    assert SameCut(bs[k], saved[k]);
    RoleCounts(ci, p, role);
    BatchRole(ci, p, saved, k, role, id);
    SavedQuorum(p, saved, k);
  }

  lemma BatchRole(ci: ChangeInput, p: PlanInput, saved: seq<Batch>, k: nat, role: string, id: int)
    requires InputOf(ci, p) && SavedPlan(p, saved) && DistinctIds(ci) && k < |saved| && saved[k].state != Skipped
    requires id in IdsOfRole(ci, role) && id in IdsOf(saved[k].targets)
    ensures saved[k].role == role
  {
    var batches, s := PlanBehind(p, saved);
    PlannedBatches(p, batches, k - s);
    RoleCounts(ci, p, role);
    var t :| t in saved[k].targets && t.id == id;
    var u :| u in InstancesOf(p, role) && u.id == id;
    OneTargetPerId(ci, p, saved[k].role, t, role, u);
  }

  // ---- across a step ----

  ghost function MovedBetween(c: Component, d: Component, ids: set<int>): set<int> {
    set id | id in ids && Offered(d, id) != Offered(c, id)
  }

  /** More than half of the instances keep the offer they had. */
  ghost predicate KeepsMajority(c: Component, d: Component, ids: set<int>) {
    2 * |ids - MovedBetween(c, d, ids)| > |ids|
  }

  lemma MajorityStays(c: Component, d: Component, ids: set<int>, moved: set<int>)
    requires moved == MovedBetween(c, d, ids)
    ensures KeepsMajority(c, d, ids) <==> 2 * |moved| < |ids|
  {
    assert |ids - moved| == |ids| - |moved|;
  }

  /** A change -- an upgrade during a rollout, the abort of one, a deployment that fails -- moves at once everything
      the old rollout was still holding back, or everything that is on another version. So a role keeps its majority
      through it exactly when those are less than half of it. */
  lemma ChangeKeepsMajorityExactly(c: Component, e: Event, ids: set<int>)
    requires e.Change? && Wellformed(e) && OnlyLatestOpen(c.rollouts)
    ensures KeepsMajority(c, Step(c, e), ids) <==> 2 * |set id | id in ids && MovedByChange(c, e, id)| < |ids|
  {
    forall id | id in ids ensures Offered(Step(c, e), id) != Offered(c, id) <==> MovedByChange(c, e, id) {
      if e.deployment == Deployed {
        TakeoverSkipsTheQueue(c, e, id);
      } else {
        FailedDeploymentOpensTheGate(c, e, id);
      }
    }
    MajorityStays(c, Step(c, e), ids, set id | id in ids && MovedByChange(c, e, id));
  }

  /** The same for the tick that ends a rollout: what it was still holding back are the instances it set aside. */
  lemma SuccessKeepsMajorityExactly(c: Component, e: Event, clock: int, ids: set<int>)
    requires Inv(c, clock) && e.Tick? && clock <= e.now && c.rollouts != [] && Latest(c).batches != []
    requires Latest(c).phase == Running && Latest(Step(c, e)).phase == Succeeded
    ensures KeepsMajority(c, Step(c, e), ids) <==> 2 * |set id | id in ids && HeldBack(c, id)| < |ids|
  {
    forall id | id in ids ensures Offered(Step(c, e), id) != Offered(c, id) <==> HeldBack(c, id) {
      SuccessReleasesTheRest(c, e, clock, id);
    }
    MajorityStays(c, Step(c, e), ids, set id | id in ids && HeldBack(c, id));
  }
}
