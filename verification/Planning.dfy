/** Planning one version change: what the store knows of the component is gathered into the input of the batch
    planner, the roles are put in order, and the batches are saved with the list of skipped targets. */
module Planning {
  import opened Options
  import opened Sorting
  import opened Roles
  import opened Batches

  /** An instance as the store has it, with whether its node is cordoned. */
  datatype Instance = Instance(id: int, role: string, node: string, ordinal: int, cordoned: bool)

  /** The roles of the target Pack under the component's profile, the instances, and the component's settings. */
  datatype ChangeInput = ChangeInput(roles: seq<Role>, instances: seq<Instance>, maxUnavailable: int, canary: int)

  function QuorumOf(roles: seq<Role>): map<string, bool> {
    if roles == [] then map[] else QuorumOf(roles[..|roles| - 1])[roles[|roles| - 1].name := roles[|roles| - 1].quorum]
  }

  function TargetOf(x: Instance): Target {
    Target(x.id, x.role, x.node, x.ordinal)
  }

  function Placed(m: map<string, seq<Target>>, x: Instance): map<string, seq<Target>> {
    m[x.role := (if x.role in m then m[x.role] else []) + [TargetOf(x)]]
  }

  /** The instances of each role, in the order of the store. */
  function Grouped(xs: seq<Instance>): map<string, seq<Target>> {
    if xs == [] then map[] else Placed(Grouped(xs[..|xs| - 1]), xs[|xs| - 1])
  }

  function CordonedNodes(xs: seq<Instance>): (nodes: set<string>) {
    set x | x in xs && x.cordoned :: x.node
  }

  /** What planAndSaveBatches hands to the planner: the order is one of the enabled roles, and respects what they
      require exactly when that is possible. */
  ghost predicate InputOf(ci: ChangeInput, p: PlanInput) {
    var g := EnabledGraph(ci.roles);
    && OrderOf(g, p.order) && (DepsFirst(g, p.order) <==> Acyclic(g))
    && p.roles == Grouped(ci.instances) && p.quorum == QuorumOf(ci.roles) && p.cordoned == CordonedNodes(ci.instances)
    && p.maxUnavailable == ci.maxUnavailable && p.canary == ci.canary
  }

  function SkipList(skipped: seq<Target>): Batch {
    Batch(0, 0, "", skipped, Skipped, None, None, map[])
  }

  /** The records in sequence order: the skipped targets come first, as number 0. */
  function Listed(batches: seq<Batch>, skipped: seq<Target>): seq<Batch> {
    if skipped == [] then batches else [SkipList(skipped)] + batches
  }

  /** The records hold this plan of p: the batches and the skipped targets are all its instances. */
  ghost predicate SavedAs(p: PlanInput, batches: seq<Batch>, skipped: seq<Target>, saved: seq<Batch>) {
    && saved == Listed(batches, skipped) && Plan(p, batches)
    && multiset(Gathered(batches)) + multiset(skipped) == AllInstances(p, |p.order|)
    && (forall t :: t in skipped ==> t.node in p.cordoned)
  }

  /** The records were saved for some plan of p. */
  ghost predicate SavedPlan(p: PlanInput, saved: seq<Batch>) {
    exists batches: seq<Batch>, skipped: seq<Target> :: SavedAs(p, batches, skipped, saved)
  }

  /** The records a change leaves behind: none when planning was impossible, else those of a plan of its input. */
  ghost predicate PlannedFrom(input: Option<ChangeInput>, saved: seq<Batch>) {
    match input
    case None => saved == []
    case Some(ci) => exists p :: InputOf(ci, p) && SavedPlan(p, saved)
  }

  lemma QuorumMore(roles: seq<Role>, i: nat)
    requires i < |roles|
    ensures QuorumOf(roles[..i + 1]) == QuorumOf(roles[..i])[roles[i].name := roles[i].quorum]
  {
    assert roles[..i + 1][..i] == roles[..i];
  }

  lemma InstancesMore(xs: seq<Instance>, i: nat)
    requires i < |xs|
    ensures Grouped(xs[..i + 1]) == Placed(Grouped(xs[..i]), xs[i])
    ensures CordonedNodes(xs[..i + 1]) == CordonedNodes(xs[..i]) + if xs[i].cordoned then {xs[i].node} else {}
  {
    assert xs[..i + 1][..i] == xs[..i];
    assert xs[..i + 1] == xs[..i] + [xs[i]];
  }

  method GatherInput(ci: ChangeInput) returns (p: PlanInput)
    ensures InputOf(ci, p)
  {
    var quorum: map<string, bool> := map[];
    for i := 0 to |ci.roles|
      invariant quorum == QuorumOf(ci.roles[..i])
    {
      QuorumMore(ci.roles, i);
      quorum := quorum[ci.roles[i].name := ci.roles[i].quorum];
    }
    assert ci.roles[..|ci.roles|] == ci.roles;
    var order := RoleOrder(ci.roles);
    var cordoned, roles := GroupInstances(ci.instances);
    p := PlanInput(roles, order, quorum, cordoned, ci.maxUnavailable, ci.canary);
  }

  method GroupInstances(xs: seq<Instance>) returns (cordoned: set<string>, roles: map<string, seq<Target>>)
    ensures cordoned == CordonedNodes(xs) && roles == Grouped(xs)
  {
    cordoned, roles := {}, map[];
    for i := 0 to |xs|
      invariant cordoned == CordonedNodes(xs[..i]) && roles == Grouped(xs[..i])
    {
      InstancesMore(xs, i);
      if xs[i].cordoned {
        cordoned := cordoned + {xs[i].node};
      }
      roles := roles[xs[i].role := (if xs[i].role in roles then roles[xs[i].role] else []) + [TargetOf(xs[i])]];
    }
    assert xs[..|xs|] == xs;
  }

  /** planAndSaveBatches. */
  method PlanAndSave(ci: ChangeInput) returns (saved: seq<Batch>)
    ensures PlannedFrom(Some(ci), saved)
  {
    var p := GatherInput(ci);
    var batches, skipped := PlanBatches(p);
    saved := Listed(batches, skipped);
    assert SavedAs(p, batches, skipped, saved);
  }

  // ---- instances and targets ----

  /** No two instances have the same id. */
  ghost predicate DistinctIds(ci: ChangeInput) {
    forall i, j :: 0 <= i < j < |ci.instances| ==> ci.instances[i].id != ci.instances[j].id
  }

  lemma {:induction false} GroupedFrom(xs: seq<Instance>, role: string, t: Target)
    requires role in Grouped(xs) && t in Grouped(xs)[role]
    ensures exists i :: 0 <= i < |xs| && xs[i].role == role && t == TargetOf(xs[i])
  {
    var front, x := xs[..|xs| - 1], xs[|xs| - 1];
    if role in Grouped(front) && t in Grouped(front)[role] {
      GroupedFrom(front, role, t);
      var i :| 0 <= i < |front| && front[i].role == role && t == TargetOf(front[i]);
      assert xs[i] == front[i];
    } else {
      assert xs[|xs| - 1] == x;
    }
  }

  /** With distinct ids an id tells the target, and so its role and its node. */
  lemma OneTargetPerId(ci: ChangeInput, p: PlanInput, a: string, s: Target, b: string, t: Target)
    requires InputOf(ci, p) && DistinctIds(ci) && s in InstancesOf(p, a) && t in InstancesOf(p, b) && s.id == t.id
    ensures a == b && s == t
  {
    GroupedFrom(ci.instances, a, s);
    GroupedFrom(ci.instances, b, t);
  }

  ghost predicate NoIdTwice(ts: seq<Target>) {
    forall i, j :: 0 <= i < j < |ts| ==> ts[i].id != ts[j].id
  }

  lemma {:induction false} GroupedDistinct(xs: seq<Instance>, role: string)
    requires (forall i, j :: 0 <= i < j < |xs| ==> xs[i].id != xs[j].id) && role in Grouped(xs)
    ensures NoIdTwice(Grouped(xs)[role])
  {
    var front, x := xs[..|xs| - 1], xs[|xs| - 1];
    if role in Grouped(front) {
      GroupedDistinct(front, role);
      forall t | t in Grouped(front)[role] ensures t.id != x.id {
        GroupedFrom(front, role, t);
      }
    }
  }

  // ---- what is on record ----

  /** In what is planned for a change, the instances of one role move by rising ordinal, then by node. */
  lemma PlannedOrdinalsRise(ci: ChangeInput, p: PlanInput, batches: seq<Batch>, i: nat, j: nat)
    requires InputOf(ci, p) && Plan(p, batches)
    requires i < j < |Gathered(batches)| && Gathered(batches)[i].role == Gathered(batches)[j].role
    ensures var a, b := Gathered(batches)[i], Gathered(batches)[j];
            a.ordinal <= b.ordinal && (a.ordinal == b.ordinal ==> Precedes(a.node, b.node))
  {
    forall role, t | role in p.roles && t in p.roles[role] ensures t.role == role {
      GroupedFrom(ci.instances, role, t);
    }
    OrdinalsRise(p, batches, i, j);
  }

  /** Record k of a saved plan is batch number k, or k + 1 without a list of skipped targets in front; that list is
      number 0, of no role, and marked as skipped. */
  lemma RecordsAreNumbered(p: PlanInput, batches: seq<Batch>, skipped: seq<Target>, saved: seq<Batch>, k: nat)
    requires SavedAs(p, batches, skipped, saved) && k < |saved|
    ensures skipped == [] ==> saved[k].num == k + 1 && saved[k].state == Pending
    ensures skipped != [] ==> saved[k].num == k
    ensures skipped != [] && k == 0 ==> saved[k].targets == skipped && saved[k].state == Skipped && saved[k].role == ""
    ensures skipped != [] && k > 0 ==> saved[k].state == Pending && saved[k] == batches[k - 1]
  {
    if skipped == [] {
      PlannedBatches(p, batches, k);
    } else if k > 0 {
      PlannedBatches(p, batches, k - 1);
    }
  }

  lemma {:induction false} QuorumMeans(roles: seq<Role>, k: nat)
    requires k < |roles| && forall j :: k < j < |roles| ==> roles[j].name != roles[k].name
    ensures roles[k].name in QuorumOf(roles) && QuorumOf(roles)[roles[k].name] == roles[k].quorum
  {
    if k < |roles| - 1 {
      QuorumMeans(roles[..|roles| - 1], k);
    }
  }

  lemma {:induction false} GroupedMeans(xs: seq<Instance>, role: string, t: Target)
    ensures role in Grouped(xs) && t in Grouped(xs)[role] <==>
              exists i :: 0 <= i < |xs| && xs[i].role == role && t == Target(xs[i].id, role, xs[i].node, xs[i].ordinal)
  {
    if xs != [] {
      GroupedMeans(xs[..|xs| - 1], role, t);
    }
  }

  /** What the planner is given: as targets of a role its instances, as cordoned the nodes that are, and the settings of
      the component; and for each role whether it declares quorum. */
  lemma InputMeans(ci: ChangeInput, p: PlanInput, role: string, t: Target, node: string, k: nat)
    requires InputOf(ci, p)
    ensures t in InstancesOf(p, role) <==>
              exists i :: 0 <= i < |ci.instances| && ci.instances[i].role == role
                && t == Target(ci.instances[i].id, role, ci.instances[i].node, ci.instances[i].ordinal)
    ensures node in p.cordoned <==> exists x :: x in ci.instances && x.cordoned && x.node == node
    ensures k < |ci.roles| && (forall j :: k < j < |ci.roles| ==> ci.roles[j].name != ci.roles[k].name) ==>
              ci.roles[k].name in p.quorum && p.quorum[ci.roles[k].name] == ci.roles[k].quorum
    ensures p.maxUnavailable == ci.maxUnavailable && p.canary == ci.canary
  {
    GroupedMeans(ci.instances, role, t);
    if k < |ci.roles| && forall j :: k < j < |ci.roles| ==> ci.roles[j].name != ci.roles[k].name {
      QuorumMeans(ci.roles, k);
    }
  }
}
