/** Cutting one version change into stages (one role each) and batches. */
module Batches {
  import opened Options
  import opened Sorting

  const DEFAULT_MAX_UNAVAILABLE := 1
  const DEFAULT_CANARY := 1

  /** One instance: its id, its node and its stable ordinal inside the role. */
  datatype Target = Target(id: int, role: string, node: string, ordinal: int)

  datatype BatchState = Pending | Released | Done | Failed | Skipped

  /** A persisted batch. `num` is the global sequence number; 0 marks the list of cordoned targets. */
  datatype Batch = Batch(num: nat, stage: nat, role: string, targets: seq<Target>, state: BatchState,
                         releasedAt: Option<int>, healthySince: Option<int>, baseline: map<int, int>)

  datatype PlanInput = PlanInput(roles: map<string, seq<Target>>, order: seq<string>, quorum: map<string, bool>,
                                 cordoned: set<string>, maxUnavailable: int, canary: int)

  function InstancesOf(p: PlanInput, role: string): seq<Target> {
    if role in p.roles then p.roles[role] else []
  }

  function AllInstances(p: PlanInput, stages: nat): multiset<Target>
    requires stages <= |p.order|
  {
    if stages == 0 then multiset{}
    else AllInstances(p, stages - 1) + multiset(InstancesOf(p, p.order[stages - 1]))
  }

  predicate TargetLeq(a: Target, b: Target) {
    if a.ordinal != b.ordinal then a.ordinal < b.ordinal else NameLeq(a.node, b.node)
  }

  lemma TargetLeqIsTotalPreorder()
    ensures TotalPreorder(TargetLeq)
  {
    NameLeqIsTotalPreorder();
  }

  /** The instances that take part: those whose node is not cordoned. */
  function Movable(p: PlanInput, all: seq<Target>): (targets: seq<Target>) {
    if all == [] then []
    else
      var front, last := Movable(p, all[..|all| - 1]), all[|all| - 1];
      if last.node in p.cordoned then front else front + [last]
  }

  function Cordoned(p: PlanInput, all: seq<Target>): (targets: seq<Target>) {
    if all == [] then []
    else
      var front, last := Cordoned(p, all[..|all| - 1]), all[|all| - 1];
      if last.node in p.cordoned then front + [last] else front
  }

  /** How many instances of a role may move at once, given that n of them take part. */
  function Limit(p: PlanInput, role: string, n: nat): (limit: int)
    ensures limit >= 1
  {
    var most := if p.maxUnavailable <= 0 then DEFAULT_MAX_UNAVAILABLE else p.maxUnavailable;
    if role in p.quorum && p.quorum[role] then
      var half := (n - 1) / 2;
      var q := if half < 1 then 1 else half;
      if most > q then q else most
    else most
  }

  function Canary(p: PlanInput): int {
    if p.canary < 0 then DEFAULT_CANARY else p.canary
  }

  /** The size a batch aims for. */
  function Size(p: PlanInput, role: string, n: nat, first: bool): (size: int)
    ensures 1 <= size <= Limit(p, role, n)
    ensures first && Canary(p) > 0 ==> size <= Canary(p)
  {
    if first && 0 < Canary(p) < Limit(p, role, n) then Canary(p) else Limit(p, role, n)
  }

  /** The targets of a run of batches, in order. */
  function Gathered(batches: seq<Batch>): seq<Target> {
    if batches == [] then [] else Gathered(batches[..|batches| - 1]) + batches[|batches| - 1].targets
  }

  lemma {:induction false} GatheredConcat(a: seq<Batch>, b: seq<Batch>)
    ensures Gathered(a + b) == Gathered(a) + Gathered(b)
  {
    if b == [] {
      assert a + b == a;
    } else {
      var front := b[..|b| - 1];
      GatheredConcat(a, front);
      assert (a + b)[..|a + b| - 1] == a + front;
      assert Gathered(a) + (Gathered(front) + b[|b| - 1].targets)
        == (Gathered(a) + Gathered(front)) + b[|b| - 1].targets;
    }
  }

  lemma {:induction false} GatheredMember(batches: seq<Batch>, k: nat, t: Target)
    requires k < |batches| && t in batches[k].targets
    ensures t in Gathered(batches)
  {
    if k < |batches| - 1 {
      GatheredMember(batches[..|batches| - 1], k, t);
    }
  }

  /** A batch straight out of planning: not started, and with nothing on record. */
  predicate Fresh(b: Batch) {
    b.state == Pending && b.releasedAt == None && b.healthySince == None && b.baseline == map[]
  }

  /** The k-th batch of a stage in which n instances take part. */
  ghost predicate StageBatch(p: PlanInput, stage: nat, n: nat, start: nat, b: Batch, k: nat)
    requires 1 <= stage <= |p.order|
  {
    && Fresh(b) && b.num == start + k + 1 && b.stage == stage && b.role == p.order[stage - 1]
    && 1 <= |b.targets| <= Size(p, b.role, n, k == 0)
  }

  /** The batches of one stage, numbered on from `start`. Together they hold exactly `targets`, in order;
      every batch but the last is as large as it may be, and the first is the canary. */
  ghost predicate StageOf(p: PlanInput, stage: nat, targets: seq<Target>, start: nat, cut: seq<Batch>)
    requires 1 <= stage <= |p.order|
  {
    && Gathered(cut) == targets
    && (forall k :: 0 <= k < |cut| ==> StageBatch(p, stage, |targets|, start, cut[k], k))
    && (forall k :: 0 <= k < |cut| - 1 ==> |cut[k].targets| == Size(p, cut[k].role, |targets|, k == 0))
  }

  /** The inner loop of planBatches. */
  method CutStage(p: PlanInput, stage: nat, targets: seq<Target>, start: nat) returns (cut: seq<Batch>)
    requires 1 <= stage <= |p.order|
    ensures StageOf(p, stage, targets, start, cut)
  {
    var role, n := p.order[stage - 1], |targets|;
    var limit := Limit(p, role, n);
    cut := [];
    var i, num := 0, start;
    while i < n
      invariant 0 <= i <= n && num == start + |cut| && (i == 0) == (cut == [])
      invariant Gathered(cut) == targets[..i]
      invariant forall k :: 0 <= k < |cut| ==> StageBatch(p, stage, n, start, cut[k], k)
      invariant forall k :: 0 <= k < (if i < n then |cut| else |cut| - 1) ==>
                  |cut[k].targets| == Size(p, cut[k].role, n, k == 0)
    {
      var size := limit;
      if i == 0 && Canary(p) > 0 && Canary(p) < size {
        size := Canary(p);
      }
      var end := i + size;
      if end > n {
        end := n;
      }
      num := num + 1;
      var b := Batch(num, stage, role, targets[i..end], Pending, None, None, map[]);
      assert (cut + [b])[..|cut|] == cut;
      assert targets[..end] == targets[..i] + targets[i..end];
      assert StageBatch(p, stage, n, start, b, |cut|);
      cut := cut + [b];
      i := end;
    }
    assert targets[..i] == targets;
  }

  function Participants(p: PlanInput, role: string): seq<Target> {
    Movable(p, SortBy(InstancesOf(p, role), TargetLeq))
  }

  /** The cordoned instances of the first `stages` roles. */
  function Absent(p: PlanInput, stages: nat): seq<Target>
    requires stages <= |p.order|
  {
    if stages == 0 then [] else Absent(p, stages - 1) + Held(p, p.order[stages - 1])
  }

  function Held(p: PlanInput, role: string): seq<Target> {
    Cordoned(p, SortBy(InstancesOf(p, role), TargetLeq))
  }

  /** The i-th batch of a plan: fresh, numbered by its place, holding uncordoned instances of one role. */
  ghost predicate PlannedBatch(p: PlanInput, b: Batch, i: nat) {
    && Fresh(b) && b.num == i + 1 && 1 <= b.stage <= |p.order| && b.role == p.order[b.stage - 1] && b.targets != []
    && (forall t :: t in b.targets ==> t in InstancesOf(p, b.role) && t.node !in p.cordoned)
  }

  ghost predicate LastStage(p: PlanInput, parts: seq<seq<Target>>, batches: seq<Batch>, m: nat)
    requires 1 <= |parts| <= |p.order| && m <= |batches|
  {
    StageOf(p, |parts|, parts[|parts| - 1], m, batches[m..])
  }

  /** A plan for the roles whose participants are `parts`: the batches of one role after those of another. */
  ghost predicate PlanOf(p: PlanInput, parts: seq<seq<Target>>, batches: seq<Batch>)
    requires |parts| <= |p.order|
  {
    if parts == [] then batches == []
    else exists m: nat ::
      m <= |batches| && LastStage(p, parts, batches, m) && PlanOf(p, parts[..|parts| - 1], batches[..m])
  }

  /** The participants of the first `stages` roles, role by role. */
  function Lineup(p: PlanInput, stages: nat): (parts: seq<seq<Target>>)
    requires stages <= |p.order|
    ensures |parts| == stages
  {
    if stages == 0 then [] else Lineup(p, stages - 1) + [Participants(p, p.order[stages - 1])]
  }

  /** A plan for all roles. */
  ghost predicate Plan(p: PlanInput, batches: seq<Batch>) {
    PlanOf(p, Lineup(p, |p.order|), batches)
  }

  lemma {:induction false} SplitByCordon(p: PlanInput, all: seq<Target>)
    ensures multiset(Movable(p, all)) + multiset(Cordoned(p, all)) == multiset(all)
    ensures |Movable(p, all)| <= |all|
    ensures forall t :: t in Movable(p, all) ==> t in all && t.node !in p.cordoned
    ensures forall t :: t in Cordoned(p, all) ==> t in all && t.node in p.cordoned
  {
    if all != [] {
      assert all == all[..|all| - 1] + [all[|all| - 1]];
      SplitByCordon(p, all[..|all| - 1]);
    }
  }

  function Flat(parts: seq<seq<Target>>): seq<Target> {
    if parts == [] then [] else Flat(parts[..|parts| - 1]) + parts[|parts| - 1]
  }

  lemma PlanSplits(p: PlanInput, parts: seq<seq<Target>>, batches: seq<Batch>) returns (m: nat)
    requires |parts| <= |p.order| && PlanOf(p, parts, batches) && parts != []
    ensures m <= |batches| && PlanOf(p, parts[..|parts| - 1], batches[..m])
    ensures Gathered(batches[m..]) == parts[|parts| - 1]
  {
    m :| m <= |batches| && LastStage(p, parts, batches, m) && PlanOf(p, parts[..|parts| - 1], batches[..m]);
  }

  lemma {:induction false} PlanGathers(p: PlanInput, parts: seq<seq<Target>>, batches: seq<Batch>)
    requires |parts| <= |p.order| && PlanOf(p, parts, batches)
    ensures Gathered(batches) == Flat(parts)
  {
    if parts != [] {
      var m := PlanSplits(p, parts, batches);
      PlanGathers(p, parts[..|parts| - 1], batches[..m]);
      GatheredConcat(batches[..m], batches[m..]);
      assert batches == batches[..m] + batches[m..];
    }
  }

  lemma RoleConserved(p: PlanInput, role: string)
    ensures multiset(Participants(p, role)) + multiset(Held(p, role)) == multiset(InstancesOf(p, role))
    ensures |Participants(p, role)| <= |InstancesOf(p, role)|
    ensures forall t :: t in Participants(p, role) ==> t in InstancesOf(p, role) && t.node !in p.cordoned
    ensures forall t :: t in Held(p, role) ==> t.node in p.cordoned
  {
    SplitByCordon(p, SortBy(InstancesOf(p, role), TargetLeq));
    SortByPermutes(InstancesOf(p, role), TargetLeq);
    SortByMembers(InstancesOf(p, role), TargetLeq);
  }

  lemma {:induction false} Conserved(p: PlanInput, stages: nat)
    requires stages <= |p.order|
    ensures multiset(Flat(Lineup(p, stages))) + multiset(Absent(p, stages)) == AllInstances(p, stages)
  {
    if stages > 0 {
      Conserved(p, stages - 1);
      var role := p.order[stages - 1];
      RoleConserved(p, role);
      assert Lineup(p, stages)[..stages - 1] == Lineup(p, stages - 1);
      ConcatMultisets(Flat(Lineup(p, stages - 1)), Participants(p, role), Absent(p, stages - 1), Held(p, role));
    }
  }

  lemma ConcatMultisets(a: seq<Target>, b: seq<Target>, c: seq<Target>, d: seq<Target>)
    ensures multiset(a + b) + multiset(c + d) == (multiset(a) + multiset(c)) + (multiset(b) + multiset(d))
  {}

  lemma {:induction false} AbsentCordoned(p: PlanInput, stages: nat)
    requires stages <= |p.order|
    ensures forall t :: t in Absent(p, stages) ==> t.node in p.cordoned
  {
    if stages > 0 {
      AbsentCordoned(p, stages - 1);
      RoleConserved(p, p.order[stages - 1]);
    }
  }

  lemma AddStage(p: PlanInput, parts: seq<seq<Target>>, part: seq<Target>, batches: seq<Batch>, cut: seq<Batch>)
    requires |parts| < |p.order| && PlanOf(p, parts, batches)
    requires StageOf(p, |parts| + 1, part, |batches|, cut)
    ensures PlanOf(p, parts + [part], batches + cut)
  {
    assert (batches + cut)[..|batches|] == batches && (batches + cut)[|batches|..] == cut;
    assert (parts + [part])[..|parts|] == parts;
    assert LastStage(p, parts + [part], batches + cut, |batches|);
  }

  /** What has been planned and set aside for the first `stages` roles. */
  ghost predicate PlannedSoFar(p: PlanInput, stages: nat, batches: seq<Batch>, skipped: seq<Target>) {
    stages <= |p.order| && PlanOf(p, Lineup(p, stages), batches) && skipped == Absent(p, stages)
  }

  lemma NextStage(p: PlanInput, stages: nat, batches: seq<Batch>, skipped: seq<Target>, cut: seq<Batch>,
                  held: seq<Target>)
    requires PlannedSoFar(p, stages, batches, skipped) && stages < |p.order|
    requires StageOf(p, stages + 1, Participants(p, p.order[stages]), |batches|, cut) &&
             held == Held(p, p.order[stages])
    ensures PlannedSoFar(p, stages + 1, batches + cut, skipped + held)
  {
    AddStage(p, Lineup(p, stages), Participants(p, p.order[stages]), batches, cut);
  }

  lemma AllPlanned(p: PlanInput, batches: seq<Batch>, skipped: seq<Target>)
    requires PlannedSoFar(p, |p.order|, batches, skipped)
    ensures Plan(p, batches)
    ensures multiset(Gathered(batches)) + multiset(skipped) == AllInstances(p, |p.order|)
    ensures forall t :: t in skipped ==> t.node in p.cordoned
  {
    PlanGathers(p, Lineup(p, |p.order|), batches);
    Conserved(p, |p.order|);
    AbsentCordoned(p, |p.order|);
  }

  /** planBatches. Nothing is lost and nothing is invented: batches and skipped targets together are
      exactly the instances of the ordered roles. */
  method PlanBatches(p: PlanInput) returns (batches: seq<Batch>, skipped: seq<Target>)
    ensures Plan(p, batches)
    ensures multiset(Gathered(batches)) + multiset(skipped) == AllInstances(p, |p.order|)
    ensures forall t :: t in skipped ==> t.node in p.cordoned
  {
    batches, skipped := [], [];
    var stage := 0;
    while stage < |p.order|
      invariant 0 <= stage && PlannedSoFar(p, stage, batches, skipped)
    {
      var all := SortBy(InstancesOf(p, p.order[stage]), TargetLeq);
      var targets, held := SplitTargets(p, all);
      var cut := CutStage(p, stage + 1, targets, |batches|);
      NextStage(p, stage, batches, skipped, cut, held);
      batches, skipped := batches + cut, skipped + held;
      stage := stage + 1;
    }
    AllPlanned(p, batches, skipped);
  }

  method SplitTargets(p: PlanInput, all: seq<Target>) returns (targets: seq<Target>, held: seq<Target>)
    ensures targets == Movable(p, all) && held == Cordoned(p, all)
  {
    targets, held := [], [];
    var i := 0;
    while i < |all|
      invariant 0 <= i <= |all|
      invariant targets == Movable(p, all[..i]) && held == Cordoned(p, all[..i])
    {
      assert all[..i + 1][..i] == all[..i];
      if all[i].node in p.cordoned {
        held := held + [all[i]];
      } else {
        targets := targets + [all[i]];
      }
      i := i + 1;
    }
    assert all[..i] == all;
  }

  // ---- what a plan guarantees ----

  lemma {:induction false} MovableSorted(p: PlanInput, all: seq<Target>)
    requires SortedBy(all, TargetLeq)
    ensures SortedBy(Movable(p, all), TargetLeq)
  {
    if all != [] {
      MovableSorted(p, all[..|all| - 1]);
      SplitByCordon(p, all[..|all| - 1]);
    }
  }

  /** Ordinals never fall along the participants of a role. */
  lemma ParticipantsRise(p: PlanInput, role: string)
    ensures SortedBy(Participants(p, role), TargetLeq)
  {
    TargetLeqIsTotalPreorder();
    SortBySorted(InstancesOf(p, role), TargetLeq);
    MovableSorted(p, SortBy(InstancesOf(p, role), TargetLeq));
  }

  /** The instances are listed under their own roles. */
  ghost predicate ListedByRole(p: PlanInput) {
    forall role, t :: role in p.roles && t in p.roles[role] ==> t.role == role
  }

  lemma {:induction false} FlatRoles(p: PlanInput, stages: nat, t: Target)
    requires stages <= |p.order| && ListedByRole(p) && t in Flat(Lineup(p, stages))
    ensures t.role in p.order[..stages]
  {
    var role := p.order[stages - 1];
    assert Lineup(p, stages)[..stages - 1] == Lineup(p, stages - 1);
    RoleConserved(p, role);
    if t !in Participants(p, role) {
      FlatRoles(p, stages - 1, t);
      assert p.order[..stages - 1] <= p.order[..stages];
    }
  }

  ghost predicate RolesRise(s: seq<Target>) {
    forall i, j :: 0 <= i < j < |s| && s[i].role == s[j].role ==> TargetLeq(s[i], s[j])
  }

  lemma JoinRises(front: seq<Target>, part: seq<Target>)
    requires RolesRise(front) && SortedBy(part, TargetLeq)
    requires forall s, t :: s in front && t in part ==> s.role != t.role
    ensures RolesRise(front + part)
  {
    var all := front + part;
    assert forall i :: 0 <= i < |front| ==> all[i] in front;
    assert forall j :: |front| <= j < |all| ==> all[j] in part && all[j] == part[j - |front|];
  }

  lemma OtherRole(p: PlanInput, stages: nat, s: Target, t: Target)
    requires 0 < stages <= |p.order| && ListedByRole(p) && Distinct(p.order)
    requires s in Flat(Lineup(p, stages - 1)) && t in Participants(p, p.order[stages - 1])
    ensures s.role != t.role
  {
    FlatRoles(p, stages - 1, s);
    RoleConserved(p, p.order[stages - 1]);
    assert t in InstancesOf(p, p.order[stages - 1]);
  }

  lemma {:induction false} FlatRises(p: PlanInput, stages: nat)
    requires stages <= |p.order| && ListedByRole(p) && Distinct(p.order)
    ensures RolesRise(Flat(Lineup(p, stages)))
  {
    if stages > 0 {
      var role := p.order[stages - 1];
      var front, part := Flat(Lineup(p, stages - 1)), Participants(p, role);
      assert Lineup(p, stages)[..stages - 1] == Lineup(p, stages - 1);
      FlatRises(p, stages - 1);
      ParticipantsRise(p, role);
      forall s, t | s in front && t in part ensures s.role != t.role {
        OtherRole(p, stages, s, t);
      }
      JoinRises(front, part);
    }
  }

  /** Whatever the order the instances come in, a plan moves those of one role by rising ordinal, and by the name of
      the node where ordinals are equal. */
  lemma OrdinalsRise(p: PlanInput, batches: seq<Batch>, i: nat, j: nat)
    requires Plan(p, batches) && ListedByRole(p) && Distinct(p.order)
    requires i < j < |Gathered(batches)| && Gathered(batches)[i].role == Gathered(batches)[j].role
    ensures var a, b := Gathered(batches)[i], Gathered(batches)[j];
            a.ordinal <= b.ordinal && (a.ordinal == b.ordinal ==> Precedes(a.node, b.node))
  {
    PlanGathers(p, Lineup(p, |p.order|), batches);
    FlatRises(p, |p.order|);
    NameLeqExactly(Gathered(batches)[i].node, Gathered(batches)[j].node);
  }

  lemma InLastStage(p: PlanInput, parts: seq<seq<Target>>, batches: seq<Batch>, m: nat, k: nat)
    requires 1 <= |parts| <= |p.order| && m <= k < |batches| && LastStage(p, parts, batches, m)
    ensures StageBatch(p, |parts|, |parts[|parts| - 1]|, m, batches[k], k - m)
    ensures forall t :: t in batches[k].targets ==> t in parts[|parts| - 1]
    ensures k + 1 < |batches| ==> |batches[k].targets| == Size(p, batches[k].role, |parts[|parts| - 1]|, k == m)
  {
    var last := batches[m..];
    assert last[k - m] == batches[k];
    forall t | t in batches[k].targets ensures t in parts[|parts| - 1] {
      GatheredMember(last, k - m, t);
    }
  }

  /** The stage a batch was cut in, with its position there: the batches from k - at on are those of its stage so
      far, and it is full unless it is the stage's last. */
  lemma {:induction false} StageOfBatch(p: PlanInput, parts: seq<seq<Target>>, batches: seq<Batch>, k: nat)
      returns (stage: nat, at: nat)
    requires |parts| <= |p.order| && PlanOf(p, parts, batches) && k < |batches|
    ensures 1 <= stage <= |parts| && at <= k
    ensures StageBatch(p, stage, |parts[stage - 1]|, k - at, batches[k], at)
    ensures forall t :: t in batches[k].targets ==> t in parts[stage - 1]
    ensures forall j :: 0 <= j <= k ==> (batches[j].stage == stage <==> k - at <= j)
    ensures k + 1 < |batches| && batches[k + 1].stage == stage
            ==> |batches[k].targets| == Size(p, batches[k].role, |parts[stage - 1]|, at == 0)
    decreases |parts|
  {
    var m: nat :| m <= |batches| && LastStage(p, parts, batches, m) && PlanOf(p, parts[..|parts| - 1], batches[..m]);
    var front := batches[..m];
    if k < m {
      stage, at := StageOfBatch(p, parts[..|parts| - 1], front, k);
      assert forall j :: 0 <= j < m ==> front[j] == batches[j];
      if k + 1 == m < |batches| {
        InLastStage(p, parts, batches, m, m);
      }
    } else {
      stage, at := |parts|, k - m;
      InLastStage(p, parts, batches, m, k);
      forall j | 0 <= j <= k ensures batches[j].stage == stage <==> m <= j {
        EarlierOrLast(p, parts, batches, m, j);
      }
    }
  }

  lemma EarlierOrLast(p: PlanInput, parts: seq<seq<Target>>, batches: seq<Batch>, m: nat, j: nat)
    requires 1 <= |parts| <= |p.order| && m <= |batches| && j < |batches|
    requires LastStage(p, parts, batches, m) && PlanOf(p, parts[..|parts| - 1], batches[..m])
    ensures batches[j].stage == |parts| <==> m <= j
    decreases |parts|, 0
  {
    if j < m {
      var earlier, _ := StageOfBatch(p, parts[..|parts| - 1], batches[..m], j);
      assert batches[..m][j] == batches[j];
    } else {
      InLastStage(p, parts, batches, m, j);
    }
  }

  lemma {:induction false} LineupAt(p: PlanInput, stages: nat, s: nat)
    requires s < stages <= |p.order|
    ensures Lineup(p, stages)[s] == Participants(p, p.order[s])
  {
    if s < stages - 1 {
      LineupAt(p, stages - 1, s);
    }
  }

  lemma PlannedBatches(p: PlanInput, batches: seq<Batch>, k: nat)
    requires Plan(p, batches) && k < |batches|
    ensures PlannedBatch(p, batches[k], k)
    ensures |batches[k].targets| <= Limit(p, batches[k].role, |Participants(p, batches[k].role)|)
  {
    var stage, at := StageOfBatch(p, Lineup(p, |p.order|), batches, k);
    LineupAt(p, |p.order|, stage - 1);
    RoleConserved(p, p.order[stage - 1]);
  }

  /** No batch before the k-th belongs to its stage. */
  ghost predicate FirstOfItsStage(batches: seq<Batch>, k: nat)
    requires k < |batches|
  {
    forall j :: 0 <= j < k ==> batches[j].stage != batches[k].stage
  }

  /** The batch sizes in terms of what the user set (0 or less for the default of maxUnavailable, less than 0 for
      that of canary, 0 for no canary): never above maxUnavailable, never half of a quorum role unless it is a single
      instance, and a role's first batch not above the canary. */
  lemma SizesRespectTheKnobs(p: PlanInput, batches: seq<Batch>, k: nat)
    requires Plan(p, batches) && k < |batches|
    ensures var b := batches[k];
            && |b.targets| <= (if p.maxUnavailable <= 0 then 1 else p.maxUnavailable)
            && (b.role in p.quorum && p.quorum[b.role]
               ==> |b.targets| == 1 || 2 * |b.targets| < |Participants(p, b.role)|)
            && (FirstOfItsStage(batches, k) && p.canary != 0 ==> |b.targets| <= if p.canary < 0 then 1 else p.canary)
  {
    var stage, at := StageOfBatch(p, Lineup(p, |p.order|), batches, k);
    LineupAt(p, |p.order|, stage - 1);
    if at > 0 {
      assert batches[k - 1].stage == stage;
    }
  }

  /** And nothing is smaller than that without need: a batch that is not its role's last is at one of these bounds. */
  lemma SizesUseTheKnobs(p: PlanInput, batches: seq<Batch>, k: nat)
    requires Plan(p, batches) && k + 1 < |batches| && batches[k + 1].stage == batches[k].stage
    ensures var b := batches[k];
            || |b.targets| == (if p.maxUnavailable <= 0 then 1 else p.maxUnavailable)
            || (b.role in p.quorum && p.quorum[b.role] && 2 * (|b.targets| + 1) >= |Participants(p, b.role)|)
            || (FirstOfItsStage(batches, k) && p.canary != 0 && |b.targets| == if p.canary < 0 then 1 else p.canary)
  {
    var stage, at := StageOfBatch(p, Lineup(p, |p.order|), batches, k);
    LineupAt(p, |p.order|, stage - 1);
  }

  lemma {:induction false} StagesRise(p: PlanInput, parts: seq<seq<Target>>, batches: seq<Batch>, i: nat, j: nat)
    requires |parts| <= |p.order| && PlanOf(p, parts, batches) && i <= j < |batches|
    ensures batches[i].stage <= batches[j].stage
  {
    var m: nat :| m <= |batches| && LastStage(p, parts, batches, m) && PlanOf(p, parts[..|parts| - 1], batches[..m]);
    if j < m {
      assert batches[..m][i] == batches[i] && batches[..m][j] == batches[j];
      StagesRise(p, parts[..|parts| - 1], batches[..m], i, j);
    } else {
      var _, _ := StageOfBatch(p, parts, batches, i);
      assert batches[m..][j - m] == batches[j];
    }
  }

  /** Two batches whose roles are ordered are themselves ordered. */
  lemma PlanFollowsOrder(p: PlanInput, batches: seq<Batch>, i: nat, j: nat, x: nat, y: nat)
    requires Plan(p, batches) && Distinct(p.order)
    requires i < |batches| && j < |batches| && x < y < |p.order|
    requires batches[i].role == p.order[x] && batches[j].role == p.order[y]
    ensures i < j
  {
    PlannedBatches(p, batches, i);
    PlannedBatches(p, batches, j);
    if j <= i {
      StagesRise(p, Lineup(p, |p.order|), batches, j, i);
    }
  }

  lemma LimitKeepsMajority(p: PlanInput, role: string, n: nat, all: nat)
    requires role in p.quorum && p.quorum[role] && n <= all && 3 <= all
    ensures 2 * (all - Limit(p, role, n)) > all
  {}

  /** A quorum role of three or more instances, cordoned ones counted, keeps a majority outside any one batch. */
  lemma QuorumKeepsMajority(p: PlanInput, batches: seq<Batch>, k: nat)
    requires Plan(p, batches) && k < |batches|
    requires batches[k].role in p.quorum && p.quorum[batches[k].role]
    requires |InstancesOf(p, batches[k].role)| >= 3
    ensures 2 * (|InstancesOf(p, batches[k].role)| - |batches[k].targets|) > |InstancesOf(p, batches[k].role)|
  {
    var role := batches[k].role;
    RoleConserved(p, role);
    LimitKeepsMajority(p, role, |Participants(p, role)|, |InstancesOf(p, role)|);
    PlannedBatches(p, batches, k);
  }
}
