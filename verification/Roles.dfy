/** The `requires` graph between the roles of a Pack: the cycle search that lint runs,
    and the depth-first order in which a rollout visits the roles. */
module Roles {
  import opened Options
  import opened Sorting

  /** A role as a Pack declares it; `needs` lists the roles it requires. */
  datatype Declared = Declared(name: string, needs: seq<string>, quorum: bool)

  /** A role under a chosen profile. */
  datatype Role = Role(name: string, needs: seq<string>, enabled: bool, quorum: bool)

  /** RolesForProfile: the profile may switch off roles by name. */
  function Effective(pack: seq<Declared>, disabled: set<string>): (roles: seq<Role>) {
    seq(|pack|, i requires 0 <= i < |pack| =>
      Role(pack[i].name, pack[i].needs, pack[i].name !in disabled, pack[i].quorum))
  }

  /** Role name to the names it requires. Names outside the domain are not roles. */
  type Graph = map<string, seq<string>>

  ghost predicate Edge(g: Graph, a: string, b: string) {
    a in g && b in g && b in g[a]
  }

  ghost predicate Walk(g: Graph, w: seq<string>) {
    forall i :: 0 <= i < |w| - 1 ==> Edge(g, w[i], w[i + 1])
  }

  ghost predicate ClosedWalk(g: Graph, w: seq<string>) {
    |w| >= 2 && w[0] == w[|w| - 1] && Walk(g, w)
  }

  ghost predicate Acyclic(g: Graph) {
    forall w :: !ClosedWalk(g, w)
  }

  /** Every required role stands before the role that requires it. */
  ghost predicate DepsFirst(g: Graph, order: seq<string>) {
    forall i, d :: 0 <= i < |order| && Edge(g, order[i], d) ==> d in order[..i]
  }

  ghost predicate OrderOf(g: Graph, order: seq<string>) {
    Distinct(order) && (forall x :: x in order <==> x in g)
  }

  // ---- the two graphs read off a role list ----

  /** Lookup by name takes the first declaration. */
  function DeclaredGraph(pack: seq<Declared>): Graph {
    if pack == [] then map[]
    else
      var last := pack[|pack| - 1];
      var g := DeclaredGraph(pack[..|pack| - 1]);
      if last.name in g then g else g[last.name := last.needs]
  }

  /** The rollout indexes the enabled roles by name; a later declaration replaces an earlier one. */
  function EnabledGraph(roles: seq<Role>): Graph {
    if roles == [] then map[]
    else
      var last := roles[|roles| - 1];
      var g := EnabledGraph(roles[..|roles| - 1]);
      if last.enabled then g[last.name := last.needs] else g
  }

  ghost predicate DistinctNames(pack: seq<Declared>) {
    forall i, j :: 0 <= i < j < |pack| ==> pack[i].name != pack[j].name
  }

  function NamesOf(pack: seq<Declared>): (names: seq<string>) {
    seq(|pack|, i requires 0 <= i < |pack| => pack[i].name)
  }

  lemma {:induction false} DeclaredKeys(pack: seq<Declared>)
    ensures forall n :: n in DeclaredGraph(pack) <==> n in NamesOf(pack)
  {
    if pack != [] {
      var front, last := pack[..|pack| - 1], pack[|pack| - 1];
      DeclaredKeys(front);
      assert NamesOf(pack) == NamesOf(front) + [last.name];
    }
  }

  lemma {:induction false} DeclaredLookup(pack: seq<Declared>, k: nat)
    requires DistinctNames(pack) && k < |pack|
    ensures pack[k].name in DeclaredGraph(pack) && DeclaredGraph(pack)[pack[k].name] == pack[k].needs
  {
    var front := pack[..|pack| - 1];
    DeclaredKeys(front);
    if k < |pack| - 1 {
      DeclaredLookup(front, k);
      assert front[k] == pack[k];
    }
  }

  /** An enabled role brings its own list of requirements along. */
  lemma {:induction false} EnabledLookup(roles: seq<Role>, n: string) returns (k: nat)
    requires n in EnabledGraph(roles)
    ensures k < |roles| && roles[k].enabled && roles[k].name == n && EnabledGraph(roles)[n] == roles[k].needs
  {
    var last := roles[|roles| - 1];
    if last.enabled && last.name == n {
      k := |roles| - 1;
    } else {
      k := EnabledLookup(roles[..|roles| - 1], n);
    }
  }

  // ---- what lint says about roles ----

  /** The rules on roles that their order depends on: some role, no name twice, only known roles required, no cycle. */
  ghost predicate Clean(pack: seq<Declared>) {
    && pack != [] && DistinctNames(pack)
    && (forall i, d :: 0 <= i < |pack| && d in pack[i].needs ==> d in NamesOf(pack))
    && Acyclic(DeclaredGraph(pack))
  }

  /** Under every profile the enabled roles of a Pack that lint passes form no cycle. */
  lemma CleanPackIsAcyclic(pack: seq<Declared>, disabled: set<string>)
    requires Clean(pack)
    ensures Acyclic(EnabledGraph(Effective(pack, disabled)))
  {
    var roles, d := Effective(pack, disabled), DeclaredGraph(pack);
    var e := EnabledGraph(roles);
    forall a, b | Edge(e, a, b) ensures Edge(d, a, b) {
      var k := EnabledLookup(roles, a);
      var l := EnabledLookup(roles, b);
      DeclaredLookup(pack, k);
      DeclaredLookup(pack, l);
    }
    forall w ensures !ClosedWalk(e, w) {
      if ClosedWalk(e, w) {
        assert ClosedWalk(d, w);
      }
    }
  }

  // ---- order and cycles ----

  ghost function Pos(order: seq<string>, x: string): (i: nat)
    requires x in order
    ensures i < |order| && order[i] == x
  {
    var i :| 0 <= i < |order| && order[i] == x; i
  }

  lemma {:induction false} WalkDescends(g: Graph, order: seq<string>, w: seq<string>, k: nat)
    requires OrderOf(g, order) && DepsFirst(g, order) && Walk(g, w) && k < |w| && 2 <= |w|
    ensures w[0] in order && w[k] in order && Pos(order, w[k]) + k <= Pos(order, w[0])
  {
    assert Edge(g, w[0], w[1]);
    if k > 0 {
      WalkDescends(g, order, w, k - 1);
      var i := Pos(order, w[k - 1]);
      assert Edge(g, order[i], w[k]);
      var j :| 0 <= j < i && order[..i][j] == w[k];
      assert order[j] == w[k] && Pos(order, w[k]) == j;
    }
  }

  /** A dependency order exists for no cyclic graph. */
  lemma OrderedImpliesAcyclic(g: Graph, order: seq<string>)
    requires OrderOf(g, order) && DepsFirst(g, order)
    ensures Acyclic(g)
  {
    forall w ensures !ClosedWalk(g, w) {
      if ClosedWalk(g, w) {
        WalkDescends(g, order, w, |w| - 1);
      }
    }
  }

  /** A step back onto the current path closes a cycle. */
  lemma BackEdgeCloses(g: Graph, path: seq<string>, d: string, i: nat)
    requires Walk(g, path) && i < |path| && path[i] == d && Edge(g, path[|path| - 1], d)
    ensures ClosedWalk(g, path[i..] + [d])
  {}

  lemma ExtendWalk(g: Graph, path: seq<string>, d: string)
    requires path != [] && Walk(g, path) && Edge(g, path[|path| - 1], d)
    ensures Walk(g, path + [d])
  {}

  // ---- roleOrder ----

  datatype Mark = Busy | Finished

  /** State of the depth-first visit: `path` is the chain of roles whose visit is still open. */
  ghost predicate Visiting(g: Graph, visited: map<string, Mark>, out: seq<string>, path: seq<string>) {
    && (forall x :: x in visited ==> x in g)
    && (forall x :: x in path <==> x in visited && visited[x] == Busy)
    && (forall x :: x in out <==> x in visited && visited[x] == Finished)
    && Distinct(out)
    && (Acyclic(g) ==> DepsFirst(g, out))
  }

  lemma FinishKeeps(g: Graph, visited: map<string, Mark>, out: seq<string>, path: seq<string>, n: string)
    requires Visiting(g, visited, out, path + [n]) && n !in path && Walk(g, path + [n])
    requires forall d :: Edge(g, n, d) ==> d in visited
    ensures Visiting(g, visited[n := Finished], out + [n], path)
  {
    var here := path + [n];
    assert here[|path|] == n && n in here;
    forall x ensures x in path <==> x in here && x != n {
      if x in here && x != n {
        var i :| 0 <= i < |here| && here[i] == x;
        assert path[i] == x;
      }
      if x in path {
        var i :| 0 <= i < |path| && path[i] == x;
        assert here[i] == x;
      }
    }
    assert forall x :: x in out + [n] <==> x in out || x == n;
    if Acyclic(g) {
      forall d | Edge(g, n, d) ensures d in out {
        if visited[d] == Busy {
          var i :| 0 <= i < |here| && here[i] == d;
          BackEdgeCloses(g, here, d, i);
        }
      }
      AppendOrdered(g, out, n);
    }
  }

  lemma AppendOrdered(g: Graph, out: seq<string>, n: string)
    requires DepsFirst(g, out) && forall d :: Edge(g, n, d) ==> d in out
    ensures DepsFirst(g, out + [n])
  {
    var o := out + [n];
    forall i, d | 0 <= i < |o| && Edge(g, o[i], d) ensures d in o[..i] {
      assert o[..i] == out[..i];
    }
  }

  /** b is a, or a requires it, directly or through others. */
  ghost predicate ReachesTo(g: Graph, a: string, b: string) {
    exists w :: w != [] && Walk(g, w) && w[0] == a && w[|w| - 1] == b
  }

  /** What is listed newly is reached from n. */
  ghost predicate ListedFrom(g: Graph, n: string, before: seq<string>, out: seq<string>) {
    before <= out && forall k {:trigger ReachesTo(g, n, out[k])} :: |before| <= k < |out| ==> ReachesTo(g, n, out[k])
  }

  lemma ListedThrough(g: Graph, n: string, d: string, a: seq<string>, b: seq<string>, c: seq<string>)
    requires ListedFrom(g, n, a, b) && Edge(g, n, d) && ListedFrom(g, d, b, c)
    ensures ListedFrom(g, n, a, c)
  {
    forall k | |a| <= k < |c| ensures ReachesTo(g, n, c[k]) {
      if k < |b| {
        assert c[k] == b[k] && ReachesTo(g, n, b[k]);
      } else {
        assert ReachesTo(g, d, c[k]);
        var w :| w != [] && Walk(g, w) && w[0] == d && w[|w| - 1] == c[k];
        var longer := [n] + w;
        assert forall i :: 0 < i < |longer| - 1 ==> Edge(g, w[i - 1], w[i]);
        assert longer[0] == n && longer[|longer| - 1] == c[k] && Walk(g, longer);
      }
    }
  }

  lemma ListedItself(g: Graph, n: string, before: seq<string>, out: seq<string>)
    requires ListedFrom(g, n, before, out)
    ensures ListedFrom(g, n, before, out + [n])
  {
    assert Walk(g, [n]) && [n][0] == n;
    assert ReachesTo(g, n, n);
  }

  /** Whatever is listed before a role is reached from some role whose name is not after it. */
  ghost predicate ByName(g: Graph, out: seq<string>) {
    forall i, j {:trigger ReachedEarly(g, out[i], out[j])} :: 0 <= i < j < |out| ==> ReachedEarly(g, out[i], out[j])
  }

  ghost predicate ReachedEarly(g: Graph, x: string, y: string) {
    exists z :: z in g && NameLeq(z, y) && ReachesTo(g, z, x)
  }

  /** The first i names have been visited: they are listed, and whatever is listed is reached from them. */
  ghost predicate Visited(g: Graph, names: seq<string>, i: nat, out: seq<string>)
    requires i <= |names|
  {
    && (forall k :: 0 <= k < i ==> ListedAt(names, k, out))
    && (forall p :: 0 <= p < |out| ==> WellListed(g, names, i, out, p))
  }

  ghost predicate WellListed(g: Graph, names: seq<string>, i: nat, out: seq<string>, p: nat)
    requires i <= |names| && p < |out|
  {
    out[p] in g && ReachedFrom(g, names, i, out[p])
  }

  ghost predicate ListedAt(names: seq<string>, k: nat, out: seq<string>)
    requires k < |names|
  {
    names[k] in out
  }

  ghost predicate ReachedFrom(g: Graph, names: seq<string>, i: nat, x: string)
    requires i <= |names|
  {
    exists r {:trigger ReachesTo(g, names[r], x)} :: 0 <= r < i && ReachesTo(g, names[r], x)
  }

  lemma StillReached(g: Graph, names: seq<string>, i: nat, before: seq<string>, out: seq<string>, p: nat)
    requires i < |names| && Visited(g, names, i, before) && ListedFrom(g, names[i], before, out) && p < |out|
    ensures ReachedFrom(g, names, i + 1, out[p])
  {
    if p < |before| {
      assert WellListed(g, names, i, before, p) && before[p] == out[p];
      var r :| 0 <= r < i && ReachesTo(g, names[r], before[p]);
    } else {
      assert ReachesTo(g, names[i], out[p]);
    }
  }

  lemma VisitsNext(g: Graph, names: seq<string>, i: nat, before: seq<string>, out: seq<string>)
    requires i < |names| && Visited(g, names, i, before) && ListedFrom(g, names[i], before, out)
    requires names[i] in out && forall x :: x in out ==> x in g
    ensures Visited(g, names, i + 1, out)
  {
    var next := i + 1;
    forall p | 0 <= p < |out| ensures WellListed(g, names, next, out, p) {
      StillReached(g, names, i, before, out, p);
    }
    forall k | 0 <= k < i + 1 ensures ListedAt(names, k, out) {
      assert k < i ==> ListedAt(names, k, before);
    }
  }

  lemma NextByName(g: Graph, names: seq<string>, i: nat, before: seq<string>, out: seq<string>, x: string, q: nat)
    requires i < |names| && Visited(g, names, i, before) && before <= out && |before| <= q < |out|
    requires ReachedFrom(g, names, i + 1, x) && Distinct(out) && out[q] in g
    requires SortedBy(names, NameLeq) && (forall x :: x in names <==> x in g)
    ensures ReachedEarly(g, x, out[q])
  {
    var r :| 0 <= r < i + 1 && ReachesTo(g, names[r], x);
    LaterName(g, names, i, before, out, q);
    NameLeqTotal(names[r], names[r]);
    NameLeqTransitive(names[r], names[i], out[q]);
    assert names[r] in names;
  }

  lemma ByNameNext(g: Graph, names: seq<string>, i: nat, before: seq<string>, out: seq<string>)
    requires i < |names| && ByName(g, before) && Visited(g, names, i, before)
    requires before <= out && Distinct(out) && Visited(g, names, i + 1, out)
    requires SortedBy(names, NameLeq) && (forall x :: x in names <==> x in g)
    ensures ByName(g, out)
  {
    forall p, q | 0 <= p < q < |out| ensures ReachedEarly(g, out[p], out[q]) {
      if q < |before| {
        assert ReachedEarly(g, before[p], before[q]);
      } else {
        assert WellListed(g, names, i + 1, out, p) && WellListed(g, names, i + 1, out, q);
        NextByName(g, names, i, before, out, out[p], q);
      }
    }
  }

  ghost predicate Started(g: Graph, names: seq<string>, i: nat, out: seq<string>)
    requires i <= |names|
  {
    Visited(g, names, i, out) && ByName(g, out)
  }

  lemma StartsNext(g: Graph, names: seq<string>, i: nat, before: seq<string>, out: seq<string>)
    requires i < |names| && Started(g, names, i, before) && ListedFrom(g, names[i], before, out)
    requires SortedBy(names, NameLeq) && (forall x :: x in names <==> x in g)
    requires names[i] in out && Distinct(out) && forall x :: x in out ==> x in g
    ensures Started(g, names, i + 1, out)
  {
    VisitsNext(g, names, i, before, out);
    ByNameNext(g, names, i, before, out);
  }

  lemma LaterName(g: Graph, names: seq<string>, i: nat, before: seq<string>, out: seq<string>, q: nat)
    requires i < |names| && Visited(g, names, i, before) && before <= out && |before| <= q < |out|
    requires SortedBy(names, NameLeq) && (forall x :: x in names <==> x in g)
    requires Distinct(out) && out[q] in g
    ensures NameLeq(names[i], out[q])
  {
    var k :| 0 <= k < |names| && names[k] == out[q];
    NameLeqTotal(names[i], names[i]);
    assert forall p :: 0 <= p < |before| ==> before[p] == out[p] && out[p] != out[q];
    forall j | 0 <= j < i ensures names[j] != out[q] {
      assert ListedAt(names, j, before);
    }
  }

  /** Depth-first visit that lists a role after the roles it requires (roleOrder). */
  class RoleSorter {
    const g: Graph
    var visited: map<string, Mark>
    var out: seq<string>

    constructor (g: Graph)
      ensures this.g == g && visited == map[] && out == []
    {
      this.g := g;
      visited, out := map[], [];
    }

    method Visit(n: string, ghost path: seq<string>)
      requires n in g && Visiting(g, visited, out, path) && Walk(g, path + [n])
      modifies this
      ensures Visiting(g, visited, out, path) && n in visited
      ensures old(visited).Keys <= visited.Keys && ListedFrom(g, n, old(out), out)
      decreases g.Keys - visited.Keys
    {
      if n in visited {
        return;
      }
      visited := visited[n := Busy];
      var deps := SortNames(g[n]);
      SortByMembers(g[n], NameLeq);
      ghost var here := path + [n];
      var k := 0;
      while k < |deps|
        invariant 0 <= k <= |deps|
        invariant Visiting(g, visited, out, here)
        invariant old(visited).Keys + {n} <= visited.Keys && ListedFrom(g, n, old(out), out)
        invariant forall j :: 0 <= j < k && deps[j] in g ==> deps[j] in visited
      {
        if deps[k] in g {
          ExtendWalk(g, here, deps[k]);
          ghost var before := out;
          Visit(deps[k], here);
          ListedThrough(g, n, deps[k], old(out), before, out);
        }
        k := k + 1;
      }
      assert forall d :: Edge(g, n, d) ==> d in visited;
      FinishKeeps(g, visited, out, path, n);
      ListedItself(g, n, old(out), out);
      visited := visited[n := Finished];
      out := out + [n];
    }

    method VisitAll(names: seq<string>)
      requires visited == map[] && out == [] && SortedBy(names, NameLeq) && forall x :: x in names <==> x in g
      modifies this
      ensures Visiting(g, visited, out, []) && (forall x :: x in g ==> x in visited) && ByName(g, out)
    {
      var i := 0;
      while i < |names|
        invariant 0 <= i <= |names|
        invariant Visiting(g, visited, out, []) && Started(g, names, i, out)
        invariant forall j :: 0 <= j < i ==> names[j] in visited
      {
        VisitOne(names, i);
        i := i + 1;
      }
    }

    method VisitOne(names: seq<string>, i: nat)
      requires i < |names| && SortedBy(names, NameLeq) && forall x :: x in names <==> x in g
      requires Visiting(g, visited, out, []) && Started(g, names, i, out)
      modifies this
      ensures Visiting(g, visited, out, []) && Started(g, names, i + 1, out)
      ensures old(visited).Keys <= visited.Keys && names[i] in visited
    {
      assert Walk(g, [] + [names[i]]);
      Visit(names[i], []);
      StartsNext(g, names, i, old(out), out);
    }
  }

  /** The order in which a rollout visits the roles. Every enabled role is listed exactly once
      whatever the graph; it is a dependency order exactly when the enabled roles form no cycle. */
  method RoleOrder(roles: seq<Role>) returns (order: seq<string>)
    ensures OrderOf(EnabledGraph(roles), order)
    ensures DepsFirst(EnabledGraph(roles), order) <==> Acyclic(EnabledGraph(roles))
    ensures ByName(EnabledGraph(roles), order)
  {
    var g, names := IndexEnabled(roles);
    names := SortedNames(names);
    var s := new RoleSorter(g);
    s.VisitAll(names);
    order := s.out;
    if DepsFirst(g, order) {
      OrderedImpliesAcyclic(g, order);
    }
  }

  method SortedNames(names: seq<string>) returns (sorted: seq<string>)
    ensures SortedBy(sorted, NameLeq) && forall x :: x in sorted <==> x in names
  {
    SortByMembers(names, NameLeq);
    NameLeqIsTotalPreorder();
    SortBySorted(names, NameLeq);
    sorted := SortNames(names);
  }

  /** In literal terms: a role stands before another only if it is reached from a role whose name is not after that
      one's. So where nothing is required the order is that of the names. */
  lemma ByNameMeans(g: Graph, order: seq<string>, i: nat, j: nat)
    requires ByName(g, order) && i < j < |order|
    ensures exists z :: z in g && Precedes(z, order[j]) && ReachesTo(g, z, order[i])
    ensures (forall a, b :: !Edge(g, a, b)) ==> Precedes(order[i], order[j])
  {
    assert ReachedEarly(g, order[i], order[j]);
    var z :| z in g && NameLeq(z, order[j]) && ReachesTo(g, z, order[i]);
    NameLeqExactly(z, order[j]);
    if forall a, b :: !Edge(g, a, b) {
      var w :| w != [] && Walk(g, w) && w[0] == z && w[|w| - 1] == order[i];
      assert |w| > 1 ==> Edge(g, w[0], w[1]);
    }
  }

  /** The enabled roles by name, and their names in declaration order. */
  method IndexEnabled(roles: seq<Role>) returns (g: Graph, names: seq<string>)
    ensures g == EnabledGraph(roles)
    ensures forall n :: n in names <==> n in g
  {
    g, names := map[], [];
    var i := 0;
    while i < |roles|
      invariant 0 <= i <= |roles|
      invariant g == EnabledGraph(roles[..i])
      invariant forall n :: n in names <==> n in g
    {
      assert roles[..i + 1][..i] == roles[..i];
      if roles[i].enabled {
        g := g[roles[i].name := roles[i].needs];
        names := names + [roles[i].name];
      }
      i := i + 1;
    }
    assert roles[..i] == roles;
  }

  // ---- findRoleCycle ----

  datatype Colour = Gray | Black

  /** State of the cycle search: gray roles are those on the stack; `finished` lists the black ones in the
      order they turned black, each after everything it requires. */
  ghost predicate Searching(g: Graph, state: map<string, Colour>, stack: seq<string>, finished: seq<string>) {
    && (forall x :: x in state ==> x in g)
    && (forall x :: x in stack <==> x in state && state[x] == Gray)
    && (forall x :: x in finished <==> x in state && state[x] == Black)
    && Distinct(stack) && Distinct(finished)
    && DepsFirst(g, finished)
    && Walk(g, stack)
  }

  lemma EnterKeeps(g: Graph, state: map<string, Colour>, stack: seq<string>, finished: seq<string>, n: string)
    requires Searching(g, state, stack, finished) && n in g && n !in state && Walk(g, stack + [n])
    ensures Searching(g, state[n := Gray], stack + [n], finished)
  {}

  lemma LeaveKeeps(g: Graph, state: map<string, Colour>, stack: seq<string>, finished: seq<string>, n: string)
    requires Searching(g, state, stack + [n], finished)
    requires forall d :: Edge(g, n, d) ==> d in finished
    ensures Searching(g, state[n := Black], stack, finished + [n])
  {
    var full := stack + [n];
    assert full[|stack|] == n;
    forall i | 0 <= i < |stack| ensures stack[i] != n {
      assert full[i] != full[|stack|];
    }
    assert state[n] == Gray by { assert n in full; }
    forall x ensures x in stack <==> x in full && x != n {
      if x in stack {
        var i :| 0 <= i < |stack| && stack[i] == x;
        assert full[i] == x;
      }
      if x in full && x != n {
        var i :| 0 <= i < |full| && full[i] == x;
        assert stack[i] == x;
      }
    }
    assert forall x :: x in finished + [n] <==> x in finished || x == n;
    forall i | 0 <= i < |stack| - 1 ensures Edge(g, stack[i], stack[i + 1]) {
      assert Edge(g, full[i], full[i + 1]);
    }
    forall i, j | 0 <= i < j < |stack| ensures stack[i] != stack[j] {
      assert full[i] != full[j];
    }
    AppendOrdered(g, finished, n);
  }

  class CycleFinder {
    const g: Graph
    var state: map<string, Colour>
    var stack: seq<string>
    ghost var finished: seq<string>

    constructor (g: Graph)
      ensures this.g == g && state == map[] && stack == [] && finished == []
    {
      this.g := g;
      state, stack, finished := map[], [], [];
    }

    method Dfs(n: string) returns (c: Option<seq<string>>)
      requires Searching(g, state, stack, finished) && n in g && n !in state && Walk(g, stack + [n])
      modifies this
      ensures c.Some? ==> ClosedWalk(g, c.value)
      ensures c.None? ==> Searching(g, state, stack, finished) && stack == old(stack) && n in finished
      ensures c.None? ==> old(state).Keys <= state.Keys && forall x :: x in old(finished) ==> x in finished
      decreases g.Keys - state.Keys
    {
      EnterKeeps(g, state, stack, finished, n);
      state := state[n := Gray];
      stack := stack + [n];
      ghost var here := stack;
      var deps, k := g[n], 0;
      while k < |deps|
        invariant 0 <= k <= |deps|
        invariant Searching(g, state, stack, finished) && stack == here
        invariant old(state).Keys + {n} <= state.Keys && forall x :: x in old(finished) ==> x in finished
        invariant forall j :: 0 <= j < k && deps[j] in g ==> deps[j] in finished
      {
        var d := deps[k];
        if d in g {
          if d in state && state[d] == Gray {
            var i := 0;
            while stack[i] != d
              invariant 0 <= i < |stack| && d !in stack[..i]
              decreases |stack| - i
            {
              i := i + 1;
            }
            BackEdgeCloses(g, stack, d, i);
            return Some(stack[i..] + [d]);
          } else if d !in state {
            ExtendWalk(g, stack, d);
            c := Dfs(d);
            if c.Some? {
              return;
            }
          }
        }
        k := k + 1;
      }
      assert forall d :: Edge(g, n, d) ==> d in finished;
      assert stack[..|stack| - 1] == old(stack);
      LeaveKeeps(g, state, old(stack), finished, n);
      stack := stack[..|stack| - 1];
      state := state[n := Black];
      finished := finished + [n];
      c := None;
    }
  }

  /** The cycle search of lint: it answers with a closed walk of `requires` edges,
      and answers nothing exactly when there is none. */
  method FindRoleCycle(pack: seq<Declared>) returns (c: Option<seq<string>>)
    ensures c.Some? ==> ClosedWalk(DeclaredGraph(pack), c.value)
    ensures c.None? <==> Acyclic(DeclaredGraph(pack))
  {
    var g := DeclaredGraph(pack);
    var sorted := SortNames(NamesOf(pack));
    SortByMembers(NamesOf(pack), NameLeq);
    DeclaredKeys(pack);
    var f := new CycleFinder(g);
    var i := 0;
    while i < |sorted|
      invariant 0 <= i <= |sorted|
      invariant f.g == g && fresh(f)
      invariant Searching(g, f.state, f.stack, f.finished) && f.stack == []
      invariant forall j :: 0 <= j < i ==> sorted[j] in f.finished
    {
      if sorted[i] !in f.state {
        assert Walk(g, [] + [sorted[i]]);
        c := f.Dfs(sorted[i]);
        if c.Some? {
          return;
        }
      }
      i := i + 1;
    }
    SearchDone(g, f.state, f.finished, sorted);
    c := None;
  }

  lemma SearchDone(g: Graph, state: map<string, Colour>, finished: seq<string>, names: seq<string>)
    requires Searching(g, state, [], finished) && forall n :: n in g ==> n in names
    requires forall j :: 0 <= j < |names| ==> names[j] in finished
    ensures Acyclic(g)
  {
    assert forall n :: n in finished <==> n in g;
    OrderedImpliesAcyclic(g, finished);
  }

  // ---- checkRoles ----

  datatype Finding =
    | NoRoles
    | Repeated(at: nat, before: nat)
    | UnknownRole(at: nat, dep: string)
    | Cycle(walk: seq<string>)

  /** A finding names what is wrong. */
  ghost predicate Justified(pack: seq<Declared>, f: Finding) {
    match f
    case NoRoles => pack == []
    case Repeated(at, before) => before < at < |pack| && pack[before].name == pack[at].name
    case UnknownRole(at, dep) => at < |pack| && dep in pack[at].needs && dep !in NamesOf(pack)
    case Cycle(walk) => ClosedWalk(DeclaredGraph(pack), walk)
  }

  ghost predicate AllJustified(pack: seq<Declared>, findings: seq<Finding>) {
    forall f :: f in findings ==> Justified(pack, f)
  }

  /** Whether lint has nothing to say about the first k roles, one by one. */
  ghost predicate FineUpTo(pack: seq<Declared>, k: nat)
    requires k <= |pack|
  {
    && (forall i, j :: 0 <= i < j < k ==> pack[i].name != pack[j].name)
    && (forall i, d :: 0 <= i < k && d in pack[i].needs ==> d in NamesOf(pack))
  }

  /** The part of checkRoles that looks at names and requirements: every finding is justified, and there is none
      exactly for clean packs. */
  method CheckRoles(pack: seq<Declared>) returns (findings: seq<Finding>)
    ensures AllJustified(pack, findings)
    ensures findings == [] <==> Clean(pack)
  {
    findings := [];
    if |pack| == 0 {
      return [NoRoles];
    }
    var names := set n | n in NamesOf(pack);
    var seen: map<string, nat> := map[];
    var i := 0;
    while i < |pack|
      invariant 0 <= i <= |pack| && AllJustified(pack, findings)
      invariant forall n :: n in seen <==> exists j :: 0 <= j < i && pack[j].name == n
      invariant forall n :: n in seen ==> seen[n] < i && pack[seen[n]].name == n
      invariant findings == [] <==> FineUpTo(pack, i)
    {
      var name := pack[i].name;
      if name in seen {
        findings := findings + [Repeated(i, seen[name])];
      }
      seen := seen[name := i];
      findings := CheckRequires(pack, i, names, findings);
      i := i + 1;
    }
    var c := FindRoleCycle(pack);
    if c.Some? {
      findings := findings + [Cycle(c.value)];
    }
  }

  method CheckRequires(pack: seq<Declared>, i: nat, names: set<string>, before: seq<Finding>)
      returns (findings: seq<Finding>)
    requires i < |pack| && AllJustified(pack, before) && forall n :: n in names <==> n in NamesOf(pack)
    ensures AllJustified(pack, findings)
    ensures findings == [] <==> before == [] && forall d :: d in pack[i].needs ==> d in NamesOf(pack)
  {
    findings := before;
    var needs := pack[i].needs;
    for k := 0 to |needs|
      invariant AllJustified(pack, findings)
      invariant findings == [] <==> before == [] && forall j :: 0 <= j < k ==> needs[j] in NamesOf(pack)
    {
      if needs[k] !in names {
        findings := findings + [UnknownRole(i, needs[k])];
      }
    }
  }

  // ---- the two graphs, in literal terms ----

  /** The role at k is the last enabled one of its name. */
  predicate LastEnabled(roles: seq<Role>, k: nat)
    requires k < |roles|
  {
    roles[k].enabled && forall j :: k < j < |roles| ==> !(roles[j].enabled && roles[j].name == roles[k].name)
  }

  lemma {:induction false} EnabledExactly(roles: seq<Role>, n: string)
    ensures n in EnabledGraph(roles) <==> exists k :: 0 <= k < |roles| && roles[k].enabled && roles[k].name == n
    ensures forall k :: 0 <= k < |roles| && LastEnabled(roles, k) && roles[k].name == n ==>
              n in EnabledGraph(roles) && EnabledGraph(roles)[n] == roles[k].needs
  {
    if roles != [] {
      var front := roles[..|roles| - 1];
      EnabledExactly(front, n);
      forall k | 0 <= k < |front| && LastEnabled(roles, k) ensures LastEnabled(front, k) {}
    }
  }

  lemma {:induction false} DeclaredExactly(pack: seq<Declared>, k: nat)
    requires k < |pack| && forall j :: 0 <= j < k ==> pack[j].name != pack[k].name
    ensures pack[k].name in DeclaredGraph(pack) && DeclaredGraph(pack)[pack[k].name] == pack[k].needs
  {
    var front := pack[..|pack| - 1];
    DeclaredKeys(front);
    assert forall j :: 0 <= j < |front| ==> NamesOf(front)[j] == front[j].name == pack[j].name;
    if k < |front| {
      DeclaredExactly(front, k);
    }
  }

  /** A profile switches roles off by name and changes nothing else. */
  lemma EffectiveMeans(pack: seq<Declared>, disabled: set<string>, k: nat)
    requires k < |pack|
    ensures |Effective(pack, disabled)| == |pack|
    ensures var r := Effective(pack, disabled)[k];
            && r.name == pack[k].name && r.needs == pack[k].needs && r.quorum == pack[k].quorum
            && (r.enabled <==> pack[k].name !in disabled)
  {}
}
