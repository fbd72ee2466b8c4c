/** The static collection of template references with their profile guards. */
module Templates {
  import opened Options

  // ---- syntax trees ----

  datatype Arg =
    | Ident(name: string)
    | Field(chain: seq<string>)
    | Chained(base: Arg, fields: seq<string>)
    | Sub(pipe: Pipe)
    | Str(text: string)
    | Other

  datatype Cmd = Cmd(args: seq<Arg>)
  datatype Pipe = Pipe(cmds: seq<Cmd>)

  datatype Node =
    | Absent
    | Text
    | List(nodes: seq<Node>)
    | Action(pipe: Pipe)
    | If(pipe: Pipe, thn: Node, els: Node)
    | Range(pipe: Pipe, body: Node, els: Node)
    | With(pipe: Pipe, body: Node, els: Node)
    | Include(name: string, pipe: Pipe)

  type TemplateSet = map<string, Node>

  // ---- guards ----

  /** Where a piece of a template takes effect: only in these profiles when `only` is not empty, never in `not`. */
  datatype Guard = Guard(only: set<string>, not: set<string>) {
    predicate Admits(profile: string) {
      profile !in not && (only != {} ==> profile in only)
    }

    function And(o: Guard): Guard {
      Guard(if only == {} then o.only else if o.only == {} then only else only * o.only, not + o.not)
    }

    function Invert(): Guard {
      Guard(not, only)
    }
  }

  const ANYWHERE := Guard({}, {})

  function Lower(c: char): char {
    if 'A' <= c <= 'Z' then (c as int + 32) as char else c
  }

  predicate EqualFold(a: string, b: string) {
    |a| == |b| && forall i :: 0 <= i < |a| ==> Lower(a[i]) == Lower(b[i])
  }

  predicate IsProfile(a: Arg) {
    a.Field? && |a.chain| == 1 && EqualFold(a.chain[0], "Profile")
  }

  function Texts(args: seq<Arg>): (names: set<string>) {
    set a | a in args && a.Str? :: a.text
  }

  /** The command is `eq` or `ne` and has the profile among its operands. */
  predicate ComparesProfile(cmd: Cmd) {
    && cmd.args != [] && (cmd.args[0] == Ident("eq") || cmd.args[0] == Ident("ne"))
    && exists a :: a in cmd.args && IsProfile(a)
  }

  /** profileGuardFromPipe: recognises a comparison of the profile with string literals. */
  function ProfileGuard(p: Pipe): Option<Guard> {
    if |p.cmds| != 1 then None
    else
      var args := p.cmds[0].args;
      if |args| < 3 then None
      else if !ComparesProfile(p.cmds[0]) then None
      else
        var names := Texts(args[1..]);
        if names == {} then None
        else if args[0] == Ident("eq") then Some(Guard(names, {}))
        else Some(Guard({}, names))
  }

  // ---- collection ----

  datatype ParamRef = ParamRef(name: string, guard: Guard)

  datatype Collected = Collected(params: seq<ParamRef>, paths: set<string>, deps: set<string>, facts: set<string>,
                                 roles: set<string>, profiles: set<string>, templates: set<string>, usesProfile: bool)

  const NOTHING := Collected([], {}, {}, {}, {}, {}, {}, false)

  /** The parameter that a field chain refers to. */
  function ParamOf(chain: seq<string>): Option<string> {
    if |chain| >= 2 && EqualFold(chain[0], "Params") then Some(chain[1]) else None
  }

  /** recordFieldChain. */
  function Record(c: Collected, chain: seq<string>, g: Guard): Collected {
    if chain == [] then c
    else if EqualFold(chain[0], "Params") && |chain| >= 2 then c.(params := c.params + [ParamRef(chain[1], g)])
    else if EqualFold(chain[0], "Paths") && |chain| >= 2 then c.(paths := c.paths + {chain[1]})
    else if EqualFold(chain[0], "Requires") && |chain| >= 2 then c.(deps := c.deps + {chain[1]})
    else if EqualFold(chain[0], "Profile") then c.(usesProfile := true)
    else if EqualFold(chain[0], "Node") && |chain| >= 3 && EqualFold(chain[1], "Facts")
    then c.(facts := c.facts + {chain[2]})
    else c
  }

  predicate IsTopologyRole(chain: seq<string>) {
    |chain| >= 2 && EqualFold(chain[|chain| - 2], "Topology") && EqualFold(chain[|chain| - 1], "Role")
  }

  /** The last plain field chain among the first k arguments. */
  function LastChain(cmd: Cmd, k: nat): seq<string>
    requires k <= |cmd.args|
  {
    if k == 0 then [] else if cmd.args[k - 1].Field? then cmd.args[k - 1].chain else LastChain(cmd, k - 1)
  }

  /** What a string literal at position k stands for: a role behind `.Topology.Role`, a profile it is compared with. */
  function NoteText(c: Collected, cmd: Cmd, k: nat): Collected
    requires k < |cmd.args|
  {
    if !cmd.args[k].Str? then c
    else
      var one := {cmd.args[k].text};
      c.(roles := if IsTopologyRole(LastChain(cmd, k)) then c.roles + one else c.roles,
         profiles := if k > 0 && ComparesProfile(cmd) then c.profiles + one else c.profiles)
  }

  function WalkArg(c: Collected, a: Arg, g: Guard): Collected
    decreases a
  {
    match a
    case Field(chain) => Record(c, chain, g)
    case Chained(base, fields) => if base.Field? then Record(c, base.chain + fields, g) else c
    case Sub(pipe) => WalkPipe(c, pipe, |pipe.cmds|, g)
    case _ => c
  }

  /** The first k arguments of a command. */
  function WalkCmd(c: Collected, cmd: Cmd, k: nat, g: Guard): Collected
    requires k <= |cmd.args|
    decreases cmd, k
  {
    if k == 0 then c else NoteText(WalkArg(WalkCmd(c, cmd, k - 1, g), cmd.args[k - 1], g), cmd, k - 1)
  }

  /** The first k commands of a pipeline. */
  function WalkPipe(c: Collected, p: Pipe, k: nat, g: Guard): Collected
    requires k <= |p.cmds|
    decreases p, k
  {
    if k == 0 then c else WalkCmd(WalkPipe(c, p, k - 1, g), p.cmds[k - 1], |p.cmds[k - 1].args|, g)
  }

  function WholePipe(c: Collected, p: Pipe, g: Guard): Collected {
    WalkPipe(c, p, |p.cmds|, g)
  }

  function WalkNode(c: Collected, n: Node, g: Guard): Collected
    decreases n
  {
    match n
    case Absent | Text => c
    case List(nodes) => WalkList(c, n, |nodes|, g)
    case Action(pipe) => WholePipe(c, pipe, g)
    case If(pipe, thn, els) =>
      var test := ProfileGuard(pipe);
      WalkNode(WalkNode(WholePipe(c, pipe, g), thn, if test.Some? then g.And(test.value) else g),
               els, if test.Some? then g.And(test.value.Invert()) else g)
    case Range(pipe, body, els) => WalkNode(WalkNode(WholePipe(c, pipe, g), body, g), els, g)
    case With(pipe, body, els) => WalkNode(WalkNode(WholePipe(c, pipe, g), body, g), els, g)
    case Include(name, pipe) => WholePipe(c.(templates := c.templates + {name}), pipe, g)
  }

  /** The first k children of a list. */
  function WalkList(c: Collected, n: Node, k: nat, g: Guard): Collected
    requires n.List? && k <= |n.nodes|
    decreases n, k
  {
    if k == 0 then c else WalkNode(WalkList(c, n, k - 1, g), n.nodes[k - 1], g)
  }

  function Collect(ts: TemplateSet, name: string): Collected {
    if name in ts then WalkNode(NOTHING, ts[name], ANYWHERE) else NOTHING
  }

  function Merge(a: Collected, b: Collected): Collected {
    Collected(a.params + b.params, a.paths + b.paths, a.deps + b.deps, a.facts + b.facts,
              a.roles + b.roles, a.profiles + b.profiles, a.templates + b.templates, a.usesProfile || b.usesProfile)
  }

  /** Something a template can mention; what is collected of it. */
  datatype Mention = Param(name: string) | Path(name: string) | Dep(name: string) | Fact(name: string)
                   | RoleName(name: string) | ProfileName(name: string) | TheProfile

  ghost predicate Mentions(c: Collected, x: Mention) {
    match x
    case Param(name) => exists r :: r in c.params && r.name == name
    case Path(name) => name in c.paths
    case Dep(name) => name in c.deps
    case Fact(name) => name in c.facts
    case RoleName(name) => name in c.roles
    case ProfileName(name) => name in c.profiles
    case TheProfile => c.usesProfile
  }

  lemma MergeMentions(a: Collected, b: Collected, x: Mention)
    ensures Mentions(Merge(a, b), x) <==> Mentions(a, x) || Mentions(b, x)
  {}

  /** The references under construction, shared by the walk. */
  class Refs {
    var params: seq<ParamRef>
    var paths: set<string>
    var deps: set<string>
    var facts: set<string>
    var roles: set<string>
    var profiles: set<string>
    var templates: set<string>
    var usesProfile: bool

    constructor ()
      ensures Value() == NOTHING
    {
      params, paths, deps, facts := [], {}, {}, {};
      roles, profiles, templates, usesProfile := {}, {}, {}, false;
    }

    function Value(): Collected
      reads this
    {
      Collected(params, paths, deps, facts, roles, profiles, templates, usesProfile)
    }

    method RecordFieldChain(chain: seq<string>, g: Guard)
      modifies this
      ensures Value() == Record(old(Value()), chain, g)
    {
      if |chain| == 0 {
        return;
      }
      if EqualFold(chain[0], "Params") && |chain| >= 2 {
        params := params + [ParamRef(chain[1], g)];
      } else if EqualFold(chain[0], "Paths") && |chain| >= 2 {
        paths := paths + {chain[1]};
      } else if EqualFold(chain[0], "Requires") && |chain| >= 2 {
        deps := deps + {chain[1]};
      } else if EqualFold(chain[0], "Profile") {
        usesProfile := true;
      } else if EqualFold(chain[0], "Node") && |chain| >= 3 && EqualFold(chain[1], "Facts") {
        facts := facts + {chain[2]};
      }
    }

    method VisitPipe(p: Pipe, g: Guard)
      modifies this
      ensures Value() == WholePipe(old(Value()), p, g)
      decreases p
    {
      var i := 0;
      while i < |p.cmds|
        invariant 0 <= i <= |p.cmds|
        invariant Value() == WalkPipe(old(Value()), p, i, g)
      {
        var cmd, j, last := p.cmds[i], 0, [];
        while j < |cmd.args|
          invariant 0 <= j <= |cmd.args| && last == LastChain(cmd, j)
          invariant Value() == WalkCmd(WalkPipe(old(Value()), p, i, g), cmd, j, g)
        {
          match cmd.args[j] {
            case Field(chain) =>
              RecordFieldChain(chain, g);
              last := chain;
            case Chained(base, fields) =>
              if base.Field? {
                RecordFieldChain(base.chain + fields, g);
              }
            case Sub(pipe) => VisitPipe(pipe, g);
            case Str(text) =>
              if IsTopologyRole(last) {
                roles := roles + {text};
              }
              if j > 0 && ComparesProfile(cmd) {
                profiles := profiles + {text};
              }
            case _ =>
          }
          j := j + 1;
        }
        i := i + 1;
      }
    }

    method VisitNode(n: Node, g: Guard)
      modifies this
      ensures Value() == WalkNode(old(Value()), n, g)
      decreases n
    {
      match n {
        case Absent =>
        case Text =>
        case List(nodes) =>
          var i := 0;
          while i < |nodes|
            invariant 0 <= i <= |nodes|
            invariant Value() == WalkList(old(Value()), n, i, g)
          {
            VisitNode(nodes[i], g);
            i := i + 1;
          }
        case Action(pipe) =>
          VisitPipe(pipe, g);
        case If(pipe, thn, els) =>
          VisitPipe(pipe, g);
          var test := ProfileGuard(pipe);
          if test.Some? {
            VisitNode(thn, g.And(test.value));
            VisitNode(els, g.And(test.value.Invert()));
          } else {
            VisitNode(thn, g);
            VisitNode(els, g);
          }
        case Range(pipe, body, els) =>
          VisitPipe(pipe, g);
          VisitNode(body, g);
          VisitNode(els, g);
        case With(pipe, body, els) =>
          VisitPipe(pipe, g);
          VisitNode(body, g);
          VisitNode(els, g);
        case Include(name, pipe) =>
          templates := templates + {name};
          VisitPipe(pipe, g);
      }
    }

    method MergeFrom(o: Refs)
      modifies this
      ensures Value() == Merge(old(Value()), old(o.Value()))
    {
      params := params + o.params;
      paths, deps, facts := paths + o.paths, deps + o.deps, facts + o.facts;
      roles, profiles, templates := roles + o.roles, profiles + o.profiles, templates + o.templates;
      usesProfile := usesProfile || o.usesProfile;
    }
  }

  method CollectRefs(ts: TemplateSet, name: string) returns (refs: Refs)
    ensures fresh(refs) && refs.Value() == Collect(ts, name)
  {
    refs := new Refs();
    if name in ts {
      refs.VisitNode(ts[name], ANYWHERE);
    }
  }

  /** Everything collected for a is also in c. */
  ghost predicate Includes(c: Collected, a: Collected) {
    && (forall r :: r in a.params ==> r in c.params)
    && a.paths <= c.paths && a.deps <= c.deps && a.facts <= c.facts
    && a.roles <= c.roles && a.profiles <= c.profiles && a.templates <= c.templates
    && (a.usesProfile ==> c.usesProfile)
  }

  /** Names reached from a template through includes, in at most d steps. */
  ghost predicate Reaches(ts: TemplateSet, name: string, m: string, d: nat)
    decreases d
  {
    m == name || (d > 0 && exists t :: t in Collect(ts, name).templates && Reaches(ts, t, m, d - 1))
  }

  ghost predicate Reachable(ts: TemplateSet, name: string, m: string) {
    exists d: nat :: Reaches(ts, name, m, d)
  }

  lemma {:induction false} ReachesOneMore(ts: TemplateSet, name: string, m: string, t: string, d: nat)
    requires Reaches(ts, name, m, d) && t in Collect(ts, m).templates
    ensures Reaches(ts, name, t, d + 1)
    decreases d
  {
    if m == name {
      assert Reaches(ts, t, t, d);
    } else {
      var u :| u in Collect(ts, name).templates && Reaches(ts, u, m, d - 1);
      ReachesOneMore(ts, u, m, t, d - 1);
    }
  }

  lemma ReachableOneMore(ts: TemplateSet, name: string, m: string, t: string)
    requires Reachable(ts, name, m) && t in Collect(ts, m).templates
    ensures Reachable(ts, name, t)
  {
    var d: nat :| Reaches(ts, name, m, d);
    ReachesOneMore(ts, name, m, t, d);
  }

  ghost function AllNames(ts: TemplateSet): set<string> {
    ts.Keys + set m, t | m in ts.Keys && t in Collect(ts, m).templates :: t
  }

  /** What is mentioned is mentioned by one of these templates. */
  ghost predicate NothingElse(ts: TemplateSet, names: set<string>, c: Collected) {
    forall x: Mention :: Mentions(c, x) ==> exists m :: m in names && Mentions(Collect(ts, m), x)
  }

  lemma NothingElseMerges(ts: TemplateSet, names: set<string>, c: Collected, n: string)
    requires NothingElse(ts, names, c)
    ensures NothingElse(ts, names + {n}, Merge(c, Collect(ts, n)))
  {
    forall x: Mention | Mentions(Merge(c, Collect(ts, n)), x)
      ensures exists m :: m in names + {n} && Mentions(Collect(ts, m), x)
    {
      MergeMentions(c, Collect(ts, n), x);
    }
  }

  /** The walk over a template and everything it includes. */
  class DeepWalk {
    const ts: TemplateSet
    const refs: Refs
    var seen: set<string>

    constructor (ts: TemplateSet)
      ensures this.ts == ts && fresh(refs) && refs.Value() == NOTHING && seen == {}
    {
      this.ts, seen := ts, {};
      refs := new Refs();
    }

    /** Holds the references of exactly the templates seen, all of them reachable from root. */
    ghost predicate Gathered(root: string)
      reads this, refs
    {
      && (forall m :: m in seen ==> Includes(refs.Value(), Collect(ts, m)) && Reachable(ts, root, m))
      && (forall r :: r in refs.params ==> exists m :: m in seen && r in Collect(ts, m).params)
      && NothingElse(ts, seen, refs.Value())
    }

    ghost predicate Followed(names: set<string>)
      reads this
    {
      forall m :: m in names ==> Collect(ts, m).templates <= seen
    }

    method Visit(n: string, ghost root: string, ghost names: set<string>)
      requires Gathered(root) && Reachable(ts, root, n) && n in names && seen <= names && AllNames(ts) <= names
      modifies this, refs
      ensures Gathered(root) && n in seen && old(seen) <= seen <= names && Followed(seen - old(seen))
      decreases names - seen
    {
      if n in seen {
        return;
      }
      NothingElseMerges(ts, seen, refs.Value(), n);
      seen := seen + {n};
      var one := CollectRefs(ts, n);
      refs.MergeFrom(one);
      var subs := one.templates;
      ghost var all := subs;
      while subs != {}
        invariant Gathered(root) && old(seen) + {n} <= seen <= names && subs <= all && all - subs <= seen
        invariant Followed(seen - old(seen) - {n})
        decreases subs
      {
        var sub :| sub in subs;
        assert sub in names;
        ghost var before := seen;
        ReachableOneMore(ts, root, n, sub);
        Visit(sub, root, names);
        assert seen - old(seen) - {n} == (before - old(seen) - {n}) + (seen - before);
        subs := subs - {sub};
      }
      assert Collect(ts, n).templates <= seen;
    }
  }

  lemma {:induction false} ClosedReaches(ts: TemplateSet, seen: set<string>, name: string, m: string, d: nat)
    requires name in seen && Reaches(ts, name, m, d)
    requires forall x :: x in seen ==> Collect(ts, x).templates <= seen
    ensures m in seen
    decreases d
  {
    if m != name {
      var t :| t in Collect(ts, name).templates && Reaches(ts, t, m, d - 1);
      ClosedReaches(ts, seen, t, m, d - 1);
    }
  }

  /** Holds the references of every template reachable through includes, and nothing from anywhere else. */
  ghost predicate DeepCollection(ts: TemplateSet, name: string, all: Collected) {
    && (forall m, d: nat :: Reaches(ts, name, m, d) ==> Includes(all, Collect(ts, m)))
    && (forall r :: r in all.params ==> exists m :: Reachable(ts, name, m) && r in Collect(ts, m).params)
    && (forall x: Mention :: Mentions(all, x) ==> exists m :: Reachable(ts, name, m) && Mentions(Collect(ts, m), x))
  }

  /** CollectRefsDeep; it terminates whatever the includes. */
  method CollectRefsDeep(ts: TemplateSet, name: string) returns (all: Collected)
    ensures DeepCollection(ts, name, all)
  {
    var w := new DeepWalk(ts);
    assert Reaches(ts, name, name, 0);
    w.Visit(name, name, AllNames(ts) + {name});
    all := w.refs.Value();
    forall m, d: nat | Reaches(ts, name, m, d) ensures Includes(all, Collect(ts, m)) {
      ClosedReaches(ts, w.seen, name, m, d);
    }
  }
}
