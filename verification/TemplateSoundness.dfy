/** What a template may reference when it runs, and why the static collection misses none of it. */
module TemplateSoundness {
  import opened Options
  import opened Templates

  // ---- profile tests ----

  /** The value of an operand under a profile, where it is determined by the profile alone. */
  function ValueOf(a: Arg, profile: string): Option<string> {
    if IsProfile(a) then Some(profile) else if a.Str? then Some(a.text) else None
  }

  predicate MayEqual(a: Arg, b: Arg, profile: string) {
    ValueOf(a, profile) == None || ValueOf(b, profile) == None || ValueOf(a, profile) == ValueOf(b, profile)
  }

  predicate MayDiffer(a: Arg, b: Arg, profile: string) {
    ValueOf(a, profile) == None || ValueOf(b, profile) == None || ValueOf(a, profile) != ValueOf(b, profile)
  }

  /** `eq a b c` holds when a equals b or c. */
  predicate EqMayBe(args: seq<Arg>, profile: string, outcome: bool) {
    |args| >= 2 &&
    if outcome then exists i :: 1 <= i < |args| && MayEqual(args[0], args[i], profile)
    else forall i :: 1 <= i < |args| ==> MayDiffer(args[0], args[i], profile)
  }

  /** Whether a condition may come out this way under the profile. `ne` takes two operands; with more it is an
      error and neither branch runs. Any other condition may go either way. */
  predicate MayBe(p: Pipe, profile: string, outcome: bool) {
    if |p.cmds| == 1 && p.cmds[0].args != [] && p.cmds[0].args[0] == Ident("eq") then
      EqMayBe(p.cmds[0].args[1..], profile, outcome)
    else if |p.cmds| == 1 && p.cmds[0].args != [] && p.cmds[0].args[0] == Ident("ne") then
      |p.cmds[0].args| == 3 && EqMayBe(p.cmds[0].args[1..], profile, !outcome)
    else true
  }

  /** The recognised guard covers every profile under which the branch may run. */
  ghost predicate TestSound(p: Pipe)
    requires ProfileGuard(p).Some?
  {
    forall profile ::
      && (MayBe(p, profile, true) ==> ProfileGuard(p).value.Admits(profile))
      && (MayBe(p, profile, false) ==> ProfileGuard(p).value.Invert().Admits(profile))
  }

  /** The profile against literals, or one literal against the profile. */
  predicate CleanTest(p: Pipe) {
    |p.cmds| == 1 && |p.cmds[0].args| >= 3 &&
    var args := p.cmds[0].args;
    || args[0] == Ident("ne")
    || (IsProfile(args[1]) && forall i :: 2 <= i < |args| ==> args[i].Str?)
    || (args[1].Str? && forall i :: 2 <= i < |args| ==> IsProfile(args[i]))
  }

  ghost function Longest(s: set<string>): (n: nat)
    ensures forall x :: x in s ==> |x| <= n
  {
    if s == {} then 0
    else
      var x :| x in s;
      var m := Longest(s - {x});
      assert s == s - {x} + {x};
      if |x| > m then |x| else m
  }

  /** There is always a profile that a finite set does not name. */
  ghost function Outside(s: set<string>): (x: string)
    ensures x !in s
  {
    seq(Longest(s) + 1, i => 'x')
  }

  lemma CleanIsSound(p: Pipe)
    requires ProfileGuard(p).Some? && CleanTest(p)
    ensures TestSound(p)
  {}

  lemma SoundIsClean(p: Pipe)
    requires ProfileGuard(p).Some? && !CleanTest(p)
    ensures !TestSound(p)
  {
    var args := p.cmds[0].args;
    var ops, names := args[1..], Texts(args[1..]);
    var outside := Outside(names);
    assert args[0] == Ident("eq");
    if i :| 1 <= i < |ops| && MayEqual(ops[0], ops[i], outside) {
      assert MayBe(p, outside, true) && !ProfileGuard(p).value.Admits(outside);
    } else {
      forall i | 2 <= i < |args| ensures !MayEqual(args[1], args[i], outside) {
        assert args[i] == ops[i - 1];
      }
      assert ops[0] == args[1] && args[1].Str? by { assert !MayEqual(args[1], args[2], outside); }
      var i :| 2 <= i < |args| && !IsProfile(args[i]);
      var t := args[i].text;
      assert args[i] == ops[i - 1] && t in names;
      forall j | 1 <= j < |ops| ensures MayDiffer(ops[0], ops[j], t) {
        assert !MayEqual(ops[0], ops[j], outside);
      }
      assert MayBe(p, t, false) && !ProfileGuard(p).value.Invert().Admits(t);
    }
  }

  /** A recognised test guards its branches soundly exactly when it has one of the clean forms. */
  lemma TestSoundExactly(p: Pipe)
    requires ProfileGuard(p).Some?
    ensures TestSound(p) <==> CleanTest(p)
  {
    if CleanTest(p) {
      CleanIsSound(p);
    } else {
      SoundIsClean(p);
    }
  }

  // ---- conjunction of guards ----

  lemma AndAdmits(g: Guard, o: Guard, p: string)
    requires g.Admits(p) && o.Admits(p)
    ensures g.And(o).Admits(p)
  {}

  /** The conjunction of two guards admits what both admit and nothing else, except that two disjoint lists of
      allowed profiles collapse to no restriction. */
  lemma AndExactly(g: Guard, o: Guard)
    ensures (forall p :: g.And(o).Admits(p) <==> g.Admits(p) && o.Admits(p))
            <==> (g.only != {} && o.only != {} ==> g.only * o.only != {})
  {
    if g.only != {} && o.only != {} && g.only * o.only == {} {
      var p := Outside(g.not + o.not + g.only);
      assert g.And(o).Admits(p) && !g.Admits(p);
    }
  }

  // ---- execution ----

  /** Evaluating the argument references the parameter; taking fields of a parenthesised pipeline runs the pipeline. */
  predicate TouchesArg(a: Arg, param: string)
    decreases a
  {
    match a
    case Field(chain) => ParamOf(chain) == Some(param)
    case Chained(base, fields) =>
      if base.Field? then ParamOf(base.chain + fields) == Some(param) else TouchesArg(base, param)
    case Sub(pipe) => Touches(pipe, param)
    case _ => false
  }

  predicate Touches(p: Pipe, param: string)
    decreases p
  {
    exists i, j :: 0 <= i < |p.cmds| && 0 <= j < |p.cmds[i].args| && TouchesArg(p.cmds[i].args[j], param)
  }

  /** Running the node itself under the profile may reference the parameter. */
  predicate Refers(n: Node, profile: string, param: string)
    decreases n
  {
    match n
    case Absent | Text => false
    case List(nodes) => exists i :: 0 <= i < |nodes| && Refers(nodes[i], profile, param)
    case Action(pipe) => Touches(pipe, param)
    case If(pipe, thn, els) =>
      || Touches(pipe, param)
      || (MayBe(pipe, profile, true) && Refers(thn, profile, param))
      || (MayBe(pipe, profile, false) && Refers(els, profile, param))
    case Range(pipe, body, els) => Touches(pipe, param) || Refers(body, profile, param) || Refers(els, profile, param)
    case With(pipe, body, els) => Touches(pipe, param) || Refers(body, profile, param) || Refers(els, profile, param)
    case Include(_, pipe) => Touches(pipe, param)
  }

  /** Running the node may include this template. */
  ghost predicate Calls(n: Node, name: string)
    decreases n
  {
    match n
    case List(nodes) => exists i :: 0 <= i < |nodes| && Calls(nodes[i], name)
    case If(_, thn, els) => Calls(thn, name) || Calls(els, name)
    case Range(_, body, els) => Calls(body, name) || Calls(els, name)
    case With(_, body, els) => Calls(body, name) || Calls(els, name)
    case Include(m, _) => m == name
    case _ => false
  }

  /** Some run of the template under the profile, nesting includes at most d deep, references the parameter. */
  ghost predicate MayReference(ts: TemplateSet, name: string, profile: string, param: string, d: nat)
    decreases d
  {
    name in ts &&
    (Refers(ts[name], profile, param)
     || (d > 0 && exists m :: Calls(ts[name], m) && MayReference(ts, m, profile, param, d - 1)))
  }

  // ---- what the text shows ----

  /** The reference stands in plain sight: not inside a parenthesised pipeline of which a field is taken. */
  predicate ShowsArg(a: Arg, param: string)
    decreases a
  {
    match a
    case Field(chain) => ParamOf(chain) == Some(param)
    case Chained(base, fields) => base.Field? && ParamOf(base.chain + fields) == Some(param)
    case Sub(pipe) => Shows(pipe, param)
    case _ => false
  }

  predicate Shows(p: Pipe, param: string)
    decreases p
  {
    exists i, j :: 0 <= i < |p.cmds| && 0 <= j < |p.cmds[i].args| && ShowsArg(p.cmds[i].args[j], param)
  }

  /** The reference is evaluated inside a parenthesised pipeline of which a field is taken. */
  predicate HidesArg(a: Arg, param: string)
    decreases a
  {
    match a
    case Chained(base, _) => !base.Field? && TouchesArg(base, param)
    case Sub(pipe) => Hides(pipe, param)
    case _ => false
  }

  predicate Hides(p: Pipe, param: string)
    decreases p
  {
    exists i, j :: 0 <= i < |p.cmds| && 0 <= j < |p.cmds[i].args| && HidesArg(p.cmds[i].args[j], param)
  }

  /** The guards of the two branches of a condition. */
  function Branches(pipe: Pipe, g: Guard): (Guard, Guard) {
    var test := ProfileGuard(pipe);
    if test.Some? then (g.And(test.value), g.And(test.value.Invert())) else (g, g)
  }

  /** The reference stands in plain sight where the conjunction of the recognised guards around it admits the
      profile. */
  predicate NodeShows(n: Node, g: Guard, profile: string, param: string)
    decreases n
  {
    match n
    case Absent | Text => false
    case List(nodes) => exists i :: 0 <= i < |nodes| && NodeShows(nodes[i], g, profile, param)
    case Action(pipe) => g.Admits(profile) && Shows(pipe, param)
    case If(pipe, thn, els) =>
      || (g.Admits(profile) && Shows(pipe, param))
      || NodeShows(thn, Branches(pipe, g).0, profile, param) || NodeShows(els, Branches(pipe, g).1, profile, param)
    case Range(pipe, body, els) =>
      || (g.Admits(profile) && Shows(pipe, param))
      || NodeShows(body, g, profile, param) || NodeShows(els, g, profile, param)
    case With(pipe, body, els) =>
      || (g.Admits(profile) && Shows(pipe, param))
      || NodeShows(body, g, profile, param) || NodeShows(els, g, profile, param)
    case Include(_, pipe) => g.Admits(profile) && Shows(pipe, param)
  }

  lemma {:induction false} TouchedArg(a: Arg, param: string)
    ensures TouchesArg(a, param) <==> ShowsArg(a, param) || HidesArg(a, param)
    decreases a
  {
    if a.Sub? {
      ShownOrHidden(a.pipe, param);
    }
  }

  /** What running a pipeline references is shown or hidden. */
  lemma {:induction false} ShownOrHidden(p: Pipe, param: string)
    ensures Touches(p, param) <==> Shows(p, param) || Hides(p, param)
    decreases p
  {
    forall i, j | 0 <= i < |p.cmds| && 0 <= j < |p.cmds[i].args|
      ensures var a := p.cmds[i].args[j]; TouchesArg(a, param) <==> ShowsArg(a, param) || HidesArg(a, param)
    {
      TouchedArg(p.cmds[i].args[j], param);
    }
  }

  // ---- the collection is what the text shows ----

  /** The parameter was collected under a guard that admits the profile. */
  ghost predicate Has(c: Collected, profile: string, param: string) {
    exists r :: r in c.params && r.name == param && r.guard.Admits(profile)
  }

  lemma Recorded(c: Collected, chain: seq<string>, g: Guard, profile: string, param: string)
    ensures Has(Record(c, chain, g), profile, param)
            <==> Has(c, profile, param) || (g.Admits(profile) && ParamOf(chain) == Some(param))
  {
    var next := Record(c, chain, g);
    if ParamOf(chain) == Some(param) {
      assert ParamRef(param, g) in next.params;
    }
    assert forall r :: r in c.params ==> r in next.params;
  }

  lemma {:induction false} ArgCollects(c: Collected, a: Arg, g: Guard, profile: string, param: string)
    ensures Has(WalkArg(c, a, g), profile, param)
            <==> Has(c, profile, param) || (g.Admits(profile) && ShowsArg(a, param))
    decreases a
  {
    match a
    case Field(chain) => Recorded(c, chain, g, profile, param);
    case Chained(base, fields) =>
      if base.Field? { Recorded(c, base.chain + fields, g, profile, param); }
    case Sub(pipe) => PipeCollects(c, pipe, |pipe.cmds|, g, profile, param);
    case _ =>
  }

  lemma {:induction false} CmdCollects(c: Collected, cmd: Cmd, k: nat, g: Guard, profile: string, param: string)
    requires k <= |cmd.args|
    ensures Has(WalkCmd(c, cmd, k, g), profile, param)
            <==> Has(c, profile, param) || (g.Admits(profile) && exists j :: 0 <= j < k && ShowsArg(cmd.args[j], param))
    decreases cmd, k
  {
    if k > 0 {
      CmdCollects(c, cmd, k - 1, g, profile, param);
      ArgCollects(WalkCmd(c, cmd, k - 1, g), cmd.args[k - 1], g, profile, param);
    }
  }

  ghost predicate ShownBefore(p: Pipe, k: nat, param: string)
    requires k <= |p.cmds|
  {
    exists i, j :: 0 <= i < k && 0 <= j < |p.cmds[i].args| && ShowsArg(p.cmds[i].args[j], param)
  }

  lemma {:induction false} PipeCollects(c: Collected, p: Pipe, k: nat, g: Guard, profile: string, param: string)
    requires k <= |p.cmds|
    ensures Has(WalkPipe(c, p, k, g), profile, param)
            <==> Has(c, profile, param) || (g.Admits(profile) && ShownBefore(p, k, param))
    decreases p, k
  {
    if k > 0 {
      var cmd := p.cmds[k - 1];
      PipeCollects(c, p, k - 1, g, profile, param);
      CmdCollects(WalkPipe(c, p, k - 1, g), cmd, |cmd.args|, g, profile, param);
      assert ShownBefore(p, k, param) <==>
             ShownBefore(p, k - 1, param) || exists j :: 0 <= j < |cmd.args| && ShowsArg(cmd.args[j], param);
    }
  }

  lemma WholePipeCollects(c: Collected, p: Pipe, g: Guard, profile: string, param: string)
    ensures Has(WholePipe(c, p, g), profile, param)
            <==> Has(c, profile, param) || (g.Admits(profile) && Shows(p, param))
  {
    PipeCollects(c, p, |p.cmds|, g, profile, param);
  }

  /** A parameter that a pipeline references is missed exactly when it is referenced only inside parenthesised
      pipelines of which a field is taken. */
  lemma MissedExactly(p: Pipe, g: Guard, profile: string, param: string)
    requires Touches(p, param) && g.Admits(profile)
    ensures !Has(WholePipe(NOTHING, p, g), profile, param) <==> Hides(p, param) && !Shows(p, param)
  {
    WholePipeCollects(NOTHING, p, g, profile, param);
    ShownOrHidden(p, param);
  }

  /** The walk collects a parameter for a profile exactly when the node shows it where the guards admit the profile. */
  lemma {:induction false} NodeCollectsExactly(c: Collected, n: Node, g: Guard, profile: string, param: string)
    ensures Has(WalkNode(c, n, g), profile, param) <==> Has(c, profile, param) || NodeShows(n, g, profile, param)
    decreases n
  {
    match n
    case Absent | Text =>
    case List(nodes) => ListCollects(c, n, |nodes|, g, profile, param);
    case Action(pipe) => WholePipeCollects(c, pipe, g, profile, param);
    case If(pipe, thn, els) =>
      var c1 := WholePipe(c, pipe, g);
      var (g1, g2) := Branches(pipe, g);
      WholePipeCollects(c, pipe, g, profile, param);
      NodeCollectsExactly(c1, thn, g1, profile, param);
      NodeCollectsExactly(WalkNode(c1, thn, g1), els, g2, profile, param);
    case Range(pipe, body, els) =>
      var c1 := WholePipe(c, pipe, g);
      WholePipeCollects(c, pipe, g, profile, param);
      NodeCollectsExactly(c1, body, g, profile, param);
      NodeCollectsExactly(WalkNode(c1, body, g), els, g, profile, param);
    case With(pipe, body, els) =>
      var c1 := WholePipe(c, pipe, g);
      WholePipeCollects(c, pipe, g, profile, param);
      NodeCollectsExactly(c1, body, g, profile, param);
      NodeCollectsExactly(WalkNode(c1, body, g), els, g, profile, param);
    case Include(name, pipe) => WholePipeCollects(c.(templates := c.templates + {name}), pipe, g, profile, param);
  }

  lemma {:induction false} ListCollects(c: Collected, n: Node, k: nat, g: Guard, profile: string, param: string)
    requires n.List? && k <= |n.nodes|
    ensures Has(WalkList(c, n, k, g), profile, param)
            <==> Has(c, profile, param) || exists i :: 0 <= i < k && NodeShows(n.nodes[i], g, profile, param)
    decreases n, k
  {
    if k > 0 {
      ListCollects(c, n, k - 1, g, profile, param);
      NodeCollectsExactly(WalkList(c, n, k - 1, g), n.nodes[k - 1], g, profile, param);
    }
  }

  // ---- soundness ----

  predicate LetsThrough(test: Option<Guard>, profile: string) {
    test.Some? ==> test.value.Admits(profile)
  }

  function Inverted(test: Option<Guard>): Option<Guard> {
    if test.Some? then Some(test.value.Invert()) else None
  }

  /** A run under the profile references the parameter in plain sight, along branches whose recognised tests, if
      any, let the profile through. */
  predicate RefersOpenly(n: Node, profile: string, param: string)
    decreases n
  {
    match n
    case Absent | Text => false
    case List(nodes) => exists i :: 0 <= i < |nodes| && RefersOpenly(nodes[i], profile, param)
    case Action(pipe) => Shows(pipe, param)
    case If(pipe, thn, els) =>
      var test := ProfileGuard(pipe);
      || Shows(pipe, param)
      || (MayBe(pipe, profile, true) && LetsThrough(test, profile) && RefersOpenly(thn, profile, param))
      || (MayBe(pipe, profile, false) && LetsThrough(Inverted(test), profile) && RefersOpenly(els, profile, param))
    case Range(pipe, body, els) =>
      Shows(pipe, param) || RefersOpenly(body, profile, param) || RefersOpenly(els, profile, param)
    case With(pipe, body, els) =>
      Shows(pipe, param) || RefersOpenly(body, profile, param) || RefersOpenly(els, profile, param)
    case Include(_, pipe) => Shows(pipe, param)
  }

  /** Every such reference is shown, and so collected, under a guard that admits the profile. */
  lemma {:induction false} NodeSound(n: Node, g: Guard, profile: string, param: string)
    requires RefersOpenly(n, profile, param) && g.Admits(profile)
    ensures NodeShows(n, g, profile, param)
    decreases n
  {
    match n
    case List(nodes) =>
      var i :| 0 <= i < |nodes| && RefersOpenly(nodes[i], profile, param);
      NodeSound(nodes[i], g, profile, param);
    case If(pipe, thn, els) =>
      var test := ProfileGuard(pipe);
      var (g1, g2) := Branches(pipe, g);
      if !Shows(pipe, param) {
        if MayBe(pipe, profile, true) && LetsThrough(test, profile) && RefersOpenly(thn, profile, param) {
          if test.Some? { AndAdmits(g, test.value, profile); }
          NodeSound(thn, g1, profile, param);
        } else {
          if test.Some? { AndAdmits(g, test.value.Invert(), profile); }
          NodeSound(els, g2, profile, param);
        }
      }
    case Range(_, body, els) =>
      if RefersOpenly(body, profile, param) { NodeSound(body, g, profile, param); }
      if RefersOpenly(els, profile, param) { NodeSound(els, g, profile, param); }
    case With(_, body, els) =>
      if RefersOpenly(body, profile, param) { NodeSound(body, g, profile, param); }
      if RefersOpenly(els, profile, param) { NodeSound(els, g, profile, param); }
    case _ =>
  }

  /** The template references nothing only inside a parenthesised pipeline of which a field is taken, and every
      recognised profile test has a clean form. */
  predicate Tidy(n: Node, param: string)
    decreases n
  {
    match n
    case Absent | Text => true
    case List(nodes) => forall i :: 0 <= i < |nodes| ==> Tidy(nodes[i], param)
    case Action(pipe) => Open(pipe, param)
    case If(pipe, thn, els) =>
      Open(pipe, param) && (ProfileGuard(pipe).Some? ==> CleanTest(pipe)) && Tidy(thn, param) && Tidy(els, param)
    case Range(pipe, body, els) => Open(pipe, param) && Tidy(body, param) && Tidy(els, param)
    case With(pipe, body, els) => Open(pipe, param) && Tidy(body, param) && Tidy(els, param)
    case Include(_, pipe) => Open(pipe, param)
  }

  predicate Open(p: Pipe, param: string) {
    Hides(p, param) ==> Shows(p, param)
  }

  /** In a tidy template every reference a run may make is made openly. */
  lemma {:induction false} TidyRefersOpenly(n: Node, profile: string, param: string)
    requires Tidy(n, param) && Refers(n, profile, param)
    ensures RefersOpenly(n, profile, param)
    decreases n
  {
    if n.Action? || n.If? || n.Range? || n.With? || n.Include? {
      ShownOrHidden(n.pipe, param);
    }
    match n
    case List(nodes) =>
      var i :| 0 <= i < |nodes| && Refers(nodes[i], profile, param);
      TidyRefersOpenly(nodes[i], profile, param);
    case If(pipe, thn, els) =>
      if ProfileGuard(pipe).Some? { CleanIsSound(pipe); }
      if Refers(thn, profile, param) { TidyRefersOpenly(thn, profile, param); }
      if Refers(els, profile, param) { TidyRefersOpenly(els, profile, param); }
    case Range(_, body, els) =>
      if Refers(body, profile, param) { TidyRefersOpenly(body, profile, param); }
      if Refers(els, profile, param) { TidyRefersOpenly(els, profile, param); }
    case With(_, body, els) =>
      if Refers(body, profile, param) { TidyRefersOpenly(body, profile, param); }
      if Refers(els, profile, param) { TidyRefersOpenly(els, profile, param); }
    case _ =>
  }

  // ---- includes ----

  lemma {:induction false} PipeKeepsTemplates(c: Collected, p: Pipe, k: nat, g: Guard)
    requires k <= |p.cmds|
    ensures WalkPipe(c, p, k, g).templates == c.templates
    decreases p, k
  {
    if k > 0 {
      PipeKeepsTemplates(c, p, k - 1, g);
      CmdKeepsTemplates(WalkPipe(c, p, k - 1, g), p.cmds[k - 1], |p.cmds[k - 1].args|, g);
    }
  }

  lemma {:induction false} CmdKeepsTemplates(c: Collected, cmd: Cmd, k: nat, g: Guard)
    requires k <= |cmd.args|
    ensures WalkCmd(c, cmd, k, g).templates == c.templates
    decreases cmd, k
  {
    if k > 0 {
      CmdKeepsTemplates(c, cmd, k - 1, g);
      var a := cmd.args[k - 1];
      if a.Sub? {
        PipeKeepsTemplates(WalkCmd(c, cmd, k - 1, g), a.pipe, |a.pipe.cmds|, g);
      }
    }
  }

  /** The walk adds exactly the templates that running the node may include. */
  lemma {:induction false} CallsCollected(c: Collected, n: Node, g: Guard, name: string)
    ensures name in WalkNode(c, n, g).templates <==> name in c.templates || Calls(n, name)
    decreases n
  {
    if n.Action? || n.If? || n.Range? || n.With? {
      PipeKeepsTemplates(c, n.pipe, |n.pipe.cmds|, g);
    }
    match n
    case Absent | Text | Action(_) =>
    case List(nodes) => ListCalls(c, n, |nodes|, g, name);
    case If(pipe, thn, els) =>
      var c1 := WholePipe(c, pipe, g);
      var (g1, g2) := Branches(pipe, g);
      CallsCollected(c1, thn, g1, name);
      CallsCollected(WalkNode(c1, thn, g1), els, g2, name);
    case Range(pipe, body, els) =>
      var c1 := WholePipe(c, pipe, g);
      CallsCollected(c1, body, g, name);
      CallsCollected(WalkNode(c1, body, g), els, g, name);
    case With(pipe, body, els) =>
      var c1 := WholePipe(c, pipe, g);
      CallsCollected(c1, body, g, name);
      CallsCollected(WalkNode(c1, body, g), els, g, name);
    case Include(m, pipe) => PipeKeepsTemplates(c.(templates := c.templates + {m}), pipe, |pipe.cmds|, g);
  }

  lemma {:induction false} ListCalls(c: Collected, n: Node, k: nat, g: Guard, name: string)
    requires n.List? && k <= |n.nodes|
    ensures name in WalkList(c, n, k, g).templates
            <==> name in c.templates || exists i :: 0 <= i < k && Calls(n.nodes[i], name)
    decreases n, k
  {
    if k > 0 {
      ListCalls(c, n, k - 1, g, name);
      CallsCollected(WalkList(c, n, k - 1, g), n.nodes[k - 1], g, name);
    }
  }

  // ---- the deep collection ----

  ghost predicate ShownIn(ts: TemplateSet, m: string, profile: string, param: string) {
    m in ts && NodeShows(ts[m], ANYWHERE, profile, param)
  }

  /** The deep collection has a parameter for a profile exactly when some template reached through includes shows it
      where the guards admit the profile. So a reference that some run makes is missed exactly when none does. */
  lemma DeepCollectsExactly(ts: TemplateSet, name: string, all: Collected, profile: string, param: string)
    requires DeepCollection(ts, name, all)
    ensures Has(all, profile, param) <==> exists m :: Reachable(ts, name, m) && ShownIn(ts, m, profile, param)
  {
    forall m ensures Has(Collect(ts, m), profile, param) <==> ShownIn(ts, m, profile, param) {
      if m in ts {
        NodeCollectsExactly(NOTHING, ts[m], ANYWHERE, profile, param);
      }
    }
    if Has(all, profile, param) {
      var r :| r in all.params && r.name == param && r.guard.Admits(profile);
      var m :| Reachable(ts, name, m) && r in Collect(ts, m).params;
      assert Has(Collect(ts, m), profile, param);
    }
    if m :| Reachable(ts, name, m) && ShownIn(ts, m, profile, param) {
      var d: nat :| Reaches(ts, name, m, d);
      var r :| r in Collect(ts, m).params && r.name == param && r.guard.Admits(profile);
      assert Includes(all, Collect(ts, m)) && r in all.params;
    }
  }

  /** Some run under the profile, nesting includes at most d deep, references the parameter openly. */
  ghost predicate MayReferenceOpenly(ts: TemplateSet, name: string, profile: string, param: string, d: nat)
    decreases d
  {
    name in ts &&
    (RefersOpenly(ts[name], profile, param)
     || (d > 0 && exists m :: Calls(ts[name], m) && MayReferenceOpenly(ts, m, profile, param, d - 1)))
  }

  lemma {:induction false} ReferenceShown(ts: TemplateSet, name: string, profile: string, param: string, d: nat)
      returns (m: string, e: nat)
    requires MayReferenceOpenly(ts, name, profile, param, d)
    ensures Reaches(ts, name, m, e) && ShownIn(ts, m, profile, param)
    decreases d
  {
    if RefersOpenly(ts[name], profile, param) {
      m, e := name, 0;
      NodeSound(ts[name], ANYWHERE, profile, param);
    } else {
      var t :| Calls(ts[name], t) && MayReferenceOpenly(ts, t, profile, param, d - 1);
      CallsCollected(NOTHING, ts[name], ANYWHERE, t);
      m, e := ReferenceShown(ts, t, profile, param, d - 1);
      assert t in Collect(ts, name).templates && Reaches(ts, t, m, e);
      e := e + 1;
    }
  }

  /** Soundness: a parameter that any finite run under a profile may reference openly is in the deep collection,
      under a guard that admits the profile. */
  lemma CollectionSound(ts: TemplateSet, name: string, all: Collected, profile: string, param: string, d: nat)
    requires DeepCollection(ts, name, all) && MayReferenceOpenly(ts, name, profile, param, d)
    ensures Has(all, profile, param)
  {
    var m, e := ReferenceShown(ts, name, profile, param, d);
    DeepCollectsExactly(ts, name, all, profile, param);
    assert Reachable(ts, name, m);
  }

  /** Every template that is reached is tidy for the parameter. */
  ghost predicate TidyThroughout(ts: TemplateSet, name: string, param: string) {
    forall t :: t in ts && Reachable(ts, name, t) ==> Tidy(ts[t], param)
  }

  lemma TidyFurtherDown(ts: TemplateSet, name: string, param: string, m: string)
    requires name in ts && TidyThroughout(ts, name, param) && Calls(ts[name], m)
    ensures TidyThroughout(ts, m, param)
  {
    CallsCollected(NOTHING, ts[name], ANYWHERE, m);
    assert m in Collect(ts, name).templates;
    forall t | t in ts && Reachable(ts, m, t) ensures Tidy(ts[t], param) {
      var d: nat :| Reaches(ts, m, t, d);
      assert Reaches(ts, name, t, d + 1);
    }
  }

  /** Where those are tidy, every reference any run may make is made openly. */
  lemma {:induction false} TidyTemplatesReferOpenly(ts: TemplateSet, name: string, profile: string, param: string,
                                                    d: nat)
    requires MayReference(ts, name, profile, param, d) && TidyThroughout(ts, name, param)
    ensures MayReferenceOpenly(ts, name, profile, param, d)
    decreases d
  {
    if Refers(ts[name], profile, param) {
      assert Reaches(ts, name, name, 0) && Reachable(ts, name, name);
      TidyRefersOpenly(ts[name], profile, param);
    } else {
      var m :| Calls(ts[name], m) && MayReference(ts, m, profile, param, d - 1);
      TidyFurtherDown(ts, name, param, m);
      TidyTemplatesReferOpenly(ts, m, profile, param, d - 1);
    }
  }

  /** So there the deep collection misses nothing. */
  lemma NothingMissed(ts: TemplateSet, name: string, all: Collected, profile: string, param: string, d: nat)
    requires DeepCollection(ts, name, all) && TidyThroughout(ts, name, param)
    requires MayReference(ts, name, profile, param, d)
    ensures Has(all, profile, param)
  {
    TidyTemplatesReferOpenly(ts, name, profile, param, d);
    CollectionSound(ts, name, all, profile, param, d);
  }
}
