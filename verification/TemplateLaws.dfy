/** What the collection holds, read off the syntax of the templates alone. */
module TemplateLaws {
  import opened Options
  import opened Templates
  import opened TemplateSoundness

  // ---- names ----

  /** The same letter, or a capital and its small letter. */
  predicate SameLetter(a: char, b: char) {
    a == b || ('A' <= a <= 'Z' && b as int == a as int + 32) || ('A' <= b <= 'Z' && a as int == b as int + 32)
  }

  lemma FoldMeans(a: string, b: string)
    ensures EqualFold(a, b) <==> |a| == |b| && forall i :: 0 <= i < |a| ==> SameLetter(a[i], b[i])
  {
    forall i | 0 <= i < |a| && i < |b| ensures SameLetter(a[i], b[i]) <==> Lower(a[i]) == Lower(b[i]) {}
  }

  // ---- tests of the profile ----

  /** Among the arguments from the second on is this string. */
  ghost predicate Literal(cmd: Cmd, text: string) {
    exists k :: 1 <= k < |cmd.args| && cmd.args[k] == Str(text)
  }

  ghost predicate NamesProfile(cmd: Cmd) {
    exists k, chain ::
      0 <= k < |cmd.args| && cmd.args[k] == Field(chain) && |chain| == 1 && EqualFold(chain[0], "Profile")
  }

  ghost predicate IsTest(p: Pipe) {
    && |p.cmds| == 1 && |p.cmds[0].args| >= 3
    && (p.cmds[0].args[0] == Ident("eq") || p.cmds[0].args[0] == Ident("ne"))
    && NamesProfile(p.cmds[0]) && exists text :: Literal(p.cmds[0], text)
  }

  lemma ComparesMeans(cmd: Cmd)
    ensures ComparesProfile(cmd) <==>
              cmd.args != [] && (cmd.args[0] == Ident("eq") || cmd.args[0] == Ident("ne")) && NamesProfile(cmd)
  {
    if NamesProfile(cmd) {
      var k, chain :|
        0 <= k < |cmd.args| && cmd.args[k] == Field(chain) && |chain| == 1 && EqualFold(chain[0], "Profile");
      assert cmd.args[k] in cmd.args && IsProfile(cmd.args[k]);
    }
  }

  lemma TextsMean(cmd: Cmd, text: string)
    requires cmd.args != []
    ensures text in Texts(cmd.args[1..]) <==> Literal(cmd, text)
  {
    if Literal(cmd, text) {
      var k :| 1 <= k < |cmd.args| && cmd.args[k] == Str(text);
      assert cmd.args[1..][k - 1] == Str(text);
      assert Str(text) in cmd.args[1..];
    }
    if text in Texts(cmd.args[1..]) {
      assert Str(text) in cmd.args[1..];
      var k :| 0 <= k < |cmd.args[1..]| && cmd.args[1..][k] == Str(text);
      assert cmd.args[k + 1] == Str(text);
    }
  }

  /** Exactly the tests that are recognised, and the profiles they name: `eq` admits those only, `ne` all others. */
  lemma TestsMean(p: Pipe, text: string)
    ensures ProfileGuard(p).Some? <==> IsTest(p)
    ensures IsTest(p) ==>
              var g, cmd := ProfileGuard(p).value, p.cmds[0];
              if cmd.args[0] == Ident("eq") then g.not == {} && (text in g.only <==> Literal(cmd, text))
              else g.only == {} && (text in g.not <==> Literal(cmd, text))
  {
    if |p.cmds| == 1 && |p.cmds[0].args| >= 3 {
      var cmd := p.cmds[0];
      ComparesMeans(cmd);
      TextsMean(cmd, text);
      if Texts(cmd.args[1..]) != {} {
        var other :| other in Texts(cmd.args[1..]);
        TextsMean(cmd, other);
      }
      if other :| Literal(cmd, other) {
        TextsMean(cmd, other);
      }
    }
  }

  // ---- what a template mentions ----

  /** A field chain by itself. */
  predicate ChainMentions(chain: seq<string>, x: Mention) {
    match x
    case Param(name) => |chain| >= 2 && EqualFold(chain[0], "Params") && chain[1] == name
    case Path(name) => |chain| >= 2 && EqualFold(chain[0], "Paths") && chain[1] == name
    case Dep(name) => |chain| >= 2 && EqualFold(chain[0], "Requires") && chain[1] == name
    case Fact(name) => |chain| >= 3 && EqualFold(chain[0], "Node") && EqualFold(chain[1], "Facts") && chain[2] == name
    case TheProfile => |chain| >= 1 && EqualFold(chain[0], "Profile")
    case _ => false
  }

  /** At position k stands this string, and the last plain field chain before it ends in Topology.Role. */
  ghost predicate RoleAt(cmd: Cmd, k: nat, name: string)
    requires k < |cmd.args|
  {
    cmd.args[k] == Str(name) && exists j :: 0 <= j < k && ChainBefore(cmd, j, k) && EndsInRole(cmd.args[j].chain)
  }

  predicate EndsInRole(chain: seq<string>) {
    |chain| >= 2 && EqualFold(chain[|chain| - 2], "Topology") && EqualFold(chain[|chain| - 1], "Role")
  }

  ghost predicate ChainBefore(cmd: Cmd, j: nat, k: nat)
    requires j < k <= |cmd.args|
  {
    cmd.args[j].Field? && forall i :: j < i < k ==> !cmd.args[i].Field?
  }

  /** The string at position k: a role behind `.Topology.Role`, a profile compared with `eq` or `ne`. */
  ghost predicate TextMentions(cmd: Cmd, k: nat, x: Mention)
    requires k < |cmd.args|
  {
    match x
    case RoleName(name) => RoleAt(cmd, k, name)
    case ProfileName(name) =>
      && k > 0 && cmd.args[k] == Str(name) && (cmd.args[0] == Ident("eq") || cmd.args[0] == Ident("ne"))
      && NamesProfile(cmd)
    case _ => false
  }

  /** In plain sight: not inside a parenthesised pipeline of which a field is taken. */
  ghost predicate ArgMentions(a: Arg, x: Mention)
    decreases a
  {
    match a
    case Field(chain) => ChainMentions(chain, x)
    case Chained(base, fields) => base.Field? && ChainMentions(base.chain + fields, x)
    case Sub(pipe) => PipeMentions(pipe, x)
    case _ => false
  }

  ghost predicate PipeMentions(p: Pipe, x: Mention)
    decreases p
  {
    exists i, j :: 0 <= i < |p.cmds| && 0 <= j < |p.cmds[i].args|
      && (ArgMentions(p.cmds[i].args[j], x) || TextMentions(p.cmds[i], j, x))
  }

  ghost predicate NodeMentions(n: Node, x: Mention)
    decreases n
  {
    match n
    case Absent | Text => false
    case List(nodes) => exists i :: 0 <= i < |nodes| && NodeMentions(nodes[i], x)
    case Action(pipe) => PipeMentions(pipe, x)
    case If(pipe, thn, els) => PipeMentions(pipe, x) || NodeMentions(thn, x) || NodeMentions(els, x)
    case Range(pipe, body, els) => PipeMentions(pipe, x) || NodeMentions(body, x) || NodeMentions(els, x)
    case With(pipe, body, els) => PipeMentions(pipe, x) || NodeMentions(body, x) || NodeMentions(els, x)
    case Include(_, pipe) => PipeMentions(pipe, x)
  }

  // ---- and that the walk collects just that ----

  lemma RecordMeans(c: Collected, chain: seq<string>, g: Guard, x: Mention)
    ensures Mentions(Record(c, chain, g), x) <==> Mentions(c, x) || ChainMentions(chain, x)
  {
    if x.Param? && ChainMentions(chain, x) {
      assert ParamRef(chain[1], g) in Record(c, chain, g).params;
    }
  }

  lemma {:induction false} LastChainMeans(cmd: Cmd, k: nat)
    requires k <= |cmd.args|
    ensures (exists j :: 0 <= j < k && ChainBefore(cmd, j, k) && LastChain(cmd, k) == cmd.args[j].chain)
            || (LastChain(cmd, k) == [] && forall j :: 0 <= j < k ==> !cmd.args[j].Field?)
  {
    if k > 0 && !cmd.args[k - 1].Field? {
      LastChainMeans(cmd, k - 1);
      if j :| 0 <= j < k - 1 && ChainBefore(cmd, j, k - 1) && LastChain(cmd, k - 1) == cmd.args[j].chain {
        assert ChainBefore(cmd, j, k);
      }
    } else if k > 0 {
      assert ChainBefore(cmd, k - 1, k);
    }
  }

  lemma NoteMeans(c: Collected, cmd: Cmd, k: nat, x: Mention)
    requires k < |cmd.args|
    ensures Mentions(NoteText(c, cmd, k), x) <==> Mentions(c, x) || TextMentions(cmd, k, x)
  {
    ComparesMeans(cmd);
    LastChainMeans(cmd, k);
  }

  lemma {:induction false} ArgMeans(c: Collected, a: Arg, g: Guard, x: Mention)
    ensures Mentions(WalkArg(c, a, g), x) <==> Mentions(c, x) || ArgMentions(a, x)
    decreases a
  {
    match a
    case Field(chain) => RecordMeans(c, chain, g, x);
    case Chained(base, fields) =>
      if base.Field? { RecordMeans(c, base.chain + fields, g, x); }
    case Sub(pipe) => PipeMeans(c, pipe, |pipe.cmds|, g, x);
    case _ =>
  }

  ghost predicate CmdBefore(cmd: Cmd, k: nat, x: Mention)
    requires k <= |cmd.args|
  {
    exists j :: 0 <= j < k && (ArgMentions(cmd.args[j], x) || TextMentions(cmd, j, x))
  }

  lemma {:induction false} CmdMeans(c: Collected, cmd: Cmd, k: nat, g: Guard, x: Mention)
    requires k <= |cmd.args|
    ensures Mentions(WalkCmd(c, cmd, k, g), x) <==> Mentions(c, x) || CmdBefore(cmd, k, x)
    decreases cmd, k
  {
    if k > 0 {
      var front := WalkCmd(c, cmd, k - 1, g);
      CmdMeans(c, cmd, k - 1, g, x);
      ArgMeans(front, cmd.args[k - 1], g, x);
      NoteMeans(WalkArg(front, cmd.args[k - 1], g), cmd, k - 1, x);
    }
  }

  ghost predicate PipeBefore(p: Pipe, k: nat, x: Mention)
    requires k <= |p.cmds|
  {
    exists i :: 0 <= i < k && CmdBefore(p.cmds[i], |p.cmds[i].args|, x)
  }

  lemma {:induction false} PipeMeans(c: Collected, p: Pipe, k: nat, g: Guard, x: Mention)
    requires k <= |p.cmds|
    ensures Mentions(WalkPipe(c, p, k, g), x) <==> Mentions(c, x) || PipeBefore(p, k, x)
    ensures k == |p.cmds| ==> (PipeBefore(p, k, x) <==> PipeMentions(p, x))
    decreases p, k
  {
    if k > 0 {
      PipeMeans(c, p, k - 1, g, x);
      CmdMeans(WalkPipe(c, p, k - 1, g), p.cmds[k - 1], |p.cmds[k - 1].args|, g, x);
    }
  }

  lemma WholePipeMeans(c: Collected, p: Pipe, g: Guard, x: Mention)
    ensures Mentions(WholePipe(c, p, g), x) <==> Mentions(c, x) || PipeMentions(p, x)
  {
    PipeMeans(c, p, |p.cmds|, g, x);
  }

  lemma {:induction false} NodeMeans(c: Collected, n: Node, g: Guard, x: Mention)
    ensures Mentions(WalkNode(c, n, g), x) <==> Mentions(c, x) || NodeMentions(n, x)
    decreases n
  {
    match n
    case Absent | Text =>
    case List(nodes) => ListMeans(c, n, |nodes|, g, x);
    case Action(pipe) => WholePipeMeans(c, pipe, g, x);
    case If(pipe, thn, els) =>
      var c1 := WholePipe(c, pipe, g);
      var (g1, g2) := Branches(pipe, g);
      WholePipeMeans(c, pipe, g, x);
      NodeMeans(c1, thn, g1, x);
      NodeMeans(WalkNode(c1, thn, g1), els, g2, x);
    case Range(pipe, body, els) =>
      var c1 := WholePipe(c, pipe, g);
      WholePipeMeans(c, pipe, g, x);
      NodeMeans(c1, body, g, x);
      NodeMeans(WalkNode(c1, body, g), els, g, x);
    case With(pipe, body, els) =>
      var c1 := WholePipe(c, pipe, g);
      WholePipeMeans(c, pipe, g, x);
      NodeMeans(c1, body, g, x);
      NodeMeans(WalkNode(c1, body, g), els, g, x);
    case Include(name, pipe) => WholePipeMeans(c.(templates := c.templates + {name}), pipe, g, x);
  }

  lemma {:induction false} ListMeans(c: Collected, n: Node, k: nat, g: Guard, x: Mention)
    requires n.List? && k <= |n.nodes|
    ensures Mentions(WalkList(c, n, k, g), x)
            <==> Mentions(c, x) || exists i :: 0 <= i < k && NodeMentions(n.nodes[i], x)
    decreases n, k
  {
    if k > 0 {
      ListMeans(c, n, k - 1, g, x);
      NodeMeans(WalkList(c, n, k - 1, g), n.nodes[k - 1], g, x);
    }
  }

  // ---- through includes ----

  /** The template m is included, by at most d includes one inside the other. */
  ghost predicate Included(ts: TemplateSet, name: string, m: string, d: nat)
    decreases d
  {
    m == name || (d > 0 && name in ts && exists t :: Calls(ts[name], t) && Included(ts, t, m, d - 1))
  }

  lemma {:induction false} IncludedIsReached(ts: TemplateSet, name: string, m: string, d: nat)
    ensures Included(ts, name, m, d) <==> Reaches(ts, name, m, d)
    decreases d
  {
    if d > 0 {
      forall t ensures t in Collect(ts, name).templates <==> name in ts && Calls(ts[name], t) {
        if name in ts {
          CallsCollected(NOTHING, ts[name], ANYWHERE, t);
        }
      }
      var e := d - 1;
      forall t ensures Included(ts, t, m, e) <==> Reaches(ts, t, m, e) {
        IncludedIsReached(ts, t, m, e);
      }
    }
  }

  ghost predicate MentionedIn(ts: TemplateSet, m: string, x: Mention) {
    m in ts && NodeMentions(ts[m], x)
  }

  /** The deep collection has a parameter, a path, a dependency, a fact, a role name, a profile name or the use of the
      profile exactly when some template that is included mentions it. */
  lemma MentionsExactly(ts: TemplateSet, name: string, all: Collected, x: Mention)
    requires DeepCollection(ts, name, all)
    ensures Mentions(all, x) <==> exists m, d: nat :: Included(ts, name, m, d) && MentionedIn(ts, m, x)
  {
    forall m ensures Mentions(Collect(ts, m), x) <==> MentionedIn(ts, m, x) {
      if m in ts {
        NodeMeans(NOTHING, ts[m], ANYWHERE, x);
      }
    }
    if Mentions(all, x) {
      var m :| Reachable(ts, name, m) && Mentions(Collect(ts, m), x);
      var d: nat :| Reaches(ts, name, m, d);
      IncludedIsReached(ts, name, m, d);
    }
    if m, d: nat :| Included(ts, name, m, d) && MentionedIn(ts, m, x) {
      IncludedIsReached(ts, name, m, d);
      assert Includes(all, Collect(ts, m));
    }
  }
}
