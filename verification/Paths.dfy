/** The paths of an instance: declarations whose expressions may refer to each other in any order, the context they
    are published into, and what it means to resolve them -- independently of any order of trying. */
module Paths {
  import opened Options
  import opened Sorting

  /** A published path: one string, or a list of them. */
  datatype Value = One(path: string) | Many(paths: seq<string>)

  // ---- expressions ----

  /** What an expression does next, given the path values it has read so far. */
  datatype Action = Finish(text: string) | Fail | Ask(key: string)

  /** A template expression as seen from the path context: it reads at most `limit` keys, each possibly
      chosen from the values before it, and then yields text or fails. */
  datatype Expr = Expr(limit: nat, next: seq<Value> -> Action)

  datatype Answer = Answered(text: string) | Unresolved | Broken

  type Context = map<string, Value>

  function Eval(e: Expr, ctx: Context, got: seq<Value>): Answer
    decreases e.limit - |got|
  {
    match e.next(got)
    case Finish(text) => Answered(text)
    case Fail => Broken
    case Ask(key) =>
      if key !in ctx then Unresolved
      else if |got| >= e.limit then Broken
      else Eval(e, ctx, got + [ctx[key]])
  }

  ghost predicate Extends(larger: Context, ctx: Context) {
    forall k :: k in ctx ==> k in larger && larger[k] == ctx[k]
  }

  /** An answer that is not "unresolved" survives every extension of the context. */
  lemma {:induction false} EvalPersists(e: Expr, ctx: Context, larger: Context, got: seq<Value>)
    requires Extends(larger, ctx) && !Eval(e, ctx, got).Unresolved?
    ensures Eval(e, larger, got) == Eval(e, ctx, got)
    decreases e.limit - |got|
  {
    if e.next(got).Ask? && |got| < e.limit {
      EvalPersists(e, ctx, larger, got + [ctx[e.next(got).key]]);
    }
  }

  // ---- declarations ----

  /** A path declaration. `bound` lists the volumes bound to it, each with its path on this node or None when the
      node lacks it; otherwise `exprs` are its defaults, none when they are missing or malformed. */
  datatype Decl = Decl(single: bool, bound: seq<Option<string>>, exprs: seq<Expr>, linkInto: Option<Expr>)

  datatype Outcome = Values(values: seq<string>) | Later | Error

  /** The first k default expressions. */
  function EvalDefaults(exprs: seq<Expr>, k: nat, ctx: Context, valid: string -> bool): Outcome
    requires k <= |exprs|
  {
    if k == 0 then Values([])
    else
      var before := EvalDefaults(exprs, k - 1, ctx, valid);
      if !before.Values? then before
      else
        match Eval(exprs[k - 1], ctx, [])
        case Answered(s) => if valid(s) then Values(before.values + [s]) else Error
        case Unresolved => Later
        case Broken => Error
  }

  function BoundPaths(bound: seq<Option<string>>): Outcome {
    if bound == [] then Values([])
    else
      var before := BoundPaths(bound[..|bound| - 1]);
      if before.Values? && bound[|bound| - 1].Some? then Values(before.values + [bound[|bound| - 1].value]) else Error
  }

  /** resolveOnePath. */
  function Resolve(d: Decl, ctx: Context, valid: string -> bool): (o: Outcome) {
    if d.bound != [] then BoundPaths(d.bound)
    else if d.exprs == [] then Error
    else EvalDefaults(d.exprs, |d.exprs|, ctx, valid)
  }

  lemma {:induction false} DefaultsPersist(exprs: seq<Expr>, k: nat, ctx: Context, larger: Context,
                                           valid: string -> bool)
    requires k <= |exprs| && Extends(larger, ctx)
    ensures var o := EvalDefaults(exprs, k, ctx, valid);
            o != Later ==> EvalDefaults(exprs, k, larger, valid) == o
    ensures var o := EvalDefaults(exprs, k, ctx, valid); o.Values? ==> |o.values| == k
  {
    if k > 0 {
      DefaultsPersist(exprs, k - 1, ctx, larger, valid);
      if !Eval(exprs[k - 1], ctx, []).Unresolved? {
        EvalPersists(exprs[k - 1], ctx, larger, []);
      }
    }
  }

  lemma {:induction false} BoundCount(bound: seq<Option<string>>)
    ensures BoundPaths(bound).Values? ==> |BoundPaths(bound).values| == |bound|
    ensures BoundPaths(bound) != Later
  {
    if bound != [] {
      BoundCount(bound[..|bound| - 1]);
    }
  }

  lemma ResolvePersists(d: Decl, ctx: Context, larger: Context, valid: string -> bool)
    requires Extends(larger, ctx) && Resolve(d, ctx, valid) != Later
    ensures Resolve(d, larger, valid) == Resolve(d, ctx, valid)
    ensures Resolve(d, ctx, valid).Values? ==> |Resolve(d, ctx, valid).values| > 0
  {
    if d.bound != [] {
      BoundCount(d.bound);
    } else if d.exprs != [] {
      DefaultsPersist(d.exprs, |d.exprs|, ctx, larger, valid);
    }
  }

  // ---- what the two functions say ----

  ghost predicate GivenAt(e: Expr, ctx: Context, got: seq<Value>, i: nat)
    requires i < |got|
  {
    var a := e.next(got[..i]); a.Ask? && a.key in ctx && got[i] == ctx[a.key]
  }

  /** What the expression is given as it reads one key after another from the context. */
  ghost predicate Given(e: Expr, ctx: Context, got: seq<Value>) {
    |got| <= e.limit && forall i :: 0 <= i < |got| ==> GivenAt(e, ctx, got, i)
  }

  /** It is answered with the text it finishes with, is unresolved where it asks for a key that is not there, and is
      broken where it fails or goes on asking. */
  lemma {:induction false} EvalMeans(e: Expr, ctx: Context, got: seq<Value>) returns (all: seq<Value>)
    requires Given(e, ctx, got)
    ensures Given(e, ctx, all) && got <= all
    ensures match Eval(e, ctx, got)
            case Answered(s) => e.next(all) == Finish(s)
            case Unresolved => e.next(all).Ask? && e.next(all).key !in ctx
            case Broken => e.next(all) == Fail || (e.next(all).Ask? && e.next(all).key in ctx && |all| == e.limit)
    decreases e.limit - |got|
  {
    var a := e.next(got);
    if a.Ask? && a.key in ctx && |got| < e.limit {
      var more := got + [ctx[a.key]];
      forall i | 0 <= i < |more| ensures GivenAt(e, ctx, more, i) {
        assert more[..i] == got[..i];
        assert i < |got| ==> GivenAt(e, ctx, got, i);
      }
      all := EvalMeans(e, ctx, more);
    } else {
      all := got;
    }
  }

  lemma {:induction false} BoundMeans(bound: seq<Option<string>>)
    ensures BoundPaths(bound).Values? <==> forall k :: 0 <= k < |bound| ==> bound[k].Some?
    ensures BoundPaths(bound) != Later
    ensures BoundPaths(bound).Values? ==>
              var vs := BoundPaths(bound).values;
              |vs| == |bound| && forall k :: 0 <= k < |bound| ==> bound[k] == Some(vs[k])
  {
    if bound != [] {
      BoundMeans(bound[..|bound| - 1]);
    }
  }

  /** The default gives this valid text. */
  predicate Gives(e: Expr, ctx: Context, valid: string -> bool, s: string) {
    Eval(e, ctx, []) == Answered(s) && valid(s)
  }

  predicate GivesAny(e: Expr, ctx: Context, valid: string -> bool) {
    Eval(e, ctx, []).Answered? && valid(Eval(e, ctx, []).text)
  }

  lemma {:induction false} DefaultsMean(exprs: seq<Expr>, k: nat, ctx: Context, valid: string -> bool)
    requires k <= |exprs|
    ensures var o := EvalDefaults(exprs, k, ctx, valid);
            && (o.Values? ==> |o.values| == k && forall j :: 0 <= j < k ==> Gives(exprs[j], ctx, valid, o.values[j]))
            && (!o.Values? ==> exists j :: 0 <= j < k && FirstBad(exprs, j, ctx, valid)
                                             && o == if Eval(exprs[j], ctx, []).Unresolved? then Later else Error)
  {
    if k > 0 {
      DefaultsMean(exprs, k - 1, ctx, valid);
      if EvalDefaults(exprs, k - 1, ctx, valid).Values? && !GivesAny(exprs[k - 1], ctx, valid) {
        assert FirstBad(exprs, k - 1, ctx, valid);
      }
    }
  }

  /** The first default that gives no valid text. */
  ghost predicate FirstBad(exprs: seq<Expr>, j: nat, ctx: Context, valid: string -> bool)
    requires j < |exprs|
  {
    !GivesAny(exprs[j], ctx, valid) && forall i :: 0 <= i < j ==> GivesAny(exprs[i], ctx, valid)
  }

  /** A path that volumes are bound to has their paths, whatever its defaults, and fails when one is not there. Any
      other path has the text of each default; the first that gives none decides between waiting and failing. */
  lemma ResolveMeans(d: Decl, ctx: Context, valid: string -> bool)
    ensures var o := Resolve(d, ctx, valid);
            && (d.bound != [] && (forall k :: 0 <= k < |d.bound| ==> d.bound[k].Some?) ==>
                  o.Values? && |o.values| == |d.bound|
                  && forall k :: 0 <= k < |d.bound| ==> d.bound[k] == Some(o.values[k]))
            && (d.bound != [] && (exists k :: 0 <= k < |d.bound| && d.bound[k].None?) ==> o == Error)
            && (d.bound == [] && d.exprs == [] ==> o == Error)
            && (d.bound == [] && o.Values? ==>
                  |o.values| == |d.exprs|
                  && forall j :: 0 <= j < |d.exprs| ==> Gives(d.exprs[j], ctx, valid, o.values[j]))
            && (d.bound == [] && d.exprs != [] && !o.Values? ==>
                  exists j :: 0 <= j < |d.exprs| && FirstBad(d.exprs, j, ctx, valid)
                                && o == if Eval(d.exprs[j], ctx, []).Unresolved? then Later else Error)
  {
    BoundMeans(d.bound);
    DefaultsMean(d.exprs, |d.exprs|, ctx, valid);
  }

  // ---- the context ----

  function Capitalize(s: string): string {
    if s == "" then s else [if 'a' <= s[0] <= 'z' then (s[0] as int - 32) as char else s[0]] + s[1..]
  }

  const GENERATION := "{{ .Paths.Generation }}"
  const BASE: Context := map["Generation" := One(GENERATION), "generation" := One(GENERATION)]
  const CURRENT := {"Current", "current"}

  function ValueOf(d: Decl, values: seq<string>): Value {
    if d.single && values != [] then One(values[0]) else Many(values)
  }

  /** publishPath, and the `current` path that hangs off `home`. */
  function Publish(ctx: Context, name: string, d: Decl, values: seq<string>, join: string -> string): Context {
    var named := ctx[name := ValueOf(d, values)][Capitalize(name) := ValueOf(d, values)];
    if name == "home" && values != []
    then named["Current" := One(join(values[0]))]["current" := One(join(values[0]))]
    else named
  }

  /** A set of declarations with what the evaluation takes from its surroundings: which results are acceptable
      paths, and how `current` is joined to a directory. */
  datatype Setting = Setting(decls: map<string, Decl>, valid: string -> bool, join: string -> string)

  /** The context after the given names were resolved to the given values, in this order. */
  function ContextAfter(st: Setting, order: seq<string>, sol: map<string, seq<string>>): Context
    requires forall n :: n in order ==> n in st.decls && n in sol
  {
    if order == [] then BASE
    else
      var n := order[|order| - 1];
      Publish(ContextAfter(st, order[..|order| - 1], sol), n, st.decls[n], sol[n], st.join)
  }

  // ---- derivations: what resolving means, independent of any strategy ----

  ghost predicate Named(st: Setting, order: seq<string>, sol: map<string, seq<string>>) {
    && (forall n :: n in order ==> n in st.decls && n in sol)
    && Distinct(order)
  }

  ghost predicate StepOk(st: Setting, order: seq<string>, sol: map<string, seq<string>>, i: nat)
    requires i < |order| && Named(st, order, sol)
  {
    var before := order[..i];
    assert forall n :: n in before ==> n in order;
    Resolve(st.decls[order[i]], ContextAfter(st, before, sol), st.valid) == Values(sol[order[i]])
  }

  /** Each name evaluates to its value in the context of the names before it: the references are well-founded. */
  ghost predicate Derivation(st: Setting, order: seq<string>, sol: map<string, seq<string>>) {
    Named(st, order, sol) && forall i :: 0 <= i < |order| ==> StepOk(st, order, sol, i)
  }

  ghost predicate Complete(st: Setting, order: seq<string>) {
    forall n :: n in st.decls ==> n in order
  }

  // ---- what is published under a key ----

  /** Resolving n to the values publishes v under the key k. */
  predicate Puts(st: Setting, n: string, values: seq<string>, k: string, v: Value)
    requires n in st.decls
  {
    || ((k == n || k == Capitalize(n)) && v == ValueOf(st.decls[n], values))
    || (n == "home" && k in CURRENT && values != [] && v == One(st.join(values[0])))
  }

  /** Something that is published under the key k while the given names are resolved. */
  ghost predicate Claims(st: Setting, names: set<string>, sol: map<string, seq<string>>, k: string, v: Value)
    requires forall n :: n in names ==> n in st.decls && n in sol
  {
    (k in BASE && v == BASE[k]) || exists n :: n in names && Puts(st, n, sol[n], k, v)
  }

  /** Nothing different is published under one key. */
  ghost predicate Consistent(st: Setting, names: set<string>, sol: map<string, seq<string>>)
    requires forall n :: n in names ==> n in st.decls && n in sol
  {
    forall k, v, u :: Claims(st, names, sol, k, v) && Claims(st, names, sol, k, u) ==> v == u
  }

  function Members(order: seq<string>): (s: set<string>)
    ensures forall n :: n in s <==> n in order
  {
    set n | n in order
  }

  /** The context maps exactly the published keys, each to something that was published under it. */
  lemma {:induction false} ContextIsClaimed(st: Setting, order: seq<string>, sol: map<string, seq<string>>, k: string)
    requires forall n :: n in order ==> n in st.decls && n in sol
    ensures var ctx := ContextAfter(st, order, sol);
            && (k in ctx ==> Claims(st, Members(order), sol, k, ctx[k]))
            && (k !in ctx ==> forall v :: !Claims(st, Members(order), sol, k, v))
  {
    if order != [] {
      var front, n := order[..|order| - 1], order[|order| - 1];
      assert forall m :: m in order <==> m in front || m == n;
      ContextIsClaimed(st, front, sol, k);
      if k !in ContextAfter(st, order, sol) {
        forall v ensures !Claims(st, Members(order), sol, k, v) {
          assert !Claims(st, Members(front), sol, k, v);
        }
      }
    }
  }

  /** Each path is there in the end under both spellings with its value, and so are the derived ones, exactly when
      nothing different is published under one key. */
  lemma PublishedExactly(st: Setting, order: seq<string>, sol: map<string, seq<string>>)
    requires forall n :: n in order ==> n in st.decls && n in sol
    ensures Consistent(st, Members(order), sol) <==>
              forall k, v :: Claims(st, Members(order), sol, k, v) ==> Maps(ContextAfter(st, order, sol), k, v)
  {
    forall k, v | Claims(st, Members(order), sol, k, v)
      ensures k in ContextAfter(st, order, sol)
      ensures Claims(st, Members(order), sol, k, ContextAfter(st, order, sol)[k])
    {
      ContextIsClaimed(st, order, sol, k);
    }
  }

  predicate Maps(ctx: Context, k: string, v: Value) {
    k in ctx && ctx[k] == v
  }

  /** No two names share a spelling once capitalised, and none is a derived path. */
  ghost predicate NoClash(names: set<string>) {
    && (forall n :: n in names ==> Capitalize(n) !in CURRENT + BASE.Keys)
    && (forall a, b :: a in names && b in names && Capitalize(a) == Capitalize(b) ==> a == b)
  }

  /** Only a small first letter changes, to its capital. */
  lemma CapitalizeTwice(n: string)
    ensures Capitalize(Capitalize(n)) == Capitalize(n) && |Capitalize(n)| == |n|
    ensures forall i :: 1 <= i < |n| ==> Capitalize(n)[i] == n[i]
    ensures n != "" && 'a' <= n[0] <= 'z' ==>
              'A' <= Capitalize(n)[0] <= 'Z' && Capitalize(n)[0] as int - 'A' as int == n[0] as int - 'a' as int
    ensures n != "" && !('a' <= n[0] <= 'z') ==> Capitalize(n)[0] == n[0]
  {
    if n != "" {
      assert Capitalize(n)[1..] == n[1..];
    }
  }

  lemma OneSource(names: set<string>, n: string, k: string)
    requires NoClash(names) && n in names && (k == n || k == Capitalize(n))
    ensures k !in CURRENT + BASE.Keys && Capitalize(k) == Capitalize(n)
  {
    CapitalizeTwice(n);
    assert Capitalize("current") == "Current" && Capitalize("generation") == "Generation";
    assert Capitalize("Current") == "Current" && Capitalize("Generation") == "Generation";
  }

  /** Names that do not clash publish nothing different under one key, whatever their values. */
  lemma ApartIsConsistent(st: Setting, names: set<string>, sol: map<string, seq<string>>)
    requires (forall n :: n in names ==> n in st.decls && n in sol) && NoClash(names)
    ensures Consistent(st, names, sol)
  {
    forall k, v, u | Claims(st, names, sol, k, v) && Claims(st, names, sol, k, u)
      ensures v == u
    {
      if n :| n in names && (k == n || k == Capitalize(n)) && v == ValueOf(st.decls[n], sol[n]) {
        OneSource(names, n, k);
        var m :| m in names && (k == m || k == Capitalize(m)) && u == ValueOf(st.decls[m], sol[m]);
        OneSource(names, m, k);
        assert m == n;
      } else if m :| m in names && (k == m || k == Capitalize(m)) && u == ValueOf(st.decls[m], sol[m]) {
        OneSource(names, m, k);
      }
    }
  }

  lemma ClaimsGrow(st: Setting, a: set<string>, sol: map<string, seq<string>>, b: set<string>,
                   sol2: map<string, seq<string>>, k: string, v: Value)
    requires forall n :: n in b ==> n in st.decls && n in sol2
    requires forall n :: n in a ==> n in b && n in sol && sol[n] == sol2[n]
    requires Claims(st, a, sol, k, v)
    ensures Claims(st, b, sol2, k, v)
  {}

  lemma ConsistentPart(st: Setting, a: set<string>, sol: map<string, seq<string>>, b: set<string>,
                       sol2: map<string, seq<string>>)
    requires (forall n :: n in b ==> n in st.decls && n in sol2) && Consistent(st, b, sol2)
    requires forall n :: n in a ==> n in b && n in sol && sol[n] == sol2[n]
    ensures Consistent(st, a, sol)
  {
    forall k, v, u | Claims(st, a, sol, k, v) && Claims(st, a, sol, k, u) ensures v == u {
      ClaimsGrow(st, a, sol, b, sol2, k, v);
      ClaimsGrow(st, a, sol, b, sol2, k, u);
    }
  }

  /** More names, resolved to the same values, give a larger context as long as nothing is published over. */
  lemma ContextGrows(st: Setting, a: seq<string>, sol: map<string, seq<string>>, b: seq<string>,
                     sol2: map<string, seq<string>>)
    requires Named(st, a, sol) && Named(st, b, sol2) && Consistent(st, Members(b), sol2)
    requires forall n :: n in a ==> n in b && sol[n] == sol2[n]
    ensures Extends(ContextAfter(st, b, sol2), ContextAfter(st, a, sol))
  {
    var x, y := ContextAfter(st, a, sol), ContextAfter(st, b, sol2);
    PublishedExactly(st, b, sol2);
    forall k | k in x ensures Maps(y, k, x[k]) {
      ContextIsClaimed(st, a, sol, k);
      ClaimsGrow(st, Members(a), sol, Members(b), sol2, k, x[k]);
    }
  }

  // ---- one answer, whatever the order ----

  lemma DerivationPrefix(st: Setting, order: seq<string>, sol: map<string, seq<string>>, k: nat)
    requires Derivation(st, order, sol) && k <= |order|
    ensures Derivation(st, order[..k], sol)
  {
    var front := order[..k];
    assert forall n :: n in front ==> n in order;
    forall i | 0 <= i < k ensures StepOk(st, front, sol, i) {
      assert StepOk(st, order, sol, i);
      assert front[..i] == order[..i];
    }
  }

  lemma ValuesAreThere(st: Setting, order: seq<string>, sol: map<string, seq<string>>, n: string)
    requires Derivation(st, order, sol) && n in order
    ensures |sol[n]| > 0
  {
    var i :| 0 <= i < |order| && order[i] == n;
    assert StepOk(st, order, sol, i);
    DerivationPrefix(st, order, sol, i);
    var ctx := ContextAfter(st, order[..i], sol);
    ResolvePersists(st.decls[n], ctx, ctx, st.valid);
  }

  /** The values of a declaration in this context, said outright. */
  ghost predicate HasValues(d: Decl, ctx: Context, valid: string -> bool, values: seq<string>) {
    if d.bound != [] then |values| == |d.bound| && forall k :: 0 <= k < |values| ==> d.bound[k] == Some(values[k])
    else |values| == |d.exprs| > 0 && forall k :: 0 <= k < |values| ==> Gives(d.exprs[k], ctx, valid, values[k])
  }

  lemma ValuesMean(d: Decl, ctx: Context, valid: string -> bool, values: seq<string>)
    ensures Resolve(d, ctx, valid) == Values(values) <==> HasValues(d, ctx, valid, values)
  {
    ResolveMeans(d, ctx, valid);
    var o := Resolve(d, ctx, valid);
    if HasValues(d, ctx, valid, values) {
      if d.bound != [] {
        assert o.Values? && o.values == values;
      } else {
        assert forall j :: 0 <= j < |d.exprs| ==> GivesAny(d.exprs[j], ctx, valid);
        assert o.Values? && |o.values| == |values|;
        assert forall j :: 0 <= j < |values| ==> o.values[j] == values[j];
        assert o.values == values;
      }
    }
  }

  /** Each step of a derivation: the paths of the bound volumes, or the texts of the defaults as they come out in the
      context of the names before. */
  lemma DerivedValues(st: Setting, order: seq<string>, sol: map<string, seq<string>>, i: nat)
    requires Derivation(st, order, sol) && i < |order|
    ensures order[i] in order && forall n :: n in order[..i] ==> n in order
    ensures HasValues(st.decls[order[i]], ContextAfter(st, order[..i], sol), st.valid, sol[order[i]])
  {
    assert order[i] in order && StepOk(st, order, sol, i);
    ValuesMean(st.decls[order[i]], ContextAfter(st, order[..i], sol), st.valid, sol[order[i]]);
  }

  /** What stands in the context in the end: one path or the list under both spellings, `current` below home, and the
      placeholder of the generation. */
  lemma ContextMeans(st: Setting, order: seq<string>, sol: map<string, seq<string>>, n: string)
    requires Derivation(st, order, sol) && Consistent(st, Members(order), sol) && n in order
    ensures sol[n] != []
    ensures var ctx, v := ContextAfter(st, order, sol), if st.decls[n].single then One(sol[n][0]) else Many(sol[n]);
            && Maps(ctx, n, v) && Maps(ctx, Capitalize(n), v)
            && (n == "home" ==> Maps(ctx, "Current", One(st.join(sol[n][0]))) && Maps(ctx, "current", ctx["Current"]))
            && Maps(ctx, "Generation", One("{{ .Paths.Generation }}"))
            && Maps(ctx, "generation", One("{{ .Paths.Generation }}"))
  {
    ValuesAreThere(st, order, sol, n);
    PublishedExactly(st, order, sol);
    var names, v := Members(order), if st.decls[n].single then One(sol[n][0]) else Many(sol[n]);
    assert Puts(st, n, sol[n], n, v) && Puts(st, n, sol[n], Capitalize(n), v);
    assert Claims(st, names, sol, n, v) && Claims(st, names, sol, Capitalize(n), v);
    assert Claims(st, names, sol, "Generation", BASE["Generation"]);
    assert Claims(st, names, sol, "generation", BASE["generation"]);
    if n == "home" {
      var cur := One(st.join(sol[n][0]));
      assert Puts(st, n, sol[n], "Current", cur) && Puts(st, n, sol[n], "current", cur);
      assert Claims(st, names, sol, "Current", cur) && Claims(st, names, sol, "current", cur);
    }
  }

  /** Every value still satisfies its own defining expression in the context at the end. */
  lemma FixedPoint(st: Setting, order: seq<string>, sol: map<string, seq<string>>, n: string)
    requires Derivation(st, order, sol) && Consistent(st, Members(order), sol) && n in order
    ensures Resolve(st.decls[n], ContextAfter(st, order, sol), st.valid) == Values(sol[n])
  {
    var i :| 0 <= i < |order| && order[i] == n;
    assert StepOk(st, order, sol, i);
    DerivationPrefix(st, order, sol, i);
    ContextGrows(st, order[..i], sol, order, sol);
    ResolvePersists(st.decls[n], ContextAfter(st, order[..i], sol), ContextAfter(st, order, sol), st.valid);
  }

  ghost predicate Agree(order: seq<string>, sol: map<string, seq<string>>, sol2: map<string, seq<string>>) {
    forall n :: n in order ==> n in sol && n in sol2 && sol[n] == sol2[n]
  }

  /** Whatever names were tried first, a value that comes out is the value any complete derivation gives. */
  lemma {:induction false} Confluent(st: Setting, a: seq<string>, sol: map<string, seq<string>>,
                                     b: seq<string>, sol2: map<string, seq<string>>)
    requires Derivation(st, a, sol) && Derivation(st, b, sol2) && Consistent(st, Members(b), sol2)
    requires forall n :: n in a ==> n in b
    ensures Agree(a, sol, sol2)
    decreases |a|
  {
    if a != [] {
      var front := a[..|a| - 1];
      DerivationPrefix(st, a, sol, |a| - 1);
      Confluent(st, front, sol, b, sol2);
      SameValue(st, a, sol, b, sol2, |a| - 1);
      AgreeLonger(a, sol, sol2);
    }
  }

  lemma AgreeLonger(a: seq<string>, sol: map<string, seq<string>>, sol2: map<string, seq<string>>)
    requires a != [] && Agree(a[..|a| - 1], sol, sol2)
    requires var n := a[|a| - 1]; n in sol && n in sol2 && sol[n] == sol2[n]
    ensures Agree(a, sol, sol2)
  {}

  /** The next name gets the value the other derivation gives it, because both see what its expressions read. */
  lemma SameValue(st: Setting, a: seq<string>, sol: map<string, seq<string>>, b: seq<string>,
                  sol2: map<string, seq<string>>, k: nat)
    requires Derivation(st, a, sol) && Derivation(st, b, sol2) && Consistent(st, Members(b), sol2)
    requires k < |a| && Agree(a[..k], sol, sol2) && (forall n :: n in a ==> n in b)
    ensures a[k] in sol && a[k] in sol2 && sol[a[k]] == sol2[a[k]]
  {
    var front, n := a[..k], a[k];
    DerivationPrefix(st, a, sol, k);
    assert forall m :: m in front ==> m in a;
    ContextGrows(st, front, sol, b, sol2);
    assert StepOk(st, a, sol, k);
    ResolvePersists(st.decls[n], ContextAfter(st, front, sol), ContextAfter(st, b, sol2), st.valid);
    FixedPoint(st, b, sol2, n);
  }

  /** If a complete derivation exists, no partial one is stuck: the first name it lacks evaluates at once. */
  lemma NeverStuck(st: Setting, a: seq<string>, sol: map<string, seq<string>>, b: seq<string>,
                   sol2: map<string, seq<string>>)
    returns (n: string)
    requires Derivation(st, a, sol) && Derivation(st, b, sol2) && Complete(st, b) && Consistent(st, Members(b), sol2)
    requires !Complete(st, a)
    ensures n in st.decls && n !in a && Resolve(st.decls[n], ContextAfter(st, a, sol), st.valid).Values?
  {
    var i := FirstMissing(st, a, b);
    n := b[i];
    Confluent(st, a, sol, b, sol2);
    ConsistentPart(st, Members(a), sol, Members(b), sol2);
    ReadyNext(st, a, sol, b, sol2, i);
  }

  lemma FirstMissing(st: Setting, a: seq<string>, b: seq<string>) returns (i: nat)
    requires Complete(st, b) && !Complete(st, a)
    ensures i < |b| && b[i] !in a && forall j :: 0 <= j < i ==> b[j] in a
  {
    i := 0;
    assert exists m :: m in st.decls && m !in a;
    while i < |b| && b[i] in a
      invariant i <= |b|
      invariant forall j :: 0 <= j < i ==> b[j] in a
    {
      i := i + 1;
    }
  }

  lemma ReadyNext(st: Setting, a: seq<string>, sol: map<string, seq<string>>, b: seq<string>,
                  sol2: map<string, seq<string>>, i: nat)
    requires Derivation(st, a, sol) && Derivation(st, b, sol2) && Agree(a, sol, sol2) && Consistent(st, Members(a), sol)
    requires i < |b| && forall j :: 0 <= j < i ==> b[j] in a
    ensures Resolve(st.decls[b[i]], ContextAfter(st, a, sol), st.valid).Values?
  {
    var front := b[..i];
    DerivationPrefix(st, b, sol2, i);
    ContextGrows(st, front, sol2, a, sol);
    assert StepOk(st, b, sol2, i);
    ResolvePersists(st.decls[b[i]], ContextAfter(st, front, sol2), ContextAfter(st, a, sol), st.valid);
  }

  /** If a complete derivation exists, no name fails outright on the way. */
  lemma NeverFails(st: Setting, a: seq<string>, sol: map<string, seq<string>>, b: seq<string>,
                   sol2: map<string, seq<string>>, n: string)
    requires Derivation(st, a, sol) && Derivation(st, b, sol2) && Complete(st, b) && n in st.decls
    requires Consistent(st, Members(b), sol2)
    ensures Resolve(st.decls[n], ContextAfter(st, a, sol), st.valid) != Error
  {
    assert n in b;
    Confluent(st, a, sol, b, sol2);
    ContextGrows(st, a, sol, b, sol2);
    FixedPoint(st, b, sol2, n);
    if Resolve(st.decls[n], ContextAfter(st, a, sol), st.valid) == Error {
      ResolvePersists(st.decls[n], ContextAfter(st, a, sol), ContextAfter(st, b, sol2), st.valid);
    }
  }

  lemma {:induction false} ContextFrame(st: Setting, order: seq<string>, sol: map<string, seq<string>>,
                                        sol2: map<string, seq<string>>)
    requires forall n :: n in order ==> n in st.decls && n in sol && n in sol2 && sol[n] == sol2[n]
    ensures ContextAfter(st, order, sol) == ContextAfter(st, order, sol2)
  {
    if order != [] {
      ContextFrame(st, order[..|order| - 1], sol, sol2);
    }
  }

  lemma DerivationExtends(st: Setting, order: seq<string>, sol: map<string, seq<string>>, n: string,
                          values: seq<string>)
    requires Derivation(st, order, sol) && n in st.decls && n !in order
    requires Resolve(st.decls[n], ContextAfter(st, order, sol), st.valid) == Values(values)
    ensures Derivation(st, order + [n], sol[n := values])
    ensures ContextAfter(st, order + [n], sol[n := values])
            == Publish(ContextAfter(st, order, sol), n, st.decls[n], values, st.join)
  {
    var longer, more := order + [n], sol[n := values];
    assert longer[..|longer| - 1] == order;
    ContextFrame(st, order, sol, more);
    forall i | 0 <= i < |longer| ensures StepOk(st, longer, more, i) {
      assert longer[..i] == order[..i];
      if i < |order| {
        assert StepOk(st, order, sol, i);
        assert forall m :: m in order[..i] ==> m in order;
        ContextFrame(st, order[..i], sol, more);
      }
    }
  }

  // ---- when the references are fixed: well-founded and closed, nothing more ----

  /** In this context the declaration evaluates exactly when the keys in `refs` are all there. */
  predicate ReadsExactly(st: Setting, d: Decl, refs: set<string>, ctx: Context) {
    if refs <= ctx.Keys then Resolve(d, ctx, st.valid).Values? else Resolve(d, ctx, st.valid) == Later
  }

  /** Every declaration reads a fixed set of keys, in every context that resolving can produce. */
  ghost predicate FixedReferences(st: Setting, refs: map<string, set<string>>) {
    && (forall n :: n in st.decls ==> n in refs)
    && (forall n, order, sol :: n in st.decls && Derivation(st, order, sol)
          ==> ReadsExactly(st, st.decls[n], refs[n], ContextAfter(st, order, sol)))
  }

  /** A key made available by the names in front: derived, one of them in either spelling, or `current` once home is
      there. */
  ghost predicate Provided(k: string, names: seq<string>) {
    || k in BASE
    || (k in CURRENT && "home" in names)
    || exists n :: n in names && (k == n || k == Capitalize(n))
  }

  ghost predicate ReferencesFirst(refs: map<string, set<string>>, order: seq<string>) {
    forall i, k :: 0 <= i < |order| && order[i] in refs && k in refs[order[i]] ==> Provided(k, order[..i])
  }

  /** The reference relation over the declared names is closed and well-founded. */
  ghost predicate WellFounded(st: Setting, refs: map<string, set<string>>) {
    exists order: seq<string> ::
      Distinct(order) && (forall n :: n in order <==> n in st.decls) && ReferencesFirst(refs, order)
  }

  lemma ClaimedIsThere(st: Setting, order: seq<string>, sol: map<string, seq<string>>, k: string, v: Value)
    requires (forall n :: n in order ==> n in st.decls && n in sol) && Claims(st, Members(order), sol, k, v)
    ensures k in ContextAfter(st, order, sol)
  {
    ContextIsClaimed(st, order, sol, k);
  }

  lemma ProvidedIsPublished(st: Setting, order: seq<string>, sol: map<string, seq<string>>, k: string)
    requires Derivation(st, order, sol)
    ensures Provided(k, order) <==> k in ContextAfter(st, order, sol)
  {
    ContextIsClaimed(st, order, sol, k);
    if k in BASE {
      ClaimedIsThere(st, order, sol, k, BASE[k]);
    }
    if k in CURRENT && "home" in order {
      ValuesAreThere(st, order, sol, "home");
      assert Puts(st, "home", sol["home"], k, One(st.join(sol["home"][0])));
      ClaimedIsThere(st, order, sol, k, One(st.join(sol["home"][0])));
    }
    if n :| n in order && (k == n || k == Capitalize(n)) {
      assert Puts(st, n, sol[n], k, ValueOf(st.decls[n], sol[n]));
      ClaimedIsThere(st, order, sol, k, ValueOf(st.decls[n], sol[n]));
    }
  }

  lemma DeriveOneMore(st: Setting, refs: set<string>, order: seq<string>, sol: map<string, seq<string>>, n: string)
    returns (next: map<string, seq<string>>)
    requires Derivation(st, order, sol) && n in st.decls && n !in order
    requires ReadsExactly(st, st.decls[n], refs, ContextAfter(st, order, sol))
    requires forall k :: k in refs ==> Provided(k, order)
    ensures Derivation(st, order + [n], next)
  {
    var ctx := ContextAfter(st, order, sol);
    forall key | key in refs ensures key in ctx {
      ProvidedIsPublished(st, order, sol, key);
    }
    assert refs <= ctx.Keys;
    var values := Resolve(st.decls[n], ctx, st.valid).values;
    DerivationExtends(st, order, sol, n, values);
    next := sol[n := values];
  }

  lemma NextInOrder(st: Setting, refs: map<string, set<string>>, order: seq<string>, i: nat,
                    sol: map<string, seq<string>>)
    requires i < |order| && FixedReferences(st, refs) && Derivation(st, order[..i], sol)
    requires Distinct(order) && (forall n :: n in order ==> n in st.decls) && ReferencesFirst(refs, order)
    ensures var n, front := order[i], order[..i];
            && n in st.decls && n in refs && n !in front && (forall k :: k in refs[n] ==> Provided(k, front))
            && ReadsExactly(st, st.decls[n], refs[n], ContextAfter(st, front, sol))
  {
    assert order[i] in order;
  }

  lemma {:induction false} DeriveInOrder(st: Setting, refs: map<string, set<string>>, order: seq<string>, k: nat)
    returns (sol: map<string, seq<string>>)
    requires k <= |order| && FixedReferences(st, refs)
    requires Distinct(order) && (forall n :: n in order ==> n in st.decls) && ReferencesFirst(refs, order)
    ensures Derivation(st, order[..k], sol)
  {
    if k == 0 {
      sol := map[];
    } else {
      var n, front := order[k - 1], order[..k - 1];
      sol := DeriveInOrder(st, refs, order, k - 1);
      NextInOrder(st, refs, order, k - 1, sol);
      sol := DeriveOneMore(st, refs[n], front, sol, n);
      assert order[..k] == front + [n];
    }
  }

  lemma DerivedInOrder(st: Setting, refs: map<string, set<string>>, order: seq<string>, sol: map<string, seq<string>>)
    requires FixedReferences(st, refs) && Derivation(st, order, sol)
    ensures ReferencesFirst(refs, order)
  {
    forall i, k | 0 <= i < |order| && order[i] in refs && k in refs[order[i]]
      ensures Provided(k, order[..i])
    {
      var front := order[..i];
      assert StepOk(st, order, sol, i);
      DerivationPrefix(st, order, sol, i);
      assert ReadsExactly(st, st.decls[order[i]], refs[order[i]], ContextAfter(st, front, sol));
      ProvidedIsPublished(st, front, sol, k);
    }
  }

  lemma NothingFails(st: Setting, order: seq<string>, sol: map<string, seq<string>>, refs: map<string, set<string>>)
    requires FixedReferences(st, refs) && Derivation(st, order, sol)
    ensures forall n :: n in st.decls ==> Resolve(st.decls[n], ContextAfter(st, order, sol), st.valid) != Error
  {
    forall n | n in st.decls ensures Resolve(st.decls[n], ContextAfter(st, order, sol), st.valid) != Error {
      assert ReadsExactly(st, st.decls[n], refs[n], ContextAfter(st, order, sol));
    }
  }

  /** While names are missing, the first missing one in a well-founded order has everything it reads. */
  lemma NextByReferences(st: Setting, order: seq<string>, sol: map<string, seq<string>>, refs: map<string, set<string>>)
    returns (n: string)
    requires FixedReferences(st, refs) && Derivation(st, order, sol) && WellFounded(st, refs) && !Complete(st, order)
    ensures n in st.decls && n !in order && Resolve(st.decls[n], ContextAfter(st, order, sol), st.valid).Values?
  {
    var b: seq<string> :| Distinct(b) && (forall m :: m in b <==> m in st.decls) && ReferencesFirst(refs, b);
    var i := FirstMissing(st, order, b);
    n := b[i];
    forall key | key in refs[n] ensures key in ContextAfter(st, order, sol) {
      ProvidedStays(b[..i], order, key);
      ProvidedIsPublished(st, order, sol, key);
    }
    assert ReadsExactly(st, st.decls[n], refs[n], ContextAfter(st, order, sol));
  }

  lemma ProvidedStays(a: seq<string>, b: seq<string>, key: string)
    requires Provided(key, a) && forall n :: n in a ==> n in b
    ensures Provided(key, b)
  {}

  /** Some order evaluates every declaration. */
  ghost predicate Derivable(st: Setting) {
    exists order: seq<string>, sol: map<string, seq<string>> :: Derivation(st, order, sol) && Complete(st, order)
  }

  /** With fixed references and valid values, an answer exists exactly when the references are closed and
      well-founded. */
  lemma DerivableExactly(st: Setting, refs: map<string, set<string>>)
    requires FixedReferences(st, refs)
    ensures Derivable(st) <==> WellFounded(st, refs)
  {
    if WellFounded(st, refs) {
      var order: seq<string> :|
        Distinct(order) && (forall n :: n in order <==> n in st.decls) && ReferencesFirst(refs, order);
      var sol := DeriveInOrder(st, refs, order, |order|);
      assert order[..|order|] == order;
      assert Derivation(st, order, sol) && Complete(st, order);
    }
    if Derivable(st) {
      var order: seq<string>, sol: map<string, seq<string>> :| Derivation(st, order, sol) && Complete(st, order);
      DerivedInOrder(st, refs, order, sol);
    }
  }

  // ---- ordinary declarations ----

  /** How defaults are usually written: a path as it stands, or a path below another one. */
  datatype Default = Fixed(text: string) | Below(key: string, text: string)

  function ExprOf(d: Default): Expr {
    match d
    case Fixed(text) => Expr(0, got => Finish(text))
    case Below(key, text) =>
      Expr(1, (got: seq<Value>) =>
             if got == [] then Ask(key) else if got[0].One? then Finish(got[0].path + text) else Fail)
  }

  function KeysOf(d: Default): set<string> {
    match d
    case Fixed(_) => {}
    case Below(key, _) => {key}
  }

  function KeysOfAll(ds: map<string, Default>): map<string, set<string>> {
    map n | n in ds :: KeysOf(ds[n])
  }

  predicate Holds(s: string, part: string) {
    part <= s || (s != "" && Holds(s[1..], part))
  }

  /** The test of resolveOnePath: absolute, or with the placeholder of the generation in it. */
  predicate Acceptable(s: string) {
    "/" <= s || Holds(s, GENERATION)
  }

  /** Declarations of single paths, each with one such default. */
  function OrdinarySetting(ds: map<string, Default>, join: string -> string): Setting {
    Setting(map n | n in ds :: Decl(true, [], [ExprOf(ds[n])], None), Acceptable, join)
  }

  lemma {:induction false} AcceptableBelow(s: string, text: string)
    requires Holds(s, GENERATION)
    ensures Holds(s + text, GENERATION)
  {
    if !(GENERATION <= s) {
      AcceptableBelow(s[1..], text);
      assert (s + text)[1..] == s[1..] + text;
    }
  }

  ghost predicate AllAcceptable(ctx: Context) {
    forall k :: k in ctx ==> ctx[k].One? && Acceptable(ctx[k].path)
  }

  function Written(d: Default, ctx: Context): string
    requires d.Below? ==> d.key in ctx && ctx[d.key].One?
  {
    match d
    case Fixed(text) => text
    case Below(key, text) => ctx[key].path + text
  }

  lemma OrdinaryStep(d: Default, ctx: Context, join: string -> string)
    requires d.Fixed? ==> Acceptable(d.text)
    requires AllAcceptable(ctx)
    ensures var o := Resolve(Decl(true, [], [ExprOf(d)], None), ctx, Acceptable);
            if KeysOf(d) <= ctx.Keys then o == Values([Written(d, ctx)]) && Acceptable(Written(d, ctx)) else o == Later
  {
    var decl := Decl(true, [], [ExprOf(d)], None);
    assert EvalDefaults(decl.exprs, 0, ctx, Acceptable) == Values([]);
    if d.Below? && d.key in ctx {
      var e, v := ExprOf(d), ctx[d.key];
      assert [] + [v] == [v] && Eval(e, ctx, [v]) == Answered(v.path + d.text);
      if !("/" <= v.path) {
        AcceptableBelow(v.path, d.text);
      }
      assert Acceptable(v.path + d.text);
    }
  }

  ghost predicate Ordinary(ds: map<string, Default>, join: string -> string) {
    && (forall n :: n in ds && ds[n].Fixed? ==> Acceptable(ds[n].text))
    && (forall s :: Acceptable(s) ==> Acceptable(join(s)))
  }

  lemma {:induction false} OrdinaryContext(ds: map<string, Default>, join: string -> string, order: seq<string>,
                                           sol: map<string, seq<string>>)
    requires Ordinary(ds, join) && Derivation(OrdinarySetting(ds, join), order, sol)
    ensures AllAcceptable(ContextAfter(OrdinarySetting(ds, join), order, sol))
  {
    var st := OrdinarySetting(ds, join);
    if order == [] {
      assert GENERATION <= GENERATION && Holds(GENERATION, GENERATION);
    } else {
      var k, n := |order| - 1, order[|order| - 1];
      assert n in order && n in st.decls && n in ds;
      DerivationPrefix(st, order, sol, k);
      OrdinaryContext(ds, join, order[..k], sol);
      assert StepOk(st, order, sol, k);
      OrdinaryStep(ds[n], ContextAfter(st, order[..k], sol), join);
      assert Acceptable(sol[n][0]) && Acceptable(join(sol[n][0]));
    }
  }

  /** Such declarations have fixed references: `{{ .Paths.Home }}/data` reads Home, wherever Home comes from. So by
      DerivableExactly they resolve exactly when nothing refers to a path that is not declared or back to itself. */
  lemma OrdinaryReferencesAreFixed(ds: map<string, Default>, join: string -> string)
    requires Ordinary(ds, join)
    ensures FixedReferences(OrdinarySetting(ds, join), KeysOfAll(ds))
  {
    var st := OrdinarySetting(ds, join);
    forall n, order, sol | n in st.decls && Derivation(st, order, sol)
      ensures ReadsExactly(st, st.decls[n], KeysOf(ds[n]), ContextAfter(st, order, sol))
    {
      OrdinaryContext(ds, join, order, sol);
      OrdinaryStep(ds[n], ContextAfter(st, order, sol), join);
    }
  }
}
