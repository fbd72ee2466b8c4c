/** The procedure that resolves the paths round by round, held against what a derivation of them is. */
module PathResolution {
  import opened Options
  import opened Sorting
  import opened Paths

  /** resolveOnePath: bound volumes win over defaults; the first default that is not ready or not valid decides. */
  method ResolveOnePath(d: Decl, ctx: Context, valid: string -> bool) returns (o: Outcome)
    ensures o == Resolve(d, ctx, valid)
  {
    if |d.bound| > 0 {
      var found: seq<string> := [];
      for i := 0 to |d.bound|
        invariant BoundPaths(d.bound[..i]) == Values(found)
      {
        assert d.bound[..i + 1][..i] == d.bound[..i];
        match d.bound[i]
        case None =>
          BoundFails(d.bound, i + 1);
          return Error;
        case Some(p) => found := found + [p];
      }
      assert d.bound[..|d.bound|] == d.bound;
      return Values(found);
    }
    if |d.exprs| == 0 {
      return Error;
    }
    var out: seq<string> := [];
    for i := 0 to |d.exprs|
      invariant EvalDefaults(d.exprs, i, ctx, valid) == Values(out)
    {
      var answer := Eval(d.exprs[i], ctx, []);
      var next := EvalDefaults(d.exprs, i + 1, ctx, valid);
      match answer
      case Answered(s) =>
        if !valid(s) {
          DefaultsFail(d.exprs, i + 1, ctx, valid);
          return Error;
        }
        out := out + [s];
      case Unresolved =>
        DefaultsFail(d.exprs, i + 1, ctx, valid);
        return Later;
      case Broken =>
        DefaultsFail(d.exprs, i + 1, ctx, valid);
        return Error;
    }
    o := Values(out);
  }

  lemma {:induction false} BoundFails(bound: seq<Option<string>>, k: nat)
    requires k <= |bound| && BoundPaths(bound[..k]) == Error
    ensures BoundPaths(bound) == Error
    decreases |bound|
  {
    if k < |bound| {
      assert bound[..|bound| - 1][..k] == bound[..k];
      BoundFails(bound[..|bound| - 1], k);
    } else {
      assert bound[..k] == bound;
    }
  }

  lemma {:induction false} DefaultsFail(exprs: seq<Expr>, k: nat, ctx: Context, valid: string -> bool)
    requires k <= |exprs| && !EvalDefaults(exprs, k, ctx, valid).Values?
    ensures EvalDefaults(exprs, |exprs|, ctx, valid) == EvalDefaults(exprs, k, ctx, valid)
    decreases |exprs| - k
  {
    if k < |exprs| {
      DefaultsFail(exprs, k + 1, ctx, valid);
    }
  }

  datatype PathValue = PathValue(values: seq<string>, linkInto: string)

  predicate LinkOk(d: Decl, ctx: Context, link: string) {
    match d.linkInto
    case None => link == ""
    case Some(e) => Eval(e, ctx, []) == Answered(link)
  }

  ghost predicate LinksEvaluate(st: Setting, ctx: Context) {
    forall n :: n in st.decls && st.decls[n].linkInto.Some? ==> Eval(st.decls[n].linkInto.value, ctx, []).Answered?
  }

  ghost predicate ConsistentValues(st: Setting, sol: map<string, seq<string>>) {
    sol.Keys == st.decls.Keys && Consistent(st, st.decls.Keys, sol)
  }

  /** The declarations have a meaning: some order evaluates them all without publishing over anything, and every
      linkInto evaluates after that. */
  ghost predicate Resolvable(st: Setting) {
    "home" in st.decls && exists order: seq<string>, sol: map<string, seq<string>> :: Answers(st, order, sol)
  }

  ghost predicate Answers(st: Setting, order: seq<string>, sol: map<string, seq<string>>) {
    && Derivation(st, order, sol) && Complete(st, order) && Consistent(st, Members(order), sol)
    && LinksEvaluate(st, ContextAfter(st, order, sol))
  }

  ghost function ValuesOf(out: map<string, PathValue>): map<string, seq<string>> {
    map n | n in out :: out[n].values
  }

  /** Every declaration is either pending or resolved, and the resolved ones are those of the order. */
  ghost predicate Splits(st: Setting, pending: map<string, Decl>, out: map<string, PathValue>, order: seq<string>) {
    && (forall n :: n in pending ==> n in st.decls && pending[n] == st.decls[n])
    && (forall n :: n in st.decls <==> n in pending || n in order)
    && (forall n :: n in order <==> n in out)
    && (forall n :: n in order ==> n !in pending)
    && (forall n :: n in out ==> out[n].linkInto == "")
  }

  /** Every declaration has values. All of them stand in the context under their keys exactly when nothing different
      is published under one key; and then each satisfies its own defining expressions there. */
  ghost predicate Solution(st: Setting, out: map<string, PathValue>, ctx: Context) {
    var sol := ValuesOf(out);
    && out.Keys == st.decls.Keys && "home" in out
    && (forall n :: n in out ==> |out[n].values| > 0 && LinkOk(st.decls[n], ctx, out[n].linkInto))
    && (ConsistentValues(st, sol) <==> forall k, v :: Claims(st, st.decls.Keys, sol, k, v) ==> Maps(ctx, k, v))
    && (ConsistentValues(st, sol)
        ==> forall n :: n in out ==> Resolve(st.decls[n], ctx, st.valid) == Values(out[n].values))
  }

  /** What holds between rounds. */
  ghost predicate Reached(st: Setting, ctx: Context, pending: map<string, Decl>, out: map<string, PathValue>,
                          order: seq<string>) {
    && Splits(st, pending, out, order) && Derivation(st, order, ValuesOf(out))
    && ctx == ContextAfter(st, order, ValuesOf(out))
  }

  ghost predicate Fails(st: Setting, ctx: Context, pending: map<string, Decl>) {
    exists n :: n in pending && n in st.decls && Resolve(st.decls[n], ctx, st.valid) == Error
  }

  ghost predicate TriedLater(st: Setting, ctx: Context, names: seq<string>) {
    forall n :: n in names ==> n in st.decls && Resolve(st.decls[n], ctx, st.valid) == Later
  }

  ghost predicate AllLater(st: Setting, ctx: Context, pending: map<string, Decl>) {
    forall n :: n in pending ==> n in st.decls && Resolve(st.decls[n], ctx, st.valid) == Later
  }

  lemma SplitsAdvance(st: Setting, pending: map<string, Decl>, out: map<string, PathValue>, order: seq<string>,
                      n: string, v: PathValue)
    requires Splits(st, pending, out, order) && n in pending && v.linkInto == ""
    ensures Splits(st, pending - {n}, out[n := v], order + [n])
    ensures |pending - {n}| < |pending|
  {}

  lemma ValuesOfUpdate(out: map<string, PathValue>, n: string, v: PathValue)
    ensures ValuesOf(out[n := v]) == ValuesOf(out)[n := v.values]
  {}

  /** Resolving one more name keeps all of it. */
  lemma Advances(st: Setting, ctx: Context, pending: map<string, Decl>, out: map<string, PathValue>, order: seq<string>,
                 n: string, values: seq<string>)
    requires Reached(st, ctx, pending, out, order) && n in pending
    requires Resolve(pending[n], ctx, st.valid) == Values(values)
    ensures Reached(st, Publish(ctx, n, pending[n], values, st.join), pending - {n},
                    out[n := PathValue(values, "")], order + [n])
    ensures values != [] && |pending - {n}| < |pending|
  {
    SplitsAdvance(st, pending, out, order, n, PathValue(values, ""));
    ResolvePersists(pending[n], ctx, ctx, st.valid);
    DerivationExtends(st, order, ValuesOf(out), n, values);
    ValuesOfUpdate(out, n, PathValue(values, ""));
  }

  /** A point from which nothing pending evaluates, or something fails, is reached only when there is no answer. */
  lemma Blocked(st: Setting, ctx: Context, pending: map<string, Decl>, out: map<string, PathValue>, order: seq<string>)
    requires Reached(st, ctx, pending, out, order) && |pending| > 0
    requires AllLater(st, ctx, pending) || Fails(st, ctx, pending)
    ensures !Resolvable(st)
  {
    var sol := ValuesOf(out);
    if Resolvable(st) {
      var b: seq<string>, sol2: map<string, seq<string>> :| Answers(st, b, sol2);
      if AllLater(st, ctx, pending) {
        var k :| k in pending;
        var m := NeverStuck(st, order, sol, b, sol2);
      } else {
        var n :| n in pending && n in st.decls && Resolve(st.decls[n], ctx, st.valid) == Error;
        NeverFails(st, order, sol, b, sol2, n);
      }
    }
  }

  /** Where each declaration reads fixed keys, that happens only when the references are not well-founded. */
  lemma BlockedIsIllFounded(st: Setting, ctx: Context, pending: map<string, Decl>, out: map<string, PathValue>,
                            order: seq<string>, refs: map<string, set<string>>)
    requires Reached(st, ctx, pending, out, order) && |pending| > 0 && FixedReferences(st, refs)
    requires AllLater(st, ctx, pending) || Fails(st, ctx, pending)
    ensures !WellFounded(st, refs)
  {
    var sol := ValuesOf(out);
    NothingFails(st, order, sol, refs);
    if WellFounded(st, refs) {
      var k :| k in pending;
      var n := NextByReferences(st, order, sol, refs);
    }
  }

  lemma CompleteIsWellFounded(st: Setting, order: seq<string>, sol: map<string, seq<string>>,
                              refs: map<string, set<string>>)
    requires Derivation(st, order, sol) && Complete(st, order) && FixedReferences(st, refs)
    ensures WellFounded(st, refs)
  {
    DerivedInOrder(st, refs, order, sol);
  }

  /** With references of that kind, and names that stay apart, what is resolvable is what is well-founded. */
  lemma ResolvableExactly(st: Setting, refs: map<string, set<string>>)
    requires FixedReferences(st, refs) && NoClash(st.decls.Keys)
    requires forall n :: n in st.decls ==> st.decls[n].linkInto == None
    ensures Resolvable(st) <==> "home" in st.decls && WellFounded(st, refs)
  {
    DerivableExactly(st, refs);
    if "home" in st.decls && WellFounded(st, refs) {
      var order: seq<string>, sol: map<string, seq<string>> :| Derivation(st, order, sol) && Complete(st, order);
      assert Members(order) == st.decls.Keys;
      ApartIsConsistent(st, Members(order), sol);
      assert Answers(st, order, sol);
    }
    if Resolvable(st) {
      var order: seq<string>, sol: map<string, seq<string>> :| Answers(st, order, sol);
      assert Derivation(st, order, sol) && Complete(st, order);
    }
  }

  /** The values come out one by one in some order, and this is the context they leave. */
  ghost predicate Derived(st: Setting, sol: map<string, seq<string>>, ctx: Context) {
    exists order: seq<string> ::
      Derivation(st, order, sol) && Complete(st, order) && ctx == ContextAfter(st, order, sol)
  }

  /** Every complete derivation, whatever its order, gives these values. */
  ghost predicate TheAnswer(st: Setting, sol: map<string, seq<string>>) {
    forall a, sol2 :: Derivation(st, a, sol2) && Complete(st, a) ==> Agree(a, sol2, sol)
  }

  /** Beside an answer every complete derivation gives the same values and the same context. */
  lemma SameContext(st: Setting, a: seq<string>, sol: map<string, seq<string>>, b: seq<string>,
                    sol2: map<string, seq<string>>)
    requires Derivation(st, a, sol) && Complete(st, a) && Derivation(st, b, sol2) && Complete(st, b)
    requires Consistent(st, Members(b), sol2)
    ensures Agree(a, sol, sol2) && Consistent(st, Members(a), sol)
    ensures ContextAfter(st, a, sol) == ContextAfter(st, b, sol2)
  {
    Confluent(st, a, sol, b, sol2);
    ConsistentPart(st, Members(a), sol, Members(b), sol2);
    ContextGrows(st, a, sol, b, sol2);
    ContextGrows(st, b, sol2, a, sol);
  }

  /** A complete derivation is an answer exactly when its values are consistent and its links evaluate. */
  lemma Settled(st: Setting, order: seq<string>, sol: map<string, seq<string>>)
    requires Derivation(st, order, sol) && Complete(st, order) && Members(order) == sol.Keys == st.decls.Keys
    ensures Resolvable(st) <==>
              "home" in st.decls && ConsistentValues(st, sol) && LinksEvaluate(st, ContextAfter(st, order, sol))
    ensures ConsistentValues(st, sol) ==> TheAnswer(st, sol)
  {
    if Resolvable(st) {
      var b: seq<string>, sol2: map<string, seq<string>> :| Answers(st, b, sol2);
      SameContext(st, order, sol, b, sol2);
    }
    if ConsistentValues(st, sol) {
      assert LinksEvaluate(st, ContextAfter(st, order, sol)) ==> Answers(st, order, sol);
      forall a, sol2 | Derivation(st, a, sol2) && Complete(st, a) ensures Agree(a, sol2, sol) {
        SameContext(st, a, sol2, order, sol);
      }
    }
  }

  method SortedPathNames(m: map<string, Decl>) returns (names: seq<string>)
    ensures Distinct(names) && SortedBy(names, NameLeq) && forall n :: n in names <==> n in m
  {
    names := [];
    var keys := m.Keys;
    while keys != {}
      invariant Distinct(names)
      invariant forall n :: n in m <==> n in keys || n in names
      invariant forall n :: n in names ==> n !in keys
    {
      var k :| k in keys;
      names := names + [k];
      keys := keys - {k};
    }
    SortByDistinct(names, NameLeq);
    SortByMembers(names, NameLeq);
    NameLeqIsTotalPreorder();
    SortBySorted(names, NameLeq);
    names := SortNames(names);
  }

  /** publishPath: one string for a single path, the list otherwise, under both spellings of the name. */
  method PublishPath(dst: Context, name: string, d: Decl, values: seq<string>) returns (r: Context)
    requires values != []
    ensures r == dst[name := ValueOf(d, values)][Capitalize(name) := ValueOf(d, values)]
  {
    var v := Many(values);
    if d.single {
      v := One(values[0]);
    }
    r := dst[name := v];
    var c := Capitalize(name);
    if c != name {
      r := r[c := v];
    }
  }

  /** The second pass: linkInto may use every path, so it is evaluated once all are there. */
  method LinkPass(st: Setting, paths: Context, resolved: map<string, PathValue>)
      returns (r: Option<map<string, PathValue>>)
    requires resolved.Keys == st.decls.Keys
    requires forall n :: n in resolved ==> resolved[n].linkInto == ""
    ensures r.Some? <==> LinksEvaluate(st, paths)
    ensures r.Some? ==> r.value.Keys == resolved.Keys && ValuesOf(r.value) == ValuesOf(resolved)
    ensures r.Some? ==> forall n :: n in r.value ==> LinkOk(st.decls[n], paths, r.value[n].linkInto)
  {
    var out := resolved;
    var todo := st.decls.Keys;
    while todo != {}
      invariant todo <= st.decls.Keys && out.Keys == resolved.Keys
      invariant forall n :: n in out ==> out[n].values == resolved[n].values
      invariant forall n :: n in out ==>
                  if n in todo then out[n].linkInto == "" else LinkOk(st.decls[n], paths, out[n].linkInto)
    {
      var n :| n in todo;
      var d := st.decls[n];
      if d.linkInto.Some? {
        var answer := Eval(d.linkInto.value, paths, []);
        if !answer.Answered? {
          return None;
        }
        out := out[n := out[n].(linkInto := answer.text)];
      }
      todo := todo - {n};
    }
    r := Some(out);
  }

  lemma FinishedSolution(st: Setting, ctx: Context, out: map<string, PathValue>, order: seq<string>,
                         linked: map<string, PathValue>)
    requires Reached(st, ctx, map[], out, order) && linked.Keys == out.Keys && ValuesOf(linked) == ValuesOf(out)
    requires "home" in linked
    requires forall n :: n in linked && n in st.decls ==> LinkOk(st.decls[n], ctx, linked[n].linkInto)
    ensures Solution(st, linked, ctx)
  {
    var sol := ValuesOf(out);
    assert Members(order) == st.decls.Keys == sol.Keys;
    PublishedExactly(st, order, sol);
    forall n | n in linked ensures |linked[n].values| > 0 {
      assert ValuesOf(linked)[n] == sol[n];
      ValuesAreThere(st, order, sol, n);
    }
    if ConsistentValues(st, sol) {
      forall n | n in linked ensures Resolve(st.decls[n], ctx, st.valid) == Values(linked[n].values) {
        assert ValuesOf(linked)[n] == sol[n];
        FixedPoint(st, order, sol, n);
      }
    }
  }

  /** Once nothing is pending, what the second pass and the check for home leave to decide. */
  lemma Finished(st: Setting, ctx: Context, out: map<string, PathValue>, order: seq<string>,
                         linked: Option<map<string, PathValue>>)
    requires Reached(st, ctx, map[], out, order)
    requires linked.Some? <==> LinksEvaluate(st, ctx)
    requires linked.Some? ==> linked.value.Keys == out.Keys && ValuesOf(linked.value) == ValuesOf(out)
    requires linked.Some?
             ==> forall n :: n in linked.value && n in st.decls ==> LinkOk(st.decls[n], ctx, linked.value[n].linkInto)
    ensures linked.Some? && "home" in linked.value ==> Solution(st, linked.value, ctx)
    ensures Resolvable(st) <==> linked.Some? && "home" in linked.value && ConsistentValues(st, ValuesOf(linked.value))
    ensures Resolvable(st) ==> TheAnswer(st, ValuesOf(linked.value))
  {
    assert Members(order) == st.decls.Keys == ValuesOf(out).Keys;
    Settled(st, order, ValuesOf(out));
    if linked.Some? && "home" in linked.value {
      FinishedSolution(st, ctx, out, order, linked.value);
    }
  }

  /** resolvePaths' state: the render context it publishes into. */
  class PathRun {
    const st: Setting
    var paths: Context

    constructor (st: Setting)
      ensures this.st == st && paths == map[]
    {
      this.st := st;
      paths := map[];
    }

    /** One round: try each pending name once, in sorted order, publishing what evaluates. */
    method Round(pending: map<string, Decl>, out: map<string, PathValue>, ghost order: seq<string>)
      returns (ok: bool, pending2: map<string, Decl>, out2: map<string, PathValue>, progress: bool,
               ghost order2: seq<string>)
      requires Reached(st, paths, pending, out, order)
      modifies this`paths
      ensures Reached(st, paths, pending2, out2, order2)
      ensures progress ==> |pending2| < |pending|
      ensures !ok ==> Fails(st, paths, pending2)
      ensures ok && !progress ==> pending2 == pending && AllLater(st, paths, pending2)
    {
      pending2, out2, progress, order2 := pending, out, false, order;
      var names := SortedPathNames(pending);
      for i := 0 to |names|
        invariant Reached(st, paths, pending2, out2, order2)
        invariant forall j :: i <= j < |names| ==> names[j] in pending2
        invariant progress ==> |pending2| < |pending|
        invariant !progress ==> pending2 == pending && TriedLater(st, paths, names[..i])
      {
        var name := names[i];
        var d := pending2[name];
        var outcome := ResolveOnePath(d, paths, st.valid);
        match outcome
        case Later =>
        case Error =>
          return false, pending2, out2, progress, order2;
        case Values(values) =>
          Advances(st, paths, pending2, out2, order2, name, values);
          out2 := out2[name := PathValue(values, "")];
          paths := PublishPath(paths, name, d, values);
          if name == "home" {
            var cur := st.join(values[0]);
            paths := paths["Current" := One(cur)]["current" := One(cur)];
          }
          pending2 := pending2 - {name};
          progress := true;
          order2 := order2 + [name];
      }
      ok := true;
    }

    /** resolvePaths: None stands for every error. */
    method ResolvePaths() returns (r: Option<map<string, PathValue>>)
      modifies this`paths
      ensures r.Some? ==> Solution(st, r.value, paths) && Derived(st, ValuesOf(r.value), paths)
      ensures forall refs :: FixedReferences(st, refs) ==>
                (r.Some? <==> WellFounded(st, refs) && "home" in st.decls && LinksEvaluate(st, paths))
      ensures Resolvable(st) <==> r.Some? && ConsistentValues(st, ValuesOf(r.value))
      ensures Resolvable(st) ==> TheAnswer(st, ValuesOf(r.value))
    {
      paths := BASE;
      var out: map<string, PathValue> := map[];
      var pending := st.decls;
      ghost var order: seq<string> := [];
      while |pending| > 0
        invariant Reached(st, paths, pending, out, order)
        decreases |pending|
      {
        var ok, progress;
        ok, pending, out, progress, order := Round(pending, out, order);
        if !ok || !progress {
          Blocked(st, paths, pending, out, order);
          forall refs | FixedReferences(st, refs) ensures !WellFounded(st, refs) {
            BlockedIsIllFounded(st, paths, pending, out, order, refs);
          }
          return None;
        }
      }
      assert pending == map[];
      var linked := LinkPass(st, paths, out);
      Finished(st, paths, out, order, linked);
      forall refs | FixedReferences(st, refs) ensures WellFounded(st, refs) {
        CompleteIsWellFounded(st, order, ValuesOf(out), refs);
      }
      if linked.None? {
        return None;
      }
      if "home" !in linked.value {
        return None;
      }
      r := linked;
    }
  }

  /** Where the names do not clash, the values are always consistent: then it succeeds exactly on what is resolvable. */
  lemma NamesApart(st: Setting, out: map<string, PathValue>, ctx: Context)
    requires Solution(st, out, ctx) && NoClash(st.decls.Keys)
    ensures ConsistentValues(st, ValuesOf(out))
  {
    ApartIsConsistent(st, st.decls.Keys, ValuesOf(out));
  }

  /** What a success gives for a name: the paths of its bound volumes, or the texts of its defaults in the context that
      the run leaves. */
  lemma SolutionMeans(st: Setting, out: map<string, PathValue>, ctx: Context, n: string)
    requires Solution(st, out, ctx) && Derived(st, ValuesOf(out), ctx) && n in st.decls
    ensures n in out
    ensures var d, values := st.decls[n], out[n].values;
            && (d.bound != [] ==>
                  |values| == |d.bound| && forall k :: 0 <= k < |values| ==> d.bound[k] == Some(values[k]))
            && (d.bound == [] && ConsistentValues(st, ValuesOf(out)) ==>
                  |values| == |d.exprs| && forall k :: 0 <= k < |values| ==>
                    Eval(d.exprs[k], ctx, []) == Answered(values[k]) && st.valid(values[k]))
  {
    var sol := ValuesOf(out);
    var order: seq<string> :| Derivation(st, order, sol) && Complete(st, order) && ctx == ContextAfter(st, order, sol);
    var i :| 0 <= i < |order| && order[i] == n;
    DerivedValues(st, order, sol, i);
    ValuesMean(st.decls[n], ctx, st.valid, out[n].values);
  }
}
