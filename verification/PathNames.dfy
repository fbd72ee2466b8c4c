/** Which names can be declared side by side: two paths that share a key of the context can be declared so that one of
    them is never what its own expression says. */
module PathNames {
  import opened Options
  import opened Sorting
  import opened Paths

  // ---- what the names decide ----

  /** Every value is what its own expressions say in the context at the end. */
  ghost predicate Defined(st: Setting, order: seq<string>, sol: map<string, seq<string>>)
    requires Named(st, order, sol)
  {
    forall n :: n in order ==> Resolve(st.decls[n], ContextAfter(st, order, sol), st.valid) == Values(sol[n])
  }

  /** Whatever is declared under these names and in whatever order it evaluates. */
  ghost predicate AlwaysDefined(names: set<string>) {
    forall st: Setting, order, sol ::
      st.decls.Keys == names && Derivation(st, order, sol) && Complete(st, order) ==> Defined(st, order, sol)
  }

  /** Something else is published under the capitalised name. */
  ghost predicate Taken(names: set<string>, n: string) {
    Capitalize(n) in CURRENT + BASE.Keys || exists m :: m in names && m != n && Capitalize(m) == Capitalize(n)
  }

  /** The current link of a home directory. */
  function CurrentOf(home: string): string {
    home + "/current"
  }

  /** One path below whatever stands under its own capitalised name, the others written out. */
  function SelfReading(names: set<string>, n: string): map<string, Default> {
    map m | m in names :: if m == n then Below(Capitalize(n), "/x") else Fixed("/" + m)
  }

  function SelfSetting(names: set<string>, n: string): Setting {
    OrdinarySetting(SelfReading(names, n), CurrentOf)
  }

  lemma SelfReadingIsOrdinary(names: set<string>, n: string)
    ensures Ordinary(SelfReading(names, n), CurrentOf)
  {
    forall s | Acceptable(s) ensures Acceptable(CurrentOf(s)) {
      if Holds(s, GENERATION) {
        AcceptableBelow(s, "/current");
      }
    }
  }

  lemma {:induction false} Enumerated(s: set<string>) returns (order: seq<string>)
    ensures Distinct(order) && forall n :: n in order <==> n in s
  {
    if s == {} {
      order := [];
    } else {
      var n :| n in s;
      var front := Enumerated(s - {n});
      order := front + [n];
    }
  }

  lemma TakenIsProvided(names: set<string>, n: string, front: seq<string>)
    requires "home" in names && n in names && Taken(names, n) && forall m :: m in front <==> m in names && m != n
    ensures Provided(Capitalize(n), front)
  {
    assert Capitalize("home") == "Home";
  }

  /** With everything else in front, what the path reads is there. */
  lemma SelfReadingIsWellFounded(names: set<string>, n: string)
    requires "home" in names && n in names && Taken(names, n)
    ensures WellFounded(SelfSetting(names, n), KeysOfAll(SelfReading(names, n)))
  {
    var ds := SelfReading(names, n);
    var front := Enumerated(names - {n});
    TakenIsProvided(names, n, front);
    RefsOf(names, n);
    ReaderLast(KeysOfAll(ds), front, n, Capitalize(n));
    LastInOrder(OrdinarySetting(ds, CurrentOf), KeysOfAll(ds), front, n);
  }

  lemma LastInOrder(st: Setting, refs: map<string, set<string>>, front: seq<string>, n: string)
    requires Distinct(front) && n !in front && st.decls.Keys == Members(front) + {n}
    requires ReferencesFirst(refs, front + [n])
    ensures WellFounded(st, refs)
  {
    assert Distinct(front + [n]) && forall m :: m in front + [n] <==> m in st.decls;
  }

  lemma RefsOf(names: set<string>, n: string)
    requires n in names
    ensures var refs := KeysOfAll(SelfReading(names, n));
            refs.Keys == names && refs[n] == {Capitalize(n)} && forall m :: m in names && m != n ==> refs[m] == {}
    ensures SelfSetting(names, n).decls.Keys == names
  {}

  lemma ReaderLast(refs: map<string, set<string>>, front: seq<string>, n: string, key: string)
    requires (forall m :: m in front ==> m in refs && refs[m] == {}) && n in refs && refs[n] == {key}
    requires Provided(key, front)
    ensures ReferencesFirst(refs, front + [n])
  {
    var order := front + [n];
    assert order[..|front|] == front;
    assert forall i :: 0 <= i < |front| ==> order[i] == front[i];
  }

  /** What stands under a key at some point stays there or is published over by a later name. */
  lemma {:induction false} PutsLater(st: Setting, order: seq<string>, sol: map<string, seq<string>>, i: nat, k: string)
    requires Named(st, order, sol) && i <= |order|
    requires forall n :: n in order[..i] ==> n in order
    requires k in ContextAfter(st, order[..i], sol)
    ensures k in ContextAfter(st, order, sol)
    ensures || ContextAfter(st, order, sol)[k] == ContextAfter(st, order[..i], sol)[k]
            || exists j :: i <= j < |order| && Puts(st, order[j], sol[order[j]], k, ContextAfter(st, order, sol)[k])
  {
    if i == |order| {
      assert order[..i] == order;
    } else {
      var front := order[..|order| - 1];
      assert front[..i] == order[..i];
      PutsLater(st, front, sol, i, k);
    }
  }

  /** What one of the other paths publishes tells which path it is. */
  lemma FixedPuts(names: set<string>, n: string, p: string, k: string, v: Value)
    requires p in names && p != n
    requires Puts(SelfSetting(names, n), p, ["/" + p], k, v)
    ensures (v == One("/" + p) && (k == p || k == Capitalize(p)))
            || (p == "home" && k in CURRENT && v == One("/home/current"))
  {
    assert "/" + "home" == "/home" && "/home" + "/current" == "/home/current";
  }

  lemma DifferentPuts(names: set<string>, n: string, p: string, u: Value, q: string, v: Value, k: string)
    requires p in names && q in names && p != n && q != n && p != q
    requires Puts(SelfSetting(names, n), p, ["/" + p], k, u)
    requires Puts(SelfSetting(names, n), q, ["/" + q], k, v)
    ensures u != v
  {
    FixedPuts(names, n, p, k, u);
    FixedPuts(names, n, q, k, v);
    assert ("/" + p)[1..] == p && ("/" + q)[1..] == q;
    assert k in CURRENT ==> |k| == 7;
    assert |"/home/current"| == 13;
  }

  /** The values of such a setting: the others as written, and the one below what stood under its name before. */
  lemma SelfReadingValue(names: set<string>, n: string, order: seq<string>, sol: map<string, seq<string>>, i: nat)
    requires Derivation(SelfSetting(names, n), order, sol)
    requires i < |order|
    ensures order[i] in order && order[i] in names && (forall m :: m in order[..i] ==> m in order)
    ensures order[i] != n ==> sol[order[i]] == ["/" + order[i]]
    ensures var ctx := ContextAfter(SelfSetting(names, n), order[..i], sol);
            order[i] == n ==> Capitalize(n) in ctx && ctx[Capitalize(n)].One?
                              && sol[n] == [ctx[Capitalize(n)].path + "/x"]
  {
    var ds := SelfReading(names, n);
    var st := OrdinarySetting(ds, CurrentOf);
    SelfReadingIsOrdinary(names, n);
    assert order[i] in order && order[i] in st.decls;
    assert StepOk(st, order, sol, i);
    DerivationPrefix(st, order, sol, i);
    OrdinaryContext(ds, CurrentOf, order[..i], sol);
    OrdinaryStep(ds[order[i]], ContextAfter(st, order[..i], sol), CurrentOf);
  }

  /** So what its own expression says at the end is not its value: either its value was published under the key it
      reads, or a later path was, and that is not what stood there before. */
  lemma SelfReadingBreaks(names: set<string>, n: string, order: seq<string>, sol: map<string, seq<string>>)
    requires Derivation(SelfSetting(names, n), order, sol) && Complete(SelfSetting(names, n), order)
    requires n in names
    ensures !Defined(SelfSetting(names, n), order, sol)
  {
    var ds := SelfReading(names, n);
    var st, key := OrdinarySetting(ds, CurrentOf), Capitalize(n);
    assert n in st.decls;
    var i :| 0 <= i < |order| && order[i] == n;
    SelfReadingValue(names, n, order, sol, i);
    var before, ctx := ContextAfter(st, order[..i], sol), ContextAfter(st, order, sol);
    KeyMovesOn(names, n, order, sol, i);
    SelfReadingIsOrdinary(names, n);
    OrdinaryContext(ds, CurrentOf, order, sol);
    OrdinaryStep(ds[n], ctx, CurrentOf);
    AppendDiffers(before[key].path, ctx[key].path);
  }

  lemma AppendDiffers(a: string, b: string)
    ensures a + "/x" == b + "/x" ==> a == b
  {
    assert (a + "/x")[..|a|] == a && (b + "/x")[..|b|] == b;
    assert |a + "/x"| == |a| + 2 && |b + "/x"| == |b| + 2;
  }

  /** Right after its turn its own value stands under the key it reads. */
  lemma PutsItself(names: set<string>, n: string, order: seq<string>, sol: map<string, seq<string>>, i: nat)
    requires Named(SelfSetting(names, n), order, sol)
    requires i < |order| && order[i] == n && sol[n] != []
    ensures forall m :: m in order[..i + 1] ==> m in order
    ensures var st, key := SelfSetting(names, n), Capitalize(n);
            Maps(ContextAfter(st, order[..i + 1], sol), key, One(sol[n][0]))
  {
    var upto := order[..i + 1];
    assert upto[..i] == order[..i] && upto[i] in order;
    assert Capitalize("home") == "Home";
  }

  /** What stands at the end under the key it reads is not what stood there before. */
  lemma KeyMovesOn(names: set<string>, n: string, order: seq<string>, sol: map<string, seq<string>>, i: nat)
    requires Derivation(SelfSetting(names, n), order, sol)
    requires i < |order| && order[i] == n
    ensures forall m :: m in order[..i] ==> m in order
    ensures var st, key := SelfSetting(names, n), Capitalize(n);
            var before, ctx := ContextAfter(st, order[..i], sol), ContextAfter(st, order, sol);
            key in before && key in ctx && before[key] != ctx[key]
  {
    var st, key := SelfSetting(names, n), Capitalize(n);
    SelfReadingValue(names, n, order, sol, i);
    var before, ctx := ContextAfter(st, order[..i], sol), ContextAfter(st, order, sol);
    PutsItself(names, n, order, sol, i);
    PutsLater(st, order, sol, i + 1, key);
    if ctx[key] != One(sol[n][0]) {
      var j :| i + 1 <= j < |order| && Puts(st, order[j], sol[order[j]], key, ctx[key]);
      SelfReadingValue(names, n, order, sol, j);
      NotPutBefore(names, n, order, sol, i, j, ctx[key]);
    }
  }

  lemma NotPutBefore(names: set<string>, n: string, order: seq<string>, sol: map<string, seq<string>>, i: nat, j: nat,
                     v: Value)
    requires Derivation(SelfSetting(names, n), order, sol)
    requires i < j < |order| && order[i] == n && order[j] in names && order[j] in order
    requires Puts(SelfSetting(names, n), order[j], sol[order[j]], Capitalize(n), v)
    requires forall m :: m in order[..i] ==> m in order
    requires Capitalize(n) in ContextAfter(SelfSetting(names, n), order[..i], sol)
    ensures ContextAfter(SelfSetting(names, n), order[..i], sol)[Capitalize(n)] != v
  {
    var st, key := SelfSetting(names, n), Capitalize(n);
    var front, q := order[..i], order[j];
    var u := ContextAfter(st, front, sol)[key];
    SelfReadingValue(names, n, order, sol, j);
    FixedPuts(names, n, q, key, v);
    if !(key in BASE && u == BASE[key]) {
      var l := PutBefore(names, n, order, sol, i);
      SelfReadingValue(names, n, order, sol, l);
      DifferentPuts(names, n, order[l], u, q, v, key);
    }
  }

  lemma PutBefore(names: set<string>, n: string, order: seq<string>, sol: map<string, seq<string>>, i: nat)
    returns (l: nat)
    requires Named(SelfSetting(names, n), order, sol) && i <= |order| && forall m :: m in order[..i] ==> m in order
    requires Capitalize(n) in ContextAfter(SelfSetting(names, n), order[..i], sol)
    requires var key := Capitalize(n);
             key in BASE ==> ContextAfter(SelfSetting(names, n), order[..i], sol)[key] != BASE[key]
    ensures l < i && order[l] in order
    ensures var st, key := SelfSetting(names, n), Capitalize(n);
            Puts(st, order[l], sol[order[l]], key, ContextAfter(st, order[..i], sol)[key])
  {
    var st, key := SelfSetting(names, n), Capitalize(n);
    ContextIsClaimed(st, order[..i], sol, key);
    var p :| p in Members(order[..i]) && Puts(st, p, sol[p], key, ContextAfter(st, order[..i], sol)[key]);
    l :| 0 <= l < i && order[l] == p;
  }

  /** Names that clash can be declared so that they resolve, and yet one path is never what its own expression says:
      whatever the order, and so in the sorted one too. */
  lemma ClashBreaks(names: set<string>) returns (st: Setting, refs: map<string, set<string>>)
    requires "home" in names && !NoClash(names)
    ensures st.decls.Keys == names && (forall n :: n in names ==> st.decls[n].linkInto == None)
    ensures FixedReferences(st, refs) && WellFounded(st, refs)
    ensures forall order, sol :: Derivation(st, order, sol) && Complete(st, order) ==> !Defined(st, order, sol)
  {
    var n :| n in names && Taken(names, n);
    var ds := SelfReading(names, n);
    st, refs := OrdinarySetting(ds, CurrentOf), KeysOfAll(ds);
    SelfReadingIsOrdinary(names, n);
    OrdinaryReferencesAreFixed(ds, CurrentOf);
    SelfReadingIsWellFounded(names, n);
    forall order, sol | Derivation(st, order, sol) && Complete(st, order) ensures !Defined(st, order, sol) {
      SelfReadingBreaks(names, n, order, sol);
    }
  }

  /** The names alone decide: every path is always what its own expressions say exactly when no two of them share a
      spelling once capitalised and none is a derived path. */
  lemma NoClashExactly(names: set<string>)
    requires "home" in names
    ensures NoClash(names) <==> AlwaysDefined(names)
  {
    if NoClash(names) {
      forall st: Setting, order, sol | st.decls.Keys == names && Derivation(st, order, sol) && Complete(st, order)
        ensures Defined(st, order, sol)
      {
        ApartIsConsistent(st, Members(order), sol);
        forall n | n in order ensures Resolve(st.decls[n], ContextAfter(st, order, sol), st.valid) == Values(sol[n]) {
          FixedPoint(st, order, sol, n);
        }
      }
    } else {
      var st, refs := ClashBreaks(names);
      DerivableExactly(st, refs);
      var order: seq<string>, sol: map<string, seq<string>> :| Derivation(st, order, sol) && Complete(st, order);
      assert !Defined(st, order, sol);
    }
  }

  // ---- two spellings of one name ----

  /** A key has no third spelling. */
  lemma SpelledTwice(a: string, b: string, p: string)
    requires a != b && Capitalize(a) == Capitalize(b) && (Capitalize(p) == Capitalize(a) || p == Capitalize(a))
    ensures p == a || p == b
  {
    CapitalizeTwice(a);
    assert a != "" && b != "" && p != "";
    assert a == [a[0]] + a[1..] && b == [b[0]] + b[1..] && p == [p[0]] + p[1..];
    assert a[1..] == Capitalize(a)[1..] && b[1..] == Capitalize(b)[1..] && p[1..] == Capitalize(p)[1..];
    assert a[0] != b[0];
    assert Capitalize(a)[0] == Capitalize(b)[0] == Capitalize(p)[0];
  }

  /** What stands under the key at any time comes from one of the two. */
  lemma OneOfTwo(names: set<string>, a: string, b: string, order: seq<string>, sol: map<string, seq<string>>, k: nat)
    requires a != b && Capitalize(a) == Capitalize(b) && Capitalize(a) !in CURRENT + BASE.Keys
    requires Derivation(SelfSetting(names, b), order, sol)
    requires k <= |order| && forall m :: m in order[..k] ==> m in order
    requires Capitalize(a) in ContextAfter(SelfSetting(names, b), order[..k], sol)
    ensures var v := ContextAfter(SelfSetting(names, b), order[..k], sol)[Capitalize(a)];
            v == One("/" + a) || (b in order[..k] && sol[b] != [] && v == One(sol[b][0]))
  {
    var st, key := SelfSetting(names, b), Capitalize(a);
    var v := ContextAfter(st, order[..k], sol)[key];
    ContextIsClaimed(st, order[..k], sol, key);
    var p :| p in Members(order[..k]) && Puts(st, p, sol[p], key, v);
    var l :| 0 <= l < k && order[l] == p;
    SelfReadingValue(names, b, order, sol, l);
    SpelledTwice(a, b, p);
  }

  /** Two spellings of one name, the second put below the first: it is made from the first, and at the end its own
      expression means the second. */
  lemma SpellingsGetMixed(names: set<string>, a: string, b: string, order: seq<string>, sol: map<string, seq<string>>)
    requires a in names && b in names && a != b && Capitalize(a) == Capitalize(b)
    requires Capitalize(a) !in CURRENT + BASE.Keys
    requires Derivation(SelfSetting(names, b), order, sol) && Complete(SelfSetting(names, b), order)
    ensures var st := SelfSetting(names, b);
            && b in order && sol[b] == ["/" + a + "/x"]
            && Resolve(st.decls[b], ContextAfter(st, order, sol), st.valid) == Values(["/" + a + "/x" + "/x"])
  {
    var ds := SelfReading(names, b);
    var st := OrdinarySetting(ds, CurrentOf);
    assert b in st.decls;
    var i :| 0 <= i < |order| && order[i] == b;
    SelfReadingValue(names, b, order, sol, i);
    KeyMovesOn(names, b, order, sol, i);
    OneOfTwo(names, a, b, order, sol, i);
    assert order[..|order|] == order;
    OneOfTwo(names, a, b, order, sol, |order|);
    SelfReadingIsOrdinary(names, b);
    OrdinaryContext(ds, CurrentOf, order, sol);
    OrdinaryStep(ds[b], ContextAfter(st, order, sol), CurrentOf);
  }

  const PREDEFINED := {"home", "config", "data", "logs", "runtime"}

  function DataTwice(): Setting {
    SelfSetting(PREDEFINED + {"Data"}, "data")
  }

  lemma DataSpelled()
    ensures Capitalize("data") == "Data" && Capitalize("Data") == "Data" && "Data" !in CURRENT + BASE.Keys
    ensures "/" + "Data" + "/x" == "/Data/x" && "/Data/x" + "/x" == "/Data/x/x"
  {}

  /** For one, a Pack that declares "Data" beside the predefined "data". */
  lemma DataDeclaredTwice(order: seq<string>, sol: map<string, seq<string>>)
    requires Derivation(DataTwice(), order, sol) && Complete(DataTwice(), order)
    ensures "data" in order && sol["data"] == ["/Data/x"]
    ensures var st := DataTwice();
            Resolve(st.decls["data"], ContextAfter(st, order, sol), st.valid) == Values(["/Data/x/x"])
  {
    DataSpelled();
    SpellingsGetMixed(PREDEFINED + {"Data"}, "Data", "data", order, sol);
  }
}
