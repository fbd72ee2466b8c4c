/** The index of locally available Packs: per name, every version added, highest first, and the resolution of a
    constraint to the highest version that satisfies it. */
module PackIndex {
  import opened Options
  import opened Sorting
  import opened Versions

  datatype Entry = Entry(name: string, dir: string, version: Version)

  /** The order of an index list: no entry is below one that follows it. */
  predicate AtLeast(a: Entry, b: Entry) {
    Compare(a.version, b.version) >= 0
  }

  lemma AtLeastIsTotalPreorder()
    ensures TotalPreorder(AtLeast)
  {
    CompareIsTotalPreorder();
    forall a: Entry, b: Entry ensures AtLeast(a, b) <==> Leq(b.version, a.version) {
      CompareFlips(a.version, b.version);
    }
  }

  // ---- the specification: what was added, in the order of addition ----

  function Named(added: seq<Entry>, name: string): seq<Entry> {
    if added == [] then []
    else
      var front, e := Named(added[..|added| - 1], name), added[|added| - 1];
      if e.name == name then front + [e] else front
  }

  predicate Selects(e: Entry, terms: seq<Term>) {
    Versions.Matches(terms, e.version)
  }

  /** A highest version that fits, the one added first among equals. */
  ghost predicate IsBest(added: seq<Entry>, terms: seq<Term>, r: Option<Entry>) {
    match r
    case None => forall i :: 0 <= i < |added| ==> !Selects(added[i], terms)
    case Some(e) => exists k :: 0 <= k < |added| && added[k] == e && BestAt(added, terms, k)
  }

  ghost predicate BestAt(added: seq<Entry>, terms: seq<Term>, k: nat)
    requires k < |added|
  {
    && Selects(added[k], terms)
    && (forall i :: 0 <= i < |added| && Selects(added[i], terms) ==> Compare(added[k].version, added[i].version) >= 0)
    && (forall i :: 0 <= i < k && Selects(added[i], terms) ==> Compare(added[k].version, added[i].version) > 0)
  }

  function Best(added: seq<Entry>, terms: seq<Term>): Option<Entry> {
    if added == [] then None
    else
      var before, e := Best(added[..|added| - 1], terms), added[|added| - 1];
      if Selects(e, terms) && (before.None? || Compare(e.version, before.value.version) > 0) then Some(e) else before
  }

  lemma NewBest(front: seq<Entry>, e: Entry, terms: seq<Term>)
    requires Selects(e, terms)
    requires forall i :: 0 <= i < |front| && Selects(front[i], terms) ==> Compare(e.version, front[i].version) > 0
    ensures IsBest(front + [e], terms, Some(e))
  {
    CompareFlips(e.version, e.version);
    assert BestAt(front + [e], terms, |front|);
  }

  lemma OldBest(front: seq<Entry>, e: Entry, terms: seq<Term>, r: Option<Entry>)
    requires IsBest(front, terms, r) && (Selects(e, terms) ==> r.Some? && Compare(e.version, r.value.version) <= 0)
    ensures IsBest(front + [e], terms, r)
  {
    if r.Some? {
      var k :| 0 <= k < |front| && front[k] == r.value && BestAt(front, terms, k);
      CompareFlips(e.version, r.value.version);
      assert (front + [e])[k] == front[k];
      assert BestAt(front + [e], terms, k);
    }
  }

  lemma {:induction false} BestIsBest(added: seq<Entry>, terms: seq<Term>)
    ensures IsBest(added, terms, Best(added, terms))
  {
    if added != [] {
      var front, e := added[..|added| - 1], added[|added| - 1];
      var before := Best(front, terms);
      BestIsBest(front, terms);
      assert added == front + [e];
      if Selects(e, terms) && (before.None? || Compare(e.version, before.value.version) > 0) {
        forall i | 0 <= i < |front| && Selects(front[i], terms) ensures Compare(e.version, front[i].version) > 0 {
          if before.Some? {
            Above(e.version, before.value.version, front[i].version);
          }
        }
        NewBest(front, e, terms);
      } else {
        OldBest(front, e, terms, before);
      }
    }
  }

  lemma Above(a: Version, b: Version, c: Version)
    requires Compare(a, b) > 0 && Compare(b, c) >= 0
    ensures Compare(a, c) > 0
  {
    CompareFlips(a, b);
    CompareFlips(b, c);
    CompareFlips(a, c);
    if Leq(a, c) {
      LeqTransitive(a, c, b);
    }
  }

  // ---- a sorted list answers with its first match ----

  function FirstMatch(list: seq<Entry>, terms: seq<Term>): Option<Entry> {
    if list == [] then None
    else
      var before := FirstMatch(list[..|list| - 1], terms);
      if before.Some? then before
      else if Selects(list[|list| - 1], terms) then Some(list[|list| - 1])
      else None
  }

  lemma {:induction false} FirstMatchIsIn(list: seq<Entry>, terms: seq<Term>)
    ensures var r := FirstMatch(list, terms); r.Some? ==> r.value in list && Selects(r.value, terms)
  {
    if list != [] {
      FirstMatchIsIn(list[..|list| - 1], terms);
    }
  }

  lemma {:induction false} InsertKeepsFirst(list: seq<Entry>, e: Entry, terms: seq<Term>)
    requires SortedBy(list, AtLeast)
    ensures var before := FirstMatch(list, terms);
            FirstMatch(Insert(list, e, AtLeast), terms)
            == if Selects(e, terms) && (before.None? || Compare(e.version, before.value.version) > 0)
               then Some(e) else before
  {
    var before := FirstMatch(list, terms);
    FirstMatchIsIn(list, terms);
    if list == [] {
      assert [e][..0] == [];
    } else {
      var front, last := list[..|list| - 1], list[|list| - 1];
      if AtLeast(last, e) {
        assert (list + [e])[..|list|] == list;
        if before.Some? {
          var i :| 0 <= i < |list| && list[i] == before.value;
          CompareFlips(e.version, before.value.version);
          CompareFlips(last.version, e.version);
          if Compare(e.version, before.value.version) > 0 && i < |list| - 1 {
            assert AtLeast(list[i], last);
            Above(e.version, before.value.version, last.version);
          }
        }
      } else {
        InsertKeepsFirst(front, e, terms);
        FirstMatchIsIn(front, terms);
        var r := Insert(front, e, AtLeast);
        assert (r + [last])[..|r|] == r;
        CompareFlips(e.version, last.version);
      }
    }
  }

  lemma {:induction false} SortedFirstIsBest(added: seq<Entry>, terms: seq<Term>)
    ensures FirstMatch(SortBy(added, AtLeast), terms) == Best(added, terms)
  {
    if added != [] {
      var front := added[..|added| - 1];
      AtLeastIsTotalPreorder();
      SortBySorted(front, AtLeast);
      SortedFirstIsBest(front, terms);
      InsertKeepsFirst(SortBy(front, AtLeast), added[|added| - 1], terms);
    }
  }

  lemma {:induction false} SortedIsFixed(list: seq<Entry>)
    requires SortedBy(list, AtLeast)
    ensures SortBy(list, AtLeast) == list
  {
    if list != [] {
      SortedIsFixed(list[..|list| - 1]);
      var front, last := list[..|list| - 1], list[|list| - 1];
      assert list == front + [last];
      if front != [] {
        assert AtLeast(list[|list| - 2], last);
      }
    }
  }

  // ---- the index ----

  datatype Resolved = Found(entry: Entry) | NotFound | BadConstraint(error: ParseError) | NoVersionMatches

  class Index {
    var byName: map<string, seq<Entry>>
    ghost var added: seq<Entry>

    ghost function List(name: string): seq<Entry>
      reads this
    {
      if name in byName then byName[name] else []
    }

    /** Each list is what was added under its name, stably sorted from the highest version down. */
    ghost predicate Valid()
      reads this
    {
      forall name :: List(name) == SortBy(Named(added, name), AtLeast)
    }

    constructor ()
      ensures Valid() && added == []
    {
      byName, added := map[], [];
    }

    method Add(name: string, version: string, dir: string)
      requires Valid()
      modifies this
      ensures Valid() && added == old(added) + [Entry(name, dir, Parsed(version))]
    {
      var v := ParseVersion(version);
      var e := Entry(name, dir, v);
      var list := (if name in byName then byName[name] else []) + [e];
      ghost var before := List(name);
      assert before == SortBy(Named(added, name), AtLeast);
      AtLeastIsTotalPreorder();
      SortBySorted(Named(added, name), AtLeast);
      SortedIsFixed(before);
      assert list[..|list| - 1] == before;
      list := SortBy(list, AtLeast);
      byName := byName[name := list];
      assert (added + [e])[..|added|] == added;
      assert Named(added + [e], name)[..|Named(added, name)|] == Named(added, name);
      added := added + [e];
    }

    /** The highest version that fits; an unknown name is reported before the constraint is even read. */
    method Resolve(name: string, constraint: string) returns (r: Resolved)
      requires Valid()
      ensures Answers(Named(added, name), constraint, r)
    {
      var list := if name in byName then byName[name] else [];
      assert list == List(name);
      SortByPermutes(Named(added, name), AtLeast);
      if |list| == 0 {
        return NotFound;
      }
      var c := ParseConstraint(constraint);
      if c.Err? {
        return BadConstraint(c.error);
      }
      SortedFirstIsBest(Named(added, name), c.value);
      BestIsBest(Named(added, name), c.value);
      var found := Scan(list, c.value);
      match found
      case Some(e) => return Found(e);
      case None => return NoVersionMatches;
    }
  }

  /** Exactly which of the four answers there is, and that a version found is a best one. */
  ghost predicate Answers(named: seq<Entry>, constraint: string, r: Resolved) {
    if named == [] then r == NotFound
    else
      match ParsedConstraint(constraint)
      case Err(e) => r == BadConstraint(e)
      case Ok(terms) =>
        match r
        case Found(e) => IsBest(named, terms, Some(e))
        case NoVersionMatches => IsBest(named, terms, None)
        case _ => false
  }

  method Scan(list: seq<Entry>, terms: seq<Term>) returns (r: Option<Entry>)
    ensures r == FirstMatch(list, terms)
  {
    for i := 0 to |list|
      invariant FirstMatch(list[..i], terms) == None
    {
      assert list[..i + 1][..i] == list[..i];
      if Selects(list[i], terms) {
        FirstMatchStays(list, i + 1, terms);
        return Some(list[i]);
      }
    }
    assert list[..|list|] == list;
    r := None;
  }

  lemma {:induction false} FirstMatchStays(list: seq<Entry>, k: nat, terms: seq<Term>)
    requires k <= |list| && FirstMatch(list[..k], terms).Some?
    ensures FirstMatch(list, terms) == FirstMatch(list[..k], terms)
    decreases |list|
  {
    if k == |list| {
      assert list[..k] == list;
    } else {
      assert list[..|list| - 1][..k] == list[..k];
      FirstMatchStays(list[..|list| - 1], k, terms);
    }
  }

  // ---- in literal terms ----

  lemma {:induction false} NamedMeans(added: seq<Entry>, name: string, e: Entry)
    ensures e in Named(added, name) <==> e in added && e.name == name
  {
    if added != [] {
      NamedMeans(added[..|added| - 1], name, e);
      assert forall f :: f in added <==> f in added[..|added| - 1] || f == added[|added| - 1];
    }
  }

  /** What a resolution says: nothing under that name; the constraint cannot be read; a version of that name that fits,
      and none that fits is above it; or that none fits. */
  lemma ResolutionMeans(added: seq<Entry>, name: string, constraint: string, r: Resolved, f: Entry)
    requires Answers(Named(added, name), constraint, r)
    ensures r == NotFound ==> !(f in added && f.name == name)
    ensures r.BadConstraint? ==> ParsedConstraint(constraint) == Err(r.error)
    ensures r.Found? ==>
              && ParsedConstraint(constraint).Ok? && r.entry in added && r.entry.name == name
              && Versions.Matches(ParsedConstraint(constraint).value, r.entry.version)
    ensures r.Found? && f in added && f.name == name
              && Versions.Matches(ParsedConstraint(constraint).value, f.version) ==>
              !Below(r.entry.version, f.version)
    ensures r == NoVersionMatches ==>
              && ParsedConstraint(constraint).Ok?
              && !(f in added && f.name == name && Versions.Matches(ParsedConstraint(constraint).value, f.version))
  {
    NamedMeans(added, name, f);
    if r.Found? {
      NamedMeans(added, name, r.entry);
      CompareExactly(r.entry.version, f.version);
    }
  }
}
