/** The digest cache: (size, mtime) stand in for re-hashing a file. When a hit can be trusted, and exactly when not.
    Times are nanoseconds; what a file contains is a string. */
module DigestCache {
  import opened Options

  /** RacyWindow: by more than this the mtime must lie before the moment of recording. */
  const RACY_WINDOW: nat := 1_000_000_000

  /** `cachedAt` is None while it is the zero time. */
  datatype Entry = Entry(size: nat, mod: int, sum: string, cachedAt: Option<int>)

  type Entries = map<string, Entry>

  predicate DigestUsable(mod: int, cachedAt: Option<int>) {
    cachedAt.Some? && cachedAt.value - mod > RACY_WINDOW
  }

  function Lookup(m: Entries, path: string, size: nat, mod: int): Option<string> {
    if path in m && m[path].size == size && m[path].mod == mod && DigestUsable(mod, m[path].cachedAt)
    then Some(m[path].sum) else None
  }

  // ---- the two implementations ----

  /** The in-process cache. */
  class MemoryDigestCache {
    var m: Entries
    var hits: nat
    var misses: nat

    constructor ()
      ensures m == map[] && hits == 0 && misses == 0
    {
      m, hits, misses := map[], 0, 0;
    }

    method Get(path: string, size: nat, mod: int) returns (r: Option<string>)
      modifies `hits, `misses
      ensures r == Lookup(m, path, size, mod)
      ensures hits == old(hits) + (if r.Some? then 1 else 0) && misses == old(misses) + (if r.None? then 1 else 0)
    {
      if path in m {
        var e := m[path];
        if e.size == size && e.mod == mod && DigestUsable(mod, e.cachedAt) {
          hits := hits + 1;
          return Some(e.sum);
        }
      }
      misses := misses + 1;
      return None;
    }

    method Put(path: string, size: nat, mod: int, sum: string, now: int)
      modifies `m
      ensures m == old(m)[path := Entry(size, mod, sum, Some(now))]
    {
      m := m[path := Entry(size, mod, sum, Some(now))];
    }
  }

  /** The cache kept with the instance's state: one reconcile round loads it, and commits the paths it touched. */
  class RoundDigestCache {
    var entries: Entries
    var touched: set<string>
    var hits: nat
    var misses: nat

    constructor (stored: Entries)
      ensures entries == stored && touched == {} && hits == 0 && misses == 0
    {
      entries, touched, hits, misses := stored, {}, 0, 0;
    }

    method Get(path: string, size: nat, mod: int) returns (r: Option<string>)
      modifies `touched, `hits, `misses
      ensures r == Lookup(entries, path, size, mod)
      ensures touched == old(touched) + {path}
      ensures hits == old(hits) + (if r.Some? then 1 else 0) && misses == old(misses) + (if r.None? then 1 else 0)
    {
      touched := touched + {path};
      if path in entries {
        var e := entries[path];
        if e.size == size && e.mod == mod && DigestUsable(mod, e.cachedAt) {
          hits := hits + 1;
          return Some(e.sum);
        }
      }
      misses := misses + 1;
      return None;
    }

    method Put(path: string, size: nat, mod: int, sum: string, now: int)
      modifies `entries, `touched
      ensures entries == old(entries)[path := Entry(size, mod, sum, Some(now))] && touched == old(touched) + {path}
    {
      touched := touched + {path};
      entries := entries[path := Entry(size, mod, sum, Some(now))];
    }

    /** What is written back to the instance's state. */
    method Commit(stored: Entries) returns (out: Entries)
      ensures out == Committed(stored, entries, touched)
    {
      if touched == {} {
        return stored;
      }
      out := map[];
      var todo := touched;
      while todo != {}
        invariant todo <= touched
        invariant out == map p | p in touched - todo && p in entries :: entries[p]
      {
        var p :| p in todo;
        todo := todo - {p};
        if p in entries {
          out := out[p := entries[p]];
        }
      }
      assert touched - todo == touched;
    }
  }

  function Committed(stored: Entries, entries: Entries, touched: set<string>): Entries {
    if touched == {} then stored else map p | p in touched && p in entries :: entries[p]
  }

  // ---- the file system and a cache over time ----

  datatype File = File(content: string, mod: int)

  /** A digest that has been computed and not yet recorded: between reading the file and Put. */
  datatype Pending = Pending(path: string, sum: string, at: int)

  /** `stored` is the copy in the instance's state, `entries` and `touched` the round's. */
  datatype World = World(files: map<string, File>, stored: Entries, entries: Entries, touched: set<string>,
                         pending: Option<Pending>, clock: int)

  /** What is fixed: the hash, and the granularity g >= 1 to which the file system rounds mtimes down. */
  datatype Host = Host(hash: string -> string, g: int)

  function Stamp(h: Host, now: int): int
    requires h.g >= 1
  {
    now - now % h.g
  }

  datatype Event =
    | Write(path: string, content: string, at: int)
    | Remove(path: string, at: int)
    | Read(path: string, at: int)    // hashFileCached up to the hash, or the write that recordDigest follows
    | Record(at: int)                // the second stat, and Put
    | EndRound(at: int)              // commit, and the next round's load

  const START := World(map[], map[], map[], {}, None, 0)

  /** What hashFileCached answers when it starts at this moment. */
  function Answer(h: Host, w: World, path: string): Option<string> {
    if path !in w.files then None
    else
      var f := w.files[path];
      var hit := Lookup(w.entries, path, |f.content|, f.mod);
      if hit.Some? then hit else Some(h.hash(f.content))
  }

  function Step(h: Host, w: World, e: Event): World
    requires h.g >= 1
  {
    var t := w.(clock := e.at);
    match e
    case Write(p, c, at) => t.(files := w.files[p := File(c, Stamp(h, at))])
    case Remove(p, _) => t.(files := w.files - {p})
    case Read(p, at) =>
      if p !in w.files then t
      else
        var f := w.files[p];
        if Lookup(w.entries, p, |f.content|, f.mod).Some? then t.(touched := w.touched + {p})
        else t.(touched := w.touched + {p}, pending := Some(Pending(p, h.hash(f.content), at)))
    case Record(at) =>
      if w.pending.None? then t
      else
        var p := w.pending.value.path;
        if p !in w.files then t.(pending := None)
        else
          var f := w.files[p];
          t.(pending := None, touched := w.touched + {p},
             entries := w.entries[p := Entry(|f.content|, f.mod, w.pending.value.sum, Some(at))])
    case EndRound(_) =>
      var kept := Committed(w.stored, w.entries, w.touched);
      t.(stored := kept, entries := kept, touched := {})
  }

  /** The world of one file in which a hash is taken: read as `before`, recorded when the file is `after`. */
  function HashSteps(h: Host, entries: Entries, touched: set<string>, path: string, before: Option<File>,
                     after: Option<File>, now: int): World
    requires h.g >= 1
  {
    var w := World(if before.Some? then map[path := before.value] else map[], map[], entries, touched, None, now);
    var read := Step(h, w, Read(path, now));
    var later := read.(files := if after.Some? then map[path := after.value] else map[]);
    Step(h, later, Record(now))
  }

  /** hashFileCached, on what the file is when it is read and when it is stat'ed again: the machine's Read and
      Record. */
  method HashFileCached(h: Host, c: RoundDigestCache, path: string, before: Option<File>, after: Option<File>, now: int)
    returns (r: Option<(string, nat)>)
    requires h.g >= 1
    modifies c
    ensures var w := HashSteps(h, old(c.entries), old(c.touched), path, before, after, now);
            c.entries == w.entries && c.touched == w.touched
    ensures r == if before.None? then None
                 else
                   var hit := Lookup(old(c.entries), path, |before.value.content|, before.value.mod);
                   Some((if hit.Some? then hit.value else h.hash(before.value.content), |before.value.content|))
  {
    if before.None? {
      return None;
    }
    var size, mod := |before.value.content|, before.value.mod;
    var hit := c.Get(path, size, mod);
    if hit.Some? {
      return Some((hit.value, size));
    }
    var sum := h.hash(before.value.content);
    if after.Some? {
      c.Put(path, |after.value.content|, after.value.mod, sum, now);
    }
    return Some((sum, size));
  }

  /** The clock never goes back, and a digest is recorded no later than d after the file was read. */
  ghost predicate Legal(w: World, e: Event, d: nat) {
    e.at >= w.clock && (e.Record? && w.pending.Some? ==> e.at <= w.pending.value.at + d)
  }

  ghost predicate Run(h: Host, d: nat, ws: seq<World>, es: seq<Event>) {
    && h.g >= 1 && |ws| == |es| + 1 && ws[0] == START
    && forall i :: 0 <= i < |es| ==> Legal(ws[i], es[i], d) && Follows(h, ws, es, i)
  }

  ghost predicate Follows(h: Host, ws: seq<World>, es: seq<Event>, i: nat)
    requires h.g >= 1 && |ws| == |es| + 1 && i < |es|
  {
    ws[i + 1] == Step(h, ws[i], es[i])
  }

  // ---- when hits are true ----

  /** A usable entry whose mtime is the file's holds the file's digest. */
  ghost predicate EntryTrue(h: Host, w: World, p: string, e: Entry) {
    && (e.cachedAt.Some? ==> e.cachedAt.value <= w.clock)
    && (p in w.files && w.files[p].mod == e.mod && DigestUsable(e.mod, e.cachedAt)
       ==> h.hash(w.files[p].content) == e.sum)
  }

  /** A digest under way is the file's, or the file was rewritten since it was read. */
  ghost predicate PendingTrue(h: Host, w: World) {
    w.pending.Some? ==>
      var p := w.pending.value;
      p.at <= w.clock
      && (p.path in w.files ==> h.hash(w.files[p.path].content) == p.sum || w.files[p.path].mod > p.at - h.g)
  }

  ghost predicate Truthful(h: Host, w: World) {
    && (forall p :: p in w.entries ==> EntryTrue(h, w, p, w.entries[p]))
    && (forall p :: p in w.stored ==> EntryTrue(h, w, p, w.stored[p]))
    && PendingTrue(h, w)
  }

  /** A write can only reproduce an mtime that is too young to be trusted. */
  lemma EntrySurvives(h: Host, w: World, e: Event, p: string, entry: Entry)
    requires 1 <= h.g <= RACY_WINDOW + 1 && EntryTrue(h, w, p, entry) && e.at >= w.clock
    ensures EntryTrue(h, Step(h, w, e), p, entry)
  {}

  lemma StepKeepsTruth(h: Host, d: nat, w: World, e: Event)
    requires h.g >= 1 && d + h.g - 1 <= RACY_WINDOW
    requires Truthful(h, w) && Legal(w, e, d)
    ensures Truthful(h, Step(h, w, e))
  {}

  lemma {:induction false} AlwaysTruthful(h: Host, d: nat, ws: seq<World>, es: seq<Event>, i: nat)
    requires Run(h, d, ws, es) && d + h.g - 1 <= RACY_WINDOW && i <= |es|
    ensures Truthful(h, ws[i])
  {
    if i > 0 {
      AlwaysTruthful(h, d, ws, es, i - 1);
      StepKeepsTruth(h, d, ws[i - 1], es[i - 1]);
      assert Follows(h, ws, es, i - 1);
    }
  }

  ghost predicate AlwaysRight(h: Host, d: nat) {
    forall ws: seq<World>, es: seq<Event>, p: string ::
      Run(h, d, ws, es) && p in ws[|es|].files ==> Answer(h, ws[|es|], p) == Some(h.hash(ws[|es|].files[p].content))
  }

  /** Every answer in every run is the hash of what the file contains, exactly when the delay between reading and
      recording plus the mtime granularity stays within the window: d + (g - 1) <= 1 s. */
  lemma RightExactly(h: Host, d: nat, a: string, b: string)
    requires h.g >= 1 && |a| == |b| && h.hash(a) != h.hash(b)
    ensures AlwaysRight(h, d) <==> d + (h.g - 1) <= RACY_WINDOW
  {
    if d + (h.g - 1) <= RACY_WINDOW {
      forall ws: seq<World>, es: seq<Event>, p: string | Run(h, d, ws, es) && p in ws[|es|].files
        ensures Answer(h, ws[|es|], p) == Some(h.hash(ws[|es|].files[p].content))
      {
        AlwaysTruthful(h, d, ws, es, |es|);
        if p in ws[|es|].entries {
          assert EntryTrue(h, ws[|es|], p, ws[|es|].entries[p]);
        }
      }
    } else {
      MissedRewrite(h, d, a, b);
    }
  }

  /** The run that goes wrong: the file is rewritten at the same length just after it was read, within the same
      tick of the mtime, and the old digest is recorded late enough to look safe. */
  lemma MissedRewrite(h: Host, d: nat, a: string, b: string)
    requires h.g >= 1 && |a| == |b| && h.hash(a) != h.hash(b) && d + (h.g - 1) > RACY_WINDOW
    ensures !AlwaysRight(h, d)
  {
    var t := h.g - 1;
    var es := [Write("f", a, 0), Read("f", t), Write("f", b, t), Record(t + d)];
    var w1 := Step(h, START, es[0]);
    var w2 := Step(h, w1, es[1]);
    var w3 := Step(h, w2, es[2]);
    var w4 := Step(h, w3, es[3]);
    var ws := [START, w1, w2, w3, w4];
    assert t % h.g == t && 0 % h.g == 0;
    assert w2.pending == Some(Pending("f", h.hash(a), t));
    assert w3.files["f"] == File(b, 0);
    assert w4.entries["f"] == Entry(|b|, 0, h.hash(a), Some(t + d));
    forall i | 0 <= i < |es| ensures Legal(ws[i], es[i], d) && Follows(h, ws, es, i) {
      if i == 0 {} else if i == 1 {} else if i == 2 {} else {}
    }
    assert Run(h, d, ws, es);
    assert Answer(h, ws[|es|], "f") == Some(h.hash(a));
  }

  // ---- the end of a round ----

  /** Writing a round back and loading it again: touched paths answer as before, the others answer by hashing. */
  lemma RoundsForget(w: World, h: Host, e: Event, path: string, size: nat, mod: int)
    requires h.g >= 1 && e.EndRound? && w.touched != {}
    ensures Lookup(Step(h, w, e).entries, path, size, mod)
            == if path in w.touched then Lookup(w.entries, path, size, mod) else None
  {}

  // ---- what a hit takes ----

  /** A digest is answered from the record exactly when path, size and mtime are those on record, and the record was
      made more than a second after that mtime. */
  lemma HitMeans(m: Entries, path: string, size: nat, mod: int)
    ensures Lookup(m, path, size, mod).Some? <==>
              && path in m && m[path].size == size && m[path].mod == mod
              && m[path].cachedAt.Some? && m[path].cachedAt.value > mod + 1_000_000_000
    ensures Lookup(m, path, size, mod).Some? ==> Lookup(m, path, size, mod) == Some(m[path].sum)
  {}

  /** So a file that has another size than the one on record is hashed, even if its mtime was put back to that on
      record, and so is one with another mtime. */
  lemma OtherFilesAreHashed(h: Host, w: World, path: string)
    requires path in w.files && path in w.entries
    requires |w.files[path].content| != w.entries[path].size || w.files[path].mod != w.entries[path].mod
    ensures Answer(h, w, path) == Some(h.hash(w.files[path].content))
  {}
}
