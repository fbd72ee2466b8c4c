/** The node's copy of what it should run: the desired specs, the last spec that was applied successfully per
    instance (the rollback point), and the vault with the secrets both refer to. */
module Desired {
  import opened Options

  /** A resolved spec under its instance key, with the ids of the secrets it refers to. */
  datatype Spec = Spec(key: string, digest: string, refs: seq<string>)

  type Secrets = map<string, string>

  datatype InstanceSpec = InstanceSpec(spec: Spec, secrets: Secrets)

  // ---- the store as a value ----

  /** `vault` is None on a node without one. */
  datatype Store = Store(specs: map<string, Spec>, applied: map<string, Spec>, vault: Option<Secrets>)

  predicate Available(vault: Option<Secrets>, refs: seq<string>) {
    forall id :: id in refs ==> vault.Some? && id in vault.value
  }

  function Taken(vault: Option<Secrets>, refs: seq<string>): Secrets {
    map id | id in refs && vault.Some? && id in vault.value :: vault.value[id]
  }

  /** secretsFor: None stands for the error that names the missing ones. */
  function SecretsOf(vault: Option<Secrets>, sp: Spec): Option<Secrets> {
    if Available(vault, sp.refs) then Some(Taken(vault, sp.refs)) else None
  }

  function Saved(s: Store, item: InstanceSpec): Store {
    s.(specs := s.specs[item.spec.key := item.spec],
       vault := if s.vault.Some? then Some(s.vault.value + item.secrets) else None)
  }

  function Marked(s: Store, sp: Spec): Store {
    if sp.key in s.applied && s.applied[sp.key].digest == sp.digest then s else s.(applied := s.applied[sp.key := sp])
  }

  predicate Loadable(s: Store) {
    forall k :: k in s.specs ==> Available(s.vault, s.specs[k].refs)
  }

  /** The instances that are kept, with their rollback points; rollback points of unlisted instances stay. */
  function Trimmed(s: Store, keys: set<string>): Store {
    s.(specs := map k | k in s.specs && k in keys :: s.specs[k],
       applied := map k | k in s.applied && (k in keys || k !in s.specs) :: s.applied[k])
  }

  /** The ids that some spec, or the rollback point of an instance that has a spec, refers to. */
  ghost predicate Needed(s: Store, id: string) {
    exists k :: k in s.specs && (id in s.specs[k].refs || (k in s.applied && id in s.applied[k].refs))
  }

  /** The vault cut down to what is needed, and left alone when a spec cannot be loaded. */
  ghost function Collected(t: Store): Store {
    if t.vault.None? || !Loadable(t) then t
    else t.(vault := Some(map id | id in t.vault.value && Needed(t, id) :: t.vault.value[id]))
  }

  ghost function Kept(s: Store, keys: set<string>): Store {
    Collected(Trimmed(s, keys))
  }

  /** Applied: no rollback point, a secret is missing, or the spec to fall back to with its secrets. */
  datatype Rollback = NoPoint | MissingSecret | Point(item: InstanceSpec)

  function RollbackOf(s: Store, key: string): Rollback {
    if key !in s.applied then NoPoint
    else
      var secrets := SecretsOf(s.vault, s.applied[key]);
      if secrets.None? then MissingSecret else Point(InstanceSpec(s.applied[key], secrets.value))
  }

  // ---- the store as it works ----

  class DesiredStore {
    var specs: map<string, Spec>
    var applied: map<string, Spec>
    var vault: Option<Secrets>

    /** Files are named after the key of the spec in them. */
    predicate Valid()
      reads this
    {
      && (forall k :: k in specs ==> specs[k].key == k)
      && (forall k :: k in applied ==> applied[k].key == k)
    }

    ghost function View(): Store
      reads this
    {
      Store(specs, applied, vault)
    }

    constructor (vault: Option<Secrets>)
      ensures Valid() && View() == Store(map[], map[], vault)
    {
      specs, applied, this.vault := map[], map[], vault;
    }

    method Save(item: InstanceSpec)
      requires Valid()
      modifies this
      ensures Valid() && View() == Saved(old(View()), item)
    {
      specs := specs[item.spec.key := item.spec];
      if |item.secrets| > 0 && vault.Some? {
        vault := Some(vault.value + item.secrets);
      }
      assert item.secrets == map[] ==> forall v: Secrets :: v + item.secrets == v;
    }

    method SecretsFor(sp: Spec) returns (r: Option<Secrets>)
      ensures r == SecretsOf(vault, sp)
    {
      if |sp.refs| == 0 {
        return Some(map[]);
      }
      if vault.None? {
        assert sp.refs[0] in sp.refs;
        return None;
      }
      var out: Secrets := map[];
      var missing := 0;
      for i := 0 to |sp.refs|
        invariant missing == 0 <==> Available(vault, sp.refs[..i])
        invariant out == Taken(vault, sp.refs[..i])
      {
        assert sp.refs[..i + 1] == sp.refs[..i] + [sp.refs[i]];
        if sp.refs[i] in vault.value {
          out := out[sp.refs[i] := vault.value[sp.refs[i]]];
        } else {
          missing := missing + 1;
        }
      }
      assert sp.refs[..|sp.refs|] == sp.refs;
      return if missing > 0 then None else Some(out);
    }

    /** All desired specs with their secrets, or nothing at all when one cannot be completed. */
    method Load() returns (r: Option<map<string, InstanceSpec>>)
      ensures r.Some? <==> Loadable(View())
      ensures r.Some? ==> r.value == map k | k in specs :: InstanceSpec(specs[k], Taken(vault, specs[k].refs))
    {
      var out: map<string, InstanceSpec> := map[];
      var todo := specs.Keys;
      while todo != {}
        invariant todo <= specs.Keys
        invariant out == map k | k in specs.Keys - todo :: InstanceSpec(specs[k], Taken(vault, specs[k].refs))
        invariant forall k :: k in specs.Keys - todo ==> Available(vault, specs[k].refs)
      {
        var k :| k in todo;
        todo := todo - {k};
        var secrets := SecretsFor(specs[k]);
        if secrets.None? {
          return None;
        }
        out := out[k := InstanceSpec(specs[k], secrets.value)];
      }
      r := Some(out);
    }

    /** The first half of Keep: drop the specs that are not listed, each with its rollback point. */
    method Trim(keys: set<string>)
      requires Valid()
      modifies `specs, `applied
      ensures Valid() && View() == Trimmed(old(View()), keys)
    {
      ghost var before := View();
      var todo := specs.Keys;
      while todo != {}
        invariant todo <= before.specs.Keys
        invariant specs == map k | k in before.specs && (k in todo || k in keys) :: before.specs[k]
        invariant applied == map k | k in before.applied && (k in todo || k in keys || k !in before.specs)
                               :: before.applied[k]
      {
        var k :| k in todo;
        todo := todo - {k};
        if k !in keys {
          specs := specs - {k};
          applied := applied - {k};
        }
      }
    }

    method Keep(keys: set<string>)
      requires Valid()
      modifies this
      ensures Valid() && View() == Kept(old(View()), keys)
    {
      Trim(keys);
      Collect();
    }

    /** The second half: cut the vault down. */
    method Collect()
      modifies `vault
      ensures View() == Collected(old(View()))
    {
      if vault.None? {
        return;
      }
      var loaded := Load();
      if loaded.None? {
        return;
      }
      var ids := CollectIds(loaded.value);
      var left := map id | id in vault.value && id in ids :: vault.value[id];
      ghost var needed := map id | id in vault.value && Needed(View(), id) :: vault.value[id];
      assert left == needed;
      vault := Some(left);
    }

    /** The ids to keep: those of the specs, and those of their rollback points. */
    method CollectIds(loaded: map<string, InstanceSpec>) returns (ids: set<string>)
      requires loaded.Keys == specs.Keys && forall k :: k in loaded ==> loaded[k].spec == specs[k]
      ensures forall id :: id in ids <==> Needed(View(), id)
    {
      ids := {};
      var todo := loaded.Keys;
      while todo != {}
        invariant todo <= specs.Keys
        invariant forall id :: id in ids ==> Needed(View(), id)
        invariant forall k, id :: k in specs && k !in todo && id in specs[k].refs ==> id in ids
        invariant forall k, id :: k in specs && k !in todo && k in applied && id in applied[k].refs ==> id in ids
      {
        var k :| k in todo;
        todo := todo - {k};
        ids := ids + (set id | id in loaded[k].spec.refs);
        if k in applied {
          ids := ids + (set id | id in applied[k].refs);
        }
      }
    }

    method MarkApplied(sp: Spec)
      requires Valid()
      modifies `applied
      ensures Valid() && View() == Marked(old(View()), sp)
    {
      if sp.key in applied && applied[sp.key].digest == sp.digest {
        return;
      }
      applied := applied[sp.key := sp];
    }

    method Applied(key: string) returns (r: Rollback)
      ensures r == RollbackOf(View(), key)
    {
      if key !in applied {
        return NoPoint;
      }
      var secrets := SecretsFor(applied[key]);
      match secrets
      case None => return MissingSecret;
      case Some(v) => return Point(InstanceSpec(applied[key], v));
    }
  }

  // ---- the agent around it ----

  /** What one attempt to reconcile came to. */
  datatype Report = Report(ok: bool, switched: bool, blocked: bool)

  predicate NeedsFallback(rep: Report) {
    rep.switched || rep.blocked
  }

  /** reconcileOne: a success becomes the rollback point; a failure that may have stopped the old version falls
      back to it. `target` is the spec that is then reconciled again -- which never becomes a rollback point anew. */
  method ReconcileOne(store: DesiredStore, item: InstanceSpec, rep: Report) returns (target: Option<InstanceSpec>)
    requires store.Valid()
    modifies store`applied
    ensures store.Valid() && store.View() == if rep.ok then Marked(old(store.View()), item.spec) else old(store.View())
    ensures target.Some? <==>
              && !rep.ok && (rep.switched || rep.blocked) && RollbackOf(store.View(), item.spec.key).Point?
              && store.applied[item.spec.key].digest != item.spec.digest
    ensures target.Some? ==> target.value == RollbackOf(store.View(), item.spec.key).item
  {
    if rep.ok {
      store.MarkApplied(item.spec);
      return None;
    }
    if !NeedsFallback(rep) {
      return None;
    }
    var prev := store.Applied(item.spec.key);
    if !prev.Point? || prev.item.spec.digest == item.spec.digest {
      return None;
    }
    return Some(prev.item);
  }

  // ---- what a rollback can rely on ----

  /** Every rollback point belongs to an instance with a spec, its secrets are there, and it once succeeded. */
  ghost predicate Safe(s: Store, succeeded: set<Spec>) {
    forall k :: k in s.applied ==>
      k in s.specs && Available(s.vault, s.applied[k].refs) && s.applied[k] in succeeded
  }

  lemma SaveKeepsSafe(s: Store, item: InstanceSpec, succeeded: set<Spec>)
    requires Safe(s, succeeded)
    ensures Safe(Saved(s, item), succeeded)
  {}

  /** Keep never removes a secret that a spec or its rollback point refers to. */
  lemma KeepKeepsSafe(s: Store, keys: set<string>, succeeded: set<Spec>)
    requires Safe(s, succeeded)
    ensures Safe(Kept(s, keys), succeeded)
    ensures Loadable(s) ==> Loadable(Kept(s, keys))
  {}

  /** A success may be recorded without harm exactly when the instance still has a spec and the secrets of the spec
      that succeeded are still there (or nothing is written, the digest being the recorded one). */
  lemma MarkingIsSafeExactly(s: Store, sp: Spec, succeeded: set<Spec>)
    requires Safe(s, succeeded)
    ensures Safe(Marked(s, sp), succeeded + {sp}) <==>
              || (sp.key in s.applied && s.applied[sp.key].digest == sp.digest)
              || (sp.key in s.specs && Available(s.vault, sp.refs))
  {}

  // ---- runs ----

  datatype Event =
    | Save(item: InstanceSpec)
    | Reconciled(spec: Spec, ok: bool)
    | Keep(keys: set<string>)

  ghost function Step(s: Store, e: Event): Store {
    match e
    case Save(item) => Saved(s, item)
    case Reconciled(sp, ok) => if ok then Marked(s, sp) else s
    case Keep(keys) => Kept(s, keys)
  }

  ghost predicate Follows(ss: seq<Store>, es: seq<Event>, i: nat)
    requires |ss| == |es| + 1 && i < |es|
  {
    ss[i + 1] == Step(ss[i], es[i])
  }

  ghost predicate Run(ss: seq<Store>, es: seq<Event>) {
    && |ss| == |es| + 1 && ss[0].specs == map[] && ss[0].applied == map[]
    && forall i :: 0 <= i < |es| ==> Follows(ss, es, i)
  }

  ghost predicate SucceededBy(es: seq<Event>, i: nat, sp: Spec)
    requires i <= |es|
  {
    exists j :: 0 <= j < i && es[j] == Reconciled(sp, true)
  }

  /** A spec is saved with its secrets (or they are already in the vault). */
  ghost predicate SavesComplete(ss: seq<Store>, es: seq<Event>, i: nat)
    requires |ss| == |es| + 1 && i < |es|
  {
    es[i].Save? ==> Available(Saved(ss[i], es[i].item).vault, es[i].item.spec.refs)
  }

  /** A reconcile that succeeds was of the spec that is saved at that moment: nothing came in between. */
  ghost predicate ReconcilesCurrent(ss: seq<Store>, es: seq<Event>, i: nat)
    requires |ss| == |es| + 1 && i < |es|
  {
    es[i].Reconciled? && es[i].ok ==> es[i].spec.key in ss[i].specs && ss[i].specs[es[i].spec.key] == es[i].spec
  }

  ghost function Successes(es: seq<Event>): set<Spec> {
    set j | 0 <= j < |es| && es[j].Reconciled? && es[j].ok :: es[j].spec
  }

  lemma {:induction false} StaysSafe(ss: seq<Store>, es: seq<Event>, i: nat)
    requires Run(ss, es) && i <= |es|
    requires forall j :: 0 <= j < i ==> SavesComplete(ss, es, j) && ReconcilesCurrent(ss, es, j)
    ensures Safe(ss[i], Successes(es[..i])) && Loadable(ss[i])
  {
    if i > 0 {
      StaysSafe(ss, es, i - 1);
      var s, e, done := ss[i - 1], es[i - 1], Successes(es[..i - 1]);
      assert Follows(ss, es, i - 1) && SavesComplete(ss, es, i - 1) && ReconcilesCurrent(ss, es, i - 1);
      match e
      case Save(item) => SaveKeepsSafe(s, item, done);
      case Keep(keys) => KeepKeepsSafe(s, keys, done);
      case Reconciled(sp, ok) =>
        if ok {
          MarkingIsSafeExactly(s, sp, done);
        }
      SuccessesGrow(es, i);
    }
  }

  lemma SuccessesGrow(es: seq<Event>, i: nat)
    requires 0 < i <= |es|
    ensures Successes(es[..i]) == Successes(es[..i - 1])
                                + if es[i - 1].Reconciled? && es[i - 1].ok then {es[i - 1].spec} else {}
  {}

  /** In every run whatsoever, overlapping or not, a rollback point is a spec that has been reconciled successfully. */
  lemma {:induction false} RollbackPointsAreEarned(ss: seq<Store>, es: seq<Event>, i: nat, key: string)
    requires Run(ss, es) && i <= |es| && key in ss[i].applied
    ensures SucceededBy(es, i, ss[i].applied[key])
  {
    if i > 0 {
      assert Follows(ss, es, i - 1);
      if key in ss[i - 1].applied && ss[i].applied[key] == ss[i - 1].applied[key] {
        RollbackPointsAreEarned(ss, es, i - 1, key);
      } else {
        assert es[i - 1] == Reconciled(ss[i].applied[key], true);
      }
    }
  }

  /** In every such run, reading a rollback point never fails for a missing secret, and what it names has
      been reconciled successfully before. */
  lemma RollbackAlwaysPossible(ss: seq<Store>, es: seq<Event>, i: nat, key: string)
    requires Run(ss, es) && i <= |es|
    requires forall j :: 0 <= j < i ==> SavesComplete(ss, es, j) && ReconcilesCurrent(ss, es, j)
    ensures var r := RollbackOf(ss[i], key);
            r != MissingSecret &&
              (r.Point? ==> r.item.secrets.Keys == (set id | id in r.item.spec.refs) && SucceededBy(es, i, r.item.spec))
  {
    StaysSafe(ss, es, i);
    if key in ss[i].applied {
      RollbackPointsAreEarned(ss, es, i, key);
    }
  }

  // ---- what a reconcile that overlaps a push can do ----

  /** While the old spec is still being reconciled a push saves a newer one with another secret and collects the old
      secret; the success of the old spec then records a rollback point that can no longer be read. */
  lemma LateSuccessLosesItsSecret()
    ensures var old1, new1 := Spec("c__r", "d1", ["s1"]), Spec("c__r", "d2", ["s2"]);
            var s1 := Step(Store(map[], map[], Some(map[])), Save(InstanceSpec(old1, map["s1" := "x"])));
            var s2 := Step(Step(s1, Save(InstanceSpec(new1, map["s2" := "y"]))), Keep({"c__r"}));
            RollbackOf(Step(s2, Reconciled(old1, true)), "c__r") == MissingSecret
  {
    var old1, new1 := Spec("c__r", "d1", ["s1"]), Spec("c__r", "d2", ["s2"]);
    var s1 := Step(Store(map[], map[], Some(map[])), Save(InstanceSpec(old1, map["s1" := "x"])));
    var s2 := Step(s1, Save(InstanceSpec(new1, map["s2" := "y"])));
    assert s2.specs == map["c__r" := new1];
    var s3 := Step(s2, Keep({"c__r"}));
    assert "s1" != "s2" by { assert "s1"[1] != "s2"[1]; }
    assert !Needed(Trimmed(s2, {"c__r"}), "s1");
    assert "s1" in old1.refs;
  }

  /** And when the push removes the instance, its rollback point is left behind without an owner. */
  lemma LateSuccessLeavesAnOrphan()
    ensures var sp := Spec("c__r", "d1", []);
            var s1 := Step(Store(map[], map[], None), Save(InstanceSpec(sp, map[])));
            var s2 := Step(Step(s1, Keep({})), Reconciled(sp, true));
            "c__r" !in s2.specs && RollbackOf(s2, "c__r").Point?
  {}

  // ---- what arrives ----

  datatype Envelope = Rejected | Sent(item: InstanceSpec)

  /** encodeSpec: only the secrets that are referred to, and an error when one of them has no value -- but without
      any secret at hand the check is skipped. */
  method EncodeSpec(item: InstanceSpec) returns (r: Envelope)
    ensures r == Rejected <==> item.secrets != map[] && exists id :: id in item.spec.refs && id !in item.secrets
    ensures r.Sent? ==> r.item.spec == item.spec
    ensures r.Sent? ==> r.item.secrets == map id | id in item.spec.refs && id in item.secrets :: item.secrets[id]
    ensures r.Sent? ==> ((forall id :: id in item.spec.refs ==> id in r.item.secrets)
            <==> item.secrets != map[] || item.spec.refs == [])
  {
    var out: Secrets := map[];
    if |item.secrets| > 0 && |item.spec.refs| > 0 {
      for i := 0 to |item.spec.refs|
        invariant forall j :: 0 <= j < i ==> item.spec.refs[j] in item.secrets
        invariant out == map id | id in item.spec.refs[..i] && id in item.secrets :: item.secrets[id]
      {
        var id := item.spec.refs[i];
        if id !in item.secrets {
          return Rejected;
        }
        assert item.spec.refs[..i + 1] == item.spec.refs[..i] + [id];
        out := out[id := item.secrets[id]];
      }
      assert item.spec.refs[..|item.spec.refs|] == item.spec.refs;
    } else if |item.spec.refs| > 0 {
      assert item.spec.refs[0] in item.spec.refs;
    }
    r := Sent(InstanceSpec(item.spec, out));
  }

  // ---- what the store does, said outright ----

  /** After a save the spec is there as given, every other spec and every rollback point as before; on a node with a
      vault each secret that came along reads back as it came, and every other one as it was. */
  lemma SaveMeans(s: Store, item: InstanceSpec, key: string, id: string)
    ensures var t, v := Saved(s, item), s.vault;
            && t.applied == s.applied && t.specs.Keys == s.specs.Keys + {item.spec.key}
            && (key == item.spec.key ==> t.specs[key] == item.spec)
            && (key != item.spec.key && key in s.specs ==> t.specs[key] == s.specs[key])
            && (t.vault.Some? <==> v.Some?)
            && (v.Some? && id in item.secrets ==> id in t.vault.value && t.vault.value[id] == item.secrets[id])
            && (v.Some? && id !in item.secrets ==>
                  (id in t.vault.value <==> id in v.value) && (id in v.value ==> t.vault.value[id] == v.value[id]))
  {}

  /** So what was saved with all its secrets reads back with their new values. */
  lemma SavedReadsBack(s: Store, item: InstanceSpec)
    requires s.vault.Some? && forall id :: id in item.spec.refs ==> id in item.secrets
    ensures var r := SecretsOf(Saved(s, item).vault, Saved(s, item).specs[item.spec.key]);
            && r.Some? && r.value.Keys == (set id | id in item.spec.refs)
            && forall id :: id in item.spec.refs ==> r.value[id] == item.secrets[id]
  {}

  /** Keeping leaves a listed spec and its rollback point in place, and drops both for one that is not listed; a
      rollback point without a spec stays. */
  lemma KeepMeans(s: Store, keys: set<string>, key: string)
    ensures var t := Kept(s, keys);
            && (key in t.specs <==> key in s.specs && key in keys)
            && (key in t.specs ==> t.specs[key] == s.specs[key])
            && (key in t.applied <==> key in s.applied && (key in keys || key !in s.specs))
            && (key in t.applied ==> t.applied[key] == s.applied[key])
  {}

  /** And of the vault it leaves, value by value, what some spec or the rollback point of a spec refers to -- all of it
      when a spec that is left lacks a secret. */
  lemma KeepLeavesSecrets(s: Store, keys: set<string>, id: string)
    requires s.vault.Some?
    ensures var t := Kept(s, keys);
            var loadable := forall k, r :: k in t.specs && r in t.specs[k].refs ==> r in s.vault.value;
            var needed := exists k :: k in t.specs
                            && (id in t.specs[k].refs || (k in t.applied && id in t.applied[k].refs));
            && t.vault.Some?
            && (id in t.vault.value <==> id in s.vault.value && (loadable ==> needed))
            && (id in t.vault.value ==> t.vault.value[id] == s.vault.value[id])
  {
    var t := Trimmed(s, keys);
    assert Loadable(t) <==> forall k, r :: k in t.specs && r in t.specs[k].refs ==> r in s.vault.value;
  }

  /** A success is recorded as it is, unless the recorded point has the same digest; no other point moves. */
  lemma MarkMeans(s: Store, sp: Spec, key: string)
    ensures var t := Marked(s, sp);
            && t.specs == s.specs && t.vault == s.vault && t.applied.Keys == s.applied.Keys + {sp.key}
            && (key in s.applied && (key != sp.key || s.applied[key].digest == sp.digest) ==>
                  t.applied[key] == s.applied[key])
            && (key == sp.key && (key in s.applied ==> s.applied[key].digest != sp.digest) ==> t.applied[key] == sp)
  {}

  /** Reading a rollback point: none, an error when the vault lacks one of its secrets, or the point with them. */
  lemma RollbackMeans(s: Store, key: string)
    ensures var r, there := RollbackOf(s, key), key in s.applied;
            && (r == NoPoint <==> !there)
            && (r == MissingSecret <==>
                  there && exists id :: id in s.applied[key].refs && (s.vault.None? || id !in s.vault.value))
            && (r.Point? ==> r.item.spec == s.applied[key]
                             && r.item.secrets.Keys == (set id | id in s.applied[key].refs)
                             && forall id :: id in s.applied[key].refs ==> r.item.secrets[id] == s.vault.value[id])
  {}
}
