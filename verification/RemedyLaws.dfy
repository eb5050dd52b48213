/** What the remedies promise: bounded and convergent scale-up, idempotent brake and rollback, and a
    footprint of one field each. */
module RemedyLaws {
  import opened Arithmetic
  import opened Options
  import opened JsonPatch
  import opened Cluster
  import opened Remedies

  // ----- ScaleUp -----

  /** One apply writes exactly when there is room below the cap and the sum fits in an int32; it never
      lowers minReplicas and never writes above maxReplicas, wrap-around included. */
  lemma BumpExact(step: int, current: int, max: int)
    requires Int32(step) && Int32(current) && Int32(max)
    ensures Bump(step, current, max) != current <==> current < max && current + EffectiveStep(step) <= MAX_INT32
    ensures Bump(step, current, max) != current ==>
              Bump(step, current, max) == Level(step, current, max, 1)
    ensures current <= Bump(step, current, max)
  {
  }

  /** minReplicas after j unhindered bumps from m0. */
  function Level(step: int, m0: int, max: int, j: nat): int {
    Min(max, m0 + j * EffectiveStep(step))
  }

  function BumpTimes(step: int, m0: int, max: int, k: nat): int {
    if k == 0 then m0 else Bump(step, BumpTimes(step, m0, max, k - 1), max)
  }

  /** No sum of a value up to max and the step leaves the int32 range. */
  predicate NoOverflow(step: int, m0: int, max: int) {
    -0x8000_0000 <= m0 <= max && max + EffectiveStep(step) <= MAX_INT32
  }

  lemma BumpLevel(step: int, m0: int, max: int, j: nat)
    requires NoOverflow(step, m0, max)
    ensures m0 <= Level(step, m0, max, j) <= max
    ensures Bump(step, Level(step, m0, max, j), max) == Level(step, m0, max, j + 1)
  {
    assert j * EffectiveStep(step) >= 0;
    assert (j + 1) * EffectiveStep(step) == j * EffectiveStep(step) + EffectiveStep(step);
  }

  /** Without the overflow condition, one apply at a level goes to the next one or stays. */
  lemma BumpOfLevel(step: int, m0: int, max: int, j: nat)
    requires Int32(step) && Int32(m0) && Int32(max) && m0 <= max
    ensures m0 <= Level(step, m0, max, j) <= max
    ensures Bump(step, Level(step, m0, max, j), max) in {Level(step, m0, max, j), Level(step, m0, max, j + 1)}
  {
    assert j * EffectiveStep(step) >= 0;
    assert (j + 1) * EffectiveStep(step) == j * EffectiveStep(step) + EffectiveStep(step);
    BumpExact(step, Level(step, m0, max, j), max);
  }

  /** k applies in a row, nobody else writing. */
  lemma {:induction false} SequentialScaleUp(step: int, m0: int, max: int, k: nat)
    requires NoOverflow(step, m0, max)
    ensures BumpTimes(step, m0, max, k) == Level(step, m0, max, k)
  {
    if k > 0 {
      SequentialScaleUp(step, m0, max, k - 1);
      BumpLevel(step, m0, max, k - 1);
    }
  }

  /** The fixpoint is reached after exactly the ceiling of (max - m0) / step applies, and an apply below it
      strictly shrinks max - min. */
  lemma ScaleUpConverges(step: int, m0: int, max: int, k: nat)
    requires NoOverflow(step, m0, max)
    ensures BumpTimes(step, m0, max, k) == max <==> k >= (max - m0 + EffectiveStep(step) - 1) / EffectiveStep(step)
    ensures BumpTimes(step, m0, max, k) < max ==> BumpTimes(step, m0, max, k + 1) > BumpTimes(step, m0, max, k)
    ensures BumpTimes(step, m0, max, k) == max ==> BumpTimes(step, m0, max, k + 1) == max
  {
    var s := EffectiveStep(step);
    SequentialScaleUp(step, m0, max, k);
    SequentialScaleUp(step, m0, max, k + 1);
    CeilingDivision(max - m0, s, k);
    assert (k + 1) * s == k * s + s;
  }

  /** "Apply must be idempotent" holds of ScaleUp exactly when the first bump already lands on the cap
      (or the second one would overflow). */
  lemma ScaleUpIdempotentIff(step: int, m: int, max: int)
    requires Int32(step) && Int32(m) && Int32(max)
    ensures Bump(step, Bump(step, m, max), max) == Bump(step, m, max)
            <==> m + EffectiveStep(step) >= max || m + 2 * EffectiveStep(step) > MAX_INT32
  {
  }

  /** The default step on a default HPA: 2, 4, 6. */
  lemma ScaleUpNotIdempotent()
    ensures BumpTimes(0, 2, 10, 1) == 4 && BumpTimes(0, 2, 10, 2) == 6
  {
    assert BumpTimes(0, 2, 10, 1) == Bump(0, BumpTimes(0, 2, 10, 0), 10);
  }

  // ----- the one field each remedy touches -----

  function FieldAt(kind: ObjectKind): Path {
    match kind case HPA => MIN_REPLICAS case ConfigMap => FLAG case _ => ABORT
  }

  /** Whatever was read, fresh or stale, a patch sent by a remedy assigns one non-null scalar to its one field. */
  lemma DecidedPatch(rem: Remedy, key: Key, read: Read) returns (v: Json)
    requires Decide(rem, key, read).SendPatch?
    ensures !v.Obj? && !v.Null? && Decide(rem, key, read).patch == Nest(FieldAt(KindFor(rem)), v)
  {
    match rem {
      case Rollback => v := Bool(true);
      case CircuitBreak => v := PAUSED;
      case ScaleUp(step) => v := Num(ScaleTarget(step, MinOf(read.obj), MaxOf(read.obj)));
    }
  }

  lemma {:induction false} DisjointFromNest(path: Path, v: Json, q: Json)
    requires !v.Obj?
    ensures Disjoint(Nest(path, v), q) <==> !Names(q, path)
    decreases path
  {
    if path != [] && q.Obj? && path[0] in q.fields {
      DisjointFromNest(path[1..], v, q.fields[path[0]]);
    }
  }

  /** On an arbitrary document, a remedy's patch is idempotent, keeps every path apart from its field, and
      commutes with any concurrent merge patch that does not name that field. */
  lemma RemedyPatchLaws(rem: Remedy, key: Key, read: Read, doc: Json)
    requires Decide(rem, key, read).SendPatch?
    ensures var p := Decide(rem, key, read).patch;
            && MergePatch(MergePatch(doc, p), p) == MergePatch(doc, p)
            && (forall path | Apart(FieldAt(KindFor(rem)), path) :: Lookup(MergePatch(doc, p), path) == Lookup(doc, path))
            && (forall q: Json | !Names(q, FieldAt(KindFor(rem))) ::
                  MergePatch(MergePatch(doc, p), q) == MergePatch(MergePatch(doc, q), p))
  {
    var p := Decide(rem, key, read).patch;
    var v := DecidedPatch(rem, key, read);
    MergeIdempotent(doc, p);
    forall path | Apart(FieldAt(KindFor(rem)), path)
      ensures Lookup(MergePatch(doc, p), path) == Lookup(doc, path)
    {
      NestNames(FieldAt(KindFor(rem)), v, path);
      MergeFrame(doc, p, path);
    }
    forall q: Json | !Names(q, FieldAt(KindFor(rem)))
      ensures MergePatch(MergePatch(doc, p), q) == MergePatch(MergePatch(doc, q), p)
    {
      DisjointFromNest(FieldAt(KindFor(rem)), v, q);
      MergeCommutes(doc, p, q);
    }
  }

  /** What the field holds after a remedy's patch reached a document. */
  lemma FieldAfter(path: Path, v: Json, doc: Json)
    requires path != [] && !v.Obj? && !v.Null?
    ensures Lookup(MergePatch(doc, Nest(path, v)), path) == Some(v)
  {
    NestLookup(path, v);
    MergeLeaf(doc, Nest(path, v), path);
  }

  /** A scale-up that met no fault: minReplicas is bumped, maxReplicas and everything apart from the field stay. */
  lemma ScaleUpMeaning(step: int, store: Store, key: Key)
    requires key in store
    ensures var e := ApplyRemedy(ScaleUp(step), store, key, Faults(false, Fine));
            && e.ok && e.store.Keys == store.Keys
            && MinOf(e.store[key]) == Bump(step, MinOf(store[key]), MaxOf(store[key]))
            && MaxOf(e.store[key]) == MaxOf(store[key])
            && (forall k | k in store && k != key :: e.store[k] == store[k])
  {
    var act := Decide(ScaleUp(step), key, Found(store[key]));
    if act.SendPatch? {
      var target := ScaleTarget(step, MinOf(store[key]), MaxOf(store[key]));
      FieldAfter(MIN_REPLICAS, Num(target), store[key]);
      RemedyPatchLaws(ScaleUp(step), key, Found(store[key]), store[key]);
      assert Apart(MIN_REPLICAS[1..], MAX_REPLICAS[1..]);
      assert Apart(MIN_REPLICAS, MAX_REPLICAS);
    }
  }

  predicate Engaged(store: Store, key: Key) {
    key in store && Lookup(store[key], FLAG) == Some(PAUSED)
  }

  /** Whatever it read, a write of the remedy that takes effect leaves the brake on. */
  lemma LandedEngages(store: Store, key: Key, read: Read, fault: Fault)
    requires Lands(store, key, Decide(CircuitBreak, key, read), fault)
    ensures Engaged(Perform(store, key, Decide(CircuitBreak, key, read), fault).store, key)
  {
    if key in store {
      FieldAfter(FLAG, PAUSED, store[key]);
    } else {
      NewFlagsHold(key.ns, key.name);
    }
  }

  /** An apply that reads one state of the cluster and writes to another. The brake is on afterwards exactly when it
      was on already, or was seen off by a read and the write got through. Success means that it is on exactly unless
      the read saw a brake that has been lifted since; a brake seen on is not written again. */
  lemma CircuitBreakEngages(was: Store, store: Store, key: Key, faults: Faults)
    ensures var e := ApplyFrom(CircuitBreak, was, store, key, faults);
            && (Engaged(e.store, key) <==>
                  || Engaged(store, key)
                  || (&& !faults.readFails && !Engaged(was, key) && !faults.write.Rejected?
                      && (key in was <==> key in store)))
            && (e.ok ==> (Engaged(e.store, key) <==> !Engaged(was, key) || Engaged(store, key)))
            && (Engaged(was, key) ==> e.store == store && (e.ok <==> !faults.readFails))
            && (key !in store && key in e.store ==>
                  && Lookup(e.store[key], ["metadata", "name"]) == Some(Str(key.name))
                  && Lookup(e.store[key], ["metadata", "namespace"]) == Some(Str(key.ns)))
            && (forall k | k != key :: k in e.store <==> k in store)
            && (forall k | k != key && k in store :: e.store[k] == store[k])
  {
    var read := ReadObject(was, key, faults.readFails);
    if Lands(store, key, Decide(CircuitBreak, key, read), faults.write) {
      LandedEngages(store, key, read, faults.write);
      NewFlagsHold(key.ns, key.name);
    }
  }

  lemma NewFlagsHold(ns: string, name: string)
    ensures var o := NewFlags(ns, name);
            && Lookup(o, FLAG) == Some(PAUSED)
            && Lookup(o, ["metadata", "name"]) == Some(Str(name))
            && Lookup(o, ["metadata", "namespace"]) == Some(Str(ns))
  {
    var o := NewFlags(ns, name);
    assert Lookup(o.fields["data"], FLAG[1..]) == Some(PAUSED);
    var meta := o.fields["metadata"];
    assert Lookup(meta, ["metadata", "name"][1..]) == Some(Str(name));
    assert Lookup(meta, ["metadata", "namespace"][1..]) == Some(Str(ns));
  }

  /** A rollback that reaches an existing rollout sets status.abort and nothing apart from it; a missing rollout is
      an error and nothing is created. Success is exactly an existing rollout and a reply. */
  lemma RollbackAborts(store: Store, key: Key, faults: Faults)
    ensures var e := ApplyRemedy(Rollback, store, key, faults);
            && (e.ok <==> key in store && faults.write.Fine?)
            && e.store.Keys == store.Keys
            && (key in store && !faults.write.Rejected? ==> Lookup(e.store[key], ABORT) == Some(Bool(true)))
            && (forall path | key in store && Apart(ABORT, path) :: Lookup(e.store[key], path) == Lookup(store[key], path))
            && (forall k | k in store && k != key :: e.store[k] == store[k])
  {
    if key in store {
      FieldAfter(ABORT, Bool(true), store[key]);
      RemedyPatchLaws(Rollback, key, ReadFailed, store[key]);
    }
  }

  /** A scale-up that cannot read its HPA, because the read fails or there is none, reports it and writes nothing. */
  lemma ScaleUpNeedsItsRead(step: int, store: Store, key: Key, faults: Faults)
    ensures var e := ApplyRemedy(ScaleUp(step), store, key, faults);
            && (key !in store || faults.readFails ==> !e.ok && e.store == store)
            && (faults.write.Rejected? ==> e.store == store)
            && (e.store != store && faults.write.ReplyLost? ==> !e.ok)
  {
  }

  /** A patch decided on one version of an HPA and sent to another takes a newer bump back exactly when it lands and
      the value decided on is below the one it finds. */
  lemma LatePatchIff(step: int, was: Store, store: Store, key: Key, fault: Fault)
    requires key in was && key in store
    requires Int32(step) && Int32(MinOf(was[key])) && Int32(MaxOf(was[key]))
    ensures var act := Decide(ScaleUp(step), key, Found(was[key]));
            var e := Perform(store, key, act, fault);
            && key in e.store
            && (MinOf(e.store[key]) < MinOf(store[key])
                <==> Lands(store, key, act, fault) && Level(step, MinOf(was[key]), MaxOf(was[key]), 1) < MinOf(store[key]))
  {
    var m, max := MinOf(was[key]), MaxOf(was[key]);
    BumpExact(step, m, max);
    if Decide(ScaleUp(step), key, Found(was[key])).SendPatch? {
      FieldAfter(MIN_REPLICAS, Num(ScaleTarget(step, m, max)), store[key]);
    }
  }

  /** Such a run: two handlers decide on one read, the first writes, a third apply follows, and then the second one's
      patch takes that one back. */
  lemma LatePatchUndoes(step: int, store: Store, key: Key)
    requires key in store
    requires NoOverflow(step, MinOf(store[key]), MaxOf(store[key]))
    requires MinOf(store[key]) + 2 * EffectiveStep(step) <= MaxOf(store[key])
    ensures var late := Decide(ScaleUp(step), key, Found(store[key]));
            var s1 := Perform(store, key, late, Fine).store;
            var s2 := ApplyRemedy(ScaleUp(step), s1, key, Faults(false, Fine)).store;
            var s3 := Perform(s2, key, late, Fine).store;
            && key in s1 && key in s2 && key in s3
            && MinOf(s1[key]) == MinOf(store[key]) + EffectiveStep(step)
            && MinOf(s2[key]) == MinOf(store[key]) + 2 * EffectiveStep(step)
            && MinOf(s3[key]) == MinOf(store[key]) + EffectiveStep(step)
  {
    var m0, max, s := MinOf(store[key]), MaxOf(store[key]), EffectiveStep(step);
    assert Bump(step, m0, max) == m0 + s && Bump(step, m0 + s, max) == m0 + 2 * s;
    var late := Decide(ScaleUp(step), key, Found(store[key]));
    assert late == SendPatch(FieldPatch(MIN_REPLICAS, Num(m0 + s)));
    var s1 := Perform(store, key, late, Fine).store;
    assert s1 == ApplyRemedy(ScaleUp(step), store, key, Faults(false, Fine)).store;
    ScaleUpMeaning(step, store, key);
    ScaleUpMeaning(step, s1, key);
    var s2 := ApplyRemedy(ScaleUp(step), s1, key, Faults(false, Fine)).store;
    FieldAfter(MIN_REPLICAS, Num(m0 + s), s2[key]);
  }

  // ----- the three remedies on documents, in plain terms -----

  /** Nothing but one path of one object has changed. */
  ghost predicate OnlyAt(store: Store, store': Store, key: Key, path: Path) {
    && store'.Keys == store.Keys
    && (forall k | k in store && k != key :: store'[k] == store[k])
    && (key in store ==> forall p | Apart(path, p) :: Lookup(store'[key], p) == Lookup(store[key], p))
  }

  /** The object's field is an integer, or absent and taken as zero. */
  predicate HoldsInt(doc: Json, path: Path, n: int) {
    Lookup(doc, path) == Some(Num(n)) || (Lookup(doc, path) == None && n == 0)
  }

  lemma PatchOnlyAt(rem: Remedy, store: Store, key: Key, read: Read, fault: Fault)
    requires key in store && Decide(rem, key, read).SendPatch?
    ensures OnlyAt(store, Perform(store, key, Decide(rem, key, read), fault).store, key, FieldAt(KindFor(rem)))
  {
    RemedyPatchLaws(rem, key, read, store[key]);
  }

  lemma IntsAre(doc: Json, m: int, max: int)
    requires HoldsInt(doc, ["spec", "minReplicas"], m) && HoldsInt(doc, ["spec", "maxReplicas"], max)
    ensures MinOf(doc) == m && MaxOf(doc) == max
  {
  }

  /** An undisturbed scale-up: spec.minReplicas goes up by the step, 2 if that is not positive, but not above
      spec.maxReplicas and not past the int32 range; otherwise nothing is written. */
  lemma ScaleUpOnDocument(step: int, store: Store, key: Key, m: int, max: int)
    requires key in store && HoldsInt(store[key], ["spec", "minReplicas"], m) && HoldsInt(store[key], ["spec", "maxReplicas"], max)
    requires -0x8000_0000 <= step <= 0x7FFF_FFFF && -0x8000_0000 <= m <= 0x7FFF_FFFF && -0x8000_0000 <= max <= 0x7FFF_FFFF
    ensures var e := ApplyRemedy(ScaleUp(step), store, key, Faults(false, Fine));
            var to := m + if step <= 0 then 2 else step;
            && e.ok && OnlyAt(store, e.store, key, ["spec", "minReplicas"])
            && (if m < max && to <= 0x7FFF_FFFF
                then Lookup(e.store[key], ["spec", "minReplicas"]) == Some(Num(if to <= max then to else max))
                else e.store == store)
  {
    var doc := store[key];
    IntsAre(doc, m, max);
    BumpExact(step, m, max);
    if Decide(ScaleUp(step), key, Found(doc)).SendPatch? {
      FieldAfter(["spec", "minReplicas"], Num(ScaleTarget(step, m, max)), doc);
      PatchOnlyAt(ScaleUp(step), store, key, Found(doc), Fine);
    }
  }

  /** A CircuitBreak that reads the current ConfigMap, with any fault: it succeeds exactly if the read does and, unless
      there is nothing to do, the write is acknowledged; a missing ConfigMap is created with its name, its namespace and
      the flag, any other value is overwritten, and the word false is left alone. */
  lemma CircuitBreakOnDocument(store: Store, ns: string, name: string, faults: Faults)
    ensures var key := Key(ConfigMap, ns, name);
            var e := ApplyRemedy(CircuitBreak, store, key, faults);
            var on := key in store && Lookup(store[key], ["data", "publish_enabled"]) == Some(Str("false"));
            && (e.ok <==> !faults.readFails && (on || faults.write.Fine?))
            && (if on || faults.readFails || faults.write.Rejected? then e.store == store
                else key in e.store && Lookup(e.store[key], ["data", "publish_enabled"]) == Some(Str("false")))
            && (key in store ==> OnlyAt(store, e.store, key, ["data", "publish_enabled"]))
            && (key !in store && key in e.store ==>
                  e.store[key] == Obj(map["metadata" := Obj(map["name" := Str(name), "namespace" := Str(ns)]),
                                          "data" := Obj(map["publish_enabled" := Str("false")])]))
            && (forall k | k != key :: k in e.store <==> k in store)
            && (forall k | k != key && k in store :: e.store[k] == store[k])
  {
    var key := Key(ConfigMap, ns, name);
    CircuitBreakEngages(store, store, key, faults);
    var act := Decide(CircuitBreak, key, ReadObject(store, key, faults.readFails));
    if act.SendPatch? {
      PatchOnlyAt(CircuitBreak, store, key, ReadObject(store, key, faults.readFails), faults.write);
    }
  }

  /** A rollback, with any fault: an existing rollout gets status.abort unless the call is refused; a missing one is an
      error. */
  lemma RollbackOnDocument(store: Store, key: Key, faults: Faults)
    ensures var e := ApplyRemedy(Rollback, store, key, faults);
            && (e.ok <==> key in store && faults.write.Fine?)
            && (if key in store && !faults.write.Rejected?
                then key in e.store && Lookup(e.store[key], ["status", "abort"]) == Some(Bool(true))
                else e.store == store)
            && OnlyAt(store, e.store, key, ["status", "abort"])
  {
    RollbackAborts(store, key, faults);
  }
}
