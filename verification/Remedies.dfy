/** operator/internal/remedy: the three remedies, each a read, a decision on what was read, and at most one write. */
module Remedies {
  import opened Options
  import opened JsonPatch
  import opened Cluster
  import Classifier

  datatype Remedy = ScaleUp(step: int) | CircuitBreak | Rollback

  const MIN_REPLICAS: Path := ["spec", "minReplicas"]
  const MAX_REPLICAS: Path := ["spec", "maxReplicas"]
  const FLAG: Path := ["data", "publish_enabled"]
  const PAUSED: Json := Str("false")
  const ABORT: Path := ["status", "abort"]

  // ----- int32 arithmetic of ScaleUp -----

  const MAX_INT32 := 0x7FFF_FFFF

  predicate Int32(x: int) {
    -0x8000_0000 <= x <= MAX_INT32
  }

  function Wrap32(x: int): int {
    (x + 0x8000_0000) % 0x1_0000_0000 - 0x8000_0000
  }

  function EffectiveStep(step: int): int {
    if step <= 0 then 2 else step
  }

  /** The local variable target after the cap. */
  function ScaleTarget(step: int, current: int, max: int): int {
    var target := Wrap32(current + EffectiveStep(step));
    if target > max then max else target
  }

  /** minReplicas after one apply that reads what it patches. */
  function Bump(step: int, current: int, max: int): int {
    var target := ScaleTarget(step, current, max);
    if target <= current then current else target
  }

  /** An absent (or, in Go, nil) field reads as zero. */
  function IntAt(o: Json, path: Path): int {
    match Lookup(o, path)
    case Some(Num(n)) => n
    case _ => 0
  }

  function MinOf(o: Json): int { IntAt(o, MIN_REPLICAS) }

  function MaxOf(o: Json): int { IntAt(o, MAX_REPLICAS) }

  // ----- what each remedy decides -----

  datatype Action = Stop(ok: bool) | SendPatch(patch: Object) | SendCreate(obj: Object)

  function NewFlags(ns: string, name: string): Object {
    Obj(map["metadata" := Obj(map["name" := Str(name), "namespace" := Str(ns)]),
            "data" := Obj(map["publish_enabled" := PAUSED])])
  }

  function KindFor(rem: Remedy): ObjectKind {
    match rem case ScaleUp(_) => HPA case CircuitBreak => ConfigMap case Rollback => Rollout
  }

  function KeyFor(rem: Remedy, ns: string, target: string): Key {
    Key(KindFor(rem), ns, target)
  }

  predicate Reads(rem: Remedy) { !rem.Rollback? }

  /** The patch is the assignment to one field, as a difference. */
  function FieldPatch(path: Path, v: Json): Object
    requires path != []
  {
    Nest(path, v)
  }

  function Decide(rem: Remedy, key: Key, read: Read): Action {
    match rem
    case Rollback => SendPatch(FieldPatch(ABORT, Bool(true)))
    case ScaleUp(step) =>
      (match read
       case Found(hpa) =>
         var target := ScaleTarget(step, MinOf(hpa), MaxOf(hpa));
         if target <= MinOf(hpa) then Stop(true) else SendPatch(FieldPatch(MIN_REPLICAS, Num(target)))
       case _ => Stop(false))
    case CircuitBreak =>
      match read
      case ReadFailed => Stop(false)
      case NotFound => SendCreate(NewFlags(key.ns, key.name))
      case Found(cm) =>
        if Lookup(cm, FLAG) == Some(PAUSED) then Stop(true) else SendPatch(FieldPatch(FLAG, PAUSED))
  }

  function Perform(store: Store, key: Key, act: Action, fault: Fault): Effect {
    match act
    case Stop(ok) => Effect(store, ok)
    case SendPatch(patch) => PatchObject(store, key, patch, fault)
    case SendCreate(obj) => CreateObject(store, key, obj, fault)
  }

  /** Whether a write takes effect, reply or no reply. */
  predicate Lands(store: Store, key: Key, act: Action, fault: Fault) {
    !fault.Rejected? && !act.Stop? && (key in store <==> act.SendPatch?)
  }

  datatype Faults = Faults(readFails: bool, write: Fault)

  /** An apply that reads one state of the cluster and writes to a later one. */
  function ApplyFrom(rem: Remedy, was: Store, store: Store, key: Key, faults: Faults): Effect {
    Perform(store, key, Decide(rem, key, ReadObject(was, key, faults.readFails)), faults.write)
  }

  /** An apply that nothing comes between. */
  function ApplyRemedy(rem: Remedy, store: Store, key: Key, faults: Faults): Effect {
    ApplyFrom(rem, store, store, key, faults)
  }

  // ----- the methods -----

  /** MergeFrom(DeepCopy()), one assignment to the copy, Patch. */
  method AssignAndPatch(api: ApiServer, key: Key, read: Object, path: Path, v: Json, fault: Fault) returns (ok: bool)
    requires path != [] && !v.Obj? && Lookup(read, path) != Some(v)
    modifies api
    ensures Effect(api.objects, ok) == PatchObject(old(api.objects), key, FieldPatch(path, v), fault)
  {
    var modified: Object := SetAt(read, path, v);
    DiffOfSet(read, path, v);
    ok := api.Patch(key, Diff(read, modified), fault);
  }

  method ApplyScaleUp(step: int, api: ApiServer, ns: string, target: string, faults: Faults) returns (ok: bool)
    modifies api
    ensures Effect(api.objects, ok) == ApplyRemedy(ScaleUp(step), old(api.objects), Key(HPA, ns, target), faults)
  {
    var inc := step;
    if inc <= 0 {
      inc := 2;
    }
    var key := Key(HPA, ns, target);
    var read := api.Get(key, faults.readFails);
    if !read.Found? {
      return false;
    }
    var hpa := read.obj;
    var current, max := MinOf(hpa), MaxOf(hpa);
    var to := Wrap32(current + inc);
    if to > max {
      to := max;
    }
    if to <= current {
      return true;
    }
    ok := AssignAndPatch(api, key, hpa, MIN_REPLICAS, Num(to), faults.write);
  }

  method ApplyCircuitBreak(api: ApiServer, ns: string, target: string, faults: Faults) returns (ok: bool)
    modifies api
    ensures Effect(api.objects, ok) == ApplyRemedy(CircuitBreak, old(api.objects), Key(ConfigMap, ns, target), faults)
  {
    var key := Key(ConfigMap, ns, target);
    var read := api.Get(key, faults.readFails);
    match read {
      case NotFound =>
        ok := api.Create(key, NewFlags(ns, target), faults.write);
      case ReadFailed =>
        ok := false;
      case Found(cm) =>
        if Lookup(cm, FLAG) == Some(PAUSED) {
          return true;
        }
        ok := AssignAndPatch(api, key, cm, FLAG, PAUSED, faults.write);
    }
  }

  method ApplyRollback(api: ApiServer, ns: string, target: string, faults: Faults) returns (ok: bool)
    modifies api
    ensures Effect(api.objects, ok) == ApplyRemedy(Rollback, old(api.objects), Key(Rollout, ns, target), faults)
  {
    var patch: Object := Obj(map["status" := Obj(map["abort" := Bool(true)])]);
    assert patch == FieldPatch(ABORT, Bool(true)) by {
      assert Nest(ABORT[1..], Bool(true)) == Obj(map["abort" := Bool(true)]);
    }
    ok := api.Patch(Key(Rollout, ns, target), patch, faults.write);
  }

  /** The kind -> remedy table: built at start-up, looked up on every dispatch. */
  class Registry {
    var m: map<Classifier.Kind, Remedy>

    constructor ()
      ensures m == map[]
    {
      m := map[];
    }

    method Register(k: Classifier.Kind, rem: Remedy)
      modifies this
      ensures m == old(m)[k := rem]
    {
      m := m[k := rem];
    }

    method Lookup(k: Classifier.Kind) returns (rem: Option<Remedy>)
      ensures rem == if k in m then Some(m[k]) else None
    {
      rem := if k in m then Some(m[k]) else None;
    }

    method Apply(api: ApiServer, ns: string, d: Classifier.Decision, faults: Faults) returns (ok: bool)
      modifies api
      ensures d.kind !in m ==> !ok && api.objects == old(api.objects)
      ensures d.kind in m ==>
                Effect(api.objects, ok)
                == ApplyRemedy(m[d.kind], old(api.objects), KeyFor(m[d.kind], ns, d.target), faults)
    {
      var rem := Lookup(d.kind);
      match rem {
        case None => ok := false;
        case Some(ScaleUp(step)) => ok := ApplyScaleUp(step, api, ns, d.target, faults);
        case Some(CircuitBreak) => ok := ApplyCircuitBreak(api, ns, d.target, faults);
        case Some(Rollback) => ok := ApplyRollback(api, ns, d.target, faults);
      }
    }
  }

  /** What the manager registers. */
  function Production(): map<Classifier.Kind, Remedy> {
    map[Classifier.Rollback := Rollback, Classifier.ScaleUp := ScaleUp(0), Classifier.CircuitBreak := CircuitBreak]
  }
}
