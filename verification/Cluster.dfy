/** The Kubernetes API server as the operator sees it: named JSON objects, read and written by
    calls that may fail before acting or lose their reply after acting. */
module Cluster {
  import opened JsonPatch

  datatype ObjectKind = HPA | ConfigMap | Rollout | OtherKind(kind: string)

  datatype Key = Key(kind: ObjectKind, ns: string, name: string)

  type Store = map<Key, Object>

  /** What happens to one write call. */
  datatype Fault = Fine | Rejected | ReplyLost

  datatype Read = Found(obj: Object) | NotFound | ReadFailed

  datatype Effect = Effect(store: Store, ok: bool)

  function ReadObject(store: Store, key: Key, fails: bool): Read {
    if fails then ReadFailed else if key in store then Found(store[key]) else NotFound
  }

  function PatchObject(store: Store, key: Key, patch: Object, fault: Fault): Effect {
    if fault.Rejected? || key !in store then Effect(store, false)
    else Effect(store[key := MergePatch(store[key], patch)], fault.Fine?)
  }

  function CreateObject(store: Store, key: Key, obj: Object, fault: Fault): Effect {
    if fault.Rejected? || key in store then Effect(store, false)
    else Effect(store[key := obj], fault.Fine?)
  }

  /** What others do to an object meanwhile. */
  datatype Change = Merged(patch: Object) | Created(obj: Object) | Deleted

  function Changed(store: Store, key: Key, change: Change): Store {
    match change
    case Merged(patch) => PatchObject(store, key, patch, Fine).store
    case Created(obj) => CreateObject(store, key, obj, Fine).store
    case Deleted => store - {key}
  }

  /** A change that leaves one path of an object that exists alone; what exists cannot be created again. */
  predicate Leaves(change: Change, path: Path) {
    match change
    case Merged(patch) => !Names(patch, path)
    case Created(_) => true
    case Deleted => false
  }

  lemma ChangeFrame(store: Store, key: Key, change: Change, k: Key, path: Path)
    requires k in store && (k == key ==> Leaves(change, path))
    ensures k in Changed(store, key, change)
    ensures Lookup(Changed(store, key, change)[k], path) == Lookup(store[k], path)
  {
    if k == key && change.Merged? {
      MergeFrame(store[k], change.patch, path);
    }
  }

  class ApiServer {
    var objects: Store

    constructor (objects: Store)
      ensures this.objects == objects
    {
      this.objects := objects;
    }

    method Get(key: Key, fails: bool) returns (r: Read)
      ensures r == ReadObject(objects, key, fails)
    {
      if fails {
        r := ReadFailed;
      } else if key in objects {
        r := Found(objects[key]);
      } else {
        r := NotFound;
      }
    }

    method Patch(key: Key, patch: Object, fault: Fault) returns (ok: bool)
      modifies this
      ensures Effect(objects, ok) == PatchObject(old(objects), key, patch, fault)
    {
      ok := false;
      if fault != Rejected && key in objects {
        objects := objects[key := MergePatch(objects[key], patch)];
        ok := fault == Fine;
      }
    }

    method Create(key: Key, obj: Object, fault: Fault) returns (ok: bool)
      modifies this
      ensures Effect(objects, ok) == CreateObject(old(objects), key, obj, fault)
    {
      ok := false;
      if fault != Rejected && key !in objects {
        objects := objects[key := obj];
        ok := fault == Fine;
      }
    }
  }
}
