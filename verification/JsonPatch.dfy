/** JSON documents and JSON Merge Patch, section 2 of RFC 7396: the only way the operator's
    remedies change a cluster object that already exists. */
module JsonPatch {
  import opened Options

  datatype Json =
    | Null
    | Bool(b: bool)
    | Num(n: int)
    | Str(s: string)
    | Arr(elems: seq<Json>)
    | Obj(fields: map<string, Json>)

  /** What the API server stores: always an object at the top. */
  type Object = o: Json | o.Obj? witness Obj(map[])

  type Path = seq<string>

  function Fields(t: Json): map<string, Json> {
    if t.Obj? then t.fields else map[]
  }

  function Member(t: Json, k: string): Json {
    if t.Obj? && k in t.fields then t.fields[k] else Null
  }

  /** The MergePatch pseudocode of section 2: an object patch is merged member by member into the
      target (taken as an empty object when it is none), a null member deletes, anything else replaces. */
  function MergePatch(target: Json, patch: Json): (r: Json)
    ensures patch.Obj? ==> r.Obj?
    decreases patch
  {
    if patch.Obj? then
      Obj(map k | k in Fields(target).Keys + patch.fields.Keys && (k in patch.fields ==> !patch.fields[k].Null?) ::
            if k in patch.fields then MergePatch(Member(target, k), patch.fields[k]) else Fields(target)[k])
    else
      patch
  }

  /** The value at a path, if every step of the path is a member of an object. */
  function Lookup(t: Json, path: Path): Option<Json> {
    if path == [] then Some(t)
    else if t.Obj? && path[0] in t.fields then Lookup(t.fields[path[0]], path[1..])
    else None
  }

  /** Whether patch p speaks about this path: it replaces or deletes the value there, one above it or one below it. */
  predicate Names(p: Json, path: Path) {
    !p.Obj? || path == [] || (path[0] in p.fields && Names(p.fields[path[0]], path[1..]))
  }

  /** A patch leaves every path it does not name exactly as it was, present or absent. */
  lemma {:induction false} MergeFrame(t: Json, p: Json, path: Path)
    requires !Names(p, path)
    ensures Lookup(MergePatch(t, p), path) == Lookup(t, path)
    decreases path
  {
    var k := path[0];
    if k in p.fields {
      MergeFrame(Member(t, k), p.fields[k], path[1..]);
      assert !p.fields[k].Null? && path[1..] != [];
    }
  }

  /** A non-object leaf of a patch is what the patched document holds there; a null leaf is an absence. */
  lemma {:induction false} MergeLeaf(t: Json, p: Json, path: Path)
    requires path != [] && Lookup(p, path).Some? && !Lookup(p, path).value.Obj?
    ensures Lookup(MergePatch(t, p), path) ==
            if Lookup(p, path) == Some(Null) then None else Lookup(p, path)
    decreases path
  {
    var k, v := path[0], p.fields[path[0]];
    if path[1..] != [] {
      MergeLeaf(Member(t, k), v, path[1..]);
    }
  }

  lemma {:induction false} LeafIsNamed(p: Json, path: Path)
    requires Lookup(p, path).Some? && !Lookup(p, path).value.Obj?
    ensures Names(p, path)
    decreases path
  {
    if path != [] {
      LeafIsNamed(p.fields[path[0]], path[1..]);
    }
  }

  /** Exactly when a patched document holds a scalar at a path: the patch puts it there, or leaves it there. */
  lemma {:induction false} MergeReads(t: Json, p: Json, path: Path, v: Json)
    requires path != [] && p.Obj? && !v.Obj? && !v.Null?
    ensures Lookup(MergePatch(t, p), path) == Some(v)
            <==> Lookup(p, path) == Some(v) || (!Names(p, path) && Lookup(t, path) == Some(v))
    decreases path
  {
    var k, rest := path[0], path[1..];
    if !Names(p, path) {
      MergeFrame(t, p, path);
      if Lookup(p, path) == Some(v) {
        LeafIsNamed(p, path);
      }
    } else if p.fields[k].Obj? && rest != [] {
      MergeReads(Member(t, k), p.fields[k], rest, v);
    }
  }

  /** Examples from appendix A of RFC 7396: members are added and deleted, arrays are replaced whole. */
  lemma MergeExamples()
    ensures MergePatch(Obj(map["a" := Str("b")]), Obj(map["b" := Str("c")])) == Obj(map["a" := Str("b"), "b" := Str("c")])
    ensures MergePatch(Obj(map["a" := Str("b")]), Obj(map["a" := Null])) == Obj(map[])
    ensures MergePatch(Obj(map["a" := Arr([Str("b")])]), Obj(map["a" := Arr([Str("c")])])) == Obj(map["a" := Arr([Str("c")])])
  {
    assert MergePatch(Obj(map["a" := Str("b")]), Obj(map["b" := Str("c")])).fields == map["a" := Str("b"), "b" := Str("c")];
    assert MergePatch(Obj(map["a" := Str("b")]), Obj(map["a" := Null])).fields == map[];
  }

  /** An object patch makes an object of anything, a null that is there already stays, and any other patch replaces. */
  lemma MoreMergeExamples()
    ensures MergePatch(Arr([Str("a"), Str("b")]), Obj(map["a" := Str("b"), "c" := Null])) == Obj(map["a" := Str("b")])
    ensures MergePatch(Obj(map["e" := Null]), Obj(map["a" := Num(1)])) == Obj(map["e" := Null, "a" := Num(1)])
    ensures MergePatch(Obj(map["a" := Str("foo")]), Str("bar")) == Str("bar")
  {
    assert MergePatch(Arr([Str("a"), Str("b")]), Obj(map["a" := Str("b"), "c" := Null])).fields == map["a" := Str("b")];
    assert MergePatch(Obj(map["e" := Null]), Obj(map["a" := Num(1)])).fields == map["e" := Null, "a" := Num(1)];
  }

  /** Applying the same patch again changes nothing, whatever the document. */
  lemma {:induction false} MergeIdempotent(t: Json, p: Json)
    ensures MergePatch(MergePatch(t, p), p) == MergePatch(t, p)
    decreases p
  {
    if p.Obj? {
      var once := MergePatch(t, p);
      forall k | k in p.fields && !p.fields[k].Null?
        ensures MergePatch(once.fields[k], p.fields[k]) == once.fields[k]
      {
        MergeIdempotent(Member(t, k), p.fields[k]);
      }
      assert MergePatch(once, p).fields == once.fields;
    }
  }

  /** No path is written by both patches: wherever they share a member, both only descend through it. */
  predicate Disjoint(p: Json, q: Json)
    decreases p
  {
    p.Obj? && q.Obj? && forall k | k in p.fields && k in q.fields :: Disjoint(p.fields[k], q.fields[k])
  }

  /** Patches on disjoint paths commute on every document. */
  lemma {:induction false} MergeCommutes(t: Json, p: Json, q: Json)
    requires Disjoint(p, q)
    ensures MergePatch(MergePatch(t, p), q) == MergePatch(MergePatch(t, q), p)
    decreases p
  {
    var tp, tq := MergePatch(t, p), MergePatch(t, q);
    var pq, qp := MergePatch(tp, q), MergePatch(tq, p);
    forall k
      ensures k in pq.fields <==> k in qp.fields
      ensures k in pq.fields ==> pq.fields[k] == qp.fields[k]
    {
      if k in p.fields && k in q.fields {
        assert p.fields[k].Obj? && q.fields[k].Obj?;
        MergeCommutes(Member(t, k), p.fields[k], q.fields[k]);
      } else if k in p.fields {
        assert Member(tq, k) == Member(t, k);
      } else if k in q.fields {
        assert Member(tp, k) == Member(t, k);
      }
    }
    assert pq.fields == qp.fields;
  }

  // ----- MergeFrom: copy the object, assign to the copy, send the difference -----

  /** Assignment through a path, creating the objects on the way. */
  function SetAt(t: Json, path: Path, v: Json): Json
    decreases path
  {
    if path == [] then v
    else Obj(Fields(t)[path[0] := SetAt(Member(t, path[0]), path[1..], v)])
  }

  /** The patch that says only "this path has this value". */
  function Nest(path: Path, v: Json): Json {
    if path == [] then v else Obj(map[path[0] := Nest(path[1..], v)])
  }

  /** The merge patch computed from an original and a modified object: additions and changes carry the
      new value, common objects are compared recursively, deletions become null. */
  function Diff(a: Json, b: Json): Json
    requires a.Obj? && b.Obj?
    decreases b
  {
    Obj(map k | k in a.fields.Keys + b.fields.Keys && !(k in a.fields && k in b.fields && a.fields[k] == b.fields[k]) ::
          if k !in b.fields then Null
          else if k in a.fields && a.fields[k].Obj? && b.fields[k].Obj? then Diff(a.fields[k], b.fields[k])
          else b.fields[k])
  }

  predicate NullFree(v: Json) {
    !v.Null? && (v.Obj? ==> forall k | k in v.fields :: NullFree(v.fields[k]))
  }

  /** Every null b would have to introduce is already there in a. */
  predicate Patchable(a: Json, b: Json)
    requires a.Obj? && b.Obj?
    decreases b
  {
    forall k | k in b.fields && !(k in a.fields && a.fields[k] == b.fields[k]) ::
      if k in a.fields && a.fields[k].Obj? && b.fields[k].Obj? then Patchable(a.fields[k], b.fields[k])
      else NullFree(b.fields[k])
  }

  lemma {:induction false} MergeIntoNothing(t: Json, v: Json)
    requires !t.Obj? && !v.Null?
    ensures MergePatch(t, v) == v <==> NullFree(v)
    decreases v
  {
    if v.Obj? {
      var m := MergePatch(t, v);
      forall k | k in v.fields && !v.fields[k].Null?
        ensures k in m.fields && (m.fields[k] == v.fields[k] <==> NullFree(v.fields[k]))
      {
        MergeIntoNothing(Null, v.fields[k]);
      }
      if NullFree(v) {
        assert forall k | k in v.fields :: NullFree(v.fields[k]);
        assert m.fields == v.fields;
      } else {
        var k :| k in v.fields && !NullFree(v.fields[k]);
        assert k in m.fields ==> m.fields[k] != v.fields[k];
      }
    }
  }

  /** Sending the difference turns the original into the modified object exactly when the modified object
      introduces no null of its own. */
  lemma {:induction false} DiffRoundTrip(a: Json, b: Json)
    requires a.Obj? && b.Obj?
    ensures MergePatch(a, Diff(a, b)) == b <==> Patchable(a, b)
    decreases b
  {
    var d := Diff(a, b);
    var m := MergePatch(a, d);
    forall k | k in b.fields && k in d.fields
      ensures (k in m.fields && m.fields[k] == b.fields[k]) <==>
              if k in a.fields && a.fields[k].Obj? && b.fields[k].Obj? then Patchable(a.fields[k], b.fields[k])
              else NullFree(b.fields[k])
    {
      if k in a.fields && a.fields[k].Obj? && b.fields[k].Obj? {
        DiffRoundTrip(a.fields[k], b.fields[k]);
      } else if !b.fields[k].Null? {
        assert m.fields[k] == MergePatch(Member(a, k), b.fields[k]);
        if b.fields[k].Obj? {
          MergeIntoNothing(Member(a, k), b.fields[k]);
        }
      }
    }
    if Patchable(a, b) {
      assert m.fields == b.fields;
    }
  }

  lemma {:induction false} SetThenLookup(t: Json, path: Path, v: Json)
    ensures Lookup(SetAt(t, path, v), path) == Some(v)
    decreases path
  {
    if path != [] {
      SetThenLookup(Member(t, path[0]), path[1..], v);
    }
  }

  lemma {:induction false} SetOnNothing(t: Json, path: Path, v: Json)
    requires !t.Obj?
    ensures SetAt(t, path, v) == Nest(path, v)
    decreases path
  {
    if path != [] {
      SetOnNothing(Null, path[1..], v);
    }
  }

  /** The difference made by one assignment names that path and nothing else. */
  lemma {:induction false} DiffOfSet(o: Json, path: Path, v: Json)
    requires o.Obj? && path != [] && !v.Obj? && Lookup(o, path) != Some(v)
    ensures Diff(o, SetAt(o, path, v)) == Nest(path, v)
    decreases path
  {
    var k, rest := path[0], path[1..];
    var m := Member(o, k);
    SetThenLookup(m, rest, v);
    if m.Obj? && rest != [] {
      DiffOfSet(m, rest, v);
    } else if rest != [] {
      SetOnNothing(m, rest, v);
      assert k in o.fields ==> o.fields[k] != SetAt(m, rest, v);
    }
    var d := Diff(o, SetAt(o, path, v)).fields;
    assert k in d && d[k] == Nest(rest, v);
    assert d == map[k := Nest(rest, v)];
  }

  /** On whatever document it reaches, that patch is the same assignment. */
  lemma {:induction false} MergeOfNest(t: Json, path: Path, v: Json)
    requires !v.Obj? && !v.Null?
    ensures MergePatch(t, Nest(path, v)) == SetAt(t, path, v)
    decreases path
  {
    if path != [] {
      var k, inner := path[0], Nest(path[1..], v);
      MergeOfNest(Member(t, k), path[1..], v);
      assert !inner.Null?;
      var m := MergePatch(t, Obj(map[k := inner]));
      assert m.fields == Fields(t)[k := MergePatch(Member(t, k), inner)];
    }
  }

  /** Two paths neither of which is a prefix of the other. */
  predicate Apart(p: Path, q: Path) {
    p != [] && q != [] && (p[0] == q[0] ==> Apart(p[1..], q[1..]))
  }

  lemma {:induction false} NestNames(path: Path, v: Json, q: Path)
    requires !v.Obj?
    ensures Names(Nest(path, v), q) <==> !Apart(path, q)
    decreases path
  {
    if path != [] && q != [] && path[0] == q[0] {
      NestNames(path[1..], v, q[1..]);
    }
  }

  lemma {:induction false} NestLookup(path: Path, v: Json)
    ensures Lookup(Nest(path, v), path) == Some(v)
    decreases path
  {
    if path != [] {
      NestLookup(path[1..], v);
    }
  }
}
