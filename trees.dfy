/**
 * Positions inside a JSON tree. The resolver changes dicts in place wherever they sit;
 * the model names such a dict by the path of member/item positions leading to it.
 */
module Trees {
  import opened Exceptions
  import opened JsonValues

  /** The `i`-th value of a dict (in insertion order) or the `i`-th item of a list. */
  function Child(j: Json, i: nat): (r: Option<Json>)
    ensures r.Some? ==> (j decreases to r.value)
  {
    match j
    case Obj(ms) => if i < |ms| then Some(ms[i].value) else None
    case Arr(xs) => if i < |xs| then Some(xs[i]) else None
    case _ => None
  }

  /** The node reached from `j` by following `path`. */
  function At(j: Json, path: seq<nat>): Option<Json>
    decreases |path|
  {
    if path == [] then Some(j)
    else match Child(j, path[0])
      case None => None
      case Some(c) => At(c, path[1..])
  }

  /** `j` with the node at `path` replaced by `v`; a path that leads nowhere changes nothing. */
  function Put(j: Json, path: seq<nat>, v: Json): Json
    decreases |path|
  {
    if path == [] then v
    else match j
      case Obj(ms) =>
        if path[0] < |ms| then Obj(ms[path[0] := Member(ms[path[0]].key, Put(ms[path[0]].value, path[1..], v))])
        else j
      case Arr(xs) =>
        if path[0] < |xs| then Arr(xs[path[0] := Put(xs[path[0]], path[1..], v)])
        else j
      case _ => j
  }

  /** No dict anywhere in `j` holds a `$ref` key. */
  predicate RefFree(j: Json)
  {
    match j
    case Obj(ms) => !HasKey(ms, "$ref") && forall i :: 0 <= i < |ms| ==> RefFree(ms[i].value)
    case Arr(xs) => forall i :: 0 <= i < |xs| ==> RefFree(xs[i])
    case _ => true
  }

  /** The nesting depth of `j`: 0 for a scalar, one more than its deepest child for a container. */
  function Height(j: Json): nat
  {
    match j
    case Obj(ms) => 1 + MembersHeight(ms)
    case Arr(xs) => 1 + ItemsHeight(xs)
    case _ => 0
  }

  function MembersHeight(ms: seq<Member>): nat
  {
    if ms == [] then 0
    else var h := MembersHeight(ms[1..]); if Height(ms[0].value) > h then Height(ms[0].value) else h
  }

  function ItemsHeight(xs: seq<Json>): nat
  {
    if xs == [] then 0
    else var h := ItemsHeight(xs[1..]); if Height(xs[0]) > h then Height(xs[0]) else h
  }

  // ---------------------------------------------------------------------------
  // Facts about paths
  // ---------------------------------------------------------------------------

  /** One step further down a path is one more child lookup. */
  lemma {:induction false} AtAppend(j: Json, path: seq<nat>, i: nat)
    ensures At(j, path + [i]) == match At(j, path) case Some(n) => Child(n, i) case None => None
    decreases |path|
  {
    if path == [] {
      assert [] + [i] == [i];
      assert [i][1..] == [];
    } else {
      assert (path + [i])[0] == path[0];
      assert (path + [i])[1..] == path[1..] + [i];
      match Child(j, path[0])
      case None =>
      case Some(c) => AtAppend(c, path[1..], i);
    }
  }

  /** A replacement lands at its path, and a path that leads nowhere leaves the tree alone. */
  lemma {:induction false} AtPut(j: Json, path: seq<nat>, v: Json)
    ensures At(j, path).Some? ==> At(Put(j, path, v), path) == Some(v)
    ensures At(j, path).None? ==> Put(j, path, v) == j
    decreases |path|
  {
    if path != [] {
      match j
      case Obj(ms) =>
        if path[0] < |ms| {
          AtPut(ms[path[0]].value, path[1..], v);
        }
      case Arr(xs) =>
        if path[0] < |xs| {
          AtPut(xs[path[0]], path[1..], v);
        }
      case _ =>
    }
  }

  /**
   * A replacement leaves every other place alone: the node at a path that neither
   * leads through the replaced place nor leads to one of its ancestors is unchanged.
   */
  lemma {:induction false} AtPutElsewhere(j: Json, path: seq<nat>, other: seq<nat>, v: Json)
    requires !(path <= other) && !(other <= path)
    ensures At(Put(j, path, v), other) == At(j, other)
    decreases |path|
  {
    var j' := Put(j, path, v);
    if path[0] != other[0] {
      assert Child(j', other[0]) == Child(j, other[0]);
    } else {
      match j
      case Obj(ms) =>
        if path[0] < |ms| {
          AtPutElsewhere(ms[path[0]].value, path[1..], other[1..], v);
        }
      case Arr(xs) =>
        if path[0] < |xs| {
          AtPutElsewhere(xs[path[0]], path[1..], other[1..], v);
        }
      case _ =>
    }
  }

  /** A child of a `$ref`-free node is `$ref`-free and strictly lower. */
  lemma ChildBelow(j: Json, i: nat)
    requires Child(j, i).Some?
    ensures RefFree(j) ==> RefFree(Child(j, i).value)
    ensures Height(Child(j, i).value) < Height(j)
  {
    match j
    case Obj(ms) => MembersHeightBound(ms, i);
    case Arr(xs) => ItemsHeightBound(xs, i);
  }

  lemma {:induction false} MembersHeightBound(ms: seq<Member>, i: nat)
    requires i < |ms|
    ensures Height(ms[i].value) <= MembersHeight(ms)
  {
    if i > 0 {
      MembersHeightBound(ms[1..], i - 1);
    }
  }

  lemma {:induction false} ItemsHeightBound(xs: seq<Json>, i: nat)
    requires i < |xs|
    ensures Height(xs[i]) <= ItemsHeight(xs)
  {
    if i > 0 {
      ItemsHeightBound(xs[1..], i - 1);
    }
  }
}
