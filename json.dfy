/**
 * JSON values as the two core files see them after `json.load`: Python dicts are
 * insertion-ordered, so an object is an ordered list of members, and the dict
 * operations the code uses (`d[k]`, `d[k] = v`, `d.update(o)`, `d.pop(k)`, `.items()`)
 * are functions over that list.
 */
module JsonValues {
  import opened Exceptions

  datatype Json =
    | Null
    | Bool(b: bool)
    | Num(n: int)
    | Str(s: string)
    | Arr(items: seq<Json>)
    | Obj(members: seq<Member>)

  /** One key/value pair of a dict, at its insertion position. */
  datatype Member = Member(key: string, value: Json)

  function Keys(ms: seq<Member>): (ks: seq<string>)
    ensures |ks| == |ms|
  {
    if ms == [] then [] else [ms[0].key] + Keys(ms[1..])
  }

  predicate HasKey(ms: seq<Member>, k: string)
  {
    k in Keys(ms)
  }

  predicate Distinct(ks: seq<string>)
  {
    ks == [] || (ks[0] !in ks[1..] && Distinct(ks[1..]))
  }

  /** A Python dict never holds a key twice. */
  predicate UniqueKeys(ms: seq<Member>)
  {
    Distinct(Keys(ms))
  }

  /** The position of key `k`: the first member that carries it. */
  function IndexOf(ms: seq<Member>, k: string): (r: Option<nat>)
    ensures r.Some? ==> r.value < |ms| && ms[r.value].key == k
    ensures r.Some? ==> forall j :: 0 <= j < r.value ==> ms[j].key != k
    ensures r.None? <==> !HasKey(ms, k)
  {
    if ms == [] then None
    else if ms[0].key == k then Some(0)
    else match IndexOf(ms[1..], k)
      case None => None
      case Some(i) => Some(i + 1)
  }

  /** `d.get(k)`: the value stored under `k`, if any. */
  function Get(ms: seq<Member>, k: string): (r: Option<Json>)
    ensures r.Some? <==> HasKey(ms, k)
  {
    match IndexOf(ms, k)
    case None => None
    case Some(i) => Some(ms[i].value)
  }

  /** `d[k] = v`: an existing key keeps its position and takes the new value; a new key goes last. */
  function SetKey(ms: seq<Member>, k: string, v: Json): (r: seq<Member>)
    ensures Keys(ms) <= Keys(r) && HasKey(r, k)
    ensures |r| == if HasKey(ms, k) then |ms| else |ms| + 1
  {
    if ms == [] then [Member(k, v)]
    else if ms[0].key == k then [Member(k, v)] + ms[1..]
    else [ms[0]] + SetKey(ms[1..], k, v)
  }

  /** `d.update(o)`: assigns every member of `o` in turn, in `o`'s order. */
  function Update(ms: seq<Member>, o: seq<Member>): (r: seq<Member>)
    ensures Keys(ms) <= Keys(r)
    ensures |ms| <= |r| <= |ms| + |o|
    decreases |o|
  {
    if o == [] then ms else Update(SetKey(ms, o[0].key, o[0].value), o[1..])
  }

  /** `d.pop(k)`: removes the member that carries `k`; Python raises KeyError when there is none. */
  function Pop(ms: seq<Member>, k: string): (r: seq<Member>)
    requires HasKey(ms, k)
    ensures |r| == |ms| - 1
    ensures r == ms[..IndexOf(ms, k).value] + ms[IndexOf(ms, k).value + 1..]
  {
    var i := IndexOf(ms, k).value;
    ms[..i] + ms[i + 1..]
  }

  /** `j[k]`: only a dict can be subscripted by a string; a dict without `k` raises KeyError. */
  function Subscript(j: Json, k: string): (r: Result<Json>)
    ensures r.Ok? <==> j.Obj? && HasKey(j.members, k)
    ensures r.Ok? ==> Get(j.members, k) == Some(r.value)
    ensures r.Ok? ==> (j decreases to r.value)
    ensures r.Err? ==> r.error == (if j.Obj? then KeyError(k) else TypeError)
  {
    match j
    case Obj(ms) =>
      (match IndexOf(ms, k)
       case Some(i) => Ok(ms[i].value)
       case None => Err(KeyError(k)))
    case _ => Err(TypeError)
  }

  /** `j.items()`: only a dict has it. */
  function ItemsOf(j: Json): (r: Result<seq<Member>>)
    ensures r.Ok? <==> j.Obj?
    ensures r.Ok? ==> r.value == j.members
    ensures r.Ok? ==> (j decreases to r.value)
    ensures r.Err? ==> r.error == AttributeError
  {
    if j.Obj? then Ok(j.members) else Err(AttributeError)
  }

  /** `len(j)`: dicts, lists and strings have a length; other values raise TypeError. */
  function Len(j: Json): (r: Result<nat>)
    ensures r.Ok? <==> j.Obj? || j.Arr? || j.Str?
    ensures r.Err? ==> r.error == TypeError
  {
    match j
    case Obj(ms) => Ok(|ms|)
    case Arr(xs) => Ok(|xs|)
    case Str(s) => Ok(|s|)
    case _ => Err(TypeError)
  }

  // ---------------------------------------------------------------------------
  // Facts about assignment and dict.update
  // ---------------------------------------------------------------------------

  /** Assignment replaces the member at the key's position, or appends when the key is new. */
  lemma SetKeyAt(ms: seq<Member>, k: string, v: Json)
    ensures IndexOf(ms, k).Some? ==> SetKey(ms, k, v) == ms[IndexOf(ms, k).value := Member(k, v)]
    ensures IndexOf(ms, k).None? ==> SetKey(ms, k, v) == ms + [Member(k, v)]
  {
    match IndexOf(ms, k)
    case Some(i) => SetKeyFound(ms, k, v, i);
    case None => SetKeyNew(ms, k, v);
  }

  lemma {:induction false} SetKeyFound(ms: seq<Member>, k: string, v: Json, i: nat)
    requires IndexOf(ms, k) == Some(i)
    ensures SetKey(ms, k, v) == ms[i := Member(k, v)]
  {
    if ms[0].key != k {
      assert IndexOf(ms[1..], k) == Some(i - 1);
      SetKeyFound(ms[1..], k, v, i - 1);
      assert SetKey(ms, k, v) == [ms[0]] + ms[1..][i - 1 := Member(k, v)];
      assert [ms[0]] + ms[1..][i - 1 := Member(k, v)] == ms[i := Member(k, v)] by {
        ConsUpdate(ms[0], ms[1..], i - 1, Member(k, v));
        assert [ms[0]] + ms[1..] == ms;
      }
    } else {
      assert [Member(k, v)] + ms[1..] == ms[0 := Member(k, v)];
    }
  }

  /** Updating the tail of a sequence at `i` is updating the whole at `i + 1`. */
  lemma ConsUpdate<T>(x: T, s: seq<T>, i: nat, y: T)
    requires i < |s|
    ensures [x] + s[i := y] == ([x] + s)[i + 1 := y]
  {
    var a, b := [x] + s[i := y], ([x] + s)[i + 1 := y];
    assert |a| == |b|;
    assert forall j :: 0 <= j < |a| ==> a[j] == b[j];
  }

  lemma {:induction false} SetKeyNew(ms: seq<Member>, k: string, v: Json)
    requires !HasKey(ms, k)
    ensures SetKey(ms, k, v) == ms + [Member(k, v)]
  {
    if ms != [] {
      assert Keys(ms) == [ms[0].key] + Keys(ms[1..]);
      SetKeyNew(ms[1..], k, v);
      assert [ms[0]] + (ms[1..] + [Member(k, v)]) == ms + [Member(k, v)];
    }
  }

  /** After `d[k] = v` the dict holds exactly its old keys and `k`. */
  lemma {:induction false} SetKeyHas(ms: seq<Member>, k: string, v: Json, k': string)
    ensures HasKey(SetKey(ms, k, v), k') <==> HasKey(ms, k') || k' == k
  {
    if ms != [] && ms[0].key != k {
      SetKeyHas(ms[1..], k, v, k');
      assert SetKey(ms, k, v) == [ms[0]] + SetKey(ms[1..], k, v);
    }
  }

  /** After `d[k] = v`, `d[k]` is `v` and every other key keeps its value. */
  lemma {:induction false} SetKeyGet(ms: seq<Member>, k: string, v: Json, k': string)
    ensures Get(SetKey(ms, k, v), k') == if k' == k then Some(v) else Get(ms, k')
  {
    if ms == [] {
      GetCons([Member(k, v)], k');
    } else if ms[0].key == k {
      var t := [Member(k, v)] + ms[1..];
      GetCons(t, k');
      assert t[1..] == ms[1..];
      GetCons(ms, k');
    } else {
      SetKeyGet(ms[1..], k, v, k');
      var t := [ms[0]] + SetKey(ms[1..], k, v);
      assert SetKey(ms, k, v) == t;
      GetCons(t, k');
      assert t[1..] == SetKey(ms[1..], k, v);
      GetCons(ms, k');
    }
  }

  lemma {:induction false} SetKeyUnique(ms: seq<Member>, k: string, v: Json)
    requires UniqueKeys(ms)
    ensures UniqueKeys(SetKey(ms, k, v))
  {
    if ms != [] && ms[0].key != k {
      SetKeyUnique(ms[1..], k, v);
      SetKeyHas(ms[1..], k, v, ms[0].key);
      assert SetKey(ms, k, v) == [ms[0]] + SetKey(ms[1..], k, v);
    }
  }

  /** After `d.update(o)` the dict holds exactly the keys of `d` and of `o`. */
  lemma {:induction false} UpdateHas(ms: seq<Member>, o: seq<Member>, k: string)
    ensures HasKey(Update(ms, o), k) <==> HasKey(ms, k) || HasKey(o, k)
    decreases |o|
  {
    if o != [] {
      SetKeyHas(ms, o[0].key, o[0].value, k);
      UpdateHas(SetKey(ms, o[0].key, o[0].value), o[1..], k);
    }
  }

  lemma {:induction false} UpdateUnique(ms: seq<Member>, o: seq<Member>)
    requires UniqueKeys(ms)
    ensures UniqueKeys(Update(ms, o))
    decreases |o|
  {
    if o != [] {
      SetKeyUnique(ms, o[0].key, o[0].value);
      UpdateUnique(SetKey(ms, o[0].key, o[0].value), o[1..]);
    }
  }

  lemma {:induction false} KeysAppend(a: seq<Member>, b: seq<Member>)
    ensures Keys(a + b) == Keys(a) + Keys(b)
  {
    if a == [] {
      assert a + b == b;
    } else {
      assert (a + b)[0] == a[0];
      assert (a + b)[1..] == a[1..] + b;
      KeysAppend(a[1..], b);
    }
  }

  lemma {:induction false} KeysPointwise(a: seq<Member>, b: seq<Member>)
    requires |a| == |b| && forall j :: 0 <= j < |a| ==> a[j].key == b[j].key
    ensures Keys(a) == Keys(b)
  {
    if a != [] {
      KeysPointwise(a[1..], b[1..]);
    }
  }

  lemma {:induction false} DistinctSplit(a: seq<string>, b: seq<string>)
    requires Distinct(a + b)
    ensures Distinct(a) && Distinct(b)
    ensures forall x :: x in a ==> x !in b
  {
    if a == [] {
      assert a + b == b;
    } else {
      assert (a + b)[0] == a[0];
      assert (a + b)[1..] == a[1..] + b;
      DistinctSplit(a[1..], b);
      forall x | x in a ensures x !in b {
        if x != a[0] {
          assert x in a[1..];
        }
      }
    }
  }

  /** Updating with members whose keys are all new appends them, in order. */
  lemma {:induction false} UpdateFresh(ms: seq<Member>, o: seq<Member>)
    requires UniqueKeys(ms + o)
    ensures Update(ms, o) == ms + o
    decreases |o|
  {
    if o != [] {
      var k := o[0].key;
      assert !HasKey(ms, k) by {
        KeysAppend(ms, o);
        DistinctSplit(Keys(ms), Keys(o));
        assert Keys(o)[0] == k;
      }
      SetKeyNew(ms, k, o[0].value);
      assert (ms + [o[0]]) + o[1..] == ms + o;
      UpdateFresh(ms + [o[0]], o[1..]);
    }
  }

  /** `{}.update(o)` copies a dict member for member: the splice `obj.clear(); obj.update(t)`. */
  lemma CopyByUpdate(o: seq<Member>)
    requires UniqueKeys(o)
    ensures Update([], o) == o
  {
    assert [] + o == o;
    UpdateFresh([], o);
  }

  lemma {:induction false} UpdateAppend(ms: seq<Member>, a: seq<Member>, b: seq<Member>)
    ensures Update(ms, a + b) == Update(Update(ms, a), b)
    decreases |a|
  {
    if a == [] {
      assert a + b == b;
    } else {
      assert (a + b)[0] == a[0];
      assert (a + b)[1..] == a[1..] + b;
      UpdateAppend(SetKey(ms, a[0].key, a[0].value), a[1..], b);
    }
  }

  /** Assigning a key twice keeps the second value. */
  lemma {:induction false} SetKeyTwice(ms: seq<Member>, k: string, v: Json, w: Json)
    ensures SetKey(SetKey(ms, k, v), k, w) == SetKey(ms, k, w)
  {
    if ms != [] && ms[0].key != k {
      SetKeyTwice(ms[1..], k, v, w);
      assert SetKey(ms, k, v) == [ms[0]] + SetKey(ms[1..], k, v);
    }
  }

  /** Two assignments commute when the first key is already present (no key moves). */
  lemma {:induction false} SetKeyCommute(ms: seq<Member>, x: Member, z: Member)
    requires HasKey(ms, x.key) && x.key != z.key
    ensures SetKey(SetKey(ms, z.key, z.value), x.key, x.value) == SetKey(SetKey(ms, x.key, x.value), z.key, z.value)
  {
    if ms[0].key != x.key && ms[0].key != z.key {
      SetKeyCommute(ms[1..], x, z);
      assert SetKey(ms, z.key, z.value) == [ms[0]] + SetKey(ms[1..], z.key, z.value);
      assert SetKey(ms, x.key, x.value) == [ms[0]] + SetKey(ms[1..], x.key, x.value);
    }
  }

  lemma {:induction false} SetKeyAfterUpdate(d: seq<Member>, e: seq<Member>, x: Member)
    requires HasKey(d, x.key) && !HasKey(e, x.key)
    ensures SetKey(Update(d, e), x.key, x.value) == Update(SetKey(d, x.key, x.value), e)
    decreases |e|
  {
    if e != [] {
      var z := e[0];
      SetKeyHas(d, z.key, z.value, x.key);
      SetKeyAfterUpdate(SetKey(d, z.key, z.value), e[1..], x);
      SetKeyCommute(d, x, z);
    }
  }

  lemma {:induction false} UpdateThenSetKey(d: seq<Member>, e: seq<Member>, x: Member)
    requires UniqueKeys(e)
    ensures Update(d, SetKey(e, x.key, x.value)) == SetKey(Update(d, e), x.key, x.value)
    decreases |e|
  {
    if e != [] {
      var y := e[0];
      var e' := e[1..];
      if y.key == x.key {
        SetKeyHas(d, y.key, y.value, y.key);
        SetKeyAfterUpdate(SetKey(d, y.key, y.value), e', x);
        SetKeyTwice(d, x.key, y.value, x.value);
      } else {
        assert SetKey(e, x.key, x.value) == [y] + SetKey(e', x.key, x.value);
        UpdateThenSetKey(SetKey(d, y.key, y.value), e', x);
      }
    }
  }

  /** Updating with an updated dict is the same as updating twice. */
  lemma {:induction false} UpdateUpdate(d: seq<Member>, e: seq<Member>, l: seq<Member>)
    requires UniqueKeys(e)
    ensures Update(d, Update(e, l)) == Update(Update(d, e), l)
    decreases |l|
  {
    if l != [] {
      var x := l[0];
      SetKeyUnique(e, x.key, x.value);
      UpdateUpdate(d, SetKey(e, x.key, x.value), l[1..]);
      UpdateThenSetKey(d, e, x);
    }
  }

  /**
   * Collapsing a list of assignments into a fresh dict first and then updating with
   * that dict gives the same dict as performing the assignments directly.
   */
  lemma UpdateWithCollapsed(d: seq<Member>, l: seq<Member>)
    ensures Update(d, Update([], l)) == Update(d, l)
  {
    UpdateUpdate(d, [], l);
  }

  /** Every member of `d` after `d[k] = v` is an old member or the new one. */
  lemma {:induction false} SetKeyMembers(ms: seq<Member>, k: string, v: Json, m: Member)
    requires m in SetKey(ms, k, v)
    ensures m in ms || m == Member(k, v)
  {
    if ms != [] && ms[0].key != k {
      assert SetKey(ms, k, v) == [ms[0]] + SetKey(ms[1..], k, v);
      if m != ms[0] {
        SetKeyMembers(ms[1..], k, v, m);
      }
    } else if ms != [] {
      assert SetKey(ms, k, v) == [Member(k, v)] + ms[1..];
    }
  }

  /** Every member of `d` after `d.update(o)` is a member of `d` or of `o`. */
  lemma {:induction false} UpdateMembers(ms: seq<Member>, o: seq<Member>, m: Member)
    requires m in Update(ms, o)
    ensures m in ms || m in o
    decreases |o|
  {
    if o != [] {
      UpdateMembers(SetKey(ms, o[0].key, o[0].value), o[1..], m);
      if m in SetKey(ms, o[0].key, o[0].value) {
        SetKeyMembers(ms, o[0].key, o[0].value, m);
      }
    }
  }

  /** The value a list of assignments leaves under `k`: that of the last member carrying `k`. */
  function LastGet(o: seq<Member>, k: string): Option<Json>
  {
    if o == [] then None
    else if LastGet(o[1..], k).Some? then LastGet(o[1..], k)
    else if o[0].key == k then Some(o[0].value)
    else None
  }

  /** The key order after adding `ks` one at a time: a key seen before keeps its first position. */
  function AppendNew(seen: seq<string>, ks: seq<string>): seq<string>
    decreases |ks|
  {
    if ks == [] then seen
    else AppendNew(if ks[0] in seen then seen else seen + [ks[0]], ks[1..])
  }

  /** Under `d.update(o)` with repeated keys in `o`, the last assignment wins. */
  lemma {:induction false} UpdateGetLast(ms: seq<Member>, o: seq<Member>, k: string)
    ensures Get(Update(ms, o), k) == if HasKey(o, k) then LastGet(o, k) else Get(ms, k)
    decreases |o|
  {
    if o != [] {
      SetKeyGet(ms, o[0].key, o[0].value, k);
      UpdateGetLast(SetKey(ms, o[0].key, o[0].value), o[1..], k);
      LastGetSome(o[1..], k);
    }
  }

  lemma {:induction false} LastGetSome(o: seq<Member>, k: string)
    ensures LastGet(o, k).Some? <==> HasKey(o, k)
  {
    if o != [] {
      LastGetSome(o[1..], k);
    }
  }

  /** Under `d.update(o)`, old keys stay in place and each new key of `o` appears once, at its first assignment. */
  lemma {:induction false} UpdateKeyOrder(ms: seq<Member>, o: seq<Member>)
    ensures Keys(Update(ms, o)) == AppendNew(Keys(ms), Keys(o))
    decreases |o|
  {
    if o != [] {
      var ms' := SetKey(ms, o[0].key, o[0].value);
      SetKeyAt(ms, o[0].key, o[0].value);
      if IndexOf(ms, o[0].key).None? {
        KeysAppend(ms, [Member(o[0].key, o[0].value)]);
        assert Keys(ms') == Keys(ms) + [o[0].key];
      } else {
        KeysPointwise(ms, ms');
      }
      UpdateKeyOrder(ms', o[1..]);
    }
  }

  /** Looking a key up in a non-empty dict: the first member, or the rest. */
  lemma GetCons(ms: seq<Member>, k: string)
    requires ms != []
    ensures Get(ms, k) == if ms[0].key == k then Some(ms[0].value) else Get(ms[1..], k)
  {
  }

  /** Popping a key that the first member does not carry keeps that member in front. */
  lemma {:induction false} PopCons(ms: seq<Member>, k: string)
    requires ms != [] && ms[0].key != k && HasKey(ms, k)
    ensures HasKey(ms[1..], k)
    ensures Pop(ms, k) == [ms[0]] + Pop(ms[1..], k)
  {
    assert HasKey(ms[1..], k) by {
      assert Keys(ms) == [ms[0].key] + Keys(ms[1..]);
    }
    var i := IndexOf(ms[1..], k).value;
    assert IndexOf(ms, k) == Some(i + 1);
    assert ms[..i + 1] + ms[i + 2..] == [ms[0]] + (ms[1..][..i] + ms[1..][i + 1..]) by {
      assert ms[..i + 1] == [ms[0]] + ms[1..][..i];
      assert ms[i + 2..] == ms[1..][i + 1..];
    }
  }

  /** After `d.pop(k)` the key is gone and every other key keeps its value. */
  lemma {:induction false} PopGet(ms: seq<Member>, k: string, k': string)
    requires UniqueKeys(ms) && HasKey(ms, k)
    ensures Get(Pop(ms, k), k') == if k' == k then None else Get(ms, k')
  {
    GetCons(ms, k');
    assert Keys(ms) == [ms[0].key] + Keys(ms[1..]);
    assert UniqueKeys(ms[1..]);
    if ms[0].key == k {
      assert IndexOf(ms, k) == Some(0);
      assert Pop(ms, k) == ms[1..];
      assert !HasKey(ms[1..], k);
    } else {
      PopCons(ms, k);
      PopGet(ms[1..], k, k');
      GetCons(Pop(ms, k), k');
      assert Pop(ms, k)[1..] == Pop(ms[1..], k);
    }
  }
}
