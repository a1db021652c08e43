/**
 * The value-level parts of the resolver: where a `#/definitions/<name>` pointer leads
 * (resolvers.py:70-79), and how a loaded document's `definitions` are merged into the
 * root and stripped from the document (resolvers.py:119-124, 148-153).
 */
module Definitions {
  import opened Exceptions
  import opened JsonValues
  import opened Strings
  import opened References

  /**
   * The node the lookup loop of _resolve_definition ends on, starting from `current`
   * and stepping through `parts`: a `definitions` part is skipped; any other part
   * moves to `current["definitions"][part]`, raising as those subscripts do, and a
   * null there stops the loop.
   */
  function DefinitionTarget(current: Json, parts: seq<string>): (r: Result<Json>)
    ensures (forall i :: 0 <= i < |parts| ==> parts[i] == "definitions") ==> r == Ok(current)
    decreases |parts|
  {
    if parts == [] then Ok(current)
    else if parts[0] == "definitions" then DefinitionTarget(current, parts[1..])
    else match Subscript(current, "definitions")
      case Err(e) => Err(e)
      case Ok(defs) =>
        match Subscript(defs, parts[0])
        case Err(e) => Err(e)
        case Ok(next) => if next == Null then Ok(Null) else DefinitionTarget(next, parts[1..])
  }

  /**
   * A pointer `#/definitions/<name>` leads to the root's `definitions[name]` (KeyError
   * when the root has no `definitions` or no such name); a name that is literally
   * `definitions` is skipped like the middle part and leads to the root itself.
   */
  lemma DefinitionOfPointer(root: Json, name: string)
    requires '/' !in name
    ensures var target := DefinitionTarget(root, Split(DefinitionsPrefix + name, '/')[1..]);
      && (name == "definitions" ==> target == Ok(root))
      && (name != "definitions" && Subscript(root, "definitions").Err? ==>
            target == Subscript(root, "definitions"))
      && (name != "definitions" && Subscript(root, "definitions").Ok? ==>
            target == Subscript(Subscript(root, "definitions").value, name))
  {
    InternalPointerParts(name);
    var parts := Split(DefinitionsPrefix + name, '/')[1..];
    assert parts == ["definitions", name];
    assert parts[1..] == [name];
    assert [name][1..] == [];
    assert DefinitionTarget(root, parts) == DefinitionTarget(root, [name]);
    if name != "definitions" && Subscript(root, "definitions").Ok? {
      var defs := Subscript(root, "definitions").value;
      if Subscript(defs, name).Ok? {
        var next := Subscript(defs, name).value;
        assert DefinitionTarget(next, []) == Ok(next);
      }
    }
  }

  /**
   * The merge of a loaded document's `definitions` value into the root: with a
   * `definitions` dict already there, `root["definitions"].update(loaded)`; without
   * one, `root["definitions"] = loaded`.
   */
  function MergeDefinitions(root: Json, loaded: Json): (r: Result<Json>)
    ensures r.Ok? ==> root.Obj? && r.value.Obj? && HasKey(r.value.members, "definitions")
    ensures r.Ok? ==>
      |r.value.members| == if HasKey(root.members, "definitions") then |root.members| else |root.members| + 1
  {
    if !root.Obj? then Err(TypeError)
    else match Get(root.members, "definitions")
      case None => Ok(Obj(SetKey(root.members, "definitions", loaded)))
      case Some(defs) =>
        if !defs.Obj? then Err(AttributeError)
        else if !loaded.Obj? then Err(TypeError)
        else Ok(Obj(SetKey(root.members, "definitions", Obj(Update(defs.members, loaded.members)))))
  }

  /**
   * The merge fails exactly when the root is not a dict (TypeError), its `definitions`
   * is not a dict (AttributeError: no `update`), or the loaded value is not a dict
   * while there is something to update (TypeError); otherwise only the root's
   * `definitions` entry changes, and every other key keeps its value and position.
   */
  lemma MergeDefinitionsRoot(root: Json, loaded: Json)
    ensures var r := MergeDefinitions(root, loaded);
      && (!root.Obj? ==> r == Err(TypeError))
      && (root.Obj? && HasKey(root.members, "definitions") ==>
            var defs := Get(root.members, "definitions").value;
            && (!defs.Obj? ==> r == Err(AttributeError))
            && (defs.Obj? && !loaded.Obj? ==> r == Err(TypeError)))
      && (r.Ok? ==>
            && root.Obj? && r.value.Obj?
            && HasKey(r.value.members, "definitions")
            && (HasKey(root.members, "definitions") ==> Keys(r.value.members) == Keys(root.members))
            && (!HasKey(root.members, "definitions") ==> Keys(r.value.members) == Keys(root.members) + ["definitions"])
            && forall k :: k != "definitions" ==> Get(r.value.members, k) == Get(root.members, k))
  {
    var r := MergeDefinitions(root, loaded);
    if r.Ok? {
      var d := if HasKey(root.members, "definitions")
        then Obj(Update(Get(root.members, "definitions").value.members, loaded.members))
        else loaded;
      SetKeyAt(root.members, "definitions", d);
      assert r.value.members == SetKey(root.members, "definitions", d);
      SetKeyHas(root.members, "definitions", d, "definitions");
      if HasKey(root.members, "definitions") {
        KeysPointwise(root.members, r.value.members);
      } else {
        KeysAppend(root.members, [Member("definitions", d)]);
      }
      forall k | k != "definitions"
        ensures Get(r.value.members, k) == Get(root.members, k)
      {
        SetKeyGet(root.members, "definitions", d, k);
      }
    }
  }

  /**
   * The merged `definitions`: a root without one takes the loaded value as is; otherwise
   * every loaded name overwrites or joins the existing entries, existing names keep
   * their positions and new ones follow in the loaded order.
   */
  lemma MergeDefinitionsEntries(root: Json, loaded: Json)
    requires MergeDefinitions(root, loaded).Ok?
    ensures HasKey(MergeDefinitions(root, loaded).value.members, "definitions")
    ensures var merged := Get(MergeDefinitions(root, loaded).value.members, "definitions").value;
      && (!HasKey(root.members, "definitions") ==> merged == loaded)
      && (HasKey(root.members, "definitions") ==>
            var defs := Get(root.members, "definitions").value;
            && merged.Obj? && loaded.Obj?
            && Keys(merged.members) == AppendNew(Keys(defs.members), Keys(loaded.members))
            && forall k :: Get(merged.members, k) ==
                 if HasKey(loaded.members, k) then LastGet(loaded.members, k) else Get(defs.members, k))
  {
    MergeDefinitionsRoot(root, loaded);
    if HasKey(root.members, "definitions") {
      var defs := Get(root.members, "definitions").value;
      var u := Obj(Update(defs.members, loaded.members));
      SetKeyGet(root.members, "definitions", u, "definitions");
      UpdateKeyOrder(defs.members, loaded.members);
      forall k
        ensures Get(u.members, k) == if HasKey(loaded.members, k) then LastGet(loaded.members, k) else Get(defs.members, k)
      {
        UpdateGetLast(defs.members, loaded.members, k);
      }
    } else {
      SetKeyGet(root.members, "definitions", loaded, "definitions");
    }
  }

  /** The root after a loaded document's definitions are merged in, and the document without them. */
  datatype Loaded = Loaded(root: Json, doc: Json)

  /**
   * The steps before a loaded document is walked: when it holds `definitions`, they are
   * merged into the root and popped from the document. A document that is not a dict
   * is refused.
   */
  function LoadDefinitions(root: Json, doc: Json): (r: Result<Loaded>)
    ensures r.Ok? ==> doc.Obj? && r.value.doc.Obj?
    ensures r.Ok? ==>
      |r.value.doc.members| == if HasKey(doc.members, "definitions") then |doc.members| - 1 else |doc.members|
  {
    if !doc.Obj? then Err(TypeError)
    else match Get(doc.members, "definitions")
      case None => Ok(Loaded(root, doc))
      case Some(defs) =>
        match MergeDefinitions(root, defs)
        case Err(e) => Err(e)
        case Ok(merged) => Ok(Loaded(merged, Obj(Pop(doc.members, "definitions"))))
  }

  /**
   * A document without `definitions` leaves the root alone; one with them has them
   * merged into the root, and afterwards the document holds every other key with its
   * value and no `definitions`.
   */
  lemma LoadDefinitionsSpec(root: Json, doc: Json)
    requires doc.Obj? && UniqueKeys(doc.members)
    ensures var l := LoadDefinitions(root, doc);
      && (!HasKey(doc.members, "definitions") ==> l == Ok(Loaded(root, doc)))
      && (HasKey(doc.members, "definitions") ==>
            var defs := Get(doc.members, "definitions").value;
            && (l.Err? <==> MergeDefinitions(root, defs).Err?)
            && (l.Err? ==> l.error == MergeDefinitions(root, defs).error)
            && (l.Ok? ==> l.value.root == MergeDefinitions(root, defs).value))
      && (l.Ok? ==>
            && l.value.doc.Obj?
            && !HasKey(l.value.doc.members, "definitions")
            && forall k :: k != "definitions" ==> Get(l.value.doc.members, k) == Get(doc.members, k))
  {
    var l := LoadDefinitions(root, doc);
    if l.Ok? && HasKey(doc.members, "definitions") {
      PopGet(doc.members, "definitions", "definitions");
      forall k | k != "definitions"
        ensures Get(l.value.doc.members, k) == Get(doc.members, k)
      {
        PopGet(doc.members, "definitions", k);
      }
    }
  }
}
