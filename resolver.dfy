/**
 * JSONRefResolver (resolvers.py:8-159): walks a schema and replaces, in place, every
 * dict that holds `$ref` by the target of the reference. Python mutates shared dict
 * objects; the model names each dict by its place — the document it sits in and the
 * path of positions leading to it — and re-reads the live node at that place.
 */
module Resolver {
  import opened Exceptions
  import opened JsonValues
  import opened Strings
  import opened Trees
  import opened References
  import opened Definitions

  /**
   * What the outside world answers: the parsed contents of every path for which
   * `os.path.isfile` holds, and the parsed body of every URL that answers 200.
   */
  datatype Environment = Environment(files: map<string, Json>, urls: map<string, Json>)

  /**
   * A dict or list the walk is at: `doc` 0 is the root schema, `doc` k > 0 the k-th
   * loaded document whose walk is under way (the local `local_schema` or
   * `external_schema` of a loader frame).
   */
  datatype Place = Place(doc: nat, path: seq<nat>)

  /** The node a definition pointer designates, and its path in the root. */
  datatype Located = Located(node: Json, path: seq<nat>)

  class JsonRefResolver {
    /** `self.schema`, changed in place. */
    var schema: Json
    /** `self.resolved_refs`: each definition pointer already looked up, with its node. */
    var resolvedRefs: map<string, Json>
    /** The loaded documents whose walk is under way, innermost last. */
    var pending: seq<Json>
    const env: Environment
    /** Every pointer looked up in `definitions`, in lookup order. */
    ghost var lookups: seq<string>

    /** A cached pointer is never looked up again, the cache holds exactly the pointers looked up, and each splits into three parts. */
    ghost predicate Valid()
      reads this
    {
      && (forall i, j :: 0 <= i < j < |lookups| ==> lookups[i] != lookups[j])
      && (forall k :: k in resolvedRefs <==> k in lookups)
      && (forall k :: k in resolvedRefs ==> |Split(k, '/')| == 3)
    }

    /** `__init__` (resolvers.py:13-21). */
    constructor(schema: Json, env: Environment)
      ensures Valid()
      ensures this.schema == schema && resolvedRefs == map[] && pending == [] && this.env == env
    {
      this.schema := schema;
      resolvedRefs := map[];
      pending := [];
      this.env := env;
      lookups := [];
    }

    function Doc(d: nat): Json
      reads this
    {
      if d == 0 then schema else if d <= |pending| then pending[d - 1] else Null
    }

    function NodeAt(p: Place): Option<Json>
      reads this
    {
      if p.doc <= |pending| then At(Doc(p.doc), p.path) else None
    }

    /** Nothing changed. */
    twostate predicate Same()
      reads this
    {
      schema == old(schema) && pending == old(pending) && resolvedRefs == old(resolvedRefs) && lookups == old(lookups)
    }

    /**
     * Cached entries never change, lookups are only added, and the stack of loaded
     * documents is back to its height.
     */
    twostate predicate Extends()
      reads this
    {
      && (forall k :: k in old(resolvedRefs) ==> k in resolvedRefs && resolvedRefs[k] == old(resolvedRefs[k]))
      && old(lookups) <= lookups
      && |pending| == |old(pending)|
    }

    /** The documents are `root` and the old loaded ones, with the node at `p` replaced by `v`. */
    twostate predicate Replaced(p: Place, root: Json, v: Json)
      reads this
    {
      && |pending| == |old(pending)|
      && (p.doc == 0 ==> schema == Put(root, p.path, v) && pending == old(pending))
      && (p.doc > 0 ==>
            && schema == root
            && p.doc <= |old(pending)|
            && pending == old(pending)[p.doc - 1 := Put(old(pending)[p.doc - 1], p.path, v)])
    }

    /** `obj.clear(); obj.update(v)` on the dict at `p`: it now holds exactly `v`'s members. */
    method Splice(p: Place, v: Json)
      requires p.doc <= |pending|
      modifies this
      ensures Replaced(p, old(schema), v)
      ensures resolvedRefs == old(resolvedRefs) && lookups == old(lookups)
    {
      if p.doc == 0 {
        schema := Put(schema, p.path, v);
      } else {
        pending := pending[p.doc - 1 := Put(pending[p.doc - 1], p.path, v)];
      }
    }

    /**
     * `resolve_refs` (resolvers.py:23-31): walks the root and returns it; a root with no
     * `$ref` anywhere comes back unchanged. `fuel` bounds the nesting of walks, as the
     * interpreter's recursion limit does.
     */
    method ResolveRefs(fuel: nat) returns (r: Result<Json>)
      requires Valid()
      modifies this
      ensures Valid() && Extends()
      ensures r.Ok? ==> r.value == schema
      ensures RefFree(old(schema)) && fuel > Height(old(schema)) ==> r == Ok(old(schema)) && Same()
    {
      var o := ResolveRefsRecursive(Place(0, []), fuel);
      if o.Fail? {
        return Err(o.error);
      }
      return Ok(schema);
    }

    /**
     * `_resolve_refs_recursive` (resolvers.py:33-55) on the node at `p`: a dict with
     * `$ref` is resolved, another dict has its values walked, a list its items, and
     * anything else is left alone.
     */
    method ResolveRefsRecursive(p: Place, fuel: nat) returns (r: Outcome)
      requires Valid() && NodeAt(p).Some?
      modifies this
      ensures Valid() && Extends()
      ensures fuel == 0 ==> r == Fail(RecursionError) && Same()
      ensures RefFree(old(NodeAt(p)).value) && fuel > Height(old(NodeAt(p)).value) ==> r == Pass && Same()
      ensures fuel > 0 && old(NodeAt(p)).value.Obj? && HasKey(old(NodeAt(p)).value.members, "$ref") ==>
        RefNodeDone(p, old(NodeAt(p)).value, fuel - 1, r)
      decreases fuel, 0
    {
      if fuel == 0 {
        return Fail(RecursionError);
      }
      var node := NodeAt(p).value;
      match node
      case Obj(ms) =>
        if HasKey(ms, "$ref") {
          r := ResolveRefNode(p, fuel - 1);
        } else {
          r := ResolveMembers(p, fuel - 1);
        }
      case Arr(xs) =>
        r := ResolveItems(p, fuel - 1);
      case _ =>
        r := Pass;
    }

    /**
     * The `$ref` branch (resolvers.py:41-49) for the dict `node` at `p`: a value that is
     * not a string has no `startswith`; an internal pointer is looked up and spliced;
     * anything else is loaded as a URL or a file. The dict's other keys are never walked.
     */
    twostate predicate RefNodeDone(p: Place, node: Json, fuel: nat, r: Outcome)
      requires node.Obj? && HasKey(node.members, "$ref")
      reads this
    {
      var ref := Get(node.members, "$ref").value;
      && (!ref.Str? ==> r == Fail(AttributeError) && Same())
      && (ref.Str? && IsInternalPointer(ref.s) ==> InternalRefDone(p, ref.s, fuel, r))
      && (ref.Str? && !IsInternalPointer(ref.s) ==> ExternalRefDone(p, ref.s, fuel, r))
    }

    method ResolveRefNode(p: Place, fuel: nat) returns (r: Outcome)
      requires Valid() && NodeAt(p).Some? && NodeAt(p).value.Obj? && HasKey(NodeAt(p).value.members, "$ref")
      modifies this
      ensures Valid() && Extends()
      ensures RefNodeDone(p, old(NodeAt(p)).value, fuel, r)
      decreases fuel, 5
    {
      var ref := Get(NodeAt(p).value.members, "$ref").value;
      if !ref.Str? {
        return Fail(AttributeError);
      }
      if IsInternalPointer(ref.s) {
        r := ResolveInternalRef(p, ref.s, fuel);
      } else {
        r := ResolveRef(p, ref.s, fuel);
      }
    }

    /**
     * `for value in obj.values(): self._resolve_refs_recursive(value)` (resolvers.py:50-52)
     * on the dict at `p`. As Python's dict iterator does, each step re-reads the live
     * dict and raises RuntimeError once its size differs from the size at the start.
     */
    method ResolveMembers(p: Place, fuel: nat) returns (r: Outcome)
      requires Valid() && NodeAt(p).Some? && NodeAt(p).value.Obj?
      modifies this
      ensures Valid() && Extends()
      ensures RefFree(old(NodeAt(p)).value) && fuel + 1 > Height(old(NodeAt(p)).value) ==> r == Pass && Same()
      ensures r == Pass && NodeAt(p).Some? && NodeAt(p).value.Obj? ==>
        |NodeAt(p).value.members| == |old(NodeAt(p)).value.members|
      decreases fuel, 1
    {
      ghost var n0 := NodeAt(p).value;
      ghost var quiet := RefFree(n0) && fuel + 1 > Height(n0);
      var size := |NodeAt(p).value.members|;
      var i := 0;
      while true
        invariant Valid() && Extends()
        invariant i <= size
        invariant quiet ==> Same() && NodeAt(p) == Some(n0)
        decreases size - i
      {
        var cur := NodeAt(p);
        if !(cur.Some? && cur.value.Obj?) {
          return Pass;
        }
        if |cur.value.members| != size {
          return Fail(RuntimeError);
        }
        if i == size {
          return Pass;
        }
        AtAppend(Doc(p.doc), p.path, i);
        if quiet {
          ChildBelow(n0, i);
        }
        r := ResolveRefsRecursive(Place(p.doc, p.path + [i]), fuel);
        if r.Fail? {
          return;
        }
        i := i + 1;
      }
    }

    /**
     * `for item in obj: self._resolve_refs_recursive(item)` (resolvers.py:53-55) on the
     * list at `p`, re-reading the live list at each step as Python's list iterator does.
     */
    method ResolveItems(p: Place, fuel: nat) returns (r: Outcome)
      requires Valid() && NodeAt(p).Some? && NodeAt(p).value.Arr?
      modifies this
      ensures Valid() && Extends()
      ensures RefFree(old(NodeAt(p)).value) && fuel + 1 > Height(old(NodeAt(p)).value) ==> r == Pass && Same()
      decreases fuel, 1
    {
      ghost var n0 := NodeAt(p).value;
      ghost var quiet := RefFree(n0) && fuel + 1 > Height(n0);
      var size := |NodeAt(p).value.items|;
      var i := 0;
      while i < size
        invariant Valid() && Extends()
        invariant i <= size
        invariant quiet ==> Same() && NodeAt(p) == Some(n0)
      {
        var cur := NodeAt(p);
        if !(cur.Some? && cur.value.Arr?) || i >= |cur.value.items| {
          return Pass;
        }
        AtAppend(Doc(p.doc), p.path, i);
        if quiet {
          ChildBelow(n0, i);
        }
        r := ResolveRefsRecursive(Place(p.doc, p.path + [i]), fuel);
        if r.Fail? {
          return;
        }
        i := i + 1;
      }
      return Pass;
    }

    // -------------------------------------------------------------------------
    // Internal pointers
    // -------------------------------------------------------------------------

    /**
     * The internal-pointer branch (resolvers.py:43-47) for the dict at `p`: a cached
     * dict is spliced in without another lookup; a pointer that does not split into
     * three parts fails the assertion; a failing lookup raises; a null definition leaves
     * the dict untouched; a definition with no `$ref` inside is cached and spliced in.
     */
    twostate predicate InternalRefDone(p: Place, ptr: string, fuel: nat, r: Outcome)
      reads this
    {
      && (ptr in old(resolvedRefs) ==>
            var v := old(resolvedRefs)[ptr];
            && (v.Obj? ==>
                  r == Pass && Replaced(p, old(schema), v) && resolvedRefs == old(resolvedRefs) && lookups == old(lookups))
            && (!v.Obj? ==> r == Fail(TypeError)))
      && (ptr !in old(resolvedRefs) ==>
            var parts := Split(ptr, '/');
            && (|parts| != 3 ==> r == Fail(AssertionError) && Same())
            && (|parts| == 3 ==>
                  var target := DefinitionTarget(old(schema), parts[1..]);
                  && (target.Err? ==> r == Fail(target.error) && Same())
                  && (target == Ok(Null) ==> r == Pass && Same())
                  && (target.Ok? && target.value != Null ==> ptr in resolvedRefs)
                  && (target.Ok? && target.value.Obj? && RefFree(target.value) && fuel > Height(target.value) ==>
                        && r == Pass && Replaced(p, old(schema), target.value)
                        && resolvedRefs == old(resolvedRefs)[ptr := target.value]
                        && lookups == old(lookups) + [ptr])))
    }

    method ResolveInternalRef(p: Place, ptr: string, fuel: nat) returns (r: Outcome)
      requires Valid() && p.doc <= |pending|
      modifies this
      ensures Valid() && Extends()
      ensures InternalRefDone(p, ptr, fuel, r)
      ensures r == Pass && ptr in resolvedRefs && NodeAt(p).Some? ==> NodeAt(p) == Some(resolvedRefs[ptr])
      ensures ptr !in old(resolvedRefs) && |Split(ptr, '/')| == 3 ==>
        var t := DefinitionTarget(old(schema), Split(ptr, '/')[1..]);
        t.Ok? && t.value != Null && !t.value.Obj? && RefFree(t.value) && fuel > Height(t.value) ==> r == Fail(TypeError)
      decreases fuel, 4
    {
      var resolved := ResolveDefinition(ptr, fuel);
      if resolved.Err? {
        return Fail(resolved.error);
      }
      if resolved.value.None? {
        return Pass;
      }
      var v := resolved.value.value;
      if !v.Obj? {
        Splice(p, Obj([]));
        return Fail(TypeError);
      }
      AtPut(Doc(p.doc), p.path, v);
      Splice(p, v);
      return Pass;
    }

    /**
     * `_resolve_definition` (resolvers.py:57-85): a cached pointer returns its entry and
     * nothing else happens; otherwise the pointer is split and looked up, and a non-null
     * node is cached before it is walked, so the pointer is never looked up again.
     */
    twostate predicate DefinitionDone(ptr: string, fuel: nat, new r: Result<Option<Json>>)
      reads this
    {
      && (ptr in old(resolvedRefs) ==> r == Ok(Some(old(resolvedRefs)[ptr])) && Same())
      && (ptr !in old(resolvedRefs) ==>
            var parts := Split(ptr, '/');
            && (|parts| != 3 ==> r == Err(AssertionError) && Same())
            && (|parts| == 3 ==>
                  var target := DefinitionTarget(old(schema), parts[1..]);
                  && (target.Err? ==> r == Err(target.error) && Same())
                  && (target == Ok(Null) ==> r == Ok(None) && Same())
                  && (target.Ok? && target.value != Null ==>
                        ptr in resolvedRefs && |lookups| > |old(lookups)| && lookups[|old(lookups)|] == ptr)
                  && (target.Ok? && target.value != Null && RefFree(target.value) && fuel > Height(target.value) ==>
                        && r == Ok(Some(target.value))
                        && schema == old(schema) && pending == old(pending)
                        && resolvedRefs == old(resolvedRefs)[ptr := target.value]
                        && lookups == old(lookups) + [ptr])))
    }

    method ResolveDefinition(ptr: string, fuel: nat) returns (r: Result<Option<Json>>)
      requires Valid()
      modifies this
      ensures Valid() && Extends()
      ensures DefinitionDone(ptr, fuel, r)
      ensures r.Ok? && r.value.Some? ==> ptr in resolvedRefs && resolvedRefs[ptr] == r.value.value
      ensures r.Ok? && r.value.None? ==> ptr !in resolvedRefs
      decreases fuel, 3
    {
      if ptr in resolvedRefs {
        return Ok(Some(resolvedRefs[ptr]));
      }
      var parts := Split(ptr, '/');
      if |parts| != 3 {
        return Err(AssertionError);
      }
      var located := LocateDefinition(parts[1..]);
      if located.Err? {
        return Err(located.error);
      }
      if located.value.node == Null {
        return Ok(None);
      }
      var walked := CacheAndWalk(ptr, located.value, fuel);
      if walked.Err? {
        return Err(walked.error);
      }
      return Ok(Some(walked.value));
    }

    /**
     * The end of `_resolve_definition` (resolvers.py:81-85): the node is cached, then
     * walked, and the walked node is returned. The cache entry is refreshed with the
     * walked node, which in Python is the very object cached.
     */
    method CacheAndWalk(ptr: string, located: Located, fuel: nat) returns (r: Result<Json>)
      requires Valid() && ptr !in resolvedRefs && |Split(ptr, '/')| == 3
      requires At(schema, located.path) == Some(located.node)
      modifies this
      ensures Valid() && Extends()
      ensures ptr in resolvedRefs && |lookups| > |old(lookups)| && lookups[|old(lookups)|] == ptr
      ensures RefFree(located.node) && fuel > Height(located.node) ==>
        && r == Ok(located.node)
        && schema == old(schema) && pending == old(pending)
        && resolvedRefs == old(resolvedRefs)[ptr := located.node]
        && lookups == old(lookups) + [ptr]
      ensures r.Ok? ==> resolvedRefs[ptr] == r.value
      decreases fuel, 2
    {
      Cache(ptr, located.node);
      var place := Place(0, located.path);
      var o := Walk(place, located.node, fuel);
      if o.Fail? {
        return Err(o.error);
      }
      var current := located.node;
      var walked := NodeAt(place);
      if walked.Some? {
        current := walked.value;
      }
      Refresh(ptr, current);
      return Ok(current);
    }

    /** The cache entry of `ptr` becomes the walked node, the object Python cached. */
    method Refresh(ptr: string, node: Json)
      requires Valid() && ptr in resolvedRefs
      modifies this
      ensures Valid()
      ensures resolvedRefs == old(resolvedRefs)[ptr := node] && lookups == old(lookups)
      ensures old(resolvedRefs)[ptr] == node ==> resolvedRefs == old(resolvedRefs)
      ensures schema == old(schema) && pending == old(pending)
    {
      resolvedRefs := resolvedRefs[ptr := node];
    }

    /** `self.resolved_refs[definition] = current` (resolvers.py:82): the pointer is cached and counts as looked up. */
    method Cache(ptr: string, node: Json)
      requires Valid() && ptr !in resolvedRefs && |Split(ptr, '/')| == 3
      modifies this
      ensures Valid()
      ensures resolvedRefs == old(resolvedRefs)[ptr := node] && lookups == old(lookups) + [ptr]
      ensures schema == old(schema) && pending == old(pending)
    {
      resolvedRefs := resolvedRefs[ptr := node];
      lookups := lookups + [ptr];
    }

    /**
     * A walk of the node at `p`, which is `node`, seen from outside: the invariants are
     * kept, and a node without `$ref` is left as it is.
     */
    method Walk(p: Place, ghost node: Json, fuel: nat) returns (r: Outcome)
      requires Valid() && NodeAt(p) == Some(node)
      modifies this
      ensures Valid() && Extends()
      ensures fuel == 0 ==> r == Fail(RecursionError) && Same()
      ensures RefFree(node) && fuel > Height(node) ==> r == Pass && Same()
      ensures fuel > 0 && node.Obj? && HasKey(node.members, "$ref") ==> RefNodeDone(p, node, fuel - 1, r)
      decreases fuel, 1
    {
      r := ResolveRefsRecursive(p, fuel);
    }

    /** The lookup loop of `_resolve_definition` (resolvers.py:72-79), which also tracks where `current` sits. */
    method LocateDefinition(parts: seq<string>) returns (r: Result<Located>)
      ensures r.Ok? <==> DefinitionTarget(schema, parts).Ok?
      ensures r.Ok? ==> r.value.node == DefinitionTarget(schema, parts).value && At(schema, r.value.path) == Some(r.value.node)
      ensures r.Err? ==> r.error == DefinitionTarget(schema, parts).error
    {
      var current := schema;
      var path: seq<nat> := [];
      var i := 0;
      while i < |parts|
        invariant 0 <= i <= |parts|
        invariant At(schema, path) == Some(current)
        invariant DefinitionTarget(current, parts[i..]) == DefinitionTarget(schema, parts)
      {
        assert parts[i..][0] == parts[i] && parts[i..][1..] == parts[i + 1..];
        if parts[i] == "definitions" {
          i := i + 1;
          continue;
        }
        if !current.Obj? {
          return Err(TypeError);
        }
        var d := IndexOf(current.members, "definitions");
        if d.None? {
          return Err(KeyError("definitions"));
        }
        var defs := current.members[d.value].value;
        if !defs.Obj? {
          return Err(TypeError);
        }
        var n := IndexOf(defs.members, parts[i]);
        if n.None? {
          return Err(KeyError(parts[i]));
        }
        AtAppend(schema, path, d.value);
        AtAppend(schema, path + [d.value], n.value);
        assert path + [d.value] + [n.value] == path + [d.value, n.value];
        current := defs.members[n.value].value;
        path := path + [d.value, n.value];
        if current == Null {
          return Ok(Located(Null, path));
        }
        i := i + 1;
      }
      return Ok(Located(current, path));
    }

    // -------------------------------------------------------------------------
    // Files and URLs
    // -------------------------------------------------------------------------

    /**
     * The other references (resolvers.py:98-102 and what follows): the URL loader when
     * the reference has a scheme and a network location, the file loader otherwise; a
     * file that does not exist or a URL that does not answer 200 raises and changes
     * nothing.
     */
    twostate predicate ExternalRefDone(p: Place, ref: string, fuel: nat, r: Outcome)
      reads this
    {
      && (HasSchemeAndNetloc(ref) && ref !in env.urls ==> r == Fail(UrlFetchFailed(ref)) && Same())
      && (HasSchemeAndNetloc(ref) && ref in env.urls ==> DocumentDone(p, env.urls[ref], fuel, r))
      && (!HasSchemeAndNetloc(ref) && ref !in env.files ==> r == Fail(SchemaFileNotFound(ref)) && Same())
      && (!HasSchemeAndNetloc(ref) && ref in env.files ==> DocumentDone(p, env.files[ref], fuel, r))
    }

    method ResolveRef(p: Place, ref: string, fuel: nat) returns (r: Outcome)
      requires Valid() && p.doc <= |pending|
      modifies this
      ensures Valid() && Extends()
      ensures ExternalRefDone(p, ref, fuel, r)
      decreases fuel, 4
    {
      if HasSchemeAndNetloc(ref) {
        r := ResolveExternalUrlRef(p, ref, fuel);
      } else {
        r := ResolveLocalFileRef(p, ref, fuel);
      }
    }

    /** `_resolve_local_file_ref` (resolvers.py:104-131), with the file read replaced by `env.files`. */
    method ResolveLocalFileRef(p: Place, ref: string, fuel: nat) returns (r: Outcome)
      requires Valid() && p.doc <= |pending|
      modifies this
      ensures Valid() && Extends()
      ensures ref !in env.files ==> r == Fail(SchemaFileNotFound(ref)) && Same()
      ensures ref in env.files ==> DocumentDone(p, env.files[ref], fuel, r)
      decreases fuel, 3
    {
      if ref !in env.files {
        return Fail(SchemaFileNotFound(ref));
      }
      r := ResolveDocument(p, env.files[ref], fuel);
    }

    /** `_resolve_external_url_ref` (resolvers.py:133-159), with the request replaced by `env.urls`. */
    method ResolveExternalUrlRef(p: Place, ref: string, fuel: nat) returns (r: Outcome)
      requires Valid() && p.doc <= |pending|
      modifies this
      ensures Valid() && Extends()
      ensures ref !in env.urls ==> r == Fail(UrlFetchFailed(ref)) && Same()
      ensures ref in env.urls ==> DocumentDone(p, env.urls[ref], fuel, r)
      decreases fuel, 3
    {
      if ref !in env.urls {
        return Fail(UrlFetchFailed(ref));
      }
      r := ResolveDocument(p, env.urls[ref], fuel);
    }

    /**
     * What both loaders do with a loaded document `doc` (resolvers.py:119-129, 148-157):
     * a failing merge raises before anything changes; a document with no `$ref` left
     * after its `definitions` are stripped is spliced into the dict at `p`, over the
     * root with the definitions merged in, and the cache is untouched.
     */
    twostate predicate DocumentDone(p: Place, doc: Json, fuel: nat, r: Outcome)
      reads this
    {
      var l := LoadDefinitions(old(schema), doc);
      && (l.Err? ==> r == Fail(l.error) && Same())
      && (l.Ok? && RefFree(l.value.doc) && fuel > Height(l.value.doc) ==>
            && r == Pass && Replaced(p, l.value.root, l.value.doc)
            && resolvedRefs == old(resolvedRefs) && lookups == old(lookups))
    }

    method ResolveDocument(p: Place, doc: Json, fuel: nat) returns (r: Outcome)
      requires Valid() && p.doc <= |pending|
      modifies this
      ensures Valid() && Extends()
      ensures DocumentDone(p, doc, fuel, r)
      decreases fuel, 2
    {
      var loaded := LoadDefinitions(schema, doc);
      if loaded.Err? {
        return Fail(loaded.error);
      }
      schema := loaded.value.root;
      pending := pending + [loaded.value.doc];
      var o := ResolveRefsRecursive(Place(|pending|, []), fuel);
      var walked := pending[|pending| - 1];
      pending := pending[..|pending| - 1];
      if o.Fail? {
        return o;
      }
      if !walked.Obj? {
        Splice(p, Obj([]));
        return Fail(TypeError);
      }
      Splice(p, walked);
      return Pass;
    }
  }
}
