# JSON-Schema reference resolution and Glue column projection, in Dafny

This project models the two stages of a small pipeline over JSON-Schema trees:

1. **`JSONRefResolver`** (`resolvers.py`). It walks a schema and replaces, in place, every dict that holds `$ref` with the target of the reference. There are three kinds of target:
   - a `#/definitions/<name>` pointer into the root, memoised in `resolved_refs` once found (a pointer that leads to `null` is not cached and is looked up again at each occurrence);
   - an absolute URL;
   - a local file.

   A loaded document first has its `definitions` merged into the root's. They are then stripped from the document, the document is walked, and finally it is spliced in.
2. **The Glue column projector** (`json_schema_to_glue_columns.py`). Its parts are:
   - the catalog type of a schema node (`STRING`, `BIGINT`, `DOUBLE`, `BOOLEAN`, `STRUCT<k:T,...>`, `ARRAY<T>` and `ARRAY<ARRAY<..>>[]`);
   - the optional flattening of nested objects into delimiter-joined names;
   - the list of `{Name, Type}` columns.

Modules, one per file:

- `exceptions.dfy`: the Python exceptions the code raises, plus `Result`, `Outcome` and `Option`.
- `json.dfy`: JSON values.
  - A dict is an insertion-ordered member list.
  - `d[k]`, `d[k] = v`, `d.update(o)`, `d.pop(k)`, `.items()` and `len` are functions over it.
  - It also holds the laws of `dict.update`: the last assignment wins, and a key keeps its first position.
- `strings.dfy`: `str.split`, `str.join` and `str.startswith`.
- `references.dfy`: how a `$ref` string is classified, including the part of `urllib.parse.urlsplit` that finds a scheme and a network location.
- `definitions.dfy`: where a definition pointer leads, and the merge/strip of a loaded document's `definitions`.
- `trees.dfy`: paths of positions into a JSON tree (`At`, `Put`), `$ref`-free trees and tree height.
- `resolver.dfy`: the class `JsonRefResolver`.
  - It has the fields `schema`, `resolvedRefs`, `pending` (documents loaded and being walked) and a read-only `env` (the file system and the network).
  - Every operation is a method that changes these fields.
  - A dict is named by its *place*: the document it sits in and the positions leading to it. It is re-read live at each step, as Python's iterators do.
- `glue.dfy`: the type mapper, the flattener (a loop method proved against a fold function), the column builder, and their properties.

The walk is bounded by a `fuel` argument that stands for the interpreter's recursion limit. Running out raises `RecursionError`.

## Model

| member | source | states |
|---|---|---|
| JsonValues.Subscript | json_schema_to_glue_columns.py:43-50 | `j[k]` succeeds exactly on a dict holding `k` and returns the stored value. A dict without `k` raises KeyError(k); any other value raises TypeError. |
| JsonValues.ItemsOf | json_schema_to_glue_columns.py:17-17 | `.items()` exists only on a dict and yields its members in order; otherwise AttributeError. |
| JsonValues.Len | json_schema_to_glue_columns.py:64-64 | `len` is defined for dicts, lists and strings; otherwise TypeError. |
| JsonValues.SetKey | json_schema_to_glue_columns.py:25-25 | `d[k] = v`: the old keys keep their order, k is present afterwards, and the dict grows by one exactly when k is new. |
| JsonValues.Update | json_schema_to_glue_columns.py:21-21 | `d.update(o)`: the old keys keep their order as a prefix, and the dict grows by at most the size of o. |
| JsonValues.Pop | resolvers.py:124-124 | `d.pop(k)` on a key the dict holds (the only call is guarded by a membership test): exactly the member at k's position is removed, and the dict shrinks by one. |
| JsonValues.SetKeyAt | json_schema_to_glue_columns.py:25-25 | `d[k] = v` replaces the member at k's position, or appends when k is new. |
| JsonValues.SetKeyGet | json_schema_to_glue_columns.py:25-25 | After `d[k] = v`, k maps to v and every other key keeps its value. |
| JsonValues.UpdateGetLast | json_schema_to_glue_columns.py:21-21 | After `d.update(o)`, a key of o holds the value of its last assignment in o; other keys keep d's value. |
| JsonValues.UpdateKeyOrder | json_schema_to_glue_columns.py:21-21 | After `d.update(o)`, d's keys keep their positions and each new key appears once, at its first assignment. |
| JsonValues.UpdateHas | json_schema_to_glue_columns.py:21-21 | The keys after `d.update(o)` are exactly those of d and of o. |
| JsonValues.UpdateUnique | json_schema_to_glue_columns.py:21-21 | `update` never produces a repeated key. |
| JsonValues.UpdateAppend | json_schema_to_glue_columns.py:21-21 | Updating with `a + b` equals updating with a, then with b. |
| JsonValues.UpdateUpdate | json_schema_to_glue_columns.py:20-21 | Merging a dict that was itself built by updates equals applying those updates directly. |
| JsonValues.UpdateMembers | json_schema_to_glue_columns.py:21-21 | Every member after `d.update(o)` comes from d or from o. |
| JsonValues.PopGet | resolvers.py:124-124 | After `d.pop(k)`, k is gone and every other key keeps its value. |
| Strings.Split | resolvers.py:70-70 | `s.split(c)` gives at least one piece. |
| Strings.Join | json_schema_to_glue_columns.py:60-60 | `sep.join(xs)` starts with the first piece, followed by the separator when there are two or more. |
| Strings.JoinSplit | resolvers.py:70-70 | Joining the pieces of `s.split(c)` with c gives back s. |
| Strings.SplitPieces | resolvers.py:70-71 | No piece holds the separator, and there is one piece more than there are separators. |
| References.SchemeLength | resolvers.py:98-99 | urlsplit's scheme is the text before the first `:`. It must be non-empty, start with an ASCII letter and hold only scheme characters. |
| References.KindOf | resolvers.py:98-102 | A reference sent to the URL loader is scheme, `://`, then a character other than `/`, `?` or `#`. |
| References.UrlHasShape | resolvers.py:98-99 | A reference that passes the URL test is scheme, `://`, then a character other than `/`, `?` or `#`. |
| References.ShapeIsUrl | resolvers.py:98-99 | Conversely, every reference of that shape passes the URL test. |
| References.InternalPointerIsNotUrl | resolvers.py:43-49 | An internal pointer never passes the URL test, so the three branches are exclusive. |
| References.NoColonIsLocalFile | resolvers.py:98-102 | A non-internal reference without `:` goes to the file loader. |
| References.FileUrlIsLocalFile | resolvers.py:98-102 | Every `file:///...` reference has no network location and goes to the file loader. |
| References.HttpUrlIsUrl | resolvers.py:98-102 | Every `http://` reference whose host part is non-empty goes to the URL loader. |
| References.InternalPointerParts | resolvers.py:70-71 | `#/definitions/<name>` splits into exactly three parts (`#`, `definitions`, name) iff the name holds no `/`. |
| Definitions.DefinitionTarget | resolvers.py:72-79 | The lookup starts at the root: parts that are all `definitions` are skipped and leave it where it is. |
| Definitions.DefinitionOfPointer | resolvers.py:70-79 | A three-part pointer leads to the root's `definitions[name]`, raising KeyError or TypeError as the subscripts do. The name `definitions` leads to the root itself. |
| Definitions.MergeDefinitions | resolvers.py:119-123 | A merge that succeeds leaves a dict root holding `definitions`, with one key more exactly when it had none. |
| Definitions.MergeDefinitionsRoot | resolvers.py:119-123 | The merge raises TypeError when the root is not a dict and AttributeError when its `definitions` is not a dict. Otherwise only the `definitions` entry changes, and a missing one is appended. |
| Definitions.MergeDefinitionsEntries | resolvers.py:119-123 | A root without `definitions` takes the loaded value as is. Otherwise loaded names overwrite same-named entries and new names follow, in loaded order. |
| Definitions.LoadDefinitions | resolvers.py:119-124 | On success the document is a dict, and it loses exactly one member when it holds `definitions`. |
| Definitions.LoadDefinitionsSpec | resolvers.py:119-124 | A document's `definitions` are merged into the root, then popped. The document keeps every other key and value. |
| Trees.AtPut | resolvers.py:46-47 | A splice lands at its place; a place that leads nowhere changes nothing. |
| Trees.AtPutElsewhere | resolvers.py:46-47 | A splice leaves unchanged every place that is neither above nor below it. |
| Resolver.JsonRefResolver.constructor | resolvers.py:13-21 | A new resolver holds the schema and an empty cache. |
| Resolver.JsonRefResolver.ResolveRefs | resolvers.py:23-31 | Returns the resolver's own schema. A schema with no `$ref` is returned unchanged, with nothing else changed. |
| Resolver.JsonRefResolver.ResolveRefsRecursive | resolvers.py:33-55 | Fuel 0 raises RecursionError. A `$ref`-free node changes nothing. A `$ref` dict behaves as ResolveRefNode. Cached entries never change, and a cached pointer is never looked up again. |
| Resolver.JsonRefResolver.ResolveRefNode | resolvers.py:41-49 | A non-string `$ref` raises AttributeError. An internal pointer is resolved as ResolveInternalRef; any other reference as ResolveRef. |
| Resolver.JsonRefResolver.ResolveMembers | resolvers.py:50-52 | A `$ref`-free dict, within the fuel, passes and changes nothing. After a walk that passes, a dict still at the place has the size it had at the start: the walk raises RuntimeError on a size change rather than pass. |
| Resolver.JsonRefResolver.ResolveItems | resolvers.py:53-55 | A `$ref`-free list, within the fuel, passes and changes nothing; the resolver's invariants are kept. |
| Resolver.JsonRefResolver.ResolveInternalRef | resolvers.py:43-47 | Cache hit: the dict becomes the cached node, with no lookup. Otherwise: a non-three-part pointer raises AssertionError, a failed lookup raises, and a null definition leaves the dict untouched. A `$ref`-free dict definition is cached and replaces the dict's contents; a `$ref`-free definition that is not a dict raises TypeError. After any pass, a dict still at the place equals the pointer's cache entry. |
| Resolver.JsonRefResolver.ResolveDefinition | resolvers.py:57-85 | A cached pointer returns its entry and nothing changes. Otherwise it is split, asserted to have three parts and looked up. A non-null node is cached before its walk, and this is recorded as the pointer's one lookup. A returned node is the pointer's cache entry; a null definition is not cached. |
| Resolver.JsonRefResolver.Cache | resolvers.py:82-82 | The pointer enters the cache with its node and is recorded as looked up. The invariant (a cached pointer is never looked up again) is kept. |
| Resolver.JsonRefResolver.CacheAndWalk | resolvers.py:81-85 | The pointer is cached and recorded as looked up. A returned node is the pointer's cache entry. A `$ref`-free node is returned unchanged. |
| Resolver.JsonRefResolver.Refresh | resolvers.py:82-82 | Only the pointer's cache entry changes; refreshing with the cached node changes nothing. |
| Resolver.JsonRefResolver.Walk | resolvers.py:83-83 | The walk of the cached node keeps the invariants. Fuel 0 raises RecursionError. A `$ref`-free node is left as it is. A definition that is itself a `$ref` dict is resolved as ResolveRefNode, so chained definitions follow the same rules. |
| Resolver.JsonRefResolver.LocateDefinition | resolvers.py:72-79 | The lookup loop returns `DefinitionTarget` of the root and the parts, or the same error, together with where the node sits. |
| Resolver.JsonRefResolver.ResolveRef | resolvers.py:98-102 | A reference with scheme and network location goes to the URL loader, any other to the file loader. An unknown URL or file raises and changes nothing. |
| Resolver.JsonRefResolver.ResolveLocalFileRef | resolvers.py:104-131 | A missing file raises SchemaFileNotFound and changes nothing. Otherwise a failing merge raises before any change; for a document with no `$ref` left once its `definitions` are stripped, they are merged into the root and the document is spliced in. |
| Resolver.JsonRefResolver.ResolveExternalUrlRef | resolvers.py:133-159 | A URL that does not answer raises UrlFetchFailed and changes nothing. Otherwise a failing merge raises before any change; for a body with no `$ref` left once its `definitions` are stripped, they are merged into the root and the body is spliced in. |
| Resolver.JsonRefResolver.ResolveDocument | resolvers.py:119-129 | A failing merge raises before any change. A document with no `$ref` left is spliced over the merged root, without its `definitions`, and the cache is untouched. |
| Resolver.JsonRefResolver.Splice | resolvers.py:46-47 | `obj.clear(); obj.update(v)`: the dict at the place holds exactly v's members, and nothing else changes. |
| GlueColumns.GlueColumnType | json_schema_to_glue_columns.py:30-72 | A node that maps has a string `type`. |
| GlueColumns.UnknownTypeRejected | json_schema_to_glue_columns.py:71-72 | A `type` other than the six known ones raises "Unknown type". |
| GlueColumns.StructColumns | json_schema_to_glue_columns.py:52-58 | Succeeds iff every property maps. If so, there is one `key:type` string per property, in order. |
| GlueColumns.ScalarRule | json_schema_to_glue_columns.py:43-50 | `string`, `integer`, `number` and `boolean` nodes map to `STRING`, `BIGINT`, `DOUBLE` and `BOOLEAN`. |
| GlueColumns.GlueColumnTypeKinds | json_schema_to_glue_columns.py:43-70 | For a node that maps: `string`/`integer`/`number`/`boolean` map to `STRING`/`BIGINT`/`DOUBLE`/`BOOLEAN` and back. Exactly objects give `STRUCT<`, and exactly arrays give `ARRAY<`. Only an array whose items are arrays ends in `[]`. |
| GlueColumns.EmptyItemsRejected | json_schema_to_glue_columns.py:61-65 | An array with empty `items` raises EmptyArray. |
| GlueColumns.ArrayRule | json_schema_to_glue_columns.py:61-70 | An array node with non-empty `items` maps to `ARRAY<inner>`, plus `[]` exactly when the items are arrays themselves. |
| GlueColumns.NestedArrayExample | json_schema_to_glue_columns.py:61-70 | An array of arrays of a mappable non-array node typed `t` maps to `ARRAY<ARRAY<t>>[]`. |
| GlueColumns.NestedStringArrayExample | json_schema_to_glue_columns.py:61-70 | An array of arrays of strings maps to `ARRAY<ARRAY<STRING>>[]`. |
| GlueColumns.ArrayInnerError | json_schema_to_glue_columns.py:67-70 | An array whose `items` is not empty but cannot be mapped, whatever its kind (a dict without `type`, a list, a string, a number), raises what mapping `items` raises. |
| GlueColumns.StructRule | json_schema_to_glue_columns.py:51-60 | An object node whose properties all map gives `STRUCT<...>` around their `key:type` strings joined by commas. |
| GlueColumns.StructKeyVerbatimExample | json_schema_to_glue_columns.py:51-60 | Struct keys are emitted verbatim: a single property `key` typed `t` gives `STRUCT<key:t>`, whatever the key holds (case, spaces). |
| GlueColumns.LeafIsNotStruct | json_schema_to_glue_columns.py:51-60 | A node whose type is not `object` never maps to a STRUCT. |
| GlueColumns.Flattened | json_schema_to_glue_columns.py:3-27 | Flattening succeeds only on a dict schema that holds `properties`. |
| GlueColumns.FlattenFrom | json_schema_to_glue_columns.py:17-25 | Folding more properties in keeps the keys built so far, in order, as a prefix. |
| GlueColumns.FlattenJsonSchema | json_schema_to_glue_columns.py:3-27 | The loop computes exactly the fold `Flattened` of the properties, raising as the source does. |
| GlueColumns.FlattenedIsLeavesAssigned | json_schema_to_glue_columns.py:15-25 | Flattening assigns the leaves, depth-first in property order under `prefix+key(+delimiter+...)`, into an empty dict. |
| GlueColumns.FlattenFromIsLeavesAssigned | json_schema_to_glue_columns.py:17-25 | Folding the remaining properties into a partial dict equals updating it with their leaves. |
| GlueColumns.LeavesAreLeaves | json_schema_to_glue_columns.py:17-25 | Every leaf has a type other than `object`, and its name extends the prefix. |
| GlueColumns.LeavesOfAreLeaves | json_schema_to_glue_columns.py:17-25 | The same for the leaves of a property list: each is a non-`object` node named under the prefix. |
| GlueColumns.FlattenedShape | json_schema_to_glue_columns.py:15-27 | The flattened dict has no repeated key and no `object`-typed value. Its keys are the leaf names in first-occurrence order, each holding its last leaf's value. |
| GlueColumns.FlattenedAreLeaves | json_schema_to_glue_columns.py:17-25 | Every flattened property has a type other than `object`. |
| GlueColumns.LeavesOfFlat | json_schema_to_glue_columns.py:23-25 | With no `object` property and no prefix, the leaves are the properties themselves. |
| GlueColumns.FlattenedFlatSchema | json_schema_to_glue_columns.py:15-27 | Flattening a schema without `object` properties returns its properties: same keys, same order, same values. |
| GlueColumns.ProjectedProperties | json_schema_to_glue_columns.py:86-90 | The properties are projected only from a dict schema that holds `properties`, flattened or not. |
| GlueColumns.ConvertJsonSchemaToGlueColumns | json_schema_to_glue_columns.py:74-102 | On success, one column per projected property, in order, named by its key and typed by its node. Otherwise the error of the first failing property, or of the projection. With flatten, no column is a STRUCT. |
| GlueColumns.BuildColumns | json_schema_to_glue_columns.py:92-102 | The column loop, given the type mapping it calls. Succeeds iff every property maps, and then gives one column per property in order. Otherwise the first failing property's error. |

## Left out

- The file read, the JSON parse and the HTTP request. `Environment` supplies the parsed contents of every existing file and of every URL that answers 200.
- `UrlFetchFailed` carries the URL but not the status code.
- Parts of `urlsplit` not modelled; each can change the classification or raise ValueError (for example, `" http://h/x.json"` and `"ht\ttp://h/x.json"` have a scheme and a network location in Python, but the model sends them to the file loader):
  - stripping of leading C0 control characters and spaces;
  - removal of tab and newline characters;
  - the `ValueError` for unbalanced `[`/`]` in a network location;
  - the validation of a bracketed (IPv6) host;
  - the NFKC check that rejects a network location which changes under normalisation.
- Python's shared dict objects:
  - The cache holds the very object later walked. The model refreshes the cache entry with the walked node once the walk ends. During that walk, a cyclic reference finds the node as it was cached, not as it is being changed, so no cyclic object graph is built.
  - Splices are shallow in Python. Later changes to one copy of a spliced definition do not show in the others.
- A dict that a definitions merge replaces while it is being walked. Python keeps walking the detached object. The model re-reads the place, stops when no dict is there, and raises RuntimeError when the dict there has another size.
  - When the merge replaces the `$ref` dict itself (a definition whose `$ref` loads a document that redefines the same name), Python splices into the detached dict and the root keeps the merged definition. The model splices over the merged definition at that place instead.
- A list is walked up to its length at the start of the loop.
- `dict.update` with a non-dict (a list of pairs, an empty list or string) is modelled as TypeError, after the clear.
  - A loaded document that is not a dict is refused with TypeError before the `definitions` membership test.
  - Loaded `definitions` that are not a dict, merged into an existing `definitions`, also raise TypeError.
- Fuel counts nested walks rather than Python frames.
- JSON numbers are integers. Only `type` strings are ever compared, so floats play no part.
- The unused `import json` of json_schema_to_glue_columns.py is not modelled.
- The code has none of the following, and neither does the model:
  - Column and struct key names are emitted verbatim, not lower-cased or normalised to underscores (StructKeyVerbatimExample).
  - A missing internal definition raises KeyError rather than being skipped silently.
  - There is no circular-reference detection. A cycle through `#/definitions/` pointers stops at the cache entry, which is written before the definition is walked, and the walk passes. For definition A being `{"$ref": "#/definitions/A"}`, Python ends with A as `{}`: the cached object is the dict being cleared. The model's cache holds a copy, so A keeps its `$ref` member (see the shared-dict lines above). A cycle through files or URLs, which are never cached, runs until the recursion limit (fuel) raises RecursionError.
  - Errors are the Python exceptions raised, not dedicated error kinds.
- Resolver.JsonRefResolver.ResolveRefsRecursive: the resulting tree is stated for `$ref`-free nodes and for one `$ref` dict whose target is `$ref`-free. A walk that resolves nested references is described only by the invariants it keeps: the cache, the lookups and the document stack.
- Resolver.JsonRefResolver.ResolveInternalRef: the spliced result is stated for a cached target or a `$ref`-free dict definition (a `$ref`-free definition of another kind raises TypeError), and after any pass the dict at the place equals the cache entry. A cached target that is not a dict is stated to raise TypeError, but not what the dict holds afterwards.
- Resolver.JsonRefResolver.ResolveMembers: the contract does not state that every value is walked in turn, nor that a size change is what raises RuntimeError. It states the `$ref`-free case, the size after a walk that passes, and the kept invariants.
- Resolver.JsonRefResolver.ResolveItems: the contract does not state that every item is walked in turn. It states the `$ref`-free case and the kept invariants.
- Resolver.JsonRefResolver.ResolveDefinition: the returned node is tied to the cache entry, and the node is stated in full only when it is `$ref`-free. For other nodes the walk is described by the kept invariants.
- Resolver.JsonRefResolver.CacheAndWalk: the returned node is the cache entry, and it is stated in full only when the located node is `$ref`-free.
- Resolver.JsonRefResolver.ResolveLocalFileRef: the merge and splice are stated only for a document with no `$ref` left once its `definitions` are stripped. Otherwise only the kept invariants are stated.
- Resolver.JsonRefResolver.ResolveExternalUrlRef: the merge and splice are stated only for a body with no `$ref` left once its `definitions` are stripped. Otherwise only the kept invariants are stated.
- Resolver.JsonRefResolver.ResolveDocument: the spliced result is stated when the stripped document has no `$ref`. A failure during the walk is stated only by the kept invariants.
- A JSON object is a member list, which could hold a key twice. Only lists with unique keys (`UniqueKeys`) stand for Python dicts. `json.load` keeps the last of repeated keys, and that step is not modelled.
- The default arguments of the Python functions (`prefix=''` and `delimiter='_'` of flatten_json_schema, `flatten=False` and `delimiter='_'` of convert_json_schema_to_glue_columns) are not modelled: every parameter is passed explicitly.
