/**
 * Projection of a resolved JSON schema onto catalog columns
 * (json_schema_to_glue_columns.py): the catalog type of a schema node, the optional
 * flattening of nested objects into delimiter-joined names, and the column list.
 */
module GlueColumns {
  import opened Exceptions
  import opened JsonValues
  import opened Strings

  /** A catalog column: `{"Name": ..., "Type": ...}`. */
  datatype Column = Column(Name: string, Type: string)

  // ---------------------------------------------------------------------------
  // glue_column_type_from_json_schema
  // ---------------------------------------------------------------------------

  /** The catalog type string of one schema node; raises as the source does. */
  function GlueColumnType(value: Json): (r: Result<string>)
    ensures r.Ok? ==> Subscript(value, "type").Ok? && Subscript(value, "type").value.Str?
    decreases value, 1
  {
    match Subscript(value, "type")
    case Err(e) => Err(e)
    case Ok(t) =>
      if t == Str("string") then Ok("STRING")
      else if t == Str("integer") then Ok("BIGINT")
      else if t == Str("number") then Ok("DOUBLE")
      else if t == Str("boolean") then Ok("BOOLEAN")
      else if t == Str("object") then
        (match Subscript(value, "properties")
         case Err(e) => Err(e)
         case Ok(props) =>
           match ItemsOf(props)
           case Err(e) => Err(e)
           case Ok(ms) =>
             match StructColumns(ms)
             case Err(e) => Err(e)
             case Ok(columns) => Ok("STRUCT<" + Join(columns, ",") + ">"))
      else if t == Str("array") then
        (match Subscript(value, "items")
         case Err(e) => Err(e)
         case Ok(items) =>
           match Len(items)
           case Err(e) => Err(e)
           case Ok(n) =>
             if n == 0 then Err(EmptyArray)
             else match Subscript(items, "type")
               case Err(e) => Err(e)
               case Ok(itemsType) =>
                 match GlueColumnType(items)
                 case Err(e) => Err(e)
                 case Ok(inner) =>
                   if itemsType == Str("array") then Ok("ARRAY<" + inner + ">[]")
                   else Ok("ARRAY<" + inner + ">"))
      else Err(UnknownType)
  }

  /** The `key:type` strings of an object's properties, in property order (the `_columns` list). */
  function StructColumns(ms: seq<Member>): (r: Result<seq<string>>)
    ensures r.Ok? <==> forall i :: 0 <= i < |ms| ==> GlueColumnType(ms[i].value).Ok?
    ensures r.Ok? ==>
      && |r.value| == |ms|
      && forall i :: 0 <= i < |ms| ==> r.value[i] == ms[i].key + ":" + GlueColumnType(ms[i].value).value
    decreases ms, 0
  {
    if ms == [] then Ok([])
    else match GlueColumnType(ms[0].value)
      case Err(e) => Err(e)
      case Ok(t) =>
        match StructColumns(ms[1..])
        case Err(e) => Err(e)
        case Ok(rest) => Ok([ms[0].key + ":" + t] + rest)
  }

  // ---------------------------------------------------------------------------
  // flatten_json_schema
  // ---------------------------------------------------------------------------

  /** The dict flatten_json_schema returns, built as the source builds it. */
  function Flattened(schema: Json, prefix: string, delimiter: string): (r: Result<seq<Member>>)
    ensures r.Ok? ==> schema.Obj? && HasKey(schema.members, "properties")
    decreases schema, 1
  {
    match Subscript(schema, "properties")
    case Err(e) => Err(e)
    case Ok(props) =>
      match ItemsOf(props)
      case Err(e) => Err(e)
      case Ok(ms) => FlattenFrom([], ms, prefix, delimiter)
  }

  /** Folds the remaining properties `ms` into the dict built so far, `acc`. */
  function FlattenFrom(acc: seq<Member>, ms: seq<Member>, prefix: string, delimiter: string): (r: Result<seq<Member>>)
    ensures r.Ok? ==> Keys(acc) <= Keys(r.value)
    decreases ms, 0
  {
    if ms == [] then Ok(acc)
    else match Subscript(ms[0].value, "type")
      case Err(e) => Err(e)
      case Ok(t) =>
        if t == Str("object") then
          match Flattened(ms[0].value, prefix + ms[0].key + delimiter, delimiter)
          case Err(e) => Err(e)
          case Ok(sub) => FlattenFrom(Update(acc, sub), ms[1..], prefix, delimiter)
        else FlattenFrom(SetKey(acc, prefix + ms[0].key, ms[0].value), ms[1..], prefix, delimiter)
  }

  /**
   * flatten_json_schema (json_schema_to_glue_columns.py:3-27): a loop over the properties
   * that accumulates into a fresh dict, recursing into object-typed properties.
   */
  method FlattenJsonSchema(schema: Json, prefix: string, delimiter: string) returns (r: Result<seq<Member>>)
    ensures r == Flattened(schema, prefix, delimiter)
    decreases schema
  {
    var props := Subscript(schema, "properties");
    if props.Err? {
      return Err(props.error);
    }
    var items := ItemsOf(props.value);
    if items.Err? {
      return Err(items.error);
    }
    var ms := items.value;
    var flattened: seq<Member> := [];
    var i := 0;
    while i < |ms|
      invariant 0 <= i <= |ms|
      invariant FlattenFrom(flattened, ms[i..], prefix, delimiter) == Flattened(schema, prefix, delimiter)
    {
      assert ms[i..][0] == ms[i] && ms[i..][1..] == ms[i + 1..];
      var key, value := ms[i].key, ms[i].value;
      var t := Subscript(value, "type");
      if t.Err? {
        return Err(t.error);
      }
      if t.value == Str("object") {
        var sub := FlattenJsonSchema(value, prefix + key + delimiter, delimiter);
        if sub.Err? {
          return Err(sub.error);
        }
        flattened := Update(flattened, sub.value);
      } else {
        flattened := SetKey(flattened, prefix + key, value);
      }
      i := i + 1;
    }
    return Ok(flattened);
  }

  /**
   * The leaves of a schema in depth-first property order, each under its full
   * delimiter-joined name: the flattened names before duplicates are collapsed.
   */
  function Leaves(schema: Json, prefix: string, delimiter: string): Result<seq<Member>>
    decreases schema, 1
  {
    match Subscript(schema, "properties")
    case Err(e) => Err(e)
    case Ok(props) =>
      match ItemsOf(props)
      case Err(e) => Err(e)
      case Ok(ms) => LeavesOf(ms, prefix, delimiter)
  }

  function LeavesOf(ms: seq<Member>, prefix: string, delimiter: string): Result<seq<Member>>
    decreases ms, 0
  {
    if ms == [] then Ok([])
    else match Subscript(ms[0].value, "type")
      case Err(e) => Err(e)
      case Ok(t) =>
        var first :=
          if t == Str("object") then Leaves(ms[0].value, prefix + ms[0].key + delimiter, delimiter)
          else Ok([Member(prefix + ms[0].key, ms[0].value)]);
        match first
        case Err(e) => Err(e)
        case Ok(ls) =>
          match LeavesOf(ms[1..], prefix, delimiter)
          case Err(e) => Err(e)
          case Ok(rest) => Ok(ls + rest)
  }

  /** A leaf: a node whose `type` is present and is not `object`. */
  predicate IsLeaf(value: Json)
  {
    Subscript(value, "type").Ok? && Subscript(value, "type").value != Str("object")
  }

  // ---------------------------------------------------------------------------
  // convert_json_schema_to_glue_columns
  // ---------------------------------------------------------------------------

  /** The property dict the column builder iterates: flattened, or the top-level `properties`. */
  function ProjectedProperties(schema: Json, flatten: bool, delimiter: string): (r: Result<seq<Member>>)
    ensures r.Ok? ==> schema.Obj? && HasKey(schema.members, "properties")
  {
    if flatten then Flattened(schema, "", delimiter)
    else match Subscript(schema, "properties")
      case Err(e) => Err(e)
      case Ok(props) => ItemsOf(props)
  }

  /**
   * convert_json_schema_to_glue_columns (json_schema_to_glue_columns.py:74-102): one
   * column per projected property, in order, named by its key and typed by its node;
   * the first property whose type cannot be mapped raises. With flattening on, no
   * column is a STRUCT.
   */
  method ConvertJsonSchemaToGlueColumns(schema: Json, flatten: bool, delimiter: string) returns (r: Result<seq<Column>>)
    ensures ProjectedProperties(schema, flatten, delimiter).Err? ==>
      r == Err(ProjectedProperties(schema, flatten, delimiter).error)
    ensures ProjectedProperties(schema, flatten, delimiter).Ok? ==>
      ColumnsOf(ProjectedProperties(schema, flatten, delimiter).value, GlueColumnType, r)
    ensures flatten && r.Ok? ==> forall i :: 0 <= i < |r.value| ==> !("STRUCT<" <= r.value[i].Type)
  {
    var properties: seq<Member>;
    if flatten {
      var f := FlattenJsonSchema(schema, "", delimiter);
      if f.Err? {
        return Err(f.error);
      }
      properties := f.value;
    } else {
      var props := Subscript(schema, "properties");
      if props.Err? {
        return Err(props.error);
      }
      var items := ItemsOf(props.value);
      if items.Err? {
        return Err(items.error);
      }
      properties := items.value;
    }
    r := BuildColumns(properties, GlueColumnType);
    if flatten && r.Ok? {
      FlattenedAreLeaves(schema, delimiter);
      forall i | 0 <= i < |r.value|
        ensures !("STRUCT<" <= r.value[i].Type)
      {
        LeafIsNotStruct(properties[i].value);
      }
    }
  }

  /**
   * `r` is the column list built from `ps`, each node typed by `typeOf`: when every
   * property maps, one column per property in order; otherwise the error of the first
   * property that does not.
   */
  predicate ColumnsOf(ps: seq<Member>, typeOf: Json -> Result<string>, r: Result<seq<Column>>)
  {
    && (r.Ok? <==> forall i :: 0 <= i < |ps| ==> typeOf(ps[i].value).Ok?)
    && (r.Ok? ==>
          && |r.value| == |ps|
          && forall i :: 0 <= i < |ps| ==> r.value[i] == Column(ps[i].key, typeOf(ps[i].value).value))
    && (r.Err? ==>
          exists i :: 0 <= i < |ps| && typeOf(ps[i].value) == Err(r.error) &&
            forall j :: 0 <= j < i ==> typeOf(ps[j].value).Ok?)
  }

  /**
   * The loop of convert_json_schema_to_glue_columns over the projected properties;
   * `typeOf` is the type mapping it calls for each node.
   */
  method BuildColumns(properties: seq<Member>, typeOf: Json -> Result<string>) returns (r: Result<seq<Column>>)
    ensures ColumnsOf(properties, typeOf, r)
  {
    var columns: seq<Column> := [];
    var i := 0;
    while i < |properties|
      invariant 0 <= i <= |properties|
      invariant |columns| == i
      invariant forall j :: 0 <= j < i ==> typeOf(properties[j].value).Ok?
      invariant forall j :: 0 <= j < i ==>
        columns[j] == Column(properties[j].key, typeOf(properties[j].value).value)
    {
      var t := typeOf(properties[i].value);
      if t.Err? {
        r := Err(t.error);
        assert typeOf(properties[i].value) == Err(r.error);
        return;
      }
      columns := columns + [Column(properties[i].key, t.value)];
      i := i + 1;
    }
    r := Ok(columns);
  }

  // ---------------------------------------------------------------------------
  // Properties of flattening
  // ---------------------------------------------------------------------------

  /**
   * Flattening assigns the leaves, in depth-first property order, into an empty dict:
   * the nested dicts merged with `update` collapse into one sequence of assignments.
   */
  lemma {:induction false} FlattenedIsLeavesAssigned(schema: Json, prefix: string, delimiter: string)
    ensures Flattened(schema, prefix, delimiter) ==
      match Leaves(schema, prefix, delimiter)
      case Ok(ls) => Ok(Update([], ls))
      case Err(e) => Err(e)
    decreases schema, 1
  {
    match Subscript(schema, "properties")
    case Err(_) =>
    case Ok(props) =>
      match ItemsOf(props)
      case Err(_) =>
      case Ok(ms) => FlattenFromIsLeavesAssigned([], ms, prefix, delimiter);
  }

  lemma {:induction false} FlattenFromIsLeavesAssigned(acc: seq<Member>, ms: seq<Member>, prefix: string, delimiter: string)
    ensures FlattenFrom(acc, ms, prefix, delimiter) ==
      match LeavesOf(ms, prefix, delimiter)
      case Ok(ls) => Ok(Update(acc, ls))
      case Err(e) => Err(e)
    decreases ms, 0
  {
    if ms != [] {
      match Subscript(ms[0].value, "type")
      case Err(_) =>
      case Ok(t) =>
        if t == Str("object") {
          var p := prefix + ms[0].key + delimiter;
          FlattenedIsLeavesAssigned(ms[0].value, p, delimiter);
          match Leaves(ms[0].value, p, delimiter)
          case Err(_) =>
          case Ok(lv) =>
            FlattenFromIsLeavesAssigned(Update(acc, Update([], lv)), ms[1..], prefix, delimiter);
            UpdateWithCollapsed(acc, lv);
            match LeavesOf(ms[1..], prefix, delimiter)
            case Err(_) =>
            case Ok(rest) => UpdateAppend(acc, lv, rest);
        } else {
          var m := Member(prefix + ms[0].key, ms[0].value);
          FlattenFromIsLeavesAssigned(SetKey(acc, m.key, m.value), ms[1..], prefix, delimiter);
          match LeavesOf(ms[1..], prefix, delimiter)
          case Err(_) =>
          case Ok(rest) =>
            UpdateAppend(acc, [m], rest);
            assert Update(acc, [m]) == SetKey(acc, m.key, m.value) by {
              assert [m][1..] == [];
            }
        }
    }
  }

  /** Every leaf is a non-object node, and its name extends the prefix. */
  lemma {:induction false} LeavesAreLeaves(schema: Json, prefix: string, delimiter: string)
    ensures Leaves(schema, prefix, delimiter).Ok? ==>
      forall m :: m in Leaves(schema, prefix, delimiter).value ==> IsLeaf(m.value) && prefix <= m.key
    decreases schema, 1
  {
    match Subscript(schema, "properties")
    case Err(_) =>
    case Ok(props) =>
      match ItemsOf(props)
      case Err(_) =>
      case Ok(ms) => LeavesOfAreLeaves(ms, prefix, delimiter);
  }

  lemma {:induction false} LeavesOfAreLeaves(ms: seq<Member>, prefix: string, delimiter: string)
    ensures LeavesOf(ms, prefix, delimiter).Ok? ==>
      forall m :: m in LeavesOf(ms, prefix, delimiter).value ==> IsLeaf(m.value) && prefix <= m.key
    decreases ms, 0
  {
    if ms != [] {
      match Subscript(ms[0].value, "type")
      case Err(_) =>
      case Ok(t) =>
        LeavesOfAreLeaves(ms[1..], prefix, delimiter);
        if t == Str("object") {
          var p := prefix + ms[0].key + delimiter;
          LeavesAreLeaves(ms[0].value, p, delimiter);
          assert prefix <= p;
        }
    }
  }

  /**
   * The flattened dict holds only non-object nodes, each under a name that extends the
   * prefix, with no name repeated; a name met twice keeps its first position and the
   * value of its last occurrence.
   */
  lemma FlattenedShape(schema: Json, prefix: string, delimiter: string)
    requires Flattened(schema, prefix, delimiter).Ok?
    ensures Leaves(schema, prefix, delimiter).Ok?
    ensures var fs := Flattened(schema, prefix, delimiter).value;
      var ls := Leaves(schema, prefix, delimiter).value;
      && UniqueKeys(fs)
      && (forall m :: m in fs ==> IsLeaf(m.value) && prefix <= m.key)
      && Keys(fs) == AppendNew([], Keys(ls))
      && forall k :: Get(fs, k) == LastGet(ls, k)
  {
    FlattenedIsLeavesAssigned(schema, prefix, delimiter);
    LeavesAreLeaves(schema, prefix, delimiter);
    var fs := Flattened(schema, prefix, delimiter).value;
    var ls := Leaves(schema, prefix, delimiter).value;
    UpdateUnique([], ls);
    forall m | m in fs
      ensures IsLeaf(m.value) && prefix <= m.key
    {
      UpdateMembers([], ls, m);
    }
    UpdateKeyOrder([], ls);
    forall k
      ensures Get(fs, k) == LastGet(ls, k)
    {
      UpdateGetLast([], ls, k);
      LastGetSome(ls, k);
    }
  }

  /** Corollary of FlattenedShape: the flattened properties are all leaves. */
  lemma FlattenedAreLeaves(schema: Json, delimiter: string)
    requires Flattened(schema, "", delimiter).Ok?
    ensures var fs := Flattened(schema, "", delimiter).value;
      forall i :: 0 <= i < |fs| ==> IsLeaf(fs[i].value)
  {
    FlattenedShape(schema, "", delimiter);
    var fs := Flattened(schema, "", delimiter).value;
    forall i | 0 <= i < |fs|
      ensures IsLeaf(fs[i].value)
    {
      assert fs[i] in fs;
    }
  }

  /** With no leaf property of object type and no prefix, the leaves are the properties themselves. */
  lemma {:induction false} LeavesOfFlat(ms: seq<Member>, delimiter: string)
    requires forall i :: 0 <= i < |ms| ==> IsLeaf(ms[i].value)
    ensures LeavesOf(ms, "", delimiter) == Ok(ms)
  {
    if ms != [] {
      LeavesOfFlat(ms[1..], delimiter);
      assert "" + ms[0].key == ms[0].key;
      assert [ms[0]] + ms[1..] == ms;
    }
  }

  /** Flattening a schema with no nested objects returns its properties unchanged. */
  lemma FlattenedFlatSchema(schema: Json, delimiter: string)
    requires Subscript(schema, "properties").Ok?
    requires ItemsOf(Subscript(schema, "properties").value).Ok?
    requires var ms := ItemsOf(Subscript(schema, "properties").value).value;
      UniqueKeys(ms) && forall i :: 0 <= i < |ms| ==> IsLeaf(ms[i].value)
    ensures Flattened(schema, "", delimiter) == ItemsOf(Subscript(schema, "properties").value)
  {
    var ms := ItemsOf(Subscript(schema, "properties").value).value;
    LeavesOfFlat(ms, delimiter);
    FlattenedIsLeavesAssigned(schema, "", delimiter);
    CopyByUpdate(ms);
  }

  // ---------------------------------------------------------------------------
  // Properties of the type mapping
  // ---------------------------------------------------------------------------

  /**
   * The catalog type names the JSON type: each scalar maps to exactly one name, an
   * object to a STRUCT<...> and an array to an ARRAY<...>, and only an array of
   * arrays carries the trailing `[]`.
   */
  lemma GlueColumnTypeKinds(value: Json)
    requires GlueColumnType(value).Ok?
    ensures var s := GlueColumnType(value).value;
      var t := Subscript(value, "type").value;
      && (t == Str("string") <==> s == "STRING")
      && (t == Str("integer") <==> s == "BIGINT")
      && (t == Str("number") <==> s == "DOUBLE")
      && (t == Str("boolean") <==> s == "BOOLEAN")
      && (t == Str("object") <==> "STRUCT<" <= s)
      && (t == Str("array") <==> "ARRAY<" <= s)
      && (EndsWithBrackets(s) <==>
            t == Str("array") && Subscript(Subscript(value, "items").value, "type") == Ok(Str("array")))
  {
    var s := GlueColumnType(value).value;
    var t := Subscript(value, "type").value;
    if t == Str("object") {
      var cs := StructColumns(ItemsOf(Subscript(value, "properties").value).value).value;
      StructShape(Join(cs, ","));
    } else if t == Str("array") {
      var items := Subscript(value, "items").value;
      var inner := GlueColumnType(items).value;
      if Subscript(items, "type") == Ok(Str("array")) {
        assert s == "ARRAY<" + inner + ">[]";
        ArrayShape(inner, ">[]");
      } else {
        assert s == "ARRAY<" + inner + ">";
        ArrayShape(inner, ">");
      }
    } else {
      ScalarShape(s);
    }
  }

  /** The four scalar types map to their catalog names: `string` to STRING, `integer` to BIGINT, `number` to DOUBLE, `boolean` to BOOLEAN. */
  lemma ScalarRule(value: Json)
    requires Subscript(value, "type").Ok?
    ensures var t := Subscript(value, "type").value;
      && (t == Str("string") ==> GlueColumnType(value) == Ok("STRING"))
      && (t == Str("integer") ==> GlueColumnType(value) == Ok("BIGINT"))
      && (t == Str("number") ==> GlueColumnType(value) == Ok("DOUBLE"))
      && (t == Str("boolean") ==> GlueColumnType(value) == Ok("BOOLEAN"))
  {
  }

  lemma ScalarShape(s: string)
    requires s == "STRING" || s == "BIGINT" || s == "DOUBLE" || s == "BOOLEAN"
    ensures !("STRUCT<" <= s) && !("ARRAY<" <= s) && !EndsWithBrackets(s)
  {
    assert s[|s| - 1] != ']';
    assert s[0] != 'A';
    assert s[3] != "STRUCT<"[3];
  }

  /** The type string ends in `[]`. */
  predicate EndsWithBrackets(s: string)
  {
    |s| >= 2 && s[|s| - 2..] == "[]"
  }

  lemma StructShape(body: string)
    ensures var s := "STRUCT<" + body + ">";
      s[0] == 'S' && |s| >= 8 && "STRUCT<" <= s && !("ARRAY<" <= s) && !EndsWithBrackets(s)
  {
    var s := "STRUCT<" + body + ">";
    assert s[0] == 'S';
    assert s[|s| - 1] == '>';
  }

  lemma ArrayShape(inner: string, tail: string)
    requires tail == ">" || tail == ">[]"
    ensures var s := "ARRAY<" + inner + tail;
      s[0] == 'A' && "ARRAY<" <= s && !("STRUCT<" <= s) && (EndsWithBrackets(s) <==> tail == ">[]")
  {
    var s := "ARRAY<" + inner + tail;
    assert s[..6] == "ARRAY<";
    assert s[0] == 'A';
    if tail == ">[]" {
      assert s[|s| - 2..] == "[]";
    } else {
      assert s[|s| - 1] == '>';
    }
  }

  /** A `type` other than the six the mapper knows raises "Unknown type". */
  lemma UnknownTypeRejected(value: Json)
    requires Subscript(value, "type").Ok?
    requires var t := Subscript(value, "type").value;
      t != Str("string") && t != Str("integer") && t != Str("number")
      && t != Str("boolean") && t != Str("object") && t != Str("array")
    ensures GlueColumnType(value) == Err(UnknownType)
  {
  }

  /** An array whose `items` is empty is refused. */
  lemma EmptyItemsRejected(value: Json)
    requires Subscript(value, "type") == Ok(Str("array"))
    requires Subscript(value, "items").Ok? && Len(Subscript(value, "items").value) == Ok(0)
    ensures GlueColumnType(value) == Err(EmptyArray)
  {
  }

  /** A leaf never maps to a STRUCT type: after flattening no column is a struct. */
  lemma LeafIsNotStruct(value: Json)
    requires IsLeaf(value) && GlueColumnType(value).Ok?
    ensures !("STRUCT<" <= GlueColumnType(value).value)
  {
    GlueColumnTypeKinds(value);
  }

  /**
   * The array rule: a non-empty `items` node typed as an array gives `ARRAY<inner>[]`,
   * any other `items` node `ARRAY<inner>`.
   */
  lemma ArrayRule(value: Json, items: Json)
    requires Subscript(value, "type") == Ok(Str("array")) && Subscript(value, "items") == Ok(items)
    requires items.Obj? && |items.members| > 0 && Subscript(items, "type").Ok? && GlueColumnType(items).Ok?
    ensures GlueColumnType(value) ==
      if Subscript(items, "type").value == Str("array") then Ok("ARRAY<" + GlueColumnType(items).value + ">[]")
      else Ok("ARRAY<" + GlueColumnType(items).value + ">")
  {
    TypeNamesDiffer();
  }

  /**
   * An array of arrays of a mappable node typed `t` carries the trailing `[]`: with a
   * string leaf, `ARRAY<ARRAY<STRING>>[]`.
   */
  lemma NestedArrayExample(leaf: Json)
    requires leaf.Obj? && |leaf.members| > 0 && GlueColumnType(leaf).Ok?
    requires Subscript(leaf, "type").Ok? && Subscript(leaf, "type").value != Str("array")
    ensures var inner := Obj([Member("type", Str("array")), Member("items", leaf)]);
      GlueColumnType(Obj([Member("type", Str("array")), Member("items", inner)]))
        == Ok("ARRAY<" + ("ARRAY<" + GlueColumnType(leaf).value + ">") + ">[]")
  {
    var inner := Obj([Member("type", Str("array")), Member("items", leaf)]);
    var outer := Obj([Member("type", Str("array")), Member("items", inner)]);
    var t := GlueColumnType(leaf).value;
    assert GlueColumnType(inner) == Ok("ARRAY<" + t + ">") by {
      ArrayNodeFields(Str("array"), leaf);
      ArrayRule(inner, leaf);
    }
    ArrayNodeFields(Str("array"), inner);
    ArrayRule(outer, inner);
  }

  /** An array whose `items` cannot be mapped raises what the `items` node raises. */
  lemma ArrayInnerError(value: Json, items: Json)
    requires Subscript(value, "type") == Ok(Str("array")) && Subscript(value, "items") == Ok(items)
    requires Len(items) != Ok(0) && GlueColumnType(items).Err?
    ensures GlueColumnType(value) == GlueColumnType(items)
  {
    TypeNamesDiffer();
  }

  /** An array of arrays of strings maps to `ARRAY<ARRAY<STRING>>[]`. */
  lemma NestedStringArrayExample()
    ensures var leaf := Obj([Member("type", Str("string"))]);
      var inner := Obj([Member("type", Str("array")), Member("items", leaf)]);
      GlueColumnType(Obj([Member("type", Str("array")), Member("items", inner)])) == Ok("ARRAY<ARRAY<STRING>>[]")
  {
    var leaf := Obj([Member("type", Str("string"))]);
    assert Subscript(leaf, "type") == Ok(Str("string"));
    ScalarRule(leaf);
    TypeNamesDiffer();
    NestedArrayExample(leaf);
    assert "ARRAY<" + ("ARRAY<" + "STRING" + ">") + ">[]" == "ARRAY<ARRAY<STRING>>[]";
  }

  lemma TypeNamesDiffer()
    ensures "array" != "string" && "array" != "integer" && "array" != "number" && "array" != "boolean" && "array" != "object"
    ensures "object" != "string" && "object" != "integer" && "object" != "number" && "object" != "boolean"
  {
    assert "array"[0] == 'a';
    assert "object"[0] == 'o';
  }

  /** The fields of a two-member node `{"type": t, "items": items}`. */
  lemma ArrayNodeFields(t: Json, items: Json)
    ensures var node := Obj([Member("type", t), Member("items", items)]);
      Subscript(node, "type") == Ok(t) && Subscript(node, "items") == Ok(items)
  {
    var ms := [Member("type", t), Member("items", items)];
    assert IndexOf(ms[1..], "items") == Some(0);
    assert IndexOf(ms, "items") == Some(1);
  }

  /**
   * The struct rule: an object node whose properties all map gives `STRUCT<...>` around
   * their `key:type` strings joined by commas.
   */
  lemma StructRule(value: Json, props: Json)
    requires Subscript(value, "type") == Ok(Str("object")) && Subscript(value, "properties") == Ok(props)
    requires props.Obj? && StructColumns(props.members).Ok?
    ensures GlueColumnType(value) == Ok("STRUCT<" + Join(StructColumns(props.members).value, ",") + ">")
  {
    TypeNamesDiffer();
  }

  /** The fields of a two-member node `{"type": t, "properties": props}`. */
  lemma ObjectNodeFields(t: Json, props: Json)
    ensures var node := Obj([Member("type", t), Member("properties", props)]);
      Subscript(node, "type") == Ok(t) && Subscript(node, "properties") == Ok(props)
  {
    var ms := [Member("type", t), Member("properties", props)];
    assert IndexOf(ms[1..], "properties") == Some(0);
    assert IndexOf(ms, "properties") == Some(1);
  }

  /**
   * Struct keys are emitted as they are, with no case folding and no replacement of
   * spaces: a single property `key` typed `t` gives `STRUCT<key:t>`.
   */
  lemma StructKeyVerbatimExample(key: string, leaf: Json)
    requires GlueColumnType(leaf).Ok?
    ensures var props := Obj([Member(key, leaf)]);
      GlueColumnType(Obj([Member("type", Str("object")), Member("properties", props)]))
        == Ok("STRUCT<" + (key + ":" + GlueColumnType(leaf).value) + ">")
  {
    var ms := [Member(key, leaf)];
    var props := Obj(ms);
    var t := GlueColumnType(leaf).value;
    var columns := StructColumns(ms);
    assert columns.Ok? && |columns.value| == 1 && columns.value[0] == key + ":" + t;
    assert columns.value == [key + ":" + t];
    assert Join([key + ":" + t], ",") == key + ":" + t;
    ObjectNodeFields(Str("object"), props);
    StructRule(Obj([Member("type", Str("object")), Member("properties", props)]), props);
  }
}
