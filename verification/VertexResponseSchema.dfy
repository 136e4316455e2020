/** The projection of a contract schema to the self-contained schema that the model provider takes. */
module VertexResponseSchema {
  import opened Json
  import opened SchemaReferences

  datatype ProjectionError =
    | DocumentUnresolved(file: string)
    | RefUnresolved(pointer: string)
    | RefInvalid(reference: string)

  type Documents = map<string, Json>

  const MAX_PROJECTION_DEPTH: nat := 6

  const SUPPORTED_KEYS := {
    "type", "format", "title", "description", "enum", "items", "prefixItems", "minItems", "maxItems",
    "minimum", "maximum", "anyOf", "oneOf", "properties", "additionalProperties", "required", "propertyOrdering"
  }

  // ---- References ----

  datatype Target = Target(schema: Fields, file: string, key: string)

  /** The last non-empty segment of a path. */
  function Basename(path: string): string {
    LastNonEmpty(Split(path, '/'), path)
  }

  function LastNonEmpty(pieces: seq<string>, otherwise: string): string {
    if pieces == [] then otherwise
    else if pieces[|pieces| - 1] != "" then pieces[|pieces| - 1]
    else LastNonEmpty(pieces[..|pieces| - 1], otherwise)
  }

  function ResolvePointer(root: Json, pointer: string): Result<Json, ProjectionError> {
    if pointer == "" then Ok(root)
    else if pointer[0] != '/' then Err(RefInvalid(pointer))
    else
      var found := Follow(root, Decoded(Split(pointer[1..], '/')));
      if found.None? then Err(RefUnresolved(pointer)) else Ok(found.value)
  }

  function ResolveRef(documents: Documents, reference: string, currentFile: string): Result<Target, ProjectionError> {
    var (pathPart, fragment) := ReferenceParts(reference);
    var file := if pathPart != "" then Basename(pathPart) else currentFile;
    if file !in documents then Err(DocumentUnresolved(file))
    else
      match ResolvePointer(documents[file], fragment)
      case Err(e) => Err(e)
      case Ok(v) => if v.Obj? then Ok(Target(v.fields, file, file + "#" + fragment)) else Err(RefInvalid(reference))
  }

  lemma LastNamed(pieces: seq<string>, name: string, otherwise: string)
    requires name != ""
    ensures LastNonEmpty(pieces + [name], otherwise) == name
  {
    assert (pieces + [name])[|pieces|] == name;
  }

  lemma {:induction false} HashOutside(pieces: seq<string>, c: char)
    requires c != '/' && |pieces| >= 1 && forall p | p in pieces :: c !in p
    ensures c !in Join(pieces, '/')
  {
    assert pieces[0] in pieces;
    if |pieces| > 1 {
      HashOutside(pieces[1..], c);
    }
  }

  lemma EncodedPath(path: seq<string>)
    requires path != []
    ensures Decoded(Split(PointerOf(path)[1..], '/')) == path
  {
    assert PointerOf(path)[1..] == Join(Encoded(path), '/');
    SplitJoin(Encoded(path), '/');
    forall i | 0 <= i < |path| ensures DecodePointerToken(Encoded(path)[i]) == path[i] {
      TokenRoundTrip(path[i]);
    }
    assert Decoded(Encoded(path)) == path;
  }

  /** A reference names a document by the last part of a path of directories, or the current one by none, and leads to the
      object at the path of member names whose pointer is its fragment; it fails if that document or
      that object does not exist. */
  lemma RefLeadsTo(documents: Documents, directories: seq<string>, name: string, path: seq<string>, current: string)
    requires forall d | d in directories :: '/' !in d && '#' !in d
    requires '/' !in name && '#' !in name && (name == "" ==> directories == []) && '#' !in PointerOf(path)
    ensures
      var file := if name == "" then current else name;
      var r := ResolveRef(documents, Join(directories + [name], '/') + "#" + PointerOf(path), current);
      && (r.Ok? <==>
            file in documents && Follow(documents[file], path).Some? && Follow(documents[file], path).value.Obj?)
      && (r.Ok? ==>
            r.value == Target(Follow(documents[file], path).value.fields, file, file + "#" + PointerOf(path)))
  {
    var (document, fragment) := (Join(directories + [name], '/'), PointerOf(path));
    HashOutside(directories + [name], '#');
    PartsOfText(document, Some(fragment));
    assert document + "#" + fragment == document + ("#" + fragment);
    SplitJoin(directories + [name], '/');
    if name == "" {
      assert document == "";
    } else {
      LastNamed(directories, name, document);
      assert document != "";
    }
    if path != [] {
      EncodedPath(path);
    }
  }

  // ---- The schema given up on: only its type is kept ----

  predicate Truthy(v: Option<Json>): (r: bool)
    ensures r <==> v !in {None, Some(Null), Some(Bool(false)), Some(Num(0)), Some(Str(""))}
  {
    match v
    case None => false
    case Some(Null) => false
    case Some(Bool(b)) => b
    case Some(Num(n)) => n != 0
    case Some(Str(s)) => s != ""
    case _ => true
  }

  const LOOSE_ARRAY := [Field("type", Str("array")), Field("items", Obj([]))]
  const LOOSE_OBJECT := [Field("type", Str("object")), Field("additionalProperties", Bool(true))]

  function OnlyType(t: Json): Json {
    Obj(if t.Str? then [Field("type", t)] else [])
  }

  function LooseSchemaFor(schema: Fields): Fields {
    var t := Get(schema, "type");
    if t == Some(Str("array")) then LOOSE_ARRAY
    else if t == Some(Str("object")) || Truthy(Get(schema, "properties")) then LOOSE_OBJECT
    else
      match t
      case Some(Arr(types)) =>
        [Field("anyOf", Arr(seq(|types|, i requires 0 <= i < |types| => OnlyType(types[i]))))]
      case Some(Str(name)) => [Field("type", Str(name))]
      case _ => []
  }

  // ---- Merging the parts of an `allOf` into one object ----

  function ObjectFields(v: Option<Json>): Fields {
    if v.Some? && v.value.Obj? then v.value.fields else []
  }

  function ArrayItems(v: Option<Json>): seq<Json> {
    if v.Some? && v.value.Arr? then v.value.items else []
  }

  /** The distinct values of a list, each where it occurs first. */
  function Unique(items: seq<Json>): (r: seq<Json>)
    ensures forall x :: x in r <==> x in items
  {
    if items == [] then []
    else
      var last, rest := items[|items| - 1], Unique(items[..|items| - 1]);
      assert items == items[..|items| - 1] + [last];
      if last in rest then rest else rest + [last]
  }

  function MergeMember(merged: Fields, member: Field): Fields {
    if member.key == "properties" then
      Put(merged, "properties",
          Obj(Spread(ObjectFields(Get(merged, "properties")), ObjectFields(Some(member.value)))))
    else if member.key == "required" && member.value.Arr? then
      Put(merged, "required", Arr(Unique(ArrayItems(Get(merged, "required")) + member.value.items)))
    else
      Put(merged, member.key, member.value)
  }

  function MergePart(merged: Fields, part: Fields): Fields {
    if part == [] then merged
    else MergeMember(MergePart(merged, part[..|part| - 1]), part[|part| - 1])
  }

  function MergeParts(parts: seq<Fields>): Fields {
    if parts == [] then [] else MergePart(MergeParts(parts[..|parts| - 1]), parts[|parts| - 1])
  }

  method MergeObjectSchemas(parts: seq<Fields>) returns (merged: Fields)
    ensures merged == MergeParts(parts)
  {
    merged := [];
    for i := 0 to |parts|
      invariant merged == MergeParts(parts[..i])
    {
      var part := parts[i];
      ghost var before := merged;
      for j := 0 to |part|
        invariant merged == MergePart(before, part[..j])
      {
        merged := MergeMember(merged, part[j]);
        assert part[..j + 1][..j] == part[..j];
      }
      assert part[..|part|] == part;
      assert parts[..i + 1][..i] == parts[..i];
    }
    assert parts[..|parts|] == parts;
  }

  // ---- The projection ----

  /** Where the projection stands: the document, the depth, and the references it is inside of. */
  datatype Place = Place(documents: Documents, file: string, depth: nat, seen: set<string>) {
    function Below(): Place {
      this.(depth := depth + 1)
    }

    function Through(target: Target): Place {
      this.(file := target.file, depth := depth + 1, seen := seen + {target.key})
    }

    function Left(): nat {
      if depth > MAX_PROJECTION_DEPTH then 0 else MAX_PROJECTION_DEPTH + 1 - depth
    }
  }

  function Project(place: Place, schema: Fields): Result<Fields, ProjectionError>
    decreases place.Left(), 5, 0
  {
    if place.depth > MAX_PROJECTION_DEPTH then Ok(LooseSchemaFor(schema))
    else
      match Get(schema, "$ref")
      case Some(Str(reference)) =>
        (match ResolveRef(place.documents, reference, place.file)
         case Err(e) => Err(e)
         case Ok(target) =>
           if target.key in place.seen then Ok(LooseSchemaFor(target.schema))
           else Project(place.Through(target), target.schema))
      case _ =>
        match Get(schema, "type")
        case Some(Arr(types)) =>
          var variants := ProjectVariants(place, schema, types);
          if variants.Err? then Err(variants.error) else Ok([Field("anyOf", Arr(variants.value))])
        case _ => ProjectObject(place, schema)
  }

  function ProjectObject(place: Place, schema: Fields): Result<Fields, ProjectionError>
    requires place.depth <= MAX_PROJECTION_DEPTH
    decreases place.Left(), 4, |schema| + 1
  {
    var base := ProjectMembers(place, schema);
    if base.Err? then base
    else
      var branches := ProjectBranches(place, ArrayItems(Get(schema, "allOf")));
      if branches.Err? then Err(branches.error)
      else if branches.value == [] then base
      else Ok(MergeParts([base.value] + branches.value))
  }

  /** One copy of the schema for each of its types. */
  function ProjectVariants(place: Place, schema: Fields, types: seq<Json>): Result<seq<Json>, ProjectionError>
    requires place.depth <= MAX_PROJECTION_DEPTH
    decreases place.Left(), 2, |types|
  {
    if types == [] then Ok([])
    else
      var first := Project(place.Below(), Put(schema, "type", types[0]));
      if first.Err? then Err(first.error)
      else
        var rest := ProjectVariants(place, schema, types[1..]);
        if rest.Err? then rest else Ok([Obj(first.value)] + rest.value)
  }

  /** A subschema that is not an object is replaced by the schema that accepts everything. */
  function ProjectChild(place: Place, child: Json): Result<Json, ProjectionError>
    requires place.depth <= MAX_PROJECTION_DEPTH
    decreases place.Left(), 1, 0
  {
    if !child.Obj? then Ok(Obj([]))
    else
      match Project(place.Below(), child.fields)
      case Err(e) => Err(e)
      case Ok(fields) => Ok(Obj(fields))
  }

  function ProjectChildren(place: Place, children: seq<Json>): Result<seq<Json>, ProjectionError>
    requires place.depth <= MAX_PROJECTION_DEPTH
    decreases place.Left(), 2, |children|
  {
    if children == [] then Ok([])
    else
      var first := ProjectChild(place, children[0]);
      if first.Err? then Err(first.error)
      else
        var rest := ProjectChildren(place, children[1..]);
        if rest.Err? then rest else Ok([first.value] + rest.value)
  }

  function ProjectProperties(place: Place, properties: Fields): Result<Fields, ProjectionError>
    requires place.depth <= MAX_PROJECTION_DEPTH
    decreases place.Left(), 2, |properties|
  {
    if properties == [] then Ok([])
    else
      var first := ProjectChild(place, properties[0].value);
      if first.Err? then Err(first.error)
      else
        var rest := ProjectProperties(place, properties[1..]);
        if rest.Err? then rest else Ok([Field(properties[0].key, first.value)] + rest.value)
  }

  /** What one member of the schema writes into the projection, if anything. */
  function ProjectMember(place: Place, member: Field): Result<Option<Field>, ProjectionError>
    requires place.depth <= MAX_PROJECTION_DEPTH
    decreases place.Left(), 3, 0
  {
    var (key, value) := (member.key, member.value);
    if key == "const" then Ok(Some(Field("enum", Arr([value]))))
    else if key == "properties" && value.Obj? then
      match ProjectProperties(place, value.fields)
      case Err(e) => Err(e)
      case Ok(fields) => Ok(Some(Field(key, Obj(fields))))
    else if key == "items" && value.Obj? then
      match ProjectChild(place, value)
      case Err(e) => Err(e)
      case Ok(schema) => Ok(Some(Field(key, schema)))
    else if (key == "anyOf" || key == "oneOf") && value.Arr? then
      match ProjectChildren(place, value.items)
      case Err(e) => Err(e)
      case Ok(items) => Ok(Some(Field(key, Arr(items))))
    else if key in SUPPORTED_KEYS then Ok(Some(member))
    else Ok(None)
  }

  function Written(base: Fields, member: Option<Field>): Fields {
    if member.None? then base else Put(base, member.value.key, member.value.value)
  }

  /** The members written one after the other: a later one replaces an earlier one of its key. */
  function ProjectMembers(place: Place, members: Fields): Result<Fields, ProjectionError>
    requires place.depth <= MAX_PROJECTION_DEPTH
    decreases place.Left(), 4, |members|
  {
    if members == [] then Ok([])
    else
      var base := ProjectMembers(place, members[..|members| - 1]);
      if base.Err? then base
      else
        match ProjectMember(place, members[|members| - 1])
        case Err(e) => Err(e)
        case Ok(member) => Ok(Written(base.value, member))
  }

  /** The branches of an `allOf` that are not conditionals. */
  function ProjectBranches(place: Place, branches: seq<Json>): Result<seq<Fields>, ProjectionError>
    requires place.depth <= MAX_PROJECTION_DEPTH
    decreases place.Left(), 2, |branches|
  {
    if branches == [] then Ok([])
    else if !Structural(branches[0]) then ProjectBranches(place, branches[1..])
    else
      var first := Project(place.Below(), branches[0].fields);
      if first.Err? then Err(first.error)
      else
        var rest := ProjectBranches(place, branches[1..]);
        if rest.Err? then rest else Ok([first.value] + rest.value)
  }

  /** Not a conditional: its `if`, `then` and `else` are absent, or values that a condition takes for false. */
  predicate Structural(branch: Json): (r: bool)
    ensures r <==>
      && branch.Obj?
      && forall k | k in Keys(branch.fields) && k in {"if", "then", "else"} ::
           At(branch.fields, k) in {Null, Bool(false), Num(0), Str("")}
  {
    branch.Obj? && !Truthy(Get(branch.fields, "if")) && !Truthy(Get(branch.fields, "then"))
    && !Truthy(Get(branch.fields, "else"))
  }

  /** After the first failing member the rest does not matter: the exception has been raised. */
  lemma {:induction false} FailureStays(place: Place, members: Fields, i: nat)
    requires place.depth <= MAX_PROJECTION_DEPTH && i <= |members| && ProjectMembers(place, members[..i]).Err?
    ensures ProjectMembers(place, members) == ProjectMembers(place, members[..i])
    decreases |members| - i
  {
    if i < |members| {
      assert members[..i + 1][..i] == members[..i];
      FailureStays(place, members, i + 1);
    } else {
      assert members[..i] == members;
    }
  }

  /** The loop that fills `base` member by member. */
  method FillBase(place: Place, schema: Fields) returns (r: Result<Fields, ProjectionError>)
    requires place.depth <= MAX_PROJECTION_DEPTH
    ensures r == ProjectMembers(place, schema)
  {
    hide ProjectMember, Written;
    var base := [];
    for i := 0 to |schema|
      invariant ProjectMembers(place, schema[..i]) == Ok(base)
    {
      assert schema[..i + 1][..i] == schema[..i];
      var member := ProjectMember(place, schema[i]);
      if member.Err? {
        FailureStays(place, schema, i + 1);
        return Err(member.error);
      }
      base := Written(base, member.value);
    }
    assert schema[..|schema|] == schema;
    return Ok(base);
  }

  /** The projection as it is written: `base` is filled in a loop and merged with the branches. */
  method ProjectSchema(place: Place, schema: Fields) returns (r: Result<Fields, ProjectionError>)
    ensures r == Project(place, schema)
    decreases place.Left()
  {
    hide ProjectMembers, ProjectVariants, ProjectBranches, ResolveRef, LooseSchemaFor, MergeParts;
    if place.depth > MAX_PROJECTION_DEPTH {
      return Ok(LooseSchemaFor(schema));
    }
    var ref, types := Get(schema, "$ref"), Get(schema, "type");
    if ref.Some? && ref.value.Str? {
      var resolved := ResolveRef(place.documents, ref.value.s, place.file);
      if resolved.Err? {
        return Err(resolved.error);
      }
      if resolved.value.key in place.seen {
        return Ok(LooseSchemaFor(resolved.value.schema));
      }
      r := ProjectSchema(place.Through(resolved.value), resolved.value.schema);
    } else if types.Some? && types.value.Arr? {
      var variants := ProjectVariants(place, schema, types.value.items);
      return if variants.Err? then Err(variants.error) else Ok([Field("anyOf", Arr(variants.value))]);
    } else {
      var base := FillBase(place, schema);
      var branches := ProjectBranches(place, ArrayItems(Get(schema, "allOf")));
      if base.Err? || branches.Err? {
        return if base.Err? then base else Err(branches.error);
      }
      if branches.value == [] {
        return base;
      }
      var merged := MergeObjectSchemas([base.value] + branches.value);
      return Ok(merged);
    }
  }
}
