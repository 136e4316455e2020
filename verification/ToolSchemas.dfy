/** The dereferencing of MCP tool schemas: every `$ref` is replaced by its target, in place. */
module ToolSchemas {
  import opened Json
  import opened JsonSchema
  import opened SchemaReferences

  // ---- The references a value mentions ----

  predicate IsReference(fields: Fields) {
    var ref := Get(fields, "$ref");
    ref.Some? && ref.value.Str?
  }

  /** Every reference text anywhere in the value. */
  function References(v: Json): set<string>
    decreases Size(v), 1
  {
    match v
    case Arr(items) => ReferencesOfItems(items)
    case Obj(fields) =>
      if IsReference(fields) then {Get(fields, "$ref").value.s} + ReferencesOfFields(Without(fields, "$ref"))
      else ReferencesOfFields(fields)
    case _ => {}
  }

  function ReferencesOfItems(items: seq<Json>): set<string>
    decreases 1 + SizeItems(items), 0
  {
    if items == [] then {} else References(items[0]) + ReferencesOfItems(items[1..])
  }

  function ReferencesOfFields(fields: Fields): set<string>
    decreases 1 + SizeFields(fields), 0
  {
    if fields == [] then {} else References(fields[0].value) + ReferencesOfFields(fields[1..])
  }

  lemma {:induction false} ReferencesOfItem(items: seq<Json>, x: Json)
    requires x in items
    ensures References(x) <= ReferencesOfItems(items)
  {
    if x != items[0] {
      ReferencesOfItem(items[1..], x);
    }
  }

  lemma {:induction false} ReferencesOfField(fields: Fields, f: Field)
    requires f in fields
    ensures References(f.value) <= ReferencesOfFields(fields)
  {
    if f != fields[0] {
      ReferencesOfField(fields[1..], f);
    }
  }

  /** A member's references are among the object's. */
  lemma ReferencesOfMember(fields: Fields, k: string)
    requires k in Keys(fields)
    ensures References(At(fields, k)) <= References(Obj(fields))
  {
    if IsReference(fields) && k != "$ref" {
      ReferencesOfField(Without(fields, "$ref"), Field(k, At(fields, k)));
    } else if !IsReference(fields) {
      ReferencesOfField(fields, Field(k, At(fields, k)));
    }
  }

  lemma {:induction false} ReferencesAlong(v: Json, tokens: seq<string>)
    requires Follow(v, tokens).Some?
    ensures References(Follow(v, tokens).value) <= References(v)
  {
    if tokens != [] {
      var member := Get(v.fields, tokens[0]).value;
      ReferencesOfMember(v.fields, tokens[0]);
      ReferencesAlong(member, tokens[1..]);
    }
  }

  // ---- The keys that can ever be on the stack ----

  /** The keys of those references that resolve, read in document `doc`. */
  ghost function TargetKeys(s: SchemaSet, references: set<string>, doc: string): set<string> {
    set r | r in references && ResolveReference(s, r, doc).Ok? :: ResolveReference(s, r, doc).value.Key()
  }

  /** `keys` holds the key of every resolvable reference of every document. */
  ghost predicate Covers(s: SchemaSet, keys: set<string>) {
    forall doc | doc in s.documents :: TargetKeys(s, References(s.documents[doc]), doc) <= keys
  }

  lemma TargetCovered(s: SchemaSet, keys: set<string>, r: string, doc: string)
    requires Covers(s, keys) && ResolveReference(s, r, doc).Ok?
    ensures var target := ResolveReference(s, r, doc).value;
      && References(target.value) <= References(s.documents[target.documentName])
      && TargetKeys(s, References(target.value), target.documentName) <= keys
  {
    var target := ResolveReference(s, r, doc).value;
    var document := s.documents[target.documentName];
    assert PointerTarget(document, target.pointer) == Ok(target.value);
    if target.pointer != "" && target.pointer != "/" {
      ReferencesAlong(document, Decoded(Split(target.pointer[1..], '/')));
    }
  }

  // ---- dereference ----

  /** `keys` only bounds the stack, for termination. */
  function Dereference(s: SchemaSet, ghost keys: set<string>, v: Json, doc: string, stack: set<string>)
    : (r: Result<Json, SchemaError>)
    requires Covers(s, keys) && TargetKeys(s, References(v), doc) <= keys
    decreases |keys - stack|, Size(v), 1
  {
    match v
    case Arr(items) =>
      var children := DereferenceItems(s, keys, items, doc, stack);
      if children.Err? then Err(children.error) else Ok(Arr(children.value))
    case Obj(fields) =>
      if IsReference(fields) then
        var reference := Get(fields, "$ref").value.s;
        var resolved := ResolveReference(s, reference, doc);
        if resolved.Err? then Err(resolved.error)
        else if resolved.value.Key() in stack then Err(ReferenceCycle(resolved.value.Key()))
        else
          assert resolved.value.Key() in TargetKeys(s, References(v), doc);
          assert |keys - (stack + {resolved.value.Key()})| < |keys - stack| by {
            Shrinks(keys, stack, resolved.value.Key());
          }
          TargetCovered(s, keys, reference, doc);
          var target := Dereference(
            s, keys, resolved.value.value, resolved.value.documentName, stack + {resolved.value.Key()});
          var siblings := Without(fields, "$ref");
          if target.Err? || siblings == [] then target
          else
            var rest := DereferenceFields(s, keys, siblings, doc, stack);
            if rest.Err? then Err(rest.error)
            else Ok(Obj(Spread([Field("allOf", Arr([target.value]))], rest.value)))
      else
        var members := DereferenceFields(s, keys, fields, doc, stack);
        if members.Err? then Err(members.error) else Ok(Obj(members.value))
    case _ => Ok(v)
  }

  function DereferenceItems(s: SchemaSet, ghost keys: set<string>, items: seq<Json>, doc: string, stack: set<string>)
    : (r: Result<seq<Json>, SchemaError>)
    requires Covers(s, keys) && TargetKeys(s, ReferencesOfItems(items), doc) <= keys
    decreases |keys - stack|, 1 + SizeItems(items), 0
  {
    if items == [] then Ok([])
    else
      var first := Dereference(s, keys, items[0], doc, stack);
      if first.Err? then Err(first.error)
      else
        var rest := DereferenceItems(s, keys, items[1..], doc, stack);
        if rest.Err? then rest else Ok([first.value] + rest.value)
  }

  function DereferenceFields(s: SchemaSet, ghost keys: set<string>, fields: Fields, doc: string, stack: set<string>)
    : (r: Result<Fields, SchemaError>)
    requires Covers(s, keys) && TargetKeys(s, ReferencesOfFields(fields), doc) <= keys
    decreases |keys - stack|, 1 + SizeFields(fields), 0
  {
    if fields == [] then Ok([])
    else
      var first := Dereference(s, keys, fields[0].value, doc, stack);
      if first.Err? then Err(first.error)
      else
        var rest := DereferenceFields(s, keys, fields[1..], doc, stack);
        if rest.Err? then rest else Ok([Field(fields[0].key, first.value)] + rest.value)
  }

  lemma Shrinks(keys: set<string>, stack: set<string>, key: string)
    requires key in keys && key !in stack
    ensures |keys - (stack + {key})| < |keys - stack|
  {
    assert keys - stack == (keys - (stack + {key})) + {key};
  }

  // ---- What dereferencing does to the parts of a value ----

  lemma {:induction false} FieldDereferenced(
    s: SchemaSet, keys: set<string>, fields: Fields, doc: string, stack: set<string>, k: string)
    requires Covers(s, keys) && TargetKeys(s, ReferencesOfFields(fields), doc) <= keys
    requires DereferenceFields(s, keys, fields, doc, stack).Ok?
    ensures var r := DereferenceFields(s, keys, fields, doc, stack).value;
      && (k in Keys(r) <==> k in Keys(fields))
      && (k in Keys(fields) ==>
           && TargetKeys(s, References(Get(fields, k).value), doc) <= keys
           && Dereference(s, keys, Get(fields, k).value, doc, stack) == Ok(Get(r, k).value))
    decreases |fields|
  {
    if fields != [] {
      KeysCons(fields);
      var r := DereferenceFields(s, keys, fields, doc, stack).value;
      KeysCons(r);
      if fields[0].key != k {
        FieldDereferenced(s, keys, fields[1..], doc, stack, k);
      }
    }
  }

  lemma {:induction false} ItemDereferenced(
    s: SchemaSet, keys: set<string>, items: seq<Json>, doc: string, stack: set<string>, i: nat)
    requires Covers(s, keys) && TargetKeys(s, ReferencesOfItems(items), doc) <= keys
    requires DereferenceItems(s, keys, items, doc, stack).Ok?
    ensures |DereferenceItems(s, keys, items, doc, stack).value| == |items|
    ensures i < |items| ==>
      && TargetKeys(s, References(items[i]), doc) <= keys
      && Dereference(s, keys, items[i], doc, stack) == Ok(DereferenceItems(s, keys, items, doc, stack).value[i])
    decreases |items|
  {
    if items != [] {
      ItemDereferenced(s, keys, items[1..], doc, stack, if i > 0 then i - 1 else 0);
    }
  }

  /** A value without references comes back as it is. */
  lemma {:induction false} Untouched(s: SchemaSet, keys: set<string>, v: Json, doc: string, stack: set<string>)
    requires Covers(s, keys) && References(v) == {}
    ensures Dereference(s, keys, v, doc, stack) == Ok(v)
    decreases v, 1
  {
    match v
    case Arr(items) => UntouchedItems(s, keys, items, doc, stack);
    case Obj(fields) => UntouchedFields(s, keys, fields, doc, stack);
    case _ =>
  }

  lemma {:induction false} UntouchedItems(
    s: SchemaSet, keys: set<string>, items: seq<Json>, doc: string, stack: set<string>)
    requires Covers(s, keys) && ReferencesOfItems(items) == {}
    ensures DereferenceItems(s, keys, items, doc, stack) == Ok(items)
    decreases items, 0
  {
    if items != [] {
      Untouched(s, keys, items[0], doc, stack);
      UntouchedItems(s, keys, items[1..], doc, stack);
      assert [items[0]] + items[1..] == items;
    }
  }

  lemma {:induction false} UntouchedFields(
    s: SchemaSet, keys: set<string>, fields: Fields, doc: string, stack: set<string>)
    requires Covers(s, keys) && ReferencesOfFields(fields) == {}
    ensures DereferenceFields(s, keys, fields, doc, stack) == Ok(fields)
    decreases fields, 0
  {
    if fields != [] {
      Untouched(s, keys, fields[0].value, doc, stack);
      UntouchedFields(s, keys, fields[1..], doc, stack);
      assert [Field(fields[0].key, fields[0].value)] + fields[1..] == fields;
    }
  }

  // ---- Whole dereferencings ----

  /** Every key a dereferencing of `v` can meet. */
  ghost function AllKeys(s: SchemaSet, v: Json, doc: string): (keys: set<string>)
    ensures Covers(s, keys) && TargetKeys(s, References(v), doc) <= keys
  {
    TargetKeys(s, References(v), doc)
    + set d, r | d in s.documents && r in References(s.documents[d]) && ResolveReference(s, r, d).Ok?
        :: ResolveReference(s, r, d).value.Key()
  }

  function DereferenceSchema(s: SchemaSet, v: Json, doc: string): Result<Json, SchemaError> {
    Dereference(s, AllKeys(s, v, doc), v, doc, {})
  }

  const TOOL_CONTRACTS := "mcp-tool-contracts.schema.json"

  /** The schema of a tool: what its reference leads to, dereferenced; it must be an object. */
  function SchemaFromRef(s: SchemaSet, reference: string): Result<Json, SchemaError> {
    match ResolveReference(s, reference, TOOL_CONTRACTS)
    case Err(e) => Err(e)
    case Ok(target) =>
      var schema := DereferenceSchema(s, target.value, target.documentName);
      if schema.Ok? && !schema.value.Obj? then Err(ToolSchemaInvalid(reference)) else schema
  }

  // ---- When dereferencing fails ----

  /** A chain of references, each written inside what the one before it led to, that comes to an
      end: at a reference that does not resolve, or at one whose target is in `passed` or was
      already passed on the way. */
  ghost predicate Fatal(s: SchemaSet, v: Json, doc: string, passed: set<string>, chain: seq<string>)
    decreases |chain|
  {
    && chain != []
    && chain[0] in References(v)
    && match ResolveReference(s, chain[0], doc)
       case Err(_) => true
       case Ok(target) =>
         || target.Key() in passed
         || Fatal(s, target.value, target.documentName, passed + {target.Key()}, chain[1..])
  }

  /** After a success, every reference written anywhere in the value led to a success of its own. */
  lemma {:induction false} MentionedSucceeds(
    s: SchemaSet, keys: set<string>, v: Json, doc: string, stack: set<string>, r: string)
    requires Covers(s, keys) && TargetKeys(s, References(v), doc) <= keys
    requires Dereference(s, keys, v, doc, stack).Ok? && r in References(v)
    ensures var target := ResolveReference(s, r, doc);
      && target.Ok? && target.value.Key() !in stack
      && TargetKeys(s, References(target.value.value), target.value.documentName) <= keys
      && Dereference(s, keys, target.value.value, target.value.documentName, stack + {target.value.Key()}).Ok?
    decreases Size(v), 1
  {
    match v
    case Arr(items) =>
      var i := ItemMentioning(items, r);
      ItemDereferenced(s, keys, items, doc, stack, i);
      SizeItem(items, i);
      MentionedSucceeds(s, keys, items[i], doc, stack, r);
    case Obj(fields) =>
      if IsReference(fields) && Get(fields, "$ref").value.s == r {
        TargetCovered(s, keys, r, doc);
      } else if IsReference(fields) {
        var siblings := Without(fields, "$ref");
        FieldMentionedSucceeds(s, keys, siblings, doc, stack, r);
      } else {
        FieldMentionedSucceeds(s, keys, fields, doc, stack, r);
      }
    case _ =>
  }

  lemma {:induction false} FieldMentionedSucceeds(
    s: SchemaSet, keys: set<string>, fields: Fields, doc: string, stack: set<string>, r: string)
    requires Covers(s, keys) && TargetKeys(s, ReferencesOfFields(fields), doc) <= keys
    requires DereferenceFields(s, keys, fields, doc, stack).Ok? && r in ReferencesOfFields(fields)
    ensures var target := ResolveReference(s, r, doc);
      && target.Ok? && target.value.Key() !in stack
      && TargetKeys(s, References(target.value.value), target.value.documentName) <= keys
      && Dereference(s, keys, target.value.value, target.value.documentName, stack + {target.value.Key()}).Ok?
    decreases 1 + SizeFields(fields), 0
  {
    if r in References(fields[0].value) {
      MentionedSucceeds(s, keys, fields[0].value, doc, stack, r);
    } else {
      FieldMentionedSucceeds(s, keys, fields[1..], doc, stack, r);
    }
  }

  lemma {:induction false} ItemMentioning(items: seq<Json>, r: string) returns (i: nat)
    requires r in ReferencesOfItems(items)
    ensures i < |items| && r in References(items[i])
  {
    if r in References(items[0]) {
      i := 0;
    } else {
      i := ItemMentioning(items[1..], r);
      i := i + 1;
    }
  }

  lemma {:induction false} FatalFails(
    s: SchemaSet, keys: set<string>, v: Json, doc: string, stack: set<string>, chain: seq<string>)
    requires Covers(s, keys) && TargetKeys(s, References(v), doc) <= keys
    requires Fatal(s, v, doc, stack, chain)
    ensures Dereference(s, keys, v, doc, stack).Err?
    decreases |chain|
  {
    if Dereference(s, keys, v, doc, stack).Ok? {
      MentionedSucceeds(s, keys, v, doc, stack, chain[0]);
      var target := ResolveReference(s, chain[0], doc).value;
      FatalFails(s, keys, target.value, target.documentName, stack + {target.Key()}, chain[1..]);
      assert false;
    }
  }

  lemma {:induction false} FailureIsFatal(
    s: SchemaSet, keys: set<string>, v: Json, doc: string, stack: set<string>) returns (chain: seq<string>)
    requires Covers(s, keys) && TargetKeys(s, References(v), doc) <= keys
    requires Dereference(s, keys, v, doc, stack).Err?
    ensures Fatal(s, v, doc, stack, chain)
    decreases |keys - stack|, Size(v), 1
  {
    match v
    case Arr(items) =>
      chain := ItemFailureIsFatal(s, keys, items, doc, stack);
    case Obj(fields) =>
      if IsReference(fields) {
        var reference := Get(fields, "$ref").value.s;
        var resolved := ResolveReference(s, reference, doc);
        chain := [reference];
        if resolved.Ok? && resolved.value.Key() !in stack {
          var target := resolved.value;
          assert target.Key() in TargetKeys(s, References(v), doc);
          Shrinks(keys, stack, target.Key());
          TargetCovered(s, keys, reference, doc);
          if Dereference(s, keys, target.value, target.documentName, stack + {target.Key()}).Err? {
            var rest := FailureIsFatal(s, keys, target.value, target.documentName, stack + {target.Key()});
            chain := [reference] + rest;
            assert chain[1..] == rest;
          } else {
            chain := FieldFailureIsFatal(s, keys, Without(fields, "$ref"), doc, stack);
          }
        }
      } else {
        chain := FieldFailureIsFatal(s, keys, fields, doc, stack);
      }
  }

  lemma {:induction false} ItemFailureIsFatal(
    s: SchemaSet, keys: set<string>, items: seq<Json>, doc: string, stack: set<string>) returns (chain: seq<string>)
    requires Covers(s, keys) && TargetKeys(s, ReferencesOfItems(items), doc) <= keys
    requires DereferenceItems(s, keys, items, doc, stack).Err?
    ensures Fatal(s, Arr(items), doc, stack, chain)
    decreases |keys - stack|, 1 + SizeItems(items), 0
  {
    if Dereference(s, keys, items[0], doc, stack).Err? {
      chain := FailureIsFatal(s, keys, items[0], doc, stack);
    } else {
      chain := ItemFailureIsFatal(s, keys, items[1..], doc, stack);
    }
  }

  /** The chain starts among the members' references. */
  lemma {:induction false} FieldFailureIsFatal(
    s: SchemaSet, keys: set<string>, fields: Fields, doc: string, stack: set<string>) returns (chain: seq<string>)
    requires Covers(s, keys) && TargetKeys(s, ReferencesOfFields(fields), doc) <= keys
    requires DereferenceFields(s, keys, fields, doc, stack).Err?
    ensures chain != [] && chain[0] in ReferencesOfFields(fields)
    ensures forall v | chain[0] in References(v) :: Fatal(s, v, doc, stack, chain)
    decreases |keys - stack|, 1 + SizeFields(fields), 0
  {
    if Dereference(s, keys, fields[0].value, doc, stack).Err? {
      chain := FailureIsFatal(s, keys, fields[0].value, doc, stack);
    } else {
      chain := FieldFailureIsFatal(s, keys, fields[1..], doc, stack);
    }
  }

  /** Dereferencing fails exactly when following written references can run into one that does not
      resolve, or back to a target it has passed. */
  lemma DereferenceFailsExactly(s: SchemaSet, v: Json, doc: string)
    ensures DereferenceSchema(s, v, doc).Err? <==> exists chain :: Fatal(s, v, doc, {}, chain)
  {
    hide Fatal, Dereference;
    var keys := AllKeys(s, v, doc);
    assert DereferenceSchema(s, v, doc) == Dereference(s, keys, v, doc, {});
    if Dereference(s, keys, v, doc, {}).Err? {
      var chain := FailureIsFatal(s, keys, v, doc, {});
      assert exists c :: Fatal(s, v, doc, {}, c);
    } else {
      forall chain ensures !Fatal(s, v, doc, {}, chain) {
        if Fatal(s, v, doc, {}, chain) {
          FatalFails(s, keys, v, doc, {}, chain);
        }
      }
      assert !exists c :: Fatal(s, v, doc, {}, c);
    }
  }

  /** A schema is served exactly if its reference leads to a value that dereferences, to an object. */
  lemma ServedExactly(s: SchemaSet, reference: string)
    ensures SchemaFromRef(s, reference).Ok? <==>
      var target := ResolveReference(s, reference, TOOL_CONTRACTS);
      && target.Ok?
      && (forall chain :: !Fatal(s, target.value.value, target.value.documentName, {}, chain))
      && var schema := DereferenceSchema(s, target.value.value, target.value.documentName);
         schema.Ok? ==> schema.value.Obj?
  {
    hide Dereference, Fatal;
    var target := ResolveReference(s, reference, TOOL_CONTRACTS);
    if target.Ok? {
      DereferenceFailsExactly(s, target.value.value, target.value.documentName);
    }
  }

  // ---- No reference is left ----

  /** No `$ref` member holds an object that is itself a reference. Every schema whose `$ref` members
      are texts is plain. */
  ghost predicate Plain(v: Json)
    decreases Size(v), 1
  {
    match v
    case Arr(items) => forall x | x in items && Size(x) < Size(v) :: Plain(x)
    case Obj(fields) =>
      && (forall f | f in fields && f.key == "$ref" && f.value.Obj? :: !IsReference(f.value.fields))
      && (forall f | f in fields && Size(f.value) < Size(v) :: Plain(f.value))
    case _ => true
  }

  ghost predicate PlainSet(s: SchemaSet) {
    forall doc | doc in s.documents :: Plain(s.documents[doc])
  }

  lemma {:induction false} PlainAlong(v: Json, tokens: seq<string>)
    requires Plain(v) && Follow(v, tokens).Some?
    ensures Plain(Follow(v, tokens).value)
  {
    if tokens != [] {
      PlainAlong(At(v.fields, tokens[0]), tokens[1..]);
    }
  }

  lemma PlainInside(v: Json)
    requires Plain(v)
    ensures v.Arr? ==> forall x | x in v.items :: Plain(x)
    ensures v.Obj? ==> forall f | f in v.fields :: Plain(f.value)
    ensures v.Obj? ==> forall f | f in v.fields && f.key == "$ref" && f.value.Obj? :: !IsReference(f.value.fields)
  {
    if v.Arr? {
      forall i | 0 <= i < |v.items| ensures Plain(v.items[i]) {
        SizeItem(v.items, i);
        assert v.items[i] in v.items;
      }
    } else if v.Obj? {
      forall f | f in v.fields ensures Plain(f.value) {
        var i :| 0 <= i < |v.fields| && v.fields[i] == f;
        SizeField(v.fields, i);
      }
    }
  }

  lemma PlainTarget(s: SchemaSet, r: string, doc: string)
    requires PlainSet(s) && ResolveReference(s, r, doc).Ok?
    ensures Plain(ResolveReference(s, r, doc).value.value)
  {
    var target := ResolveReference(s, r, doc).value;
    if target.pointer != "" && target.pointer != "/" {
      PlainAlong(s.documents[target.documentName], Decoded(Split(target.pointer[1..], '/')));
    }
  }

  /** What a plain value dereferences to holds no reference, in any position. */
  lemma {:induction false} NoReferenceLeft(s: SchemaSet, keys: set<string>, v: Json, doc: string, stack: set<string>)
    requires Covers(s, keys) && TargetKeys(s, References(v), doc) <= keys
    requires PlainSet(s) && Plain(v) && Dereference(s, keys, v, doc, stack).Ok?
    ensures References(Dereference(s, keys, v, doc, stack).value) == {}
    decreases |keys - stack|, Size(v), 1
  {
    hide Plain, PlainSet;
    PlainInside(v);
    match v
    case Arr(items) => NoReferenceLeftInItems(s, keys, items, doc, stack);
    case Obj(fields) =>
      if IsReference(fields) {
        NoReferenceLeftAtReference(s, keys, fields, doc, stack);
      } else {
        NoReferenceLeftInFields(s, keys, fields, doc, stack);
        FieldDereferenced(s, keys, fields, doc, stack, "$ref");
      }
    case _ =>
  }

  lemma {:induction false} NoReferenceLeftAtReference(
    s: SchemaSet, keys: set<string>, fields: Fields, doc: string, stack: set<string>)
    requires Covers(s, keys) && TargetKeys(s, References(Obj(fields)), doc) <= keys
    requires PlainSet(s) && (forall f | f in fields :: Plain(f.value)) && IsReference(fields)
    requires Dereference(s, keys, Obj(fields), doc, stack).Ok?
    ensures References(Dereference(s, keys, Obj(fields), doc, stack).value) == {}
    decreases |keys - stack|, 1 + SizeFields(fields), 0
  {
    hide Plain, PlainSet, Spread;
    var reference, siblings := Get(fields, "$ref").value.s, Without(fields, "$ref");
    var target := ResolveReference(s, reference, doc).value;
    Shrinks(keys, stack, target.Key());
    TargetCovered(s, keys, reference, doc);
    PlainTarget(s, reference, doc);
    NoReferenceLeft(s, keys, target.value, target.documentName, stack + {target.Key()});
    if siblings != [] {
      NoReferenceLeftInFields(s, keys, siblings, doc, stack);
      var y := Dereference(s, keys, target.value, target.documentName, stack + {target.Key()}).value;
      NoReferenceBeside(s, keys, siblings, doc, stack, y);
    }
  }

  lemma NoReferenceBeside(
    s: SchemaSet, keys: set<string>, siblings: Fields, doc: string, stack: set<string>, y: Json)
    requires Covers(s, keys) && TargetKeys(s, ReferencesOfFields(siblings), doc) <= keys
    requires "$ref" !in Keys(siblings) && DereferenceFields(s, keys, siblings, doc, stack).Ok? && References(y) == {}
    requires ReferencesOfFields(DereferenceFields(s, keys, siblings, doc, stack).value) == {}
    ensures References(Obj(Spread([Field("allOf", Arr([y]))], DereferenceFields(s, keys, siblings, doc, stack).value))) == {}
  {
    hide Spread, Dereference, DereferenceFields;
    FieldDereferenced(s, keys, siblings, doc, stack, "$ref");
    var rest, left := DereferenceFields(s, keys, siblings, doc, stack).value, [Field("allOf", Arr([y]))];
    assert ReferencesOfItems([y]) == {};
    SpreadWithoutReferences(left, rest);
    KeysSpread(left, rest);
  }

  lemma {:induction false} NoReferenceLeftInItems(
    s: SchemaSet, keys: set<string>, items: seq<Json>, doc: string, stack: set<string>)
    requires Covers(s, keys) && TargetKeys(s, ReferencesOfItems(items), doc) <= keys
    requires PlainSet(s) && (forall x | x in items :: Plain(x)) && DereferenceItems(s, keys, items, doc, stack).Ok?
    ensures ReferencesOfItems(DereferenceItems(s, keys, items, doc, stack).value) == {}
    decreases |keys - stack|, 1 + SizeItems(items), 0
  {
    if items != [] {
      NoReferenceLeft(s, keys, items[0], doc, stack);
      NoReferenceLeftInItems(s, keys, items[1..], doc, stack);
    }
  }

  lemma {:induction false} NoReferenceLeftInFields(
    s: SchemaSet, keys: set<string>, fields: Fields, doc: string, stack: set<string>)
    requires Covers(s, keys) && TargetKeys(s, ReferencesOfFields(fields), doc) <= keys
    requires PlainSet(s) && (forall f | f in fields :: Plain(f.value)) && DereferenceFields(s, keys, fields, doc, stack).Ok?
    ensures ReferencesOfFields(DereferenceFields(s, keys, fields, doc, stack).value) == {}
    decreases |keys - stack|, 1 + SizeFields(fields), 0
  {
    if fields != [] {
      NoReferenceLeft(s, keys, fields[0].value, doc, stack);
      NoReferenceLeftInFields(s, keys, fields[1..], doc, stack);
    }
  }

  lemma {:induction false} PutWithoutReferences(fields: Fields, key: string, value: Json)
    requires ReferencesOfFields(fields) == {} && References(value) == {}
    ensures ReferencesOfFields(Put(fields, key, value)) == {}
  {
    if fields != [] && fields[0].key != key {
      PutWithoutReferences(fields[1..], key, value);
    }
  }

  lemma {:induction false} SpreadWithoutReferences(left: Fields, right: Fields)
    requires ReferencesOfFields(left) == {} && ReferencesOfFields(right) == {}
    ensures ReferencesOfFields(Spread(left, right)) == {}
    decreases |right|
  {
    if right != [] {
      PutWithoutReferences(left, right[0].key, right[0].value);
      SpreadWithoutReferences(Put(left, right[0].key, right[0].value), right[1..]);
    }
  }

  /** A dereferenced schema holds no reference, in any position. */
  lemma DereferenceLeavesNoReference(s: SchemaSet, v: Json, doc: string)
    requires PlainSet(s) && Plain(v) && DereferenceSchema(s, v, doc).Ok?
    ensures References(DereferenceSchema(s, v, doc).value) == {}
  {
    NoReferenceLeft(s, AllKeys(s, v, doc), v, doc, {});
  }

  // ---- A reference that is made by dereferencing ----

  lemma RootResolves(s: SchemaSet, root: Json)
    requires s.documents == map["d" := root]
    ensures ResolveReference(s, "#", "d") == Ok(Resolution("d", "", root))
  {
    assert Split("#", '#') == [[], []];
  }

  const REFERENCE_TO_TEXT := Obj([Field("$ref", Str("#"))])

  /** How a reference can be made: a `$ref` member that is an object is no reference, but becomes one if that object is itself
      a reference to a text. */
  lemma ReferenceMade(s: SchemaSet, text: string)
    requires s.documents == map["d" := Str(text)]
    ensures var schema := Obj([Field("$ref", REFERENCE_TO_TEXT)]);
      && !Plain(schema)
      && DereferenceSchema(s, schema, "d") == Ok(Obj([Field("$ref", Str(text))]))
      && References(Obj([Field("$ref", Str(text))])) != {}
  {
    var (inner, outer) := (REFERENCE_TO_TEXT.fields, [Field("$ref", REFERENCE_TO_TEXT)]);
    assert Get(inner, "$ref") == Some(Str("#")) && Without(inner, "$ref") == [];
    assert Get(outer, "$ref") == Some(REFERENCE_TO_TEXT);
    assert Get([Field("$ref", Str(text))], "$ref") == Some(Str(text));
    hide ResolveReference, Get, Without, Spread;
    RootResolves(s, Str(text));
    var keys := AllKeys(s, Obj(outer), "d");
    assert !IsReference(outer) && IsReference(inner);
    ReferencesOfField(outer, outer[0]);
    assert TargetKeys(s, References(REFERENCE_TO_TEXT), "d") <= TargetKeys(s, References(Obj(outer)), "d");
    assert Dereference(s, keys, REFERENCE_TO_TEXT, "d", {}) == Ok(Str(text));
    assert outer[1..] == [] && ReferencesOfFields([]) == {};
    assert DereferenceFields(s, keys, [], "d", {}) == Ok([]);
    assert [Field("$ref", Str(text))] + [] == [Field("$ref", Str(text))];
    assert DereferenceFields(s, keys, outer, "d", {}) == Ok([Field("$ref", Str(text))]);
  }
}
