/** The meaning of a JSON Schema (2020-12) document set whose references may be cyclic.

    `Judge(w, want, fuel, ...)` says that the verdict `want` on an instance is established by
    following at most `fuel` references in a row. A schema that can only be judged by going
    around a reference cycle for ever has no verdict at all. `Noted` says in the same way whether a schema
    evaluates a property of an instance that it accepts, which `unevaluatedProperties` asks.
  */
module JsonSchema {
  import opened Json

  /** What a validator is given besides the schema: where a reference leads from a document, and
      the keywords that only look at the instance (`pattern`, `minimum`, `format`, ...). */
  datatype World = World(
    resolve: (string, string) -> Option<(string, Json)>,
    assertion: (string, Json, Json) -> bool)

  type Verdict = (bool, Json, Json) -> bool

  /** Whether a schema evaluates a property of an instance that it accepts: seen or not, the schema, the
      instance, and the name of the property. */
  type Notes = (bool, Json, Json, string) -> bool

  // ---- One keyword, given the verdicts on the subschemas it applies ----

  predicate HasType(name: string, v: Json) {
    match v
    case Null => name == "null"
    case Bool(_) => name == "boolean"
    case Num(_) => name == "integer" || name == "number"
    case Str(_) => name == "string"
    case Arr(_) => name == "array"
    case Obj(_) => name == "object"
  }

  predicate TypeAllows(t: Json, v: Json) {
    match t
    case Str(name) => HasType(name, v)
    case Arr(names) => exists x | x in names :: x.Str? && HasType(x.s, v)
    case _ => true
  }

  datatype Kind =
    | Reference | Definitions
    | Type | Const | Enum | Required
    | Properties | AdditionalProperties | PrefixItems | Items
    | AllOf | AnyOf | OneOf | Not | If | Then | Else
    | Unevaluated
    | Assertion

  function KindOf(keyword: string): Kind {
    match keyword
    case "$ref" => Reference
    case "$defs" => Definitions
    case "type" => Type
    case "const" => Const
    case "enum" => Enum
    case "required" => Required
    case "properties" => Properties
    case "additionalProperties" => AdditionalProperties
    case "prefixItems" => PrefixItems
    case "items" => Items
    case "allOf" => AllOf
    case "anyOf" => AnyOf
    case "oneOf" => OneOf
    case "not" => Not
    case "if" => If
    case "then" => Then
    case "else" => Else
    case "unevaluatedProperties" => Unevaluated
    case _ => Assertion
  }

  lemma ReferenceKey(keyword: string)
    ensures KindOf(keyword) == Reference <==> keyword == "$ref"
    ensures KindOf(keyword) == Unevaluated <==> keyword == "unevaluatedProperties"
  {
  }

  lemma KeyKinds()
    ensures KindOf("$ref") == Reference && KindOf("type") == Type && KindOf("const") == Const && KindOf("enum") == Enum
    ensures KindOf("required") == Required && KindOf("properties") == Properties
    ensures KindOf("additionalProperties") == AdditionalProperties
    ensures KindOf("prefixItems") == PrefixItems && KindOf("items") == Items
    ensures KindOf("allOf") == AllOf && KindOf("anyOf") == AnyOf && KindOf("oneOf") == OneOf
    ensures KindOf("if") == If && KindOf("then") == Then && KindOf("else") == Else
  {
  }

  predicate TakesList(kind: Kind) {
    kind == AllOf || kind == AnyOf || kind == OneOf || kind == PrefixItems
  }

  predicate TakesSchema(kind: Kind) {
    kind == AdditionalProperties || kind == Items || kind == Not || kind == If || kind == Then || kind == Else
    || kind == Unevaluated
  }

  /** What a keyword needs to know about the other keywords of its schema object. */
  datatype Siblings = Siblings(
    named: set<string>, prefix: nat, thenBranch: Option<Json>, elseBranch: Option<Json>)

  function SiblingsOf(schema: Fields): Siblings {
    Siblings(PropertyNames(schema), PrefixLength(schema), Get(schema, "then"), Get(schema, "else"))
  }

  function PropertyNames(schema: Fields): set<string> {
    var p := Get(schema, "properties");
    if p.Some? && p.value.Obj? then Keys(p.value.fields) else {}
  }

  function PrefixLength(schema: Fields): nat {
    var p := Get(schema, "prefixItems");
    if p.Some? && p.value.Arr? then |p.value.items| else 0
  }

  /** The branch of a conditional: an absent branch accepts. */
  ghost predicate BranchGives(judge: Verdict, want: bool, branch: Option<Json>, v: Json) {
    if branch.None? then want else judge(want, branch.value, v)
  }

  /** Keyword `k`, of kind `kind` and with value `a`, gives the verdict `want` on `v`. */
  ghost predicate Applies(
    judge: Verdict, w: World, want: bool, kind: Kind, k: string, a: Json, siblings: Siblings, v: Json)
  {
    match kind
    case Type => TypeAllows(a, v) == want
    case Const => Same(a, v) == want
    case Enum => if a.Arr? then (exists x | x in a.items :: Same(x, v)) == want else want
    case Required =>
      if a.Arr? && v.Obj? then
        (forall x | x in a.items && x.Str? :: x.s in Keys(v.fields)) == want
      else want
    case Properties =>
      if !a.Obj? || !v.Obj? then want
      else if want then
        forall p | p in Keys(a.fields) && p in Keys(v.fields) ::
          judge(true, Get(a.fields, p).value, Get(v.fields, p).value)
      else
        exists p | p in Keys(a.fields) && p in Keys(v.fields) ::
          judge(false, Get(a.fields, p).value, Get(v.fields, p).value)
    case AdditionalProperties =>
      if !v.Obj? then want
      else if want then
        forall p | p in Keys(v.fields) && p !in siblings.named :: judge(true, a, Get(v.fields, p).value)
      else
        exists p | p in Keys(v.fields) && p !in siblings.named :: judge(false, a, Get(v.fields, p).value)
    case PrefixItems =>
      if !a.Arr? || !v.Arr? then want
      else if want then
        forall i | 0 <= i < |a.items| && i < |v.items| :: judge(true, a.items[i], v.items[i])
      else
        exists i | 0 <= i < |a.items| && i < |v.items| :: judge(false, a.items[i], v.items[i])
    case Items =>
      if !v.Arr? then want
      else if want then forall i | siblings.prefix <= i < |v.items| :: judge(true, a, v.items[i])
      else exists i | siblings.prefix <= i < |v.items| :: judge(false, a, v.items[i])
    case AllOf =>
      if !a.Arr? then want
      else if want then forall i | 0 <= i < |a.items| :: judge(true, a.items[i], v)
      else exists i | 0 <= i < |a.items| :: judge(false, a.items[i], v)
    case AnyOf =>
      if !a.Arr? then want
      else if want then exists i | 0 <= i < |a.items| :: judge(true, a.items[i], v)
      else forall i | 0 <= i < |a.items| :: judge(false, a.items[i], v)
    case OneOf =>
      if !a.Arr? then want
      else if want then
        exists i | 0 <= i < |a.items| ::
          judge(true, a.items[i], v) && forall j | 0 <= j < |a.items| && j != i :: judge(false, a.items[j], v)
      else
        || (forall i | 0 <= i < |a.items| :: judge(false, a.items[i], v))
        || (exists i, j | 0 <= i < j < |a.items| :: judge(true, a.items[i], v) && judge(true, a.items[j], v))
    case Not => judge(!want, a, v)
    case If =>
      || (judge(true, a, v) && BranchGives(judge, want, siblings.thenBranch, v))
      || (judge(false, a, v) && BranchGives(judge, want, siblings.elseBranch, v))
    case Assertion => w.assertion(k, a, v) == want
    case Then => want
    case Else => want
    case Definitions => want
    case Reference => want
    case Unevaluated => want
  }

  /** A keyword evaluates property `p` of the object `v`, or does not, given the verdicts and notes on the subschemas
      that it applies. */
  ghost predicate Marks(
    judge: Verdict, notes: Notes, seen: bool, kind: Kind, a: Json, siblings: Siblings, v: Json, p: string)
  {
    match kind
    case Properties => (a.Obj? && p in Keys(a.fields)) == seen
    case AdditionalProperties => (p !in siblings.named) == seen
    case Unevaluated => seen
    case AllOf =>
      if !a.Arr? then !seen
      else if seen then exists i | 0 <= i < |a.items| :: notes(true, a.items[i], v, p)
      else forall i | 0 <= i < |a.items| :: notes(false, a.items[i], v, p)
    case AnyOf => BranchesMark(judge, notes, seen, a, v, p)
    case OneOf => BranchesMark(judge, notes, seen, a, v, p)
    case If => ConditionalMarks(judge, notes, seen, a, siblings, v, p)
    case _ => !seen
  }

  /** Only branches that accept the instance evaluate anything. */
  ghost predicate BranchesMark(judge: Verdict, notes: Notes, seen: bool, a: Json, v: Json, p: string) {
    if !a.Arr? then !seen
    else if seen then exists i | 0 <= i < |a.items| :: judge(true, a.items[i], v) && notes(true, a.items[i], v, p)
    else forall i | 0 <= i < |a.items| :: judge(false, a.items[i], v) || notes(false, a.items[i], v, p)
  }

  ghost predicate ConditionalMarks(
    judge: Verdict, notes: Notes, seen: bool, a: Json, siblings: Siblings, v: Json, p: string)
  {
    var (yes, no) := (siblings.thenBranch, siblings.elseBranch);
    if seen then
      || (judge(true, a, v) && (notes(true, a, v, p) || BranchMarks(notes, true, yes, v, p)))
      || (judge(false, a, v) && BranchMarks(notes, true, no, v, p))
    else
      || (judge(true, a, v) && notes(false, a, v, p) && BranchMarks(notes, false, yes, v, p))
      || (judge(false, a, v) && BranchMarks(notes, false, no, v, p))
  }

  ghost predicate BranchMarks(notes: Notes, seen: bool, branch: Option<Json>, v: Json, p: string) {
    if branch.None? then !seen else notes(seen, branch.value, v, p)
  }

  /** `unevaluatedProperties` judges the properties that the keywords beside it have not evaluated. */
  ghost predicate ClosesOff(judge: Verdict, beside: (bool, string) -> bool, want: bool, a: Json, v: Json) {
    if !v.Obj? then want
    else if want then
      forall p | p in Keys(v.fields) :: beside(true, p) || judge(true, a, Get(v.fields, p).value)
    else
      exists p | p in Keys(v.fields) :: beside(false, p) && judge(false, a, Get(v.fields, p).value)
  }

  // ---- Whole schemas ----

  /** A boolean schema, a schema object, or (for anything else) a schema that rejects. */
  ghost predicate Judge(w: World, want: bool, fuel: nat, doc: string, schema: Json, v: Json)
    decreases fuel, Size(schema), 5
  {
    match schema
    case Bool(b) => b == want
    case Obj(fields) =>
      if want then forall k | k in Keys(fields) :: Keyword(w, true, fuel, doc, fields, k, v)
      else exists k | k in Keys(fields) :: Keyword(w, false, fuel, doc, fields, k, v)
    case _ => !want
  }

  ghost predicate Keyword(w: World, want: bool, fuel: nat, doc: string, schema: Fields, k: string, v: Json)
    requires k in Keys(schema)
    decreases fuel, 1 + SizeFields(schema), 4
  {
    var a := Get(schema, k).value;
    if KindOf(k) == Reference && a.Str? then
      match w.resolve(doc, a.s)
      case None => false
      case Some(target) => fuel > 0 && Judge(w, want, fuel - 1, target.0, target.1, v)
    else if KindOf(k) == Unevaluated then
      ClosesOff(Judgement(w, fuel, doc, 1 + SizeFields(schema)), Beside(w, fuel, doc, schema, v), want, a, v)
    else
      Applies(Judgement(w, fuel, doc, 1 + SizeFields(schema)), w, want, KindOf(k), k, a, SiblingsOf(schema), v)
  }

  /** What the keywords beside `unevaluatedProperties` evaluate. */
  ghost function Beside(w: World, fuel: nat, doc: string, schema: Fields, v: Json): (bool, string) -> bool
    decreases fuel, 1 + SizeFields(schema), 3
  {
    (seen: bool, p: string) =>
      if seen then exists k | k in Keys(schema) && KindOf(k) != Unevaluated :: Marking(w, true, fuel, doc, schema, k, v, p)
      else forall k | k in Keys(schema) && KindOf(k) != Unevaluated :: Marking(w, false, fuel, doc, schema, k, v, p)
  }

  /** The schema evaluates property `p` of `v`, or does not. */
  ghost predicate Noted(w: World, seen: bool, fuel: nat, doc: string, schema: Json, v: Json, p: string)
    decreases fuel, Size(schema), 3
  {
    match schema
    case Obj(fields) =>
      if seen then exists k | k in Keys(fields) :: Marking(w, true, fuel, doc, fields, k, v, p)
      else forall k | k in Keys(fields) :: Marking(w, false, fuel, doc, fields, k, v, p)
    case _ => !seen
  }

  ghost predicate Marking(w: World, seen: bool, fuel: nat, doc: string, schema: Fields, k: string, v: Json, p: string)
    requires k in Keys(schema)
    decreases fuel, 1 + SizeFields(schema), 2
  {
    var a := Get(schema, k).value;
    if KindOf(k) == Reference && a.Str? then
      match w.resolve(doc, a.s)
      case None => false
      case Some(target) => fuel > 0 && Noted(w, seen, fuel - 1, target.0, target.1, v, p)
    else
      var size := 1 + SizeFields(schema);
      Marks(Judgement(w, fuel, doc, size), Noting(w, fuel, doc, size), seen, KindOf(k), a, SiblingsOf(schema), v, p)
  }

  /** The verdicts and notes on schemas smaller than `size`. */
  ghost function Judgement(w: World, fuel: nat, doc: string, size: nat): Verdict
    decreases fuel, size, 0
  {
    (want: bool, schema: Json, v: Json) => Size(schema) < size && Judge(w, want, fuel, doc, schema, v)
  }

  ghost function Noting(w: World, fuel: nat, doc: string, size: nat): Notes
    decreases fuel, size, 0
  {
    (seen: bool, schema: Json, v: Json, p: string) => Size(schema) < size && Noted(w, seen, fuel, doc, schema, v, p)
  }

  // ---- Congruence ----

  /** Whatever `judge1` decides about `x`, `judge2` decides about `y`. */
  ghost predicate Carries(judge1: Verdict, judge2: Verdict, x: Json, y: Json) {
    forall want, v :: judge1(want, x, v) ==> judge2(want, y, v)
  }

  ghost predicate CarriesOption(judge1: Verdict, judge2: Verdict, x: Option<Json>, y: Option<Json>) {
    x.Some? == y.Some? && (x.Some? ==> Carries(judge1, judge2, x.value, y.value))
  }

  /** Two values of one keyword apply corresponding subschemas, and agree on everything else. */
  ghost predicate Corresponds(
    judge1: Verdict, judge2: Verdict, kind: Kind, a: Json, c: Json, s: Siblings, t: Siblings)
  {
    if TakesList(kind) then
      a.Arr? == c.Arr? && (a.Arr? ==>
        |a.items| == |c.items| && forall i | 0 <= i < |a.items| :: Carries(judge1, judge2, a.items[i], c.items[i]))
    else if kind == Properties then
      a.Obj? == c.Obj? && (a.Obj? ==>
        && Keys(a.fields) == Keys(c.fields)
        && forall p | p in Keys(a.fields) ::
             Carries(judge1, judge2, Get(a.fields, p).value, Get(c.fields, p).value))
    else if TakesSchema(kind) then
      && Carries(judge1, judge2, a, c)
      && s.named == t.named
      && s.prefix == t.prefix
      && CarriesOption(judge1, judge2, s.thenBranch, t.thenBranch)
      && CarriesOption(judge1, judge2, s.elseBranch, t.elseBranch)
    else
      kind == Definitions || kind == Reference || a == c
  }

  lemma ListCarries(
    judge1: Verdict, judge2: Verdict, w: World, want: bool, kind: Kind, k: string,
    a: Json, c: Json, s: Siblings, t: Siblings, v: Json)
    requires TakesList(kind) && Corresponds(judge1, judge2, kind, a, c, s, t)
    requires Applies(judge1, w, want, kind, k, a, s, v)
    ensures Applies(judge2, w, want, kind, k, c, t, v)
  {
  }

  lemma ValuesCarry(
    judge1: Verdict, judge2: Verdict, w: World, want: bool, kind: Kind, k: string,
    a: Json, c: Json, s: Siblings, t: Siblings, v: Json)
    requires kind in {Properties, AdditionalProperties, Items}
    requires Corresponds(judge1, judge2, kind, a, c, s, t)
    requires Applies(judge1, w, want, kind, k, a, s, v)
    ensures Applies(judge2, w, want, kind, k, c, t, v)
  {
  }

  lemma AppliesCarries(
    judge1: Verdict, judge2: Verdict, w: World, want: bool, kind: Kind, k: string,
    a: Json, c: Json, s: Siblings, t: Siblings, v: Json)
    requires Corresponds(judge1, judge2, kind, a, c, s, t)
    requires Applies(judge1, w, want, kind, k, a, s, v)
    ensures Applies(judge2, w, want, kind, k, c, t, v)
  {
    if TakesList(kind) {
      ListCarries(judge1, judge2, w, want, kind, k, a, c, s, t, v);
    } else if kind in {Properties, AdditionalProperties, Items} {
      ValuesCarry(judge1, judge2, w, want, kind, k, a, c, s, t, v);
    } else if TakesSchema(kind) {
      BranchesCarry(judge1, judge2, w, want, kind, k, a, c, s, t, v);
    }
  }

  lemma BranchesCarry(
    judge1: Verdict, judge2: Verdict, w: World, want: bool, kind: Kind, k: string,
    a: Json, c: Json, s: Siblings, t: Siblings, v: Json)
    requires kind in {Not, If, Then, Else, Unevaluated} && Corresponds(judge1, judge2, kind, a, c, s, t)
    requires Applies(judge1, w, want, kind, k, a, s, v)
    ensures Applies(judge2, w, want, kind, k, c, t, v)
  {
  }

  // ---- Subschemas ----

  /** The schemas that a keyword of this kind and value applies. */
  ghost function Subschemas(kind: Kind, a: Json, siblings: Siblings): set<Json> {
    if TakesList(kind) then
      if a.Arr? then set x | x in a.items else {}
    else if kind == Properties then
      if a.Obj? then set p | p in Keys(a.fields) :: Get(a.fields, p).value else {}
    else if TakesSchema(kind) then
      {a} + OptionSet(siblings.thenBranch) + OptionSet(siblings.elseBranch)
    else {}
  }

  function OptionSet(x: Option<Json>): set<Json> {
    if x.Some? then {x.value} else {}
  }

  lemma SubschemaSmaller(kind: Kind, a: Json, siblings: Siblings, bound: nat, x: Json)
    requires Size(a) <= bound && x in Subschemas(kind, a, siblings)
    requires forall b | b in OptionSet(siblings.thenBranch) + OptionSet(siblings.elseBranch) :: Size(b) <= bound
    ensures Size(x) <= bound
  {
    if TakesList(kind) {
      var i :| 0 <= i < |a.items| && a.items[i] == x;
      SizeItem(a.items, i);
    }
  }

  lemma SelfCarries(
    judge1: Verdict, judge2: Verdict, w: World, want: bool, kind: Kind, k: string, a: Json, s: Siblings, v: Json)
    requires forall x, b, u | x in Subschemas(kind, a, s) && judge1(b, x, u) :: judge2(b, x, u)
    requires Applies(judge1, w, want, kind, k, a, s, v)
    ensures Applies(judge2, w, want, kind, k, a, s, v)
  {
    if TakesList(kind) {
      SelfListCarries(judge1, judge2, w, want, kind, k, a, s, v);
    } else if kind in {Properties, AdditionalProperties, Items} {
      SelfValuesCarry(judge1, judge2, w, want, kind, k, a, s, v);
    }
  }

  lemma SelfListCarries(
    judge1: Verdict, judge2: Verdict, w: World, want: bool, kind: Kind, k: string, a: Json, s: Siblings, v: Json)
    requires TakesList(kind)
    requires forall x, b, u | x in Subschemas(kind, a, s) && judge1(b, x, u) :: judge2(b, x, u)
    requires Applies(judge1, w, want, kind, k, a, s, v)
    ensures Applies(judge2, w, want, kind, k, a, s, v)
  {
    if a.Arr? {
      forall i, b, u | 0 <= i < |a.items| && judge1(b, a.items[i], u) ensures judge2(b, a.items[i], u) {
        assert a.items[i] in Subschemas(kind, a, s);
      }
    }
  }

  lemma SelfValuesCarry(
    judge1: Verdict, judge2: Verdict, w: World, want: bool, kind: Kind, k: string, a: Json, s: Siblings, v: Json)
    requires kind in {Properties, AdditionalProperties, Items}
    requires forall x, b, u | x in Subschemas(kind, a, s) && judge1(b, x, u) :: judge2(b, x, u)
    requires Applies(judge1, w, want, kind, k, a, s, v)
    ensures Applies(judge2, w, want, kind, k, a, s, v)
  {
  }

  // ---- What keywords evaluate ----

  /** Verdicts and notes on the subschemas carry over. */
  ghost predicate SelfNoted(judge1: Verdict, judge2: Verdict, notes1: Notes, notes2: Notes, xs: set<Json>) {
    && (forall x, b, u | x in xs && judge1(b, x, u) :: judge2(b, x, u))
    && (forall x, b, u, p | x in xs && notes1(b, x, u, p) :: notes2(b, x, u, p))
  }

  lemma SelfMarks(
    judge1: Verdict, judge2: Verdict, notes1: Notes, notes2: Notes,
    seen: bool, kind: Kind, a: Json, s: Siblings, v: Json, p: string)
    requires SelfNoted(judge1, judge2, notes1, notes2, Subschemas(kind, a, s))
    requires Marks(judge1, notes1, seen, kind, a, s, v, p)
    ensures Marks(judge2, notes2, seen, kind, a, s, v, p)
  {
    if TakesList(kind) && a.Arr? {
      assert forall i | 0 <= i < |a.items| :: a.items[i] in Subschemas(kind, a, s);
    }
  }

  ghost predicate NotesCarry(notes1: Notes, notes2: Notes, x: Json, y: Json) {
    forall seen, v, p :: notes1(seen, x, v, p) ==> notes2(seen, y, v, p)
  }

  ghost predicate NotesCarryOption(notes1: Notes, notes2: Notes, x: Option<Json>, y: Option<Json>) {
    x.Some? == y.Some? && (x.Some? ==> NotesCarry(notes1, notes2, x.value, y.value))
  }

  /** Two values of one keyword evaluate the same properties, by what their subschemas accept and evaluate. */
  ghost predicate NotesCorrespond(
    judge1: Verdict, judge2: Verdict, notes1: Notes, notes2: Notes, kind: Kind, a: Json, c: Json, s: Siblings, t: Siblings)
  {
    match kind
    case Properties => a.Obj? == c.Obj? && (a.Obj? ==> Keys(a.fields) == Keys(c.fields))
    case AdditionalProperties => s.named == t.named
    case If =>
      && Carries(judge1, judge2, a, c) && NotesCarry(notes1, notes2, a, c)
      && NotesCarryOption(notes1, notes2, s.thenBranch, t.thenBranch)
      && NotesCarryOption(notes1, notes2, s.elseBranch, t.elseBranch)
    case _ =>
      TakesList(kind) ==>
        && a.Arr? == c.Arr?
        && (a.Arr? ==> |a.items| == |c.items| && forall i | 0 <= i < |a.items| ::
              Carries(judge1, judge2, a.items[i], c.items[i]) && NotesCarry(notes1, notes2, a.items[i], c.items[i]))
  }

  lemma MarksCarried(
    judge1: Verdict, judge2: Verdict, notes1: Notes, notes2: Notes,
    seen: bool, kind: Kind, a: Json, c: Json, s: Siblings, t: Siblings, v: Json, p: string)
    requires NotesCorrespond(judge1, judge2, notes1, notes2, kind, a, c, s, t)
    requires Marks(judge1, notes1, seen, kind, a, s, v, p)
    ensures Marks(judge2, notes2, seen, kind, c, t, v, p)
  {
  }

  lemma ClosesOffCarries(
    judge1: Verdict, judge2: Verdict, beside1: (bool, string) -> bool, beside2: (bool, string) -> bool,
    want: bool, a: Json, c: Json, v: Json)
    requires Carries(judge1, judge2, a, c) && forall seen, p | beside1(seen, p) :: beside2(seen, p)
    requires ClosesOff(judge1, beside1, want, a, v)
    ensures ClosesOff(judge2, beside2, want, c, v)
  {
  }

  /** The keyword of `g` evaluates what that of `f` does. */
  ghost predicate MarksCarry(
    w: World, fuel: nat, doc: string, f: Fields, fuel': nat, doc': string, g: Fields, k: string, v: Json)
    requires k in Keys(f) && k in Keys(g)
  {
    forall seen, p :: Marking(w, seen, fuel, doc, f, k, v, p) ==> Marking(w, seen, fuel', doc', g, k, v, p)
  }

  lemma BesideCarries(w: World, fuel: nat, doc: string, f: Fields, fuel': nat, doc': string, g: Fields, v: Json)
    requires Keys(f) == Keys(g)
    requires forall k | k in Keys(f) && KindOf(k) != Unevaluated :: MarksCarry(w, fuel, doc, f, fuel', doc', g, k, v)
    ensures forall seen, p | Beside(w, fuel, doc, f, v)(seen, p) :: Beside(w, fuel', doc', g, v)(seen, p)
  {
    hide Marking, KindOf;
    forall seen, p | Beside(w, fuel, doc, f, v)(seen, p) ensures Beside(w, fuel', doc', g, v)(seen, p) {
      if seen {
        var k :| k in Keys(f) && KindOf(k) != Unevaluated && Marking(w, true, fuel, doc, f, k, v, p);
        assert Marking(w, true, fuel', doc', g, k, v, p);
      } else {
        forall k | k in Keys(g) && KindOf(k) != Unevaluated ensures Marking(w, false, fuel', doc', g, k, v, p) {
          assert Marking(w, false, fuel, doc, f, k, v, p);
        }
      }
    }
  }

  /** No subschema in a position where it is applied is a reference. */
  ghost predicate NoReference(schema: Json)
    decreases Size(schema)
  {
    schema.Obj? ==> forall k | k in Keys(schema.fields) ::
      && (KindOf(k) == Reference ==> !Get(schema.fields, k).value.Str?)
      && forall x | x in Subschemas(KindOf(k), Get(schema.fields, k).value, SiblingsOf(schema.fields))
             && Size(x) < Size(schema) :: NoReference(x)
  }

  lemma NoReferenceInside(schema: Fields, k: string, x: Json)
    requires NoReference(Obj(schema)) && k in Keys(schema)
    requires x in Subschemas(KindOf(k), At(schema, k), SiblingsOf(schema))
    ensures NoReference(x)
  {
    hide KindOf;
    SubschemaSmaller(KindOf(k), At(schema, k), SiblingsOf(schema), SizeFields(schema), x);
  }

  // ---- Laws of the semantics ----

  /** What the subschemas of a keyword come to carries over to the keyword. */
  lemma KeywordBySubschemas(
    w: World, want: bool, fuel: nat, doc: string, fuel': nat, doc': string, schema: Fields, k: string, v: Json)
    requires k in Keys(schema) && (KindOf(k) == Reference ==> !At(schema, k).Str?)
    requires SelfNoted(Judgement(w, fuel, doc, 1 + SizeFields(schema)), Judgement(w, fuel', doc', 1 + SizeFields(schema)),
                       Noting(w, fuel, doc, 1 + SizeFields(schema)), Noting(w, fuel', doc', 1 + SizeFields(schema)),
                       Subschemas(KindOf(k), At(schema, k), SiblingsOf(schema)))
    requires KindOf(k) == Unevaluated ==>
      forall j | j in Keys(schema) && KindOf(j) != Unevaluated :: MarksCarry(w, fuel, doc, schema, fuel', doc', schema, j, v)
    requires Keyword(w, want, fuel, doc, schema, k, v)
    ensures Keyword(w, want, fuel', doc', schema, k, v)
  {
    hide Applies, Judge, KindOf, Noting, Marking, Beside, SiblingsOf, ClosesOff, Subschemas, MarksCarry, Judgement;
    var size := 1 + SizeFields(schema);
    var (a, s, judge1, judge2) := (At(schema, k), SiblingsOf(schema), Judgement(w, fuel, doc, size), Judgement(w, fuel', doc', size));
    if KindOf(k) == Unevaluated {
      BesideCarries(w, fuel, doc, schema, fuel', doc', schema, v);
      assert a in Subschemas(Unevaluated, a, s) by { OwnSubschema(a, s); }
      ClosesOffCarries(judge1, judge2, Beside(w, fuel, doc, schema, v), Beside(w, fuel', doc', schema, v), want, a, a, v);
    } else {
      SelfCarries(judge1, judge2, w, want, KindOf(k), k, a, s, v);
    }
  }

  lemma OwnSubschema(a: Json, s: Siblings)
    ensures a in Subschemas(Unevaluated, a, s)
  {
  }

  lemma MarkingBySubschemas(
    w: World, seen: bool, fuel: nat, doc: string, fuel': nat, doc': string, schema: Fields, k: string, v: Json, p: string)
    requires k in Keys(schema) && (KindOf(k) == Reference ==> !At(schema, k).Str?)
    requires SelfNoted(Judgement(w, fuel, doc, 1 + SizeFields(schema)), Judgement(w, fuel', doc', 1 + SizeFields(schema)),
                       Noting(w, fuel, doc, 1 + SizeFields(schema)), Noting(w, fuel', doc', 1 + SizeFields(schema)),
                       Subschemas(KindOf(k), At(schema, k), SiblingsOf(schema)))
    requires Marking(w, seen, fuel, doc, schema, k, v, p)
    ensures Marking(w, seen, fuel', doc', schema, k, v, p)
  {
    hide Marks, Judgement, Noting, KindOf, SiblingsOf, Subschemas, SelfNoted;
    var size := 1 + SizeFields(schema);
    SelfMarks(Judgement(w, fuel, doc, size), Judgement(w, fuel', doc', size), Noting(w, fuel, doc, size),
      Noting(w, fuel', doc', size), seen, KindOf(k), At(schema, k), SiblingsOf(schema), v, p);
  }

  /** More fuel never changes a verdict. */
  lemma {:induction false} JudgeMonotone(
    w: World, want: bool, fuel: nat, more: nat, doc: string, schema: Json, v: Json)
    requires fuel <= more
    requires Judge(w, want, fuel, doc, schema, v)
    ensures Judge(w, want, more, doc, schema, v)
    decreases fuel, Size(schema), 4
  {
    hide Keyword;
    if schema.Obj? {
      forall k | k in Keys(schema.fields) && Keyword(w, want, fuel, doc, schema.fields, k, v)
        ensures Keyword(w, want, more, doc, schema.fields, k, v)
      {
        KeywordMonotone(w, want, fuel, more, doc, schema.fields, k, v);
      }
    }
  }

  lemma {:induction false} NotedMonotone(
    w: World, seen: bool, fuel: nat, more: nat, doc: string, schema: Json, v: Json, p: string)
    requires fuel <= more
    requires Noted(w, seen, fuel, doc, schema, v, p)
    ensures Noted(w, seen, more, doc, schema, v, p)
    decreases fuel, Size(schema), 2
  {
    hide Marking;
    if schema.Obj? {
      forall k | k in Keys(schema.fields) && Marking(w, seen, fuel, doc, schema.fields, k, v, p)
        ensures Marking(w, seen, more, doc, schema.fields, k, v, p)
      {
        MarkingMonotone(w, seen, fuel, more, doc, schema.fields, k, v, p);
      }
    }
  }

  lemma {:induction false} SubschemasMonotone(
    w: World, fuel: nat, more: nat, doc: string, size: nat, xs: set<Json>)
    requires fuel <= more
    ensures SelfNoted(Judgement(w, fuel, doc, size), Judgement(w, more, doc, size),
                      Noting(w, fuel, doc, size), Noting(w, more, doc, size), xs)
    decreases fuel, size, 0
  {
    hide Judge, Noted;
    forall x, b, u | x in xs && Judgement(w, fuel, doc, size)(b, x, u) ensures Judgement(w, more, doc, size)(b, x, u) {
      JudgeMonotone(w, b, fuel, more, doc, x, u);
    }
    forall x, b, u, p | x in xs && Noting(w, fuel, doc, size)(b, x, u, p) ensures Noting(w, more, doc, size)(b, x, u, p) {
      NotedMonotone(w, b, fuel, more, doc, x, u, p);
    }
  }

  lemma {:induction false} KeywordMonotone(
    w: World, want: bool, fuel: nat, more: nat, doc: string, schema: Fields, k: string, v: Json)
    requires fuel <= more && k in Keys(schema)
    requires Keyword(w, want, fuel, doc, schema, k, v)
    ensures Keyword(w, want, more, doc, schema, k, v)
    decreases fuel, 1 + SizeFields(schema), 3
  {
    hide Applies, Judge, Marking, Noting, Judgement, Beside, ClosesOff, SelfNoted, KindOf;
    var a, size := At(schema, k), 1 + SizeFields(schema);
    if KindOf(k) == Reference && a.Str? {
      var target := w.resolve(doc, a.s).value;
      JudgeMonotone(w, want, fuel - 1, more - 1, target.0, target.1, v);
    } else {
      SubschemasMonotone(w, fuel, more, doc, size, Subschemas(KindOf(k), a, SiblingsOf(schema)));
      forall j | j in Keys(schema) ensures MarksCarry(w, fuel, doc, schema, more, doc, schema, j, v) {
        forall seen, p | Marking(w, seen, fuel, doc, schema, j, v, p) ensures Marking(w, seen, more, doc, schema, j, v, p) {
          MarkingMonotone(w, seen, fuel, more, doc, schema, j, v, p);
        }
      }
      KeywordBySubschemas(w, want, fuel, doc, more, doc, schema, k, v);
    }
  }

  lemma {:induction false} MarkingMonotone(
    w: World, seen: bool, fuel: nat, more: nat, doc: string, schema: Fields, k: string, v: Json, p: string)
    requires fuel <= more && k in Keys(schema)
    requires Marking(w, seen, fuel, doc, schema, k, v, p)
    ensures Marking(w, seen, more, doc, schema, k, v, p)
    decreases fuel, 1 + SizeFields(schema), 1
  {
    hide Marks, Noting, Judgement, Noted, SelfNoted, KindOf;
    var a, size := At(schema, k), 1 + SizeFields(schema);
    if KindOf(k) == Reference && a.Str? {
      var target := w.resolve(doc, a.s).value;
      NotedMonotone(w, seen, fuel - 1, more - 1, target.0, target.1, v, p);
    } else {
      SubschemasMonotone(w, fuel, more, doc, size, Subschemas(KindOf(k), a, SiblingsOf(schema)));
      MarkingBySubschemas(w, seen, fuel, doc, more, doc, schema, k, v, p);
    }
  }

  /** A schema without references means the same in every document and with any fuel. */
  lemma {:induction false} Detached(
    w: World, want: bool, fuel: nat, doc: string, fuel': nat, doc': string, schema: Json, v: Json)
    requires NoReference(schema)
    requires Judge(w, want, fuel, doc, schema, v)
    ensures Judge(w, want, fuel', doc', schema, v)
    decreases Size(schema), 4
  {
    hide Keyword, NoReference;
    if schema.Obj? {
      forall k | k in Keys(schema.fields) && Keyword(w, want, fuel, doc, schema.fields, k, v)
        ensures Keyword(w, want, fuel', doc', schema.fields, k, v)
      {
        KeywordDetached(w, want, fuel, doc, fuel', doc', schema.fields, k, v);
      }
    }
  }

  lemma {:induction false} NotedDetached(
    w: World, seen: bool, fuel: nat, doc: string, fuel': nat, doc': string, schema: Json, v: Json, p: string)
    requires NoReference(schema)
    requires Noted(w, seen, fuel, doc, schema, v, p)
    ensures Noted(w, seen, fuel', doc', schema, v, p)
    decreases Size(schema), 2
  {
    hide Marking, NoReference;
    if schema.Obj? {
      forall k | k in Keys(schema.fields) && Marking(w, seen, fuel, doc, schema.fields, k, v, p)
        ensures Marking(w, seen, fuel', doc', schema.fields, k, v, p)
      {
        MarkingDetached(w, seen, fuel, doc, fuel', doc', schema.fields, k, v, p);
      }
    }
  }

  lemma {:induction false} SubschemasDetached(
    w: World, fuel: nat, doc: string, fuel': nat, doc': string, size: nat, xs: set<Json>)
    requires forall x | x in xs :: NoReference(x)
    ensures SelfNoted(Judgement(w, fuel, doc, size), Judgement(w, fuel', doc', size),
                      Noting(w, fuel, doc, size), Noting(w, fuel', doc', size), xs)
    decreases size, 0
  {
    hide Judge, Noted, NoReference;
    forall x, b, u | x in xs && Judgement(w, fuel, doc, size)(b, x, u) ensures Judgement(w, fuel', doc', size)(b, x, u) {
      Detached(w, b, fuel, doc, fuel', doc', x, u);
    }
    forall x, b, u, p | x in xs && Noting(w, fuel, doc, size)(b, x, u, p)
      ensures Noting(w, fuel', doc', size)(b, x, u, p)
    {
      NotedDetached(w, b, fuel, doc, fuel', doc', x, u, p);
    }
  }

  lemma NoReferenceMember(schema: Fields, k: string)
    requires NoReference(Obj(schema)) && k in Keys(schema)
    ensures KindOf(k) == Reference ==> !At(schema, k).Str?
    ensures forall x | x in Subschemas(KindOf(k), At(schema, k), SiblingsOf(schema)) :: NoReference(x)
  {
    hide KindOf, Subschemas, SiblingsOf;
    forall x | x in Subschemas(KindOf(k), At(schema, k), SiblingsOf(schema)) ensures NoReference(x) {
      NoReferenceInside(schema, k, x);
    }
  }

  lemma {:induction false} KeywordDetached(
    w: World, want: bool, fuel: nat, doc: string, fuel': nat, doc': string, schema: Fields, k: string, v: Json)
    requires NoReference(Obj(schema)) && k in Keys(schema)
    requires Keyword(w, want, fuel, doc, schema, k, v)
    ensures Keyword(w, want, fuel', doc', schema, k, v)
    decreases 1 + SizeFields(schema), 3
  {
    hide Keyword, Marking, Noting, Judgement, SelfNoted, KindOf, NoReference, Subschemas, SiblingsOf;
    NoReferenceMember(schema, k);
    SubschemasDetached(w, fuel, doc, fuel', doc', 1 + SizeFields(schema),
      Subschemas(KindOf(k), At(schema, k), SiblingsOf(schema)));
    forall j | j in Keys(schema) ensures MarksCarry(w, fuel, doc, schema, fuel', doc', schema, j, v) {
      forall seen, p | Marking(w, seen, fuel, doc, schema, j, v, p) ensures Marking(w, seen, fuel', doc', schema, j, v, p) {
        MarkingDetached(w, seen, fuel, doc, fuel', doc', schema, j, v, p);
      }
    }
    KeywordBySubschemas(w, want, fuel, doc, fuel', doc', schema, k, v);
  }

  lemma {:induction false} MarkingDetached(
    w: World, seen: bool, fuel: nat, doc: string, fuel': nat, doc': string, schema: Fields, k: string, v: Json, p: string)
    requires NoReference(Obj(schema)) && k in Keys(schema)
    requires Marking(w, seen, fuel, doc, schema, k, v, p)
    ensures Marking(w, seen, fuel', doc', schema, k, v, p)
    decreases 1 + SizeFields(schema), 1
  {
    hide Marking, Noting, Judgement, SelfNoted, KindOf, NoReference, Subschemas, SiblingsOf;
    NoReferenceMember(schema, k);
    SubschemasDetached(w, fuel, doc, fuel', doc', 1 + SizeFields(schema),
      Subschemas(KindOf(k), At(schema, k), SiblingsOf(schema)));
    MarkingBySubschemas(w, seen, fuel, doc, fuel', doc', schema, k, v, p);
  }

  // ---- No schema is both accepted and rejected; one without references is one or the other ----

  lemma AppliesConsistent(judge: Verdict, w: World, kind: Kind, k: string, a: Json, s: Siblings, v: Json)
    requires forall x, u | x in Subschemas(kind, a, s) :: !(judge(true, x, u) && judge(false, x, u))
    requires Applies(judge, w, true, kind, k, a, s, v)
    ensures !Applies(judge, w, false, kind, k, a, s, v)
  {
  }

  lemma AppliesTotal(judge: Verdict, w: World, kind: Kind, k: string, a: Json, s: Siblings, v: Json)
    requires forall x, u | x in Subschemas(kind, a, s) :: judge(true, x, u) || judge(false, x, u)
    requires !Applies(judge, w, false, kind, k, a, s, v)
    ensures Applies(judge, w, true, kind, k, a, s, v)
  {
    if TakesList(kind) {
      ListTotal(judge, w, kind, k, a, s, v);
    }
  }

  lemma ListTotal(judge: Verdict, w: World, kind: Kind, k: string, a: Json, s: Siblings, v: Json)
    requires TakesList(kind)
    requires forall x, u | x in Subschemas(kind, a, s) :: judge(true, x, u) || judge(false, x, u)
    requires !Applies(judge, w, false, kind, k, a, s, v)
    ensures Applies(judge, w, true, kind, k, a, s, v)
  {
    if a.Arr? {
      forall i, u | 0 <= i < |a.items| ensures judge(true, a.items[i], u) || judge(false, a.items[i], u) {
        assert a.items[i] in Subschemas(kind, a, s);
      }
    }
  }

  ghost predicate Consistent(judge: Verdict, notes: Notes, xs: set<Json>) {
    && (forall x, u | x in xs :: !(judge(true, x, u) && judge(false, x, u)))
    && (forall x, u, p | x in xs :: !(notes(true, x, u, p) && notes(false, x, u, p)))
  }

  ghost predicate Total(judge: Verdict, notes: Notes, xs: set<Json>) {
    && (forall x, u | x in xs :: judge(true, x, u) || judge(false, x, u))
    && (forall x, u, p | x in xs :: notes(true, x, u, p) || notes(false, x, u, p))
  }

  lemma MarksConsistent(judge: Verdict, notes: Notes, kind: Kind, a: Json, s: Siblings, v: Json, p: string)
    requires Consistent(judge, notes, Subschemas(kind, a, s))
    requires Marks(judge, notes, true, kind, a, s, v, p)
    ensures !Marks(judge, notes, false, kind, a, s, v, p)
  {
    if TakesList(kind) && a.Arr? {
      assert forall i | 0 <= i < |a.items| :: a.items[i] in Subschemas(kind, a, s);
    }
  }

  lemma MarksTotal(judge: Verdict, notes: Notes, kind: Kind, a: Json, s: Siblings, v: Json, p: string)
    requires Total(judge, notes, Subschemas(kind, a, s))
    requires !Marks(judge, notes, false, kind, a, s, v, p)
    ensures Marks(judge, notes, true, kind, a, s, v, p)
  {
    if TakesList(kind) && a.Arr? {
      assert forall i | 0 <= i < |a.items| :: a.items[i] in Subschemas(kind, a, s);
    }
  }

  lemma {:induction false} JudgeConsistent(w: World, fuel: nat, doc: string, schema: Json, v: Json)
    ensures !(Judge(w, true, fuel, doc, schema, v) && Judge(w, false, fuel, doc, schema, v))
    decreases fuel, Size(schema), 4
  {
    hide Keyword;
    if schema.Obj? && Judge(w, true, fuel, doc, schema, v) {
      forall k | k in Keys(schema.fields) ensures !Keyword(w, false, fuel, doc, schema.fields, k, v) {
        KeywordConsistent(w, fuel, doc, schema.fields, k, v);
      }
    }
  }

  lemma {:induction false} NotedConsistent(w: World, fuel: nat, doc: string, schema: Json, v: Json, p: string)
    ensures !(Noted(w, true, fuel, doc, schema, v, p) && Noted(w, false, fuel, doc, schema, v, p))
    decreases fuel, Size(schema), 2
  {
    hide Marking;
    if schema.Obj? && Noted(w, true, fuel, doc, schema, v, p) {
      var k :| k in Keys(schema.fields) && Marking(w, true, fuel, doc, schema.fields, k, v, p);
      MarkingConsistent(w, fuel, doc, schema.fields, k, v, p);
    }
  }

  lemma {:induction false} SubschemasConsistent(w: World, fuel: nat, doc: string, size: nat, xs: set<Json>)
    ensures Consistent(Judgement(w, fuel, doc, size), Noting(w, fuel, doc, size), xs)
    decreases fuel, size, 0
  {
    hide Judge, Noted;
    var judge, notes := Judgement(w, fuel, doc, size), Noting(w, fuel, doc, size);
    forall x, u | x in xs ensures !(judge(true, x, u) && judge(false, x, u)) {
      if judge(true, x, u) {
        JudgeConsistent(w, fuel, doc, x, u);
      }
    }
    forall x, u, p | x in xs ensures !(notes(true, x, u, p) && notes(false, x, u, p)) {
      if notes(true, x, u, p) {
        NotedConsistent(w, fuel, doc, x, u, p);
      }
    }
  }

  lemma {:induction false} KeywordConsistent(w: World, fuel: nat, doc: string, schema: Fields, k: string, v: Json)
    requires k in Keys(schema) && Keyword(w, true, fuel, doc, schema, k, v)
    ensures !Keyword(w, false, fuel, doc, schema, k, v)
    decreases fuel, 1 + SizeFields(schema), 3
  {
    hide Applies, Judge, KindOf, Judgement, Noting, Beside, Subschemas, SiblingsOf;
    var a, s, size := At(schema, k), SiblingsOf(schema), 1 + SizeFields(schema);
    var judge := Judgement(w, fuel, doc, size);
    if KindOf(k) == Reference && a.Str? {
      var target := w.resolve(doc, a.s).value;
      JudgeConsistent(w, fuel - 1, target.0, target.1, v);
    } else {
      SubschemasConsistent(w, fuel, doc, size, Subschemas(KindOf(k), a, s));
      if KindOf(k) == Unevaluated {
        OwnSubschema(a, s);
        BesideConsistent(w, fuel, doc, schema, v);
      } else {
        AppliesConsistent(judge, w, KindOf(k), k, a, s, v);
      }
    }
  }

  lemma {:induction false} BesideConsistent(w: World, fuel: nat, doc: string, schema: Fields, v: Json)
    ensures forall p :: !(Beside(w, fuel, doc, schema, v)(true, p) && Beside(w, fuel, doc, schema, v)(false, p))
    decreases fuel, 1 + SizeFields(schema), 2
  {
    hide Marking, KindOf;
    forall p ensures !(Beside(w, fuel, doc, schema, v)(true, p) && Beside(w, fuel, doc, schema, v)(false, p)) {
      if Beside(w, fuel, doc, schema, v)(true, p) {
        var k :| k in Keys(schema) && KindOf(k) != Unevaluated && Marking(w, true, fuel, doc, schema, k, v, p);
        MarkingConsistent(w, fuel, doc, schema, k, v, p);
      }
    }
  }

  lemma {:induction false} MarkingConsistent(w: World, fuel: nat, doc: string, schema: Fields, k: string, v: Json, p: string)
    requires k in Keys(schema) && Marking(w, true, fuel, doc, schema, k, v, p)
    ensures !Marking(w, false, fuel, doc, schema, k, v, p)
    decreases fuel, 1 + SizeFields(schema), 1
  {
    hide Marks, Judgement, Noting, Noted, KindOf, Consistent;
    var a, s, size := At(schema, k), SiblingsOf(schema), 1 + SizeFields(schema);
    if KindOf(k) == Reference && a.Str? {
      var target := w.resolve(doc, a.s).value;
      NotedConsistent(w, fuel - 1, target.0, target.1, v, p);
    } else {
      SubschemasConsistent(w, fuel, doc, size, Subschemas(KindOf(k), a, s));
      MarksConsistent(Judgement(w, fuel, doc, size), Noting(w, fuel, doc, size), KindOf(k), a, s, v, p);
    }
  }

  lemma {:induction false} JudgeTotal(w: World, fuel: nat, doc: string, schema: Json, v: Json)
    requires NoReference(schema)
    ensures Judge(w, true, fuel, doc, schema, v) || Judge(w, false, fuel, doc, schema, v)
    decreases Size(schema), 4
  {
    hide Keyword, NoReference;
    if schema.Obj? && !Judge(w, false, fuel, doc, schema, v) {
      forall k | k in Keys(schema.fields) ensures Keyword(w, true, fuel, doc, schema.fields, k, v) {
        KeywordTotal(w, fuel, doc, schema.fields, k, v);
      }
    }
  }

  lemma {:induction false} NotedTotal(w: World, fuel: nat, doc: string, schema: Json, v: Json, p: string)
    requires NoReference(schema)
    ensures Noted(w, true, fuel, doc, schema, v, p) || Noted(w, false, fuel, doc, schema, v, p)
    decreases Size(schema), 2
  {
    hide Marking, NoReference;
    if schema.Obj? && !Noted(w, true, fuel, doc, schema, v, p) {
      forall k | k in Keys(schema.fields) ensures Marking(w, false, fuel, doc, schema.fields, k, v, p) {
        MarkingTotal(w, fuel, doc, schema.fields, k, v, p);
      }
    }
  }

  lemma {:induction false} SubschemasTotal(w: World, fuel: nat, doc: string, schema: Fields, k: string)
    requires k in Keys(schema) && NoReference(Obj(schema))
    ensures Total(Judgement(w, fuel, doc, 1 + SizeFields(schema)), Noting(w, fuel, doc, 1 + SizeFields(schema)),
                  Subschemas(KindOf(k), At(schema, k), SiblingsOf(schema)))
    decreases 1 + SizeFields(schema), 0
  {
    hide Judge, Noted, KindOf, SiblingsOf, Subschemas, NoReference;
    BranchesSmaller(schema);
    NoReferenceMember(schema, k);
    var xs, size := Subschemas(KindOf(k), At(schema, k), SiblingsOf(schema)), 1 + SizeFields(schema);
    var judge, notes := Judgement(w, fuel, doc, size), Noting(w, fuel, doc, size);
    forall x, u | x in xs ensures judge(true, x, u) || judge(false, x, u) {
      SubschemaSmaller(KindOf(k), At(schema, k), SiblingsOf(schema), SizeFields(schema), x);
      JudgeTotal(w, fuel, doc, x, u);
    }
    forall x, u, p | x in xs ensures notes(true, x, u, p) || notes(false, x, u, p) {
      SubschemaSmaller(KindOf(k), At(schema, k), SiblingsOf(schema), SizeFields(schema), x);
      NotedTotal(w, fuel, doc, x, u, p);
    }
  }

  lemma {:induction false} KeywordTotal(w: World, fuel: nat, doc: string, schema: Fields, k: string, v: Json)
    requires k in Keys(schema) && NoReference(Obj(schema))
    requires !Keyword(w, false, fuel, doc, schema, k, v)
    ensures Keyword(w, true, fuel, doc, schema, k, v)
    decreases 1 + SizeFields(schema), 3
  {
    hide Applies, Judge, KindOf, SiblingsOf, Subschemas, NoReference, Judgement, Noting, Beside;
    var a, s := At(schema, k), SiblingsOf(schema);
    NoReferenceMember(schema, k);
    SubschemasTotal(w, fuel, doc, schema, k);
    if KindOf(k) == Unevaluated {
      OwnSubschema(a, s);
      BesideTotal(w, fuel, doc, schema, v);
    } else {
      AppliesTotal(Judgement(w, fuel, doc, 1 + SizeFields(schema)), w, KindOf(k), k, a, s, v);
    }
  }

  lemma {:induction false} BesideTotal(w: World, fuel: nat, doc: string, schema: Fields, v: Json)
    requires NoReference(Obj(schema))
    ensures forall p :: Beside(w, fuel, doc, schema, v)(true, p) || Beside(w, fuel, doc, schema, v)(false, p)
    decreases 1 + SizeFields(schema), 2
  {
    hide Marking, KindOf, NoReference;
    forall p ensures Beside(w, fuel, doc, schema, v)(true, p) || Beside(w, fuel, doc, schema, v)(false, p) {
      forall k | k in Keys(schema) && !Marking(w, true, fuel, doc, schema, k, v, p)
        ensures Marking(w, false, fuel, doc, schema, k, v, p)
      {
        MarkingTotal(w, fuel, doc, schema, k, v, p);
      }
    }
  }

  lemma {:induction false} MarkingTotal(w: World, fuel: nat, doc: string, schema: Fields, k: string, v: Json, p: string)
    requires k in Keys(schema) && NoReference(Obj(schema))
    ensures Marking(w, true, fuel, doc, schema, k, v, p) || Marking(w, false, fuel, doc, schema, k, v, p)
    decreases 1 + SizeFields(schema), 1
  {
    hide Marks, KindOf, SiblingsOf, Subschemas, NoReference, Judgement, Noting, Total;
    NoReferenceMember(schema, k);
    SubschemasTotal(w, fuel, doc, schema, k);
    var size := 1 + SizeFields(schema);
    if !Marking(w, false, fuel, doc, schema, k, v, p) {
      MarksTotal(Judgement(w, fuel, doc, size), Noting(w, fuel, doc, size), KindOf(k), At(schema, k), SiblingsOf(schema), v, p);
    }
  }

  // ---- A schema object is judged by its members, wherever they stand ----

  /** The keywords that evaluate properties. */
  predicate Evaluator(k: string) {
    KindOf(k) in {Reference, Properties, AdditionalProperties, AllOf, AnyOf, OneOf, If}
  }

  /** The two schema objects have the same keywords, and those that evaluate properties have the same values. */
  ghost predicate SameEvaluators(f: Fields, g: Fields) {
    Keys(f) == Keys(g) && forall k | Evaluator(k) :: Get(f, k) == Get(g, k)
  }

  lemma SameKeyword(
    w: World, want: bool, n: nat, doc: string, f: Fields, g: Fields, k: string, v: Json)
    requires k in Keys(f) && k in Keys(g) && (KindOf(k) == Reference ==> !At(f, k).Str?)
    requires Get(f, k) == Get(g, k) && SiblingsOf(f) == SiblingsOf(g)
    requires KindOf(k) == Unevaluated ==> SameEvaluators(f, g)
    requires Keyword(w, want, n, doc, f, k, v)
    ensures Keyword(w, want, n, doc, g, k, v)
  {
    hide Judge, Applies, SiblingsOf, KindOf, Beside, ClosesOff, SameEvaluators, Judgement, BranchesWithin;
    var a, s := At(f, k), SiblingsOf(f);
    assert At(g, k) == a;
    BranchesSmaller(g);
    if KindOf(k) == Unevaluated {
      SameClosing(w, want, n, doc, f, g, a, v);
    } else {
      SameApplies(w, want, n, doc, 1 + SizeFields(f), 1 + SizeFields(g), KindOf(k), k, a, s, v);
    }
  }

  lemma SameClosing(w: World, want: bool, n: nat, doc: string, f: Fields, g: Fields, a: Json, v: Json)
    requires SameEvaluators(f, g) && SiblingsOf(f) == SiblingsOf(g) && Size(a) <= SizeFields(g)
    requires ClosesOff(Judgement(w, n, doc, 1 + SizeFields(f)), Beside(w, n, doc, f, v), want, a, v)
    ensures ClosesOff(Judgement(w, n, doc, 1 + SizeFields(g)), Beside(w, n, doc, g, v), want, a, v)
  {
    hide Judge, SiblingsOf, Beside, ClosesOff, SameEvaluators, Judgement;
    SmallEnough(w, n, doc, 1 + SizeFields(f), 1 + SizeFields(g), a);
    SameBeside(w, n, doc, f, g, v);
    ClosesOffCarries(Judgement(w, n, doc, 1 + SizeFields(f)), Judgement(w, n, doc, 1 + SizeFields(g)),
      Beside(w, n, doc, f, v), Beside(w, n, doc, g, v), want, a, a, v);
  }

  lemma SmallEnough(w: World, n: nat, doc: string, size: nat, size': nat, a: Json)
    requires Size(a) < size'
    ensures Carries(Judgement(w, n, doc, size), Judgement(w, n, doc, size'), a, a)
  {
    hide Judge;
  }

  lemma SameBeside(w: World, n: nat, doc: string, f: Fields, g: Fields, v: Json)
    requires SameEvaluators(f, g) && SiblingsOf(f) == SiblingsOf(g)
    ensures forall seen, p | Beside(w, n, doc, f, v)(seen, p) :: Beside(w, n, doc, g, v)(seen, p)
  {
    hide KindOf, Marking, SiblingsOf, Beside, Evaluator;
    forall k | k in Keys(f) && KindOf(k) != Unevaluated ensures MarksCarry(w, n, doc, f, n, doc, g, k, v) {
      forall seen, p | Marking(w, seen, n, doc, f, k, v, p) ensures Marking(w, seen, n, doc, g, k, v, p) {
        SameMarking(w, seen, n, doc, f, g, k, v, p);
      }
    }
    BesideCarries(w, n, doc, f, n, doc, g, v);
  }

  lemma SameMarking(w: World, seen: bool, n: nat, doc: string, f: Fields, g: Fields, k: string, v: Json, p: string)
    requires k in Keys(f) && k in Keys(g) && KindOf(k) != Unevaluated
    requires (Evaluator(k) ==> Get(f, k) == Get(g, k)) && SiblingsOf(f) == SiblingsOf(g)
    requires Marking(w, seen, n, doc, f, k, v, p)
    ensures Marking(w, seen, n, doc, g, k, v, p)
  {
    hide Judgement, Noting, Noted, SiblingsOf, Subschemas, KindOf;
    BranchesSmaller(g);
    var (kind, size, size', s) := (KindOf(k), 1 + SizeFields(f), 1 + SizeFields(g), SiblingsOf(f));
    if Evaluator(k) && !(kind == Reference && At(f, k).Str?) {
      hide Marks;
      var a := At(f, k);
      assert At(g, k) == a;
      SubschemasSame(w, n, doc, size, size', kind, a, s);
      SelfMarks(Judgement(w, n, doc, size), Judgement(w, n, doc, size'),
        Noting(w, n, doc, size), Noting(w, n, doc, size'), seen, kind, a, s, v, p);
    }
  }

  lemma SubschemasSame(w: World, n: nat, doc: string, size: nat, size': nat, kind: Kind, a: Json, s: Siblings)
    requires Size(a) < size' && BranchesWithin(s, size' - 1)
    ensures SelfNoted(Judgement(w, n, doc, size), Judgement(w, n, doc, size'),
                      Noting(w, n, doc, size), Noting(w, n, doc, size'), Subschemas(kind, a, s))
  {
    hide Judge, Noted, Subschemas;
    forall x | x in Subschemas(kind, a, s) ensures Size(x) < size' {
      SubschemaSmaller(kind, a, s, size' - 1, x);
    }
  }

  ghost predicate BranchesWithin(s: Siblings, bound: nat) {
    forall b | b in OptionSet(s.thenBranch) + OptionSet(s.elseBranch) :: Size(b) <= bound
  }

  lemma BranchesSmaller(fields: Fields)
    ensures BranchesWithin(SiblingsOf(fields), SizeFields(fields))
  {
  }

  lemma SameApplies(
    w: World, want: bool, n: nat, doc: string, size: nat, size': nat,
    kind: Kind, k: string, a: Json, s: Siblings, v: Json)
    requires Size(a) < size' && BranchesWithin(s, size' - 1)
    requires Applies(Judgement(w, n, doc, size), w, want, kind, k, a, s, v)
    ensures Applies(Judgement(w, n, doc, size'), w, want, kind, k, a, s, v)
  {
    hide Judge, Applies, Judgement, Noting;
    SubschemasSame(w, n, doc, size, size', kind, a, s);
    SelfCarries(Judgement(w, n, doc, size), Judgement(w, n, doc, size'), w, want, kind, k, a, s, v);
  }

  // ---- The two verdicts of a schema, however many references they take ----

  ghost predicate Accepts(w: World, doc: string, schema: Json, v: Json) {
    exists fuel: nat :: Judge(w, true, fuel, doc, schema, v)
  }

  ghost predicate Rejects(w: World, doc: string, schema: Json, v: Json) {
    exists fuel: nat :: Judge(w, false, fuel, doc, schema, v)
  }

  /** Without references exactly one of the two verdicts holds, in every document. */
  lemma DecidedWithoutReferences(w: World, doc: string, doc': string, schema: Json, v: Json)
    requires NoReference(schema)
    ensures Accepts(w, doc, schema, v) <==> !Rejects(w, doc', schema, v)
  {
    JudgeTotal(w, 0, doc, schema, v);
    if Judge(w, true, 0, doc, schema, v) {
      forall fuel: nat ensures !Judge(w, false, fuel, doc', schema, v) {
        if Judge(w, false, fuel, doc', schema, v) {
          Detached(w, false, fuel, doc', 0, doc, schema, v);
          JudgeConsistent(w, 0, doc, schema, v);
        }
      }
    } else {
      Detached(w, false, 0, doc, 0, doc', schema, v);
      forall fuel: nat ensures !Judge(w, true, fuel, doc, schema, v) {
        if Judge(w, true, fuel, doc, schema, v) {
          Detached(w, true, fuel, doc, 0, doc, schema, v);
        }
      }
    }
  }
}
