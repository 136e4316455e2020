/** The canonical text of a JSON value: members sorted by their keys' UTF-16 code units (RFC 8785). */
module CanonicalJson {
  import opened Json
  import opened JsonText
  import opened CollatedJson
  import opened Positions
  import SchemaReferences
  import Sorting

  // ---- The order of keys ----

  function CodeUnits(c: char): seq<nat> {
    var n := c as int;
    if n < 0x10000 then [n] else [0xD800 + (n - 0x10000) / 0x400, 0xDC00 + (n - 0x10000) % 0x400]
  }

  function Utf16(s: string): seq<nat> {
    if s == [] then [] else CodeUnits(s[0]) + Utf16(s[1..])
  }

  /** The code points that code units stand for: a surrogate pair for one, any other unit for itself (RFC 2781, section
      2.2). */
  function CodePoints(units: seq<nat>): seq<nat> {
    if units == [] then []
    else if |units| >= 2 && 0xD800 <= units[0] <= 0xDBFF && 0xDC00 <= units[1] <= 0xDFFF then
      [0x10000 + (units[0] - 0xD800) * 0x400 + (units[1] - 0xDC00)] + CodePoints(units[2..])
    else [units[0]] + CodePoints(units[1..])
  }

  /** Reading the code units of a text gives its characters, in their order. */
  lemma {:induction false} Utf16Reads(s: string)
    ensures |CodePoints(Utf16(s))| == |s| && forall i | 0 <= i < |s| :: CodePoints(Utf16(s))[i] == s[i] as int
    ensures forall i | 0 <= i < |Utf16(s)| :: Utf16(s)[i] < 0x10000
  {
    if s != [] {
      var (units, rest) := (CodeUnits(s[0]), Utf16(s[1..]));
      Utf16Reads(s[1..]);
      assert (units + rest)[|units|..] == rest;
      assert CodePoints(units + rest) == [s[0] as int] + CodePoints(rest);
    }
  }

  /** The lexicographic order. */
  predicate UnitsUpTo(a: seq<nat>, b: seq<nat>) {
    a == [] || (b != [] && (a[0] < b[0] || (a[0] == b[0] && UnitsUpTo(a[1..], b[1..]))))
  }

  predicate UpTo(a: string, b: string) {
    UnitsUpTo(Utf16(a), Utf16(b))
  }

  lemma {:induction false} UnitsTotal(a: seq<nat>, b: seq<nat>)
    ensures UnitsUpTo(a, b) || UnitsUpTo(b, a)
    ensures UnitsUpTo(a, b) && UnitsUpTo(b, a) ==> a == b
  {
    if a != [] && b != [] {
      UnitsTotal(a[1..], b[1..]);
      assert a == [a[0]] + a[1..] && b == [b[0]] + b[1..];
    }
  }

  lemma {:induction false} UnitsTransitive(a: seq<nat>, b: seq<nat>, c: seq<nat>)
    requires UnitsUpTo(a, b) && UnitsUpTo(b, c)
    ensures UnitsUpTo(a, c)
  {
    if a != [] && a[0] == b[0] && b[0] == c[0] {
      UnitsTransitive(a[1..], b[1..], c[1..]);
    }
  }

  lemma CodeUnitsInjective(a: char, b: char, s: seq<nat>, t: seq<nat>)
    requires CodeUnits(a) + s == CodeUnits(b) + t
    ensures a == b && s == t
  {
    var x, y := CodeUnits(a) + s, CodeUnits(b) + t;
    assert x[0] == CodeUnits(a)[0] && y[0] == CodeUnits(b)[0];
    if |CodeUnits(a)| == 2 && |CodeUnits(b)| == 2 {
      assert x[1] == CodeUnits(a)[1] && y[1] == CodeUnits(b)[1];
    }
    assert |CodeUnits(a)| == |CodeUnits(b)|;
    assert s == x[|CodeUnits(a)|..] && t == y[|CodeUnits(b)|..];
  }

  /** Different texts have different code units. */
  lemma {:induction false} Utf16Injective(a: string, b: string)
    requires Utf16(a) == Utf16(b)
    ensures a == b
  {
    if a != [] && b != [] {
      CodeUnitsInjective(a[0], b[0], Utf16(a[1..]), Utf16(b[1..]));
      Utf16Injective(a[1..], b[1..]);
      assert a == [a[0]] + a[1..] && b == [b[0]] + b[1..];
    }
  }

  lemma UpToOrders(a: string, b: string)
    ensures UpTo(a, b) || UpTo(b, a)
    ensures UpTo(a, b) && UpTo(b, a) ==> a == b
  {
    UnitsTotal(Utf16(a), Utf16(b));
    if Utf16(a) == Utf16(b) {
      Utf16Injective(a, b);
    }
  }

  // ---- Sorting ----

  /** Each key comes before all keys behind it, and differs from them. */
  predicate Ascending(fields: Fields) {
    fields != [] ==>
      && (forall g | g in fields[1..] :: UpTo(fields[0].key, g.key) && fields[0].key != g.key)
      && Ascending(fields[1..])
  }

  lemma {:induction false} InsertAscends(f: Field, fields: Fields)
    requires Ascending(fields) && f.key !in Keys(fields)
    ensures Ascending(Sorting.Insert(ByKey(UpTo), f, fields))
  {
    if fields != [] {
      KeysCons(fields);
      UpToOrders(f.key, fields[0].key);
      if UpTo(f.key, fields[0].key) {
        assert ([f] + fields)[1..] == fields;
        forall g | g in fields ensures UpTo(f.key, g.key) && f.key != g.key {
          if g != fields[0] {
            assert g in fields[1..];
            UnitsTransitive(Utf16(f.key), Utf16(fields[0].key), Utf16(g.key));
          }
        }
      } else {
        InsertAscends(f, fields[1..]);
        Sorting.InsertElements(ByKey(UpTo), f, fields[1..]);
        var rest := Sorting.Insert(ByKey(UpTo), f, fields[1..]);
        assert ([fields[0]] + rest)[1..] == rest;
      }
    }
  }

  lemma {:induction false} SortAscends(fields: Fields)
    requires Distinct(fields)
    ensures Ascending(Sort(UpTo, fields)) && Keys(Sort(UpTo, fields)) == Keys(fields)
  {
    if fields != [] {
      SortAscends(fields[1..]);
      InsertAscends(fields[0], Sort(UpTo, fields[1..]));
    }
  }

  lemma {:induction false} AscendingDistinct(fields: Fields)
    requires Ascending(fields)
    ensures Distinct(fields)
  {
    if fields != [] {
      AscendingDistinct(fields[1..]);
    }
  }

  /** Two ascending lists of the same keys list them alike. */
  lemma {:induction false} SameKeysAlike(a: Fields, b: Fields)
    requires Ascending(a) && Ascending(b) && Keys(a) == Keys(b)
    ensures |a| == |b| && forall i | 0 <= i < |a| :: a[i].key == b[i].key
  {
    if a == [] {
      assert b != [] ==> b[0].key in Keys(b);
    } else {
      assert a[0].key in Keys(a);
      KeysCons(a);
      KeysCons(b);
      FirstIsLeast(a, b);
      SameKeysAlike(a[1..], b[1..]);
    }
  }

  lemma FirstIsLeast(a: Fields, b: Fields)
    requires Ascending(a) && Ascending(b) && Keys(a) == Keys(b) && a != [] && b != []
    ensures a[0].key == b[0].key && Keys(a[1..]) == Keys(b[1..])
  {
    assert a[0].key in Keys(b) && b[0].key in Keys(a);
    var g :| g in b && g.key == a[0].key;
    var h :| h in a && h.key == b[0].key;
    if a[0].key != b[0].key {
      assert g in b[1..] && h in a[1..];
      UpToOrders(a[0].key, b[0].key);
      assert false;
    }
    KeysCons(a);
    KeysCons(b);
    assert a[0].key !in Keys(a[1..]) && b[0].key !in Keys(b[1..]);
  }

  // ---- The canonical text ----

  function Canonicalize(v: Json): string
    decreases Size(v), 1
  {
    match v
    case Arr(items) => "[" + CanonicalItems(items) + "]"
    case Obj(fields) => "{" + CanonicalMembers(Sort(UpTo, fields)) + "}"
    case _ => Text(v)
  }

  function CanonicalItems(items: seq<Json>): string
    decreases 1 + SizeItems(items), 0
  {
    if items == [] then ""
    else if |items| == 1 then Canonicalize(items[0])
    else Canonicalize(items[0]) + "," + CanonicalItems(items[1..])
  }

  function CanonicalMember(f: Field): string
    decreases Size(f.value), 2
  {
    Quote(f.key) + ":" + Canonicalize(f.value)
  }

  function CanonicalMembers(sorted: Fields): string
    decreases 1 + SizeFields(sorted), 0
  {
    if sorted == [] then ""
    else if |sorted| == 1 then CanonicalMember(sorted[0])
    else CanonicalMember(sorted[0]) + "," + CanonicalMembers(sorted[1..])
  }

  // ---- The value it is the text of ----

  /** The value with the members of every object in canonical order. */
  function Normal(v: Json): Json {
    Ordered(UpTo, v)
  }

  /** The canonical text is the plain text of the normal form. */
  lemma {:induction false} CanonicalIsNormalText(v: Json)
    ensures Canonicalize(v) == Text(Normal(v))
    decreases Size(v), 1
  {
    match v
    case Arr(items) => CanonicalItemsText(items);
    case Obj(fields) => CanonicalMembersText(Sort(UpTo, fields));
    case _ =>
  }

  lemma {:induction false} CanonicalItemsText(items: seq<Json>)
    ensures CanonicalItems(items) == ItemsText(OrderedItems(UpTo, items))
    decreases 1 + SizeItems(items), 0
  {
    if items != [] {
      CanonicalIsNormalText(items[0]);
      CanonicalItemsText(items[1..]);
      assert OrderedItems(UpTo, items)[1..] == OrderedItems(UpTo, items[1..]);
    }
  }

  lemma {:induction false} CanonicalMembersText(fields: Fields)
    ensures CanonicalMembers(fields) == MembersText(OrderedMembers(UpTo, fields))
    decreases 1 + SizeFields(fields), 0
  {
    if fields != [] {
      CanonicalIsNormalText(fields[0].value);
      CanonicalMembersText(fields[1..]);
      assert OrderedMembers(UpTo, fields)[1..] == OrderedMembers(UpTo, fields[1..]);
    }
  }

  /** Round trip: a parser reading the canonical text gives the value back, its members sorted. */
  lemma CanonicalRoundTrip(v: Json)
    requires UniqueKeys(v)
    ensures Parse(Canonicalize(v)) == Some(Normal(v))
  {
    CanonicalIsNormalText(v);
    OrderedUnique(UpTo, v);
    TextRoundTrip(Normal(v));
  }

  // ---- Which values share a normal form ----

  lemma {:induction false} SameNormal(a: Json, b: Json)
    requires UniqueKeys(a) && UniqueKeys(b) && Same(a, b)
    ensures Normal(a) == Normal(b)
    decreases Size(a)
  {
    hide Sort, Ascending;
    match a
    case Arr(items) =>
      forall i | 0 <= i < |items| ensures OrderedItems(UpTo, items)[i] == OrderedItems(UpTo, b.items)[i] {
        OrderedItem(UpTo, items, i);
        OrderedItem(UpTo, b.items, i);
        SizeItem(items, i);
        SameNormal(items[i], b.items[i]);
      }
      assert OrderedItems(UpTo, items) == OrderedItems(UpTo, b.items);
    case Obj(fields) =>
      var (x, y) := (Sort(UpTo, fields), Sort(UpTo, b.fields));
      SortAscends(fields);
      SortAscends(b.fields);
      SameKeysAlike(x, y);
      forall i | 0 <= i < |x| ensures OrderedMembers(UpTo, x)[i] == OrderedMembers(UpTo, y)[i] {
        OrderedMember(UpTo, x, i);
        OrderedMember(UpTo, y, i);
        SortedLookup(UpTo, fields, i);
        SortedLookup(UpTo, b.fields, i);
        SizeField(x, i);
        assert x[i] in fields && y[i] in b.fields;
        SameNormal(x[i].value, y[i].value);
      }
      assert OrderedMembers(UpTo, x) == OrderedMembers(UpTo, y);
    case _ =>
  }

  /** Two values have the same canonical text exactly when they differ at most in the order of members. */
  lemma CanonicalInjective(a: Json, b: Json)
    requires UniqueKeys(a) && UniqueKeys(b)
    ensures Canonicalize(a) == Canonicalize(b) <==> Same(a, b)
  {
    hide Canonicalize, Ordered, Same;
    CanonicalRoundTrip(a);
    CanonicalRoundTrip(b);
    CanonicalIsNormalText(a);
    CanonicalIsNormalText(b);
    if Same(a, b) {
      SameNormal(a, b);
    }
    if Normal(a) == Normal(b) {
      OrderedSame(UpTo, a, b);
    }
  }

  // ---- The order of the members, by positions ----

  lemma {:induction false} UnitsBelow(a: seq<nat>, b: seq<nat>)
    requires UnitsUpTo(a, b) && a != b
    ensures Below(a, b)
  {
    if a == [] || a[0] < b[0] {
      assert BelowAt(a, b, 0);
    } else {
      UnitsBelow(a[1..], b[1..]);
      BelowStep(a[0], a[1..], b[0], b[1..]);
      assert a == [a[0]] + a[1..] && b == [b[0]] + b[1..];
    }
  }

  ghost predicate KeysInOrder(fields: Fields) {
    forall i, j | 0 <= i < j < |fields| :: Below(Utf16(fields[i].key), Utf16(fields[j].key))
  }

  lemma {:induction false} AscendingInOrder(fields: Fields)
    requires Ascending(fields)
    ensures KeysInOrder(fields)
  {
    hide Below, Utf16;
    if fields != [] {
      AscendingInOrder(fields[1..]);
      forall i, j | 0 <= i < j < |fields| ensures Below(Utf16(fields[i].key), Utf16(fields[j].key)) {
        if i == 0 {
          assert fields[j] in fields[1..];
          FirstBelow(fields[0].key, fields[j].key);
        } else {
          assert fields[i] == fields[1..][i - 1] && fields[j] == fields[1..][j - 1];
        }
      }
    }
  }

  lemma FirstBelow(a: string, b: string)
    requires UpTo(a, b) && a != b
    ensures Below(Utf16(a), Utf16(b))
  {
    if Utf16(a) == Utf16(b) {
      Utf16Injective(a, b);
    }
    UnitsBelow(Utf16(a), Utf16(b));
  }

  lemma SortInOrder(fields: Fields)
    requires Distinct(fields)
    ensures KeysInOrder(OrderedMembers(UpTo, Sort(UpTo, fields)))
  {
    hide Below, Utf16, Sort, Ascending;
    var sorted := Sort(UpTo, fields);
    SortAscends(fields);
    AscendingInOrder(sorted);
    forall i | 0 <= i < |sorted| ensures OrderedMembers(UpTo, sorted)[i].key == sorted[i].key {
      OrderedMember(UpTo, sorted, i);
    }
  }

  lemma {:induction false} NormalInOrder(v: Json, path: seq<nat>)
    requires UniqueKeys(v)
    ensures ValueAt(Normal(v), path).Some? && ValueAt(Normal(v), path).value.Obj? ==>
      KeysInOrder(ValueAt(Normal(v), path).value.fields)
    decreases |path|
  {
    hide Sort, KeysInOrder;
    match v
    case Arr(items) =>
      if path != [] && path[0] < |items| {
        OrderedItem(UpTo, items, path[0]);
        NormalInOrder(items[path[0]], path[1..]);
      }
    case Obj(fields) =>
      var sorted := Sort(UpTo, fields);
      SortInOrder(fields);
      if path != [] && path[0] < |sorted| {
        OrderedMember(UpTo, sorted, path[0]);
        assert sorted[path[0]] in fields;
        NormalInOrder(sorted[path[0]].value, path[1..]);
      }
    case _ =>
  }

  /** Section 3.2.3 of RFC 8785: in every object, at whatever position of the text, the keys ascend by their UTF-16 code
      units as numbers. */
  lemma CanonicalOrder(v: Json, read: Json, path: seq<nat>, fields: Fields, i: nat, j: nat) returns (k: nat)
    requires UniqueKeys(v) && Parse(Canonicalize(v)) == Some(read)
    requires ValueAt(read, path) == Some(Obj(fields)) && i < j < |fields|
    ensures
      var (a, b) := (Utf16(fields[i].key), Utf16(fields[j].key));
      && k <= |a| && k < |b|
      && (forall q | 0 <= q < k :: a[q] == b[q])
      && (k == |a| || a[k] < b[k])
  {
    hide Normal, Canonicalize;
    CanonicalRoundTrip(v);
    NormalInOrder(v, path);
    k :| BelowAt(Utf16(fields[i].key), Utf16(fields[j].key), k);
  }

  // ---- The text itself ----

  function ItemTexts(items: seq<Json>): seq<string> {
    seq(|items|, i requires 0 <= i < |items| => Canonicalize(items[i]))
  }

  function MemberTexts(fields: Fields): seq<string> {
    seq(|fields|, i requires 0 <= i < |fields| => Quote(fields[i].key) + ":" + Canonicalize(fields[i].value))
  }

  lemma {:induction false} ItemsJoined(items: seq<Json>)
    requires items != []
    ensures CanonicalItems(items) == SchemaReferences.Join(ItemTexts(items), ',')
  {
    hide Canonicalize;
    assert ItemTexts(items)[1..] == ItemTexts(items[1..]);
    if |items| > 1 {
      ItemsJoined(items[1..]);
    }
  }

  lemma {:induction false} MembersJoined(fields: Fields)
    requires fields != []
    ensures CanonicalMembers(fields) == SchemaReferences.Join(MemberTexts(fields), ',')
  {
    hide Canonicalize, Quote;
    assert MemberTexts(fields)[1..] == MemberTexts(fields[1..]);
    if |fields| > 1 {
      MembersJoined(fields[1..]);
    }
  }

  /** A list is the texts of its items, an object those of its members in their order, with commas between and nothing
      else; a character is written as itself unless it is a quote, a backslash or a control character. */
  lemma CanonicalLayout(v: Json)
    ensures v.Arr? && v.items != [] ==> Canonicalize(v) == "[" + SchemaReferences.Join(ItemTexts(v.items), ',') + "]"
    ensures v.Obj? && v.fields != [] ==>
      Canonicalize(v) == "{" + SchemaReferences.Join(MemberTexts(Sort(UpTo, v.fields)), ',') + "}"
    ensures v.Null? ==> Canonicalize(v) == "null"
    ensures v.Bool? ==> Canonicalize(v) == if v.b then "true" else "false"
    ensures v == Arr([]) ==> Canonicalize(v) == "[]"
    ensures v == Obj([]) ==> Canonicalize(v) == "{}"
    ensures v.Str? && (forall i | 0 <= i < |v.s| :: v.s[i] >= ' ' && v.s[i] != '"' && v.s[i] != '\\') ==>
      Canonicalize(v) == "\"" + v.s + "\""
  {
    hide SchemaReferences.Join, CanonicalItems, CanonicalMembers, ItemTexts, MemberTexts, UpTo;
    match v
    case Arr(items) =>
      if items != [] {
        ItemsJoined(items);
      } else {
        NothingJoined();
      }
    case Obj(fields) =>
      if fields != [] {
        assert fields[0] in Sort(UpTo, fields);
        MembersJoined(Sort(UpTo, fields));
      } else {
        NothingJoined();
        assert Sort(UpTo, fields) == [];
      }
    case Str(s) =>
      if forall i | 0 <= i < |s| :: s[i] >= ' ' && s[i] != '"' && s[i] != '\\' {
        PlainEscaped(s);
      }
    case _ =>
  }

  lemma NothingJoined()
    ensures CanonicalItems([]) == "" && CanonicalMembers([]) == ""
  {
  }

  lemma {:induction false} PlainEscaped(s: string)
    requires forall i | 0 <= i < |s| :: s[i] >= ' ' && s[i] != '"' && s[i] != '\\'
    ensures Escaped(s) == s
  {
    if s != [] {
      PlainEscaped(s[1..]);
    }
  }

  /** Of the other characters those with a short escape have it, and the rest four lower-case digits. */
  lemma EscapesShort(c: char)
    requires c < ' ' || c == '"' || c == '\\'
    ensures var e := Escape(c);
      && |e| >= 2 && e[0] == '\\' && Unescape(e[1..]) == Some((c, ""))
      && (|e| == 2 <==> c as int in {8, 9, 10, 12, 13, 34, 92})
      && (|e| > 2 ==> |e| == 6 && e[1] == 'u' && forall i | 2 <= i < 6 :: '0' <= e[i] <= '9' || 'a' <= e[i] <= 'f')
  {
    hide Unescape;
    EscapeRoundTrip(c, "");
    assert Escape(c)[1..] + "" == Escape(c)[1..];
  }
}
