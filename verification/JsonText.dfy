/** The text of a JSON value as JSON.stringify writes it, and a parser for such texts (RFC 8259).

    Numbers are integers and strings hold Unicode scalar values, so lone surrogates do not occur.
  */
module JsonText {
  import opened Json

  // ---- Writing ----

  const HEX := "0123456789abcdef"

  function Escape(c: char): string {
    if c == '"' then "\\\""
    else if c == '\\' then "\\\\"
    else if c as int == 8 then "\\b"
    else if c as int == 9 then "\\t"
    else if c as int == 10 then "\\n"
    else if c as int == 12 then "\\f"
    else if c as int == 13 then "\\r"
    else if c as int < 32 then "\\u00" + [HEX[c as int / 16], HEX[c as int % 16]]
    else [c]
  }

  function Escaped(s: string): string {
    if s == [] then [] else Escape(s[0]) + Escaped(s[1..])
  }

  function Quote(s: string): string {
    "\"" + Escaped(s) + "\""
  }

  function Digit(n: nat): char
    requires n < 10
  {
    HEX[n]
  }

  function Decimal(n: nat): string {
    if n < 10 then [Digit(n)] else Decimal(n / 10) + [Digit(n % 10)]
  }

  function NumberText(n: int): string {
    if n < 0 then "-" + Decimal(-n) else Decimal(n)
  }

  function Text(v: Json): string
    decreases v, 1
  {
    match v
    case Null => "null"
    case Bool(b) => if b then "true" else "false"
    case Num(n) => NumberText(n)
    case Str(s) => Quote(s)
    case Arr(items) => "[" + ItemsText(items) + "]"
    case Obj(fields) => "{" + MembersText(fields) + "}"
  }

  function ItemsText(items: seq<Json>): string
    decreases items, 0
  {
    if items == [] then ""
    else if |items| == 1 then Text(items[0])
    else Text(items[0]) + "," + ItemsText(items[1..])
  }

  function MemberText(f: Field): string
    decreases f, 0
  {
    Quote(f.key) + ":" + Text(f.value)
  }

  function MembersText(fields: Fields): string
    decreases fields, 0
  {
    if fields == [] then ""
    else if |fields| == 1 then MemberText(fields[0])
    else MemberText(fields[0]) + "," + MembersText(fields[1..])
  }

  // ---- Reading ----

  /** What was read, and the text behind it. */
  type Read<T> = Option<(T, string)>

  function SkipSpace(s: string): (r: string)
    ensures |r| <= |s|
  {
    if s != [] && (s[0] == ' ' || s[0] == '\t' || s[0] == '\n' || s[0] == '\r') then SkipSpace(s[1..]) else s
  }

  function HexValue(c: char): Option<nat> {
    if '0' <= c <= '9' then Some(c as int - '0' as int)
    else if 'a' <= c <= 'f' then Some(c as int - 'a' as int + 10)
    else if 'A' <= c <= 'F' then Some(c as int - 'A' as int + 10)
    else None
  }

  /** The code unit written by four hexadecimal digits. */
  function CodeUnit(s: string): Option<nat> {
    if |s| < 4 then None
    else
      match (HexValue(s[0]), HexValue(s[1]), HexValue(s[2]), HexValue(s[3]))
      case (Some(a), Some(b), Some(c), Some(d)) => Some(((a * 16 + b) * 16 + c) * 16 + d)
      case _ => None
  }

  /** The character of an escape, after its backslash. */
  function Unescape(s: string): (r: Read<char>)
    ensures r.Some? ==> |r.value.1| < |s|
  {
    if s == [] then None
    else
      match s[0]
      case '"' => Some(('"', s[1..]))
      case '\\' => Some(('\\', s[1..]))
      case '/' => Some(('/', s[1..]))
      case 'b' => Some((8 as char, s[1..]))
      case 't' => Some((9 as char, s[1..]))
      case 'n' => Some((10 as char, s[1..]))
      case 'f' => Some((12 as char, s[1..]))
      case 'r' => Some((13 as char, s[1..]))
      case 'u' =>
        (match CodeUnit(s[1..])
         case None => None
         case Some(n) =>
           if n < 0xD800 || 0xE000 <= n < 0x10000 then Some((n as char, s[5..]))
           else if n < 0xDC00 && |s| >= 11 && s[5] == '\\' && s[6] == 'u' then LowSurrogate(n, s[7..])
           else None)
      case _ => None
  }

  function LowSurrogate(high: nat, s: string): (r: Read<char>)
    requires 0xD800 <= high < 0xDC00 && |s| >= 4
    ensures r.Some? ==> |r.value.1| < |s|
  {
    match CodeUnit(s)
    case Some(low) =>
      if 0xDC00 <= low < 0xE000 then Some(((0x10000 + (high - 0xD800) * 0x400 + (low - 0xDC00)) as char, s[4..]))
      else None
    case None => None
  }

  /** The rest of a string, after its opening quotation mark. */
  function ParseString(s: string): (r: Read<string>)
    ensures r.Some? ==> |r.value.1| < |s|
    decreases |s|
  {
    if s == [] || s[0] as int < 32 then None
    else if s[0] == '"' then Some(("", s[1..]))
    else
      match if s[0] == '\\' then Unescape(s[1..]) else Some((s[0], s[1..]))
      case None => None
      case Some((c, behind)) =>
        match ParseString(behind)
        case None => None
        case Some((tail, rest)) => Some(([c] + tail, rest))
  }

  predicate IsDigit(c: char) {
    '0' <= c <= '9'
  }

  function TakeDigits(s: string): (r: (string, string))
    ensures r.0 + r.1 == s
    ensures forall c | c in r.0 :: IsDigit(c)
  {
    if s == [] || !IsDigit(s[0]) then ("", s)
    else
      var (digits, rest) := TakeDigits(s[1..]);
      ([s[0]] + digits, rest)
  }

  function DecimalValue(digits: string): nat
    requires forall c | c in digits :: IsDigit(c)
  {
    if digits == [] then 0
    else
      assert IsDigit(digits[|digits| - 1]);
      DecimalValue(digits[..|digits| - 1]) * 10 + (digits[|digits| - 1] as int - '0' as int)
  }

  /** An integer without fraction and exponent. */
  function ParseNumber(s: string): (r: Read<int>)
    ensures r.Some? ==> |r.value.1| < |s|
  {
    var negative := s != [] && s[0] == '-';
    var (digits, rest) := TakeDigits(if negative then s[1..] else s);
    if digits == [] || (|digits| > 1 && digits[0] == '0') then None
    else if rest != [] && (rest[0] == '.' || rest[0] == 'e' || rest[0] == 'E') then None
    else
      var n: int := DecimalValue(digits);
      Some((if negative then -n else n, rest))
  }

  function ParseWord(s: string, word: string, v: Json): (r: Read<Json>)
    requires word != []
    ensures r.Some? ==> |r.value.1| < |s|
  {
    if |s| >= |word| && s[..|word|] == word then Some((v, s[|word|..])) else None
  }

  function ParseValue(s: string): (r: Read<Json>)
    ensures r.Some? ==> |r.value.1| < |s|
    decreases |s|, 0
  {
    if s == [] then None
    else if s[0] == 'n' then ParseWord(s, "null", Null)
    else if s[0] == 't' then ParseWord(s, "true", Bool(true))
    else if s[0] == 'f' then ParseWord(s, "false", Bool(false))
    else if s[0] == '"' then
      match ParseString(s[1..])
      case None => None
      case Some((text, rest)) => Some((Str(text), rest))
    else if s[0] == '[' then
      var inside := SkipSpace(s[1..]);
      if inside != [] && inside[0] == ']' then Some((Arr([]), inside[1..]))
      else
        match ParseItems(inside)
        case None => None
        case Some((items, rest)) => Some((Arr(items), rest))
    else if s[0] == '{' then
      var inside := SkipSpace(s[1..]);
      if inside != [] && inside[0] == '}' then Some((Obj([]), inside[1..]))
      else
        match ParseMembers(inside, [])
        case None => None
        case Some((fields, rest)) => Some((Obj(fields), rest))
    else
      match ParseNumber(s)
      case None => None
      case Some((n, rest)) => Some((Num(n), rest))
  }

  function ParseItems(s: string): (r: Read<seq<Json>>)
    ensures r.Some? ==> |r.value.1| < |s|
    decreases |s|, 1
  {
    match ParseValue(s)
    case None => None
    case Some((v, behind)) =>
      var next := SkipSpace(behind);
      if next == [] then None
      else if next[0] == ']' then Some(([v], next[1..]))
      else if next[0] != ',' then None
      else
        match ParseItems(SkipSpace(next[1..]))
        case None => None
        case Some((items, rest)) => Some(([v] + items, rest))
  }

  /** A member with a key that was already read replaces it. */
  function ParseMembers(s: string, read: Fields): (r: Read<Fields>)
    ensures r.Some? ==> |r.value.1| < |s|
    decreases |s|, 1
  {
    if s == [] || s[0] != '"' then None
    else
      match ParseString(s[1..])
      case None => None
      case Some((key, afterKey)) =>
        var colon := SkipSpace(afterKey);
        if colon == [] || colon[0] != ':' then None
        else
          match ParseValue(SkipSpace(colon[1..]))
          case None => None
          case Some((v, behind)) =>
            var fields, next := Put(read, key, v), SkipSpace(behind);
            if next == [] then None
            else if next[0] == '}' then Some((fields, next[1..]))
            else if next[0] != ',' then None
            else ParseMembers(SkipSpace(next[1..]), fields)
  }

  function Parse(s: string): Option<Json> {
    match ParseValue(SkipSpace(s))
    case Some((v, rest)) => if SkipSpace(rest) == [] then Some(v) else None
    case None => None
  }

  // ---- Reading back what was written ----

  /** A text that can stand behind a value. */
  predicate Delimited(rest: string) {
    rest == [] || rest[0] == ',' || rest[0] == ']' || rest[0] == '}'
  }

  lemma HexRoundTrip(n: nat)
    requires n < 16
    ensures HexValue(HEX[n]) == Some(n)
  {
  }

  lemma EscapeRoundTrip(c: char, rest: string)
    requires |Escape(c)| > 1
    ensures Escape(c)[0] == '\\' && Unescape(Escape(c)[1..] + rest) == Some((c, rest))
  {
    var n, s := c as int, Escape(c)[1..] + rest;
    if |Escape(c)| > 2 {
      HexRoundTrip(n / 16);
      HexRoundTrip(n % 16);
      HexRoundTrip(0);
      assert s == ['u', '0', '0', HEX[n / 16], HEX[n % 16]] + rest;
      assert s[1..] == ['0', '0', HEX[n / 16], HEX[n % 16]] + rest;
      assert CodeUnit(s[1..]) == Some(n);
      assert s[5..] == rest;
    } else {
      assert s == [Escape(c)[1]] + rest;
    }
  }

  lemma EscapeLength(c: char)
    ensures |Escape(c)| >= 1
    ensures |Escape(c)| == 1 ==> Escape(c) == [c] && c != '"' && c != '\\' && c as int >= 32
  {
  }

  lemma {:induction false} StringRoundTrip(s: string, rest: string)
    ensures ParseString(Escaped(s) + "\"" + rest) == Some((s, rest))
  {
    hide Escape, Unescape;
    if s == [] {
      assert Escaped(s) + "\"" + rest == "\"" + rest;
    } else {
      var tail := Escaped(s[1..]) + "\"" + rest;
      var whole := Escaped(s) + "\"" + rest;
      assert whole == Escape(s[0]) + tail;
      StringRoundTrip(s[1..], rest);
      EscapeLength(s[0]);
      if |Escape(s[0])| > 1 {
        EscapeRoundTrip(s[0], tail);
        assert whole[1..] == Escape(s[0])[1..] + tail;
      } else {
        assert whole[1..] == tail;
      }
      assert [s[0]] + s[1..] == s;
    }
  }

  lemma {:induction false} DecimalDigits(n: nat)
    ensures Decimal(n) != [] && (forall c | c in Decimal(n) :: IsDigit(c))
    ensures |Decimal(n)| > 1 ==> Decimal(n)[0] != '0'
    ensures n > 0 ==> Decimal(n)[0] != '0'
    ensures DecimalValue(Decimal(n)) == n
  {
    if n >= 10 {
      DecimalDigits(n / 10);
      var digits := Decimal(n / 10) + [Digit(n % 10)];
      assert digits[..|digits| - 1] == Decimal(n / 10);
    }
  }

  lemma {:induction false} DigitsTaken(digits: string, rest: string)
    requires forall c | c in digits :: IsDigit(c)
    requires rest != [] ==> !IsDigit(rest[0])
    ensures TakeDigits(digits + rest) == (digits, rest)
  {
    if digits == [] {
      assert digits + rest == rest;
    } else {
      assert (digits + rest)[1..] == digits[1..] + rest;
      DigitsTaken(digits[1..], rest);
      assert [digits[0]] + digits[1..] == digits;
    }
  }

  lemma NaturalRoundTrip(n: nat, rest: string)
    requires Delimited(rest)
    ensures TakeDigits(Decimal(n) + rest) == (Decimal(n), rest)
    ensures Decimal(n) != [] && (|Decimal(n)| > 1 ==> Decimal(n)[0] != '0') && IsDigit(Decimal(n)[0])
    ensures (forall c | c in Decimal(n) :: IsDigit(c)) && DecimalValue(Decimal(n)) == n
  {
    hide TakeDigits, Decimal, DecimalValue;
    DecimalDigits(n);
    DigitsTaken(Decimal(n), rest);
    assert Decimal(n)[0] in Decimal(n);
  }

  lemma NumberRoundTrip(n: int, rest: string)
    requires Delimited(rest)
    ensures NumberText(n) != [] && (NumberText(n)[0] == '-' || IsDigit(NumberText(n)[0]))
    ensures ParseNumber(NumberText(n) + rest) == Some((n, rest))
  {
    hide TakeDigits, Decimal, DecimalValue;
    var digits := Decimal(if n < 0 then -n else n);
    NaturalRoundTrip(if n < 0 then -n else n, rest);
    if n < 0 {
      assert NumberText(n) == "-" + digits;
      assert (NumberText(n) + rest)[1..] == digits + rest;
    }
  }

  /** No text of a value starts with white space or a closing bracket. */
  lemma TextStarts(v: Json)
    ensures Text(v) != [] && Text(v)[0] !in {' ', '\t', '\n', '\r', ',', ']', '}', ':'}
  {
    match v
    case Num(n) => NumberRoundTrip(n, []);
    case _ =>
  }

  lemma NoSpace(s: string)
    requires s != [] ==> s[0] !in {' ', '\t', '\n', '\r'}
    ensures SkipSpace(s) == s
  {
  }

  function ArrayBehind(inside: string): Read<Json>
    requires inside != []
  {
    if inside[0] == ']' then Some((Arr([]), inside[1..]))
    else match ParseItems(inside) case None => None case Some((items, rest)) => Some((Arr(items), rest))
  }

  function ObjectBehind(inside: string): Read<Json>
    requires inside != []
  {
    if inside[0] == '}' then Some((Obj([]), inside[1..]))
    else match ParseMembers(inside, []) case None => None case Some((fields, rest)) => Some((Obj(fields), rest))
  }

  /** How the parser goes on, by the first character of a value. */
  lemma ParseByFirst(s: string)
    requires s != []
    ensures s[0] == '"' ==>
      ParseValue(s) == match ParseString(s[1..]) { case None => None case Some((text, rest)) => Some((Str(text), rest)) }
    ensures s[0] == '-' || IsDigit(s[0]) ==>
      ParseValue(s) == match ParseNumber(s) { case None => None case Some((n, rest)) => Some((Num(n), rest)) }
    ensures s[0] == '[' && SkipSpace(s[1..]) != [] ==>
      ParseValue(s) == ArrayBehind(SkipSpace(s[1..]))
    ensures s[0] == '{' && SkipSpace(s[1..]) != [] ==>
      ParseValue(s) == ObjectBehind(SkipSpace(s[1..]))
  {
    hide SkipSpace, ParseItems, ParseMembers, ParseNumber, ParseString, ParseWord;
  }

  lemma {:induction false} ValueRoundTrip(v: Json, rest: string)
    requires UniqueKeys(v) && Delimited(rest)
    ensures ParseValue(Text(v) + rest) == Some((v, rest))
    decreases v, 1
  {
    hide SkipSpace, ParseItems, ParseMembers, ParseNumber, ParseString, NumberText;
    var s := Text(v) + rest;
    match v
    case Null => WordRoundTrip("null", v, rest);
    case Bool(b) => WordRoundTrip(if b then "true" else "false", v, rest);
    case Num(n) =>
      hide ParseValue;
      NumberRoundTrip(n, rest);
      ParseByFirst(s);
    case Str(text) =>
      hide ParseValue;
      assert s[1..] == Escaped(text) + "\"" + rest;
      StringRoundTrip(text, rest);
      ParseByFirst(s);
    case Arr(items) =>
      hide ParseValue;
      ArrayRoundTrip(items, rest);
    case Obj(fields) =>
      hide ParseValue;
      ObjectRoundTrip(fields, rest);
  }

  lemma {:induction false} ArrayRoundTrip(items: seq<Json>, rest: string)
    requires forall x | x in items :: UniqueKeys(x)
    ensures ParseValue(Text(Arr(items)) + rest) == Some((Arr(items), rest))
    decreases items, 1
  {
    hide ParseValue, ParseItems;
    var s, inside := Text(Arr(items)) + rest, ItemsText(items) + "]" + rest;
    assert s[1..] == inside;
    ParseByFirst(s);
    if items == [] {
      assert inside == "]" + rest;
      assert inside[1..] == rest;
    } else {
      ItemsStart(items);
      NoSpace(inside);
      ItemsRoundTrip(items, rest);
    }
  }

  lemma {:induction false} ObjectRoundTrip(fields: Fields, rest: string)
    requires Distinct(fields) && forall f | f in fields :: UniqueKeys(f.value)
    ensures ParseValue(Text(Obj(fields)) + rest) == Some((Obj(fields), rest))
    decreases fields, 1
  {
    hide ParseValue, ParseMembers;
    var s, inside := Text(Obj(fields)) + rest, MembersText(fields) + "}" + rest;
    assert s[1..] == inside;
    ParseByFirst(s);
    if fields == [] {
      assert inside == "}" + rest;
      assert inside[1..] == rest;
    } else {
      MembersStart(fields);
      NoSpace(inside);
      MembersRoundTrip(fields, [], rest);
      assert [] + fields == fields;
    }
  }

  lemma WordRoundTrip(word: string, v: Json, rest: string)
    requires word != []
    ensures ParseWord(word + rest, word, v) == Some((v, rest))
  {
    assert (word + rest)[..|word|] == word;
  }

  lemma ItemsStart(items: seq<Json>)
    requires items != []
    ensures ItemsText(items) != [] && ItemsText(items)[0] !in {' ', '\t', '\n', '\r', ']'}
  {
    TextStarts(items[0]);
  }

  lemma MembersStart(fields: Fields)
    requires fields != []
    ensures MembersText(fields) != [] && MembersText(fields)[0] == '"'
  {
  }

  /** One element is read, and the parser goes on behind it. */
  lemma ItemRead(x: Json, next: string)
    requires next != [] && (next[0] == ',' || next[0] == ']')
    requires ParseValue(Text(x) + next) == Some((x, next))
    ensures ParseItems(Text(x) + next) ==
      if next[0] == ']' then Some(([x], next[1..]))
      else match ParseItems(SkipSpace(next[1..])) case None => None case Some((items, rest)) => Some(([x] + items, rest))
  {
    hide Text, ParseValue;
    NoSpace(next);
  }

  lemma {:induction false} ItemsRoundTrip(items: seq<Json>, rest: string)
    requires items != [] && forall x | x in items :: UniqueKeys(x)
    ensures ParseItems(ItemsText(items) + "]" + rest) == Some((items, rest))
    decreases items, 0
  {
    hide Text, ParseValue, ParseItems;
    var s := ItemsText(items) + "]" + rest;
    if |items| == 1 {
      var next := "]" + rest;
      assert s == Text(items[0]) + next;
      ValueRoundTrip(items[0], next);
      ItemRead(items[0], next);
      assert [items[0]] == items && next[1..] == rest;
    } else {
      var tail := ItemsText(items[1..]) + "]" + rest;
      var next := "," + tail;
      assert s == Text(items[0]) + next;
      ValueRoundTrip(items[0], next);
      ItemRead(items[0], next);
      ItemsStart(items[1..]);
      NoSpace(tail);
      ItemsRoundTrip(items[1..], rest);
      assert next[1..] == tail;
      assert [items[0]] + items[1..] == items;
    }
  }

  lemma {:induction false} PutNew(fields: Fields, key: string, value: Json)
    requires key !in Keys(fields)
    ensures Put(fields, key, value) == fields + [Field(key, value)]
  {
    if fields != [] {
      KeysCons(fields);
      PutNew(fields[1..], key, value);
      assert fields == [fields[0]] + fields[1..];
    }
  }

  lemma MemberRoundTrip(f: Field, read: Fields, next: string)
    requires f.key !in Keys(read) && Delimited(next)
    requires ParseValue(Text(f.value) + next) == Some((f.value, next))
    ensures var s := MemberText(f) + next;
      && s != [] && s[0] == '"'
      && var key := ParseString(s[1..]);
         && key.Some? && key.value.0 == f.key
         && SkipSpace(key.value.1) == ":" + (Text(f.value) + next)
         && ParseValue(SkipSpace((":" + (Text(f.value) + next))[1..])) == Some((f.value, next))
    ensures Put(read, f.key, f.value) == read + [f]
  {
    hide Text, ParseValue;
    var s, value := MemberText(f) + next, Text(f.value) + next;
    assert s[1..] == Escaped(f.key) + "\"" + (":" + value);
    StringRoundTrip(f.key, ":" + value);
    NoSpace(":" + value);
    assert (":" + value)[1..] == value;
    TextStarts(f.value);
    NoSpace(value);
    PutNew(read, f.key, f.value);
  }

  /** One member is read, and the parser goes on behind it. */
  lemma MemberRead(f: Field, read: Fields, next: string)
    requires f.key !in Keys(read) && next != [] && (next[0] == ',' || next[0] == '}')
    requires ParseValue(Text(f.value) + next) == Some((f.value, next))
    ensures ParseMembers(MemberText(f) + next, read) ==
      if next[0] == '}' then Some((read + [f], next[1..])) else ParseMembers(SkipSpace(next[1..]), read + [f])
  {
    hide Text, ParseValue, ParseString, MemberText, Put;
    MemberRoundTrip(f, read, next);
    NoSpace(next);
  }

  lemma {:induction false} MembersRoundTrip(fields: Fields, read: Fields, rest: string)
    requires fields != [] && Distinct(fields) && forall f | f in fields :: UniqueKeys(f.value)
    requires Keys(read) !! Keys(fields)
    ensures ParseMembers(MembersText(fields) + "}" + rest, read) == Some((read + fields, rest))
    decreases fields, 0
  {
    hide Text, ParseValue, MemberText, ParseMembers;
    var s := MembersText(fields) + "}" + rest;
    var f, tail := fields[0], MembersText(fields[1..]) + "}" + rest;
    KeysCons(fields);
    if |fields| == 1 {
      var next := "}" + rest;
      assert s == MemberText(f) + next;
      ValueRoundTrip(f.value, next);
      MemberRead(f, read, next);
      assert next[1..] == rest && read + [f] == read + fields;
    } else {
      var next := "," + tail;
      assert s == MemberText(f) + next;
      ValueRoundTrip(f.value, next);
      MemberRead(f, read, next);
      MembersStart(fields[1..]);
      NoSpace(tail);
      assert next[1..] == tail;
      KeysSnoc(read, f);
      MembersRoundTrip(fields[1..], read + [f], rest);
      assert read + [f] + fields[1..] == read + fields;
    }
  }

  lemma KeysSnoc(fields: Fields, f: Field)
    ensures Keys(fields + [f]) == Keys(fields) + {f.key}
  {
    forall k | k in Keys(fields) + {f.key} ensures k in Keys(fields + [f]) {
      if k == f.key {
        assert f in fields + [f];
      } else {
        var g :| g in fields && g.key == k;
        assert g in fields + [f];
      }
    }
  }

  /** The text of a value is read back as that value. */
  lemma TextRoundTrip(v: Json)
    requires UniqueKeys(v)
    ensures Parse(Text(v)) == Some(v)
  {
    hide ParseValue, Text;
    TextStarts(v);
    NoSpace(Text(v));
    ValueRoundTrip(v, []);
    assert Text(v) + [] == Text(v);
  }
}
