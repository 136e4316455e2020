/** References between schema documents: JSON Pointers (RFC 6901) and the `document#pointer` form. */
module SchemaReferences {
  import opened Json

  datatype SchemaError =
    | DocumentNotFound(name: string)
    | PointerInvalid(pointer: string)
    | PointerNotFound(pointer: string)
    | FragmentMalformed(fragment: string)
    | ReferenceCycle(key: string)
    | ToolSchemaInvalid(reference: string)

  /** The schema documents by file name, and the platform's percent-decoding. */
  datatype SchemaSet = SchemaSet(documents: map<string, Json>, decodeUri: string -> Option<string>)

  // ---- Text ----

  /** The pieces of `s` between occurrences of `separator`. */
  function Split(s: string, separator: char): (pieces: seq<string>)
    ensures |pieces| >= 1
  {
    if s == [] then [[]]
    else
      var rest := Split(s[1..], separator);
      if s[0] == separator then [[]] + rest
      else [[s[0]] + rest[0]] + rest[1..]
  }

  function Join(pieces: seq<string>, separator: char): string
    requires |pieces| >= 1
  {
    if |pieces| == 1 then pieces[0] else pieces[0] + [separator] + Join(pieces[1..], separator)
  }

  lemma SplitPiece(piece: string, separator: char, rest: string)
    requires separator !in piece
    ensures Split(piece, separator) == [piece]
    ensures Split(piece + [separator] + rest, separator) == [piece] + Split(rest, separator)
  {
    if piece == [] {
      assert piece + [separator] + rest == [separator] + rest;
    } else {
      var whole := piece + [separator] + rest;
      assert whole[1..] == piece[1..] + [separator] + rest;
      SplitPiece(piece[1..], separator, rest);
      assert [piece[0]] + piece[1..] == piece;
    }
  }

  lemma {:induction false} SplitJoin(pieces: seq<string>, separator: char)
    requires |pieces| >= 1 && forall p | p in pieces :: separator !in p
    ensures Split(Join(pieces, separator), separator) == pieces
  {
    assert pieces[0] in pieces;
    if |pieces| == 1 {
      SplitPiece(pieces[0], separator, []);
    } else {
      SplitPiece(pieces[0], separator, Join(pieces[1..], separator));
      SplitJoin(pieces[1..], separator);
    }
  }

  /** `s.replaceAll("ab", "c")` for a pattern of two different characters. */
  function ReplaceAll(s: string, a: char, b: char, c: char): string {
    if |s| < 2 then s
    else if s[0] == a && s[1] == b then [c] + ReplaceAll(s[2..], a, b, c)
    else [s[0]] + ReplaceAll(s[1..], a, b, c)
  }

  // ---- Pointer tokens ----

  function DecodePointerToken(token: string): string {
    ReplaceAll(ReplaceAll(token, '~', '1', '/'), '~', '0', '~')
  }

  /** The escaping of section 3 of RFC 6901. */
  function EncodePointerToken(token: string): (r: string)
    ensures '/' !in r
  {
    if token == [] then []
    else
      (if token[0] == '~' then "~0" else if token[0] == '/' then "~1" else [token[0]])
      + EncodePointerToken(token[1..])
  }

  /** The token in the middle of decoding: slashes are back, tildes are still escaped. */
  ghost function TildesEscaped(token: string): string {
    if token == [] then []
    else (if token[0] == '~' then "~0" else [token[0]]) + TildesEscaped(token[1..])
  }

  lemma {:induction false} SlashesDecode(token: string)
    ensures ReplaceAll(EncodePointerToken(token), '~', '1', '/') == TildesEscaped(token)
  {
    if token != [] {
      var rest := EncodePointerToken(token[1..]);
      SlashesDecode(token[1..]);
      if token[0] == '~' {
        assert ("~0" + rest)[1..] == "0" + rest;
        assert ("0" + rest)[1..] == rest;
      } else if token[0] == '/' {
        assert ("~1" + rest)[2..] == rest;
      } else {
        assert ([token[0]] + rest)[1..] == rest;
      }
    }
  }

  lemma {:induction false} TildesDecode(token: string)
    ensures ReplaceAll(TildesEscaped(token), '~', '0', '~') == token
  {
    if token != [] {
      var rest := TildesEscaped(token[1..]);
      TildesDecode(token[1..]);
      if token[0] == '~' {
        assert ("~0" + rest)[2..] == rest;
      } else {
        assert ([token[0]] + rest)[1..] == rest;
      }
    }
  }

  lemma TokenRoundTrip(token: string)
    ensures DecodePointerToken(EncodePointerToken(token)) == token
  {
    SlashesDecode(token);
    TildesDecode(token);
  }

  // ---- Pointers ----

  /** The value at the end of a path of member names; arrays are not entered. */
  function Follow(current: Json, tokens: seq<string>): Option<Json> {
    if tokens == [] then Some(current)
    else if !current.Obj? then None
    else
      var member := Get(current.fields, tokens[0]);
      if member.None? then None else Follow(member.value, tokens[1..])
  }

  function Decoded(tokens: seq<string>): seq<string> {
    seq(|tokens|, i requires 0 <= i < |tokens| => DecodePointerToken(tokens[i]))
  }

  function PointerTarget(document: Json, pointer: string): Result<Json, SchemaError> {
    if pointer == "" || pointer == "/" then Ok(document)
    else if pointer[0] != '/' then Err(PointerInvalid(pointer))
    else
      var found := Follow(document, Decoded(Split(pointer[1..], '/')));
      if found.None? then Err(PointerNotFound(pointer)) else Ok(found.value)
  }

  /** The loop that walks a pointer token by token, stopping at the first missing member. */
  method ResolvePointer(document: Json, pointer: string) returns (r: Result<Json, SchemaError>)
    ensures r == PointerTarget(document, pointer)
  {
    if pointer == "" || pointer == "/" {
      return Ok(document);
    }
    if pointer[0] != '/' {
      return Err(PointerInvalid(pointer));
    }
    var current := document;
    var tokens := Decoded(Split(pointer[1..], '/'));
    for i := 0 to |tokens|
      invariant Follow(document, tokens) == Follow(current, tokens[i..])
    {
      if !current.Obj? || tokens[i] !in Keys(current.fields) {
        return Err(PointerNotFound(pointer));
      }
      current := Get(current.fields, tokens[i]).value;
    }
    return Ok(current);
  }

  /** The pointer that section 3 of RFC 6901 writes for a path of member names. */
  function PointerOf(tokens: seq<string>): string {
    if tokens == [] then "" else "/" + Join(Encoded(tokens), '/')
  }

  function Encoded(tokens: seq<string>): seq<string> {
    seq(|tokens|, i requires 0 <= i < |tokens| => EncodePointerToken(tokens[i]))
  }

  /** Every location reached through member names is addressed by its RFC 6901 pointer, except the
      member with the empty name of the document itself: the code reads `/` as the whole document. */
  lemma PointerAddresses(document: Json, tokens: seq<string>)
    ensures
      var r := PointerTarget(document, PointerOf(tokens));
      (r == match Follow(document, tokens) { case Some(v) => Ok(v) case None => Err(PointerNotFound(PointerOf(tokens))) })
      <==> tokens != [""]
  {
    if tokens == [""] {
      assert PointerOf(tokens) == "/";
      if document.Obj? && Get(document.fields, "").Some? {
        assert Follow(document, tokens) == Some(Get(document.fields, "").value) by {
          assert tokens[1..] == [];
        }
        assert Size(Get(document.fields, "").value) < Size(document);
      }
    } else if tokens != [] {
      var pointer := PointerOf(tokens);
      assert pointer[1..] == Join(Encoded(tokens), '/');
      SplitJoin(Encoded(tokens), '/');
      forall i | 0 <= i < |tokens| ensures DecodePointerToken(Encoded(tokens)[i]) == tokens[i] {
        TokenRoundTrip(tokens[i]);
      }
      assert Decoded(Encoded(tokens)) == tokens;
    }
  }

  // ---- References ----

  datatype Resolution = Resolution(documentName: string, pointer: string, value: Json) {
    function Key(): string {
      documentName + "#" + pointer
    }
  }

  /** The key of a target tells it from all others; document names hold no `#`. */
  lemma KeysTellApart(a: Resolution, b: Resolution)
    requires '#' !in a.documentName && '#' !in b.documentName
    ensures a.Key() == b.Key() <==> a.documentName == b.documentName && a.pointer == b.pointer
  {
    if a.Key() == b.Key() {
      SplitPiece(a.documentName, '#', a.pointer);
      SplitPiece(b.documentName, '#', b.pointer);
      var (x, y) := (a.documentName, b.documentName);
      assert a.documentName + ['#'] + a.pointer == a.Key() && b.documentName + ['#'] + b.pointer == b.Key();
      assert Split(a.Key(), '#')[0] == x && Split(b.Key(), '#')[0] == y;
      assert a.pointer == a.Key()[|x| + 1..] && b.pointer == b.Key()[|y| + 1..];
    }
  }

  /** The document part of a reference, and the part between its first and second `#`. */
  function ReferenceParts(reference: string): (string, string) {
    var pieces := Split(reference, '#');
    (pieces[0], if |pieces| > 1 then pieces[1] else "")
  }

  function StripDotSlash(name: string): string {
    if |name| >= 2 && name[..2] == "./" then name[2..] else name
  }

  function ResolveReference(s: SchemaSet, reference: string, currentDocument: string): Result<Resolution, SchemaError> {
    var (rawDocument, rawFragment) := ReferenceParts(reference);
    var name := if rawDocument != "" then StripDotSlash(rawDocument) else currentDocument;
    if name !in s.documents then Err(DocumentNotFound(name))
    else
      var decoded := if rawFragment != "" then s.decodeUri(rawFragment) else Some("");
      if decoded.None? then Err(FragmentMalformed(rawFragment))
      else
        match PointerTarget(s.documents[name], decoded.value)
        case Err(e) => Err(e)
        case Ok(value) => Ok(Resolution(name, decoded.value, value))
  }

  // ---- What a reference text leads to ----

  /** A reference text: a document name, with or without `./` in front, and a fragment or none. */
  function ReferenceText(dotted: bool, name: string, fragment: Option<string>): string {
    (if dotted then "./" else "") + name + (if fragment.Some? then "#" + fragment.value else "")
  }

  lemma PartsOfText(document: string, fragment: Option<string>)
    requires '#' !in document && (fragment.Some? ==> '#' !in fragment.value)
    ensures ReferenceParts(document + (if fragment.Some? then "#" + fragment.value else "")) ==
      (document, if fragment.Some? then fragment.value else "")
  {
    if fragment.Some? {
      SplitPiece(document, '#', fragment.value);
      SplitPiece(fragment.value, '#', "");
      assert document + "#" + fragment.value == document + ("#" + fragment.value);
    } else {
      SplitPiece(document, '#', "");
      assert document + "" == document;
    }
  }

  /** A reference to a document by its name, `./` before it being optional, or to the current one by none, leads to the
      value at the path of member names whose pointer its fragment decodes to, and fails if that
      document or that value does not exist. */
  lemma ReferenceLeadsTo(
    s: SchemaSet, dotted: bool, name: string, fragment: Option<string>, path: seq<string>, current: string)
    requires '#' !in name && (dotted || !("./" <= name)) && (fragment.Some? ==> '#' !in fragment.value)
    requires if fragment.None? || fragment.value == "" then path == [] else s.decodeUri(fragment.value) == Some(PointerOf(path))
    requires path != [""]
    ensures
      var target := if dotted || name != "" then name else current;
      var r := ResolveReference(s, ReferenceText(dotted, name, fragment), current);
      && (r.Ok? <==> target in s.documents && Follow(s.documents[target], path).Some?)
      && (r.Ok? ==>
            r.value.documentName == target && r.value.pointer == PointerOf(path)
            && Some(r.value.value) == Follow(s.documents[target], path))
  {
    var document := (if dotted then "./" else "") + name;
    assert document == if dotted then "./" + name else name;
    PartsOfText(document, fragment);
    if dotted {
      assert document[2..] == name;
    }
    var target := if dotted || name != "" then name else current;
    if target in s.documents {
      PointerAddresses(s.documents[target], path);
    }
  }

  /** A fragment that cannot be decoded fails, whatever the document. */
  lemma MalformedFragmentFails(s: SchemaSet, dotted: bool, name: string, fragment: string, current: string)
    requires '#' !in name && '#' !in fragment && fragment != "" && s.decodeUri(fragment).None?
    ensures ResolveReference(s, ReferenceText(dotted, name, Some(fragment)), current).Err?
  {
    PartsOfText((if dotted then "./" else "") + name, Some(fragment));
  }
}
