/**
 * Finding JSON in model output (agent-runner/conductor.py, `_extract_json`, `_last_shaped_json`,
 * `_verdict_json`), against the grammar of RFC 8259, sections 2 to 7.
 */
module JsonScanner {
  import opened Options

  // --------------------------------------------------------------------
  // JSON texts
  // --------------------------------------------------------------------

  /** One piece of a string: an unescaped character, or a backslash and the character after it. */
  datatype Piece = Plain(c: char) | Escaped(c: char)

  /**
   * A JSON text as written, with its whitespace. A literal is a number or `true`, `false`, `null`; a
   * unicode escape is an escaped `u` followed by four plain digits.
   */
  datatype Json =
    | Literal(text: string)
    | Text(pieces: seq<Piece>)
    | Array(blank: string, elements: Elements)
    | Object(blank: string, members: Members)

  datatype Elements = NoElement | Element(before: string, value: Json, after: string, rest: Elements)

  datatype Members = NoMember | Member(before: string, name: seq<Piece>, colon: string, value: Json, after: string, rest: Members)

  /** Whitespace and literals have none of the four characters the scanner looks at. */
  predicate Neutral(s: string) {
    forall c :: c in s ==> c !in {'{', '}', '"', '\\'}
  }

  predicate ValidPieces(ps: seq<Piece>) {
    forall p :: p in ps && p.Plain? ==> p.c !in {'"', '\\'}
  }

  predicate Valid(v: Json) {
    match v
    case Literal(text) => Neutral(text)
    case Text(ps) => ValidPieces(ps)
    case Array(blank, es) => Neutral(blank) && ValidElements(es)
    case Object(blank, ms) => Neutral(blank) && ValidMembers(ms)
  }

  predicate ValidElements(es: Elements) {
    match es
    case NoElement => true
    case Element(before, v, after, rest) => Neutral(before) && Valid(v) && Neutral(after) && ValidElements(rest)
  }

  /** Between a name and its value there is whitespace with one colon in it. */
  predicate ValidMembers(ms: Members) {
    match ms
    case NoMember => true
    case Member(before, name, colon, v, after, rest) =>
      Neutral(before) && ValidPieces(name) && Neutral(colon) && Valid(v) && Neutral(after) && ValidMembers(rest)
  }

  function PrintPieces(ps: seq<Piece>): string {
    if ps == [] then ""
    else (if ps[0].Plain? then [ps[0].c] else ['\\', ps[0].c]) + PrintPieces(ps[1..])
  }

  function PrintText(ps: seq<Piece>): string {
    "\"" + PrintPieces(ps) + "\""
  }

  function Print(v: Json): string {
    match v
    case Literal(text) => text
    case Text(ps) => PrintText(ps)
    case Array(blank, es) => "[" + blank + PrintElements(es) + "]"
    case Object(blank, ms) => "{" + blank + PrintMembers(ms) + "}"
  }

  function Separator(last: bool): string {
    if last then "" else ","
  }

  function PrintElements(es: Elements): string {
    match es
    case NoElement => ""
    case Element(before, v, after, rest) => before + Print(v) + after + Separator(rest.NoElement?) + PrintElements(rest)
  }

  function PrintMembers(ms: Members): string {
    match ms
    case NoMember => ""
    case Member(before, name, colon, v, after, rest) =>
      before + PrintText(name) + colon + Print(v) + after + Separator(rest.NoMember?) + PrintMembers(rest)
  }

  // --------------------------------------------------------------------
  // The scanner
  // --------------------------------------------------------------------

  /** The scanner's flags: nesting depth, inside a string, just after a backslash. */
  datatype Flags = Flags(depth: int, inString: bool, escaped: bool)

  function Step(f: Flags, c: char): Flags {
    if f.escaped then f.(escaped := false)
    else if c == '\\' then f.(escaped := true)
    else if c == '"' then f.(inString := !f.inString)
    else if f.inString then f
    else if c == '{' then f.(depth := f.depth + 1)
    else if c == '}' then f.(depth := f.depth - 1)
    else f
  }

  /** Reading `c` closes the outermost brace. */
  predicate Closes(f: Flags, c: char) {
    !f.escaped && !f.inString && c == '}' && f.depth == 1
  }

  /** How many characters of `s` are read up to the closing brace. */
  function Length(f: Flags, s: string): Option<nat>
    decreases |s|
  {
    if s == "" then None
    else if Closes(f, s[0]) then Some(1)
    else
      match Length(Step(f, s[0]), s[1..])
      case None => None
      case Some(n) => Some(n + 1)
  }

  const START := Flags(0, false, false)

  /** The first position of `c` in `s`, or the length of `s`. */
  function IndexOf(s: string, c: char): (i: nat)
    ensures i <= |s|
    ensures forall j :: 0 <= j < i ==> s[j] != c
    ensures i < |s| ==> s[i] == c
  {
    if s == "" || s[0] == c then 0 else 1 + IndexOf(s[1..], c)
  }

  /** The first balanced object text of `s`; `None` stands for the errors raised when there is none. */
  function Extracted(s: string): Option<string> {
    var tail := s[IndexOf(s, '{')..];
    match Length(START, tail)
    case None => None
    case Some(n) => if n <= |tail| then Some(tail[..n]) else None
  }

  lemma {:induction false} LengthFits(f: Flags, s: string)
    ensures Length(f, s).Some? ==> 1 <= Length(f, s).value <= |s|
    decreases |s|
  {
    if s == "" || Closes(f, s[0]) {
    } else {
      LengthFits(Step(f, s[0]), s[1..]);
    }
  }

  method ExtractJson(text: string) returns (r: Option<string>)
    ensures r == Extracted(text)
  {
    var start := IndexOf(text, '{');
    ghost var tail := text[start..];
    if start == |text| {
      return None;
    }
    var depth, inString, escaped := 0, false, false;
    var i := start;
    while i < |text|
      invariant start <= i <= |text|
      invariant Length(START, tail) ==
        match Length(Flags(depth, inString, escaped), text[i..])
        case None => None
        case Some(n) => Some(n + (i - start))
    {
      var c := text[i];
      assert text[i..][1..] == text[i + 1..];
      ghost var before := Flags(depth, inString, escaped);
      if escaped {
        escaped := false;
      } else if c == '\\' {
        escaped := true;
      } else if c == '"' {
        inString := !inString;
      } else if inString {
      } else if c == '{' {
        depth := depth + 1;
      } else if c == '}' {
        depth := depth - 1;
        if depth == 0 {
          assert Closes(before, c);
          assert tail[..i + 1 - start] == text[start..i + 1];
          return Some(text[start..i + 1]);
        }
      }
      assert Flags(depth, inString, escaped) == Step(before, c) && !Closes(before, c);
      i := i + 1;
    }
    r := None;
  }

  // --------------------------------------------------------------------
  // The round trip
  // --------------------------------------------------------------------

  /** Reading all of `s` from flags `f` meets no closing brace and ends in flags `g`. */
  ghost predicate Passes(f: Flags, s: string, g: Flags)
    decreases |s|
  {
    if s == "" then f == g else !Closes(f, s[0]) && Passes(Step(f, s[0]), s[1..], g)
  }

  lemma {:induction false} PassesAppend(f: Flags, a: string, g: Flags, b: string, h: Flags)
    requires Passes(f, a, g) && Passes(g, b, h)
    ensures Passes(f, a + b, h)
    decreases |a|
  {
    if a == "" {
      assert a + b == b;
    } else {
      assert (a + b)[0] == a[0] && (a + b)[1..] == a[1..] + b;
      PassesAppend(Step(f, a[0]), a[1..], g, b, h);
    }
  }

  lemma {:induction false} LengthAfterPass(f: Flags, a: string, g: Flags, b: string)
    requires Passes(f, a, g)
    ensures Length(f, a + b) == match Length(g, b) case None => None case Some(n) => Some(|a| + n)
    decreases |a|
  {
    if a == "" {
      assert a + b == b;
    } else {
      assert (a + b)[0] == a[0] && (a + b)[1..] == a[1..] + b;
      LengthAfterPass(Step(f, a[0]), a[1..], g, b);
    }
  }

  lemma {:induction false} NeutralPasses(d: int, s: string)
    requires Neutral(s)
    ensures Passes(Flags(d, false, false), s, Flags(d, false, false))
    decreases |s|
  {
    if s == "" {
    } else {
      assert s[0] in s;
      assert forall c :: c in s[1..] ==> c in s;
      NeutralPasses(d, s[1..]);
    }
  }

  lemma PassesOne(f: Flags, c: char)
    requires !Closes(f, c)
    ensures Passes(f, [c], Step(f, c))
  {
    assert [c][1..] == "";
  }

  lemma {:induction false} PiecesPass(d: int, ps: seq<Piece>)
    requires ValidPieces(ps)
    ensures Passes(Flags(d, true, false), PrintPieces(ps), Flags(d, true, false))
    decreases |ps|
  {
    if ps == [] {
    } else {
      var p, f := ps[0], Flags(d, true, false);
      assert p in ps;
      PiecesPass(d, ps[1..]);
      if p.Plain? {
        PassesOne(f, p.c);
        PassesAppend(f, [p.c], f, PrintPieces(ps[1..]), f);
      } else {
        PassesOne(f, '\\');
        PassesOne(f.(escaped := true), p.c);
        PassesAppend(f, ['\\'], f.(escaped := true), [p.c], f);
        assert ['\\'] + [p.c] == ['\\', p.c];
        PassesAppend(f, ['\\', p.c], f, PrintPieces(ps[1..]), f);
      }
    }
  }

  lemma TextPasses(d: int, ps: seq<Piece>)
    requires ValidPieces(ps)
    ensures Passes(Flags(d, false, false), PrintText(ps), Flags(d, false, false))
  {
    var out, inside := Flags(d, false, false), Flags(d, true, false);
    PassesOne(out, '"');
    PiecesPass(d, ps);
    PassesOne(inside, '"');
    PassesAppend(out, "\"", inside, PrintPieces(ps), inside);
    PassesAppend(out, "\"" + PrintPieces(ps), inside, "\"", out);
  }

  /** A value inside an object leaves the flags as it found them, whatever its strings hold. */
  lemma {:induction false} ValuePasses(d: int, v: Json)
    requires d >= 1 && Valid(v)
    ensures Passes(Flags(d, false, false), Print(v), Flags(d, false, false))
    decreases v
  {
    hide Passes, Closes, Step;
    var f := Flags(d, false, false);
    match v
    case Literal(text) =>
      NeutralPasses(d, text);
    case Text(ps) =>
      TextPasses(d, ps);
    case Array(blank, es) =>
      NeutralPasses(d, "[");
      NeutralPasses(d, blank);
      ElementsPass(d, es);
      NeutralPasses(d, "]");
      PassesAppend(f, "[", f, blank, f);
      PassesAppend(f, "[" + blank, f, PrintElements(es), f);
      PassesAppend(f, "[" + blank + PrintElements(es), f, "]", f);
    case Object(blank, ms) =>
      BodyPasses(d, blank, ms);
      BracesPass(d, blank + PrintMembers(ms));
      assert "{" + blank + PrintMembers(ms) + "}" == "{" + (blank + PrintMembers(ms)) + "}";
  }

  lemma BodyPasses(d: int, blank: string, ms: Members)
    requires d >= 0 && Neutral(blank) && ValidMembers(ms)
    ensures Passes(Flags(d + 1, false, false), blank + PrintMembers(ms), Flags(d + 1, false, false))
    decreases ms, 1
  {
    hide Passes;
    NeutralPasses(d + 1, blank);
    MembersPass(d + 1, ms);
    PassesAppend(Flags(d + 1, false, false), blank, Flags(d + 1, false, false), PrintMembers(ms), Flags(d + 1, false, false));
  }

  lemma BracesPass(d: int, body: string)
    requires d >= 1 && Passes(Flags(d + 1, false, false), body, Flags(d + 1, false, false))
    ensures Passes(Flags(d, false, false), "{" + body + "}", Flags(d, false, false))
  {
    var f, g := Flags(d, false, false), Flags(d + 1, false, false);
    PassesOne(f, '{');
    PassesOne(g, '}');
    PassesAppend(f, "{", g, body, g);
    PassesAppend(f, "{" + body, g, "}", f);
  }

  lemma {:induction false} ElementsPass(d: int, es: Elements)
    requires d >= 1 && ValidElements(es)
    ensures Passes(Flags(d, false, false), PrintElements(es), Flags(d, false, false))
    decreases es
  {
    hide Closes, Step;
    var f := Flags(d, false, false);
    if es.NoElement? {
    } else {
      NeutralPasses(d, es.before);
      ValuePasses(d, es.value);
      NeutralPasses(d, es.after);
      NeutralPasses(d, Separator(es.rest.NoElement?));
      ElementsPass(d, es.rest);
      PassesAppend(f, es.before, f, Print(es.value), f);
      PassesAppend(f, es.before + Print(es.value), f, es.after, f);
      PassesAppend(f, es.before + Print(es.value) + es.after, f, Separator(es.rest.NoElement?), f);
      PassesAppend(f, es.before + Print(es.value) + es.after + Separator(es.rest.NoElement?), f, PrintElements(es.rest), f);
    }
  }

  lemma {:induction false} MembersPass(d: int, ms: Members)
    requires d >= 1 && ValidMembers(ms)
    ensures Passes(Flags(d, false, false), PrintMembers(ms), Flags(d, false, false))
    decreases ms, 0
  {
    hide Closes, Step;
    var f := Flags(d, false, false);
    if ms.NoMember? {
    } else {
      var name, value, sep := PrintText(ms.name), Print(ms.value), Separator(ms.rest.NoMember?);
      NeutralPasses(d, ms.before);
      TextPasses(d, ms.name);
      NeutralPasses(d, ms.colon);
      ValuePasses(d, ms.value);
      NeutralPasses(d, ms.after);
      NeutralPasses(d, sep);
      MembersPass(d, ms.rest);
      PassesAppend(f, ms.before, f, name, f);
      PassesAppend(f, ms.before + name, f, ms.colon, f);
      PassesAppend(f, ms.before + name + ms.colon, f, value, f);
      PassesAppend(f, ms.before + name + ms.colon + value, f, ms.after, f);
      PassesAppend(f, ms.before + name + ms.colon + value + ms.after, f, sep, f);
      PassesAppend(f, ms.before + name + ms.colon + value + ms.after + sep, f, PrintMembers(ms.rest), f);
    }
  }

  lemma {:induction false} IndexAfterPrefix(prefix: string, s: string, c: char)
    requires c !in prefix && s != "" && s[0] == c
    ensures IndexOf(prefix + s, c) == |prefix|
  {
    var i := IndexOf(prefix + s, c);
    assert (prefix + s)[|prefix|] == c;
  }

  lemma ObjectLength(v: Json, suffix: string)
    requires v.Object? && Valid(v)
    ensures Length(START, Print(v) + suffix) == Some(|Print(v)|)
  {
    hide Passes;
    var body := v.blank + PrintMembers(v.members);
    var f := Flags(1, false, false);
    BodyPasses(0, v.blank, v.members);
    PassesOne(START, '{');
    PassesAppend(START, "{", f, body, f);
    LengthAfterPass(START, "{" + body, f, "}" + suffix);
    assert Print(v) + suffix == ("{" + body) + ("}" + suffix);
    assert ("}" + suffix)[0] == '}';
  }

  /**
   * The round trip: from any text that has the object after a prefix without an opening brace, the
   * scanner takes exactly the object, whatever braces, quotes and escapes its strings hold and whatever
   * follows it.
   */
  lemma ExtractsThePrintedObject(prefix: string, v: Json, suffix: string)
    requires v.Object? && Valid(v) && '{' !in prefix
    ensures Extracted(prefix + Print(v) + suffix) == Some(Print(v))
  {
    hide Length;
    var text, rest := prefix + Print(v) + suffix, Print(v) + suffix;
    assert text == prefix + rest;
    assert rest[0] == '{';
    IndexAfterPrefix(prefix, rest, '{');
    assert text[|prefix|..] == rest;
    ObjectLength(v, suffix);
    assert rest[..|Print(v)|] == Print(v);
  }

  /** What was found does not change when the model goes on talking. */
  lemma {:induction false} LengthIsStable(f: Flags, s: string, more: string)
    requires Length(f, s).Some?
    ensures Length(f, s + more) == Length(f, s)
    decreases |s|
  {
    assert (s + more)[0] == s[0];
    if Closes(f, s[0]) {
    } else {
      assert (s + more)[1..] == s[1..] + more;
      LengthIsStable(Step(f, s[0]), s[1..], more);
    }
  }

  lemma ExtractionIsStable(text: string, more: string)
    requires Extracted(text).Some?
    ensures Extracted(text + more) == Extracted(text)
  {
    var i := IndexOf(text, '{');
    var tail := text[i..];
    LengthFits(START, tail);
    assert tail != "";
    assert text == text[..i] + tail;
    assert text[..i] + (tail + more) == text + more;
    IndexAfterPrefix(text[..i], tail + more, '{');
    assert (text + more)[i..] == tail + more;
    LengthIsStable(START, tail, more);
    assert (tail + more)[..Length(START, tail).value] == tail[..Length(START, tail).value];
  }

  // --------------------------------------------------------------------
  // The last object of a given shape
  // --------------------------------------------------------------------

  datatype Field = Bool(b: bool) | Other

  /** What the JSON library makes of an object text. */
  datatype Parsed = Malformed | Fields(fields: map<string, Field>)

  /** An object with one of the keys starts at position `i`. */
  predicate ShapedAt(text: string, i: int, keys: set<string>, parse: string -> Parsed) {
    && 0 <= i < |text| && text[i] == '{'
    && Extracted(text[i..]).Some?
    && parse(Extracted(text[i..]).value).Fields?
    && exists k :: k in keys && k in parse(Extracted(text[i..]).value).fields
  }

  /** `i` is the last such position. */
  ghost predicate LastShapedAt(text: string, i: int, keys: set<string>, parse: string -> Parsed) {
    ShapedAt(text, i, keys, parse) && forall j :: j > i ==> !ShapedAt(text, j, keys, parse)
  }

  /** The fields of the last shaped object that starts before position `n`. */
  function LastShapedBefore(text: string, n: nat, keys: set<string>, parse: string -> Parsed): Option<map<string, Field>> {
    if n == 0 then None
    else if ShapedAt(text, n - 1, keys, parse) then Some(parse(Extracted(text[n - 1..]).value).fields)
    else LastShapedBefore(text, n - 1, keys, parse)
  }

  method LastShapedJson(text: string, keys: set<string>, parse: string -> Parsed) returns (r: Option<map<string, Field>>)
    ensures r == LastShapedBefore(text, |text|, keys, parse)
    ensures r.None? ==> forall i :: !ShapedAt(text, i, keys, parse)
    ensures r.Some? ==>
      exists i :: LastShapedAt(text, i, keys, parse) && r.value == parse(Extracted(text[i..]).value).fields
  {
    var i := |text|;
    while i > 0
      invariant 0 <= i <= |text|
      invariant forall j :: j >= i ==> !ShapedAt(text, j, keys, parse)
      invariant LastShapedBefore(text, i, keys, parse) == LastShapedBefore(text, |text|, keys, parse)
    {
      i := i - 1;
      if text[i] == '{' {
        var found := ExtractJson(text[i..]);
        if found.Some? {
          var obj := parse(found.value);
          if obj.Fields? && exists k :: k in keys && k in obj.fields {
            assert LastShapedAt(text, i, keys, parse);
            return Some(obj.fields);
          }
        }
      }
    }
    r := None;
  }

  const VERDICT_KEYS := {"pass", "findings"}

  predicate SaysPass(p: Parsed) {
    p.Fields? && "pass" in p.fields && p.fields["pass"] == Bool(true)
  }

  /** A reviewer passes only when the last object shaped like a verdict says `true`; anything else fails closed. */
  method VerdictJson(text: string, parse: string -> Parsed) returns (pass: bool)
    ensures pass <==> exists i :: LastShapedAt(text, i, VERDICT_KEYS, parse) && SaysPass(parse(Extracted(text[i..]).value))
  {
    var v := LastShapedJson(text, VERDICT_KEYS, parse);
    pass := v.Some? && "pass" in v.value && v.value["pass"].Bool? && v.value["pass"].b;
  }

  /** An object is found where it was printed, whatever comes before it, braces included. */
  lemma PrintedObjectIsShaped(prefix: string, v: Json, suffix: string, keys: set<string>, parse: string -> Parsed)
    requires v.Object? && Valid(v) && parse(Print(v)).Fields?
    ensures ShapedAt(prefix + Print(v) + suffix, |prefix|, keys, parse) <==> exists k :: k in keys && k in parse(Print(v)).fields
  {
    hide Extracted;
    var text := prefix + Print(v) + suffix;
    ExtractsThePrintedObject("", v, suffix);
    assert "" + Print(v) + suffix == Print(v) + suffix;
    assert text[|prefix|..] == Print(v) + suffix;
    assert text[|prefix|] == '{';
  }

  lemma {:induction false} LastShapedIsFound(text: string, i: nat, n: nat, keys: set<string>, parse: string -> Parsed)
    requires LastShapedAt(text, i, keys, parse) && i < n <= |text|
    ensures LastShapedBefore(text, n, keys, parse) == Some(parse(Extracted(text[i..]).value).fields)
  {
    hide ShapedAt, Extracted;
    if n - 1 == i {
      assert ShapedAt(text, i, keys, parse);
    } else {
      LastShapedIsFound(text, i, n - 1, keys, parse);
    }
  }

  lemma {:induction false} NothingCloses(f: Flags, s: string)
    requires '}' !in s
    ensures Length(f, s) == None
    decreases |s|
  {
    if s == "" {
    } else {
      assert s[0] in s && forall c :: c in s[1..] ==> c in s;
      NothingCloses(Step(f, s[0]), s[1..]);
    }
  }

  /** Text without a closing brace neither completes an object nor changes one. */
  lemma {:induction false} LengthWithoutBraces(f: Flags, s: string, more: string)
    requires '}' !in more
    ensures Length(f, s + more) == Length(f, s)
    decreases |s|
  {
    if s == "" {
      assert s + more == more;
      NothingCloses(f, more);
    } else {
      assert (s + more)[0] == s[0] && (s + more)[1..] == s[1..] + more;
      LengthWithoutBraces(Step(f, s[0]), s[1..], more);
    }
  }

  lemma ExtractedWithoutBraces(s: string, more: string)
    requires s != "" && s[0] == '{' && '}' !in more
    ensures Extracted(s + more) == Extracted(s)
  {
    assert (s + more)[0] == '{';
    assert IndexOf(s, '{') == 0 && IndexOf(s + more, '{') == 0;
    assert s[0..] == s && (s + more)[0..] == s + more;
    LengthWithoutBraces(START, s, more);
    LengthFits(START, s);
    assert Length(START, s).Some? ==> (s + more)[..Length(START, s).value] == s[..Length(START, s).value];
  }

  /** Whether an object starts inside the printed text does not depend on the text around it. */
  lemma ShapedInside(prefix: string, printed: string, suffix: string, j: nat, keys: set<string>, parse: string -> Parsed)
    requires j < |printed| && '}' !in suffix
    ensures ShapedAt(prefix + printed + suffix, |prefix| + j, keys, parse) <==> ShapedAt(printed, j, keys, parse)
  {
    hide Extracted;
    var text := prefix + printed + suffix;
    assert text[|prefix| + j] == printed[j];
    assert text[|prefix| + j..] == printed[j..] + suffix;
    if printed[j] == '{' {
      ExtractedWithoutBraces(printed[j..], suffix);
    }
  }

  /**
   * An object with one of the keys, printed anywhere and followed by text without braces, is the last of
   * that shape exactly when none is nested in it; then it is what the search returns.
   */
  lemma PrintedObjectIsReturned(prefix: string, v: Json, suffix: string, keys: set<string>, parse: string -> Parsed)
    requires v.Object? && Valid(v) && parse(Print(v)).Fields? && exists k :: k in keys && k in parse(Print(v)).fields
    requires '{' !in suffix && '}' !in suffix
    ensures var text := prefix + Print(v) + suffix;
            var alone := forall j :: 0 < j < |Print(v)| ==> !ShapedAt(Print(v), j, keys, parse);
            && (LastShapedAt(text, |prefix|, keys, parse) <==> alone)
            && (alone ==> LastShapedBefore(text, |text|, keys, parse) == Some(parse(Print(v)).fields))
  {
    hide Extracted, ShapedAt, Print;
    var printed := Print(v);
    var text := prefix + printed + suffix;
    PrintedObjectIsShaped(prefix, v, suffix, keys, parse);
    PrintedObjectIsExtracted(prefix, v, suffix);
    forall i | i > |prefix| && ShapedAt(text, i, keys, parse)
      ensures i - |prefix| < |printed| && ShapedAt(printed, i - |prefix|, keys, parse)
    {
      if i < |prefix| + |printed| {
        ShapedInside(prefix, printed, suffix, i - |prefix|, keys, parse);
      } else {
        NothingShapedAfter(prefix + printed, suffix, i, keys, parse);
      }
    }
    forall j | 0 < j < |printed| && ShapedAt(printed, j, keys, parse) ensures ShapedAt(text, |prefix| + j, keys, parse) {
      ShapedInside(prefix, printed, suffix, j, keys, parse);
    }
    if forall j :: 0 < j < |printed| ==> !ShapedAt(printed, j, keys, parse) {
      LastShapedIsFound(text, |prefix|, |text|, keys, parse);
    }
  }

  lemma NothingShapedAfter(before: string, suffix: string, i: nat, keys: set<string>, parse: string -> Parsed)
    requires '{' !in suffix && i >= |before|
    ensures !ShapedAt(before + suffix, i, keys, parse)
  {
    if i < |before + suffix| {
      assert (before + suffix)[i] == suffix[i - |before|];
    }
  }

  lemma PrintedObjectIsExtracted(prefix: string, v: Json, suffix: string)
    requires v.Object? && Valid(v)
    ensures |prefix| < |prefix + Print(v) + suffix|
    ensures Extracted((prefix + Print(v) + suffix)[|prefix|..]) == Some(Print(v))
  {
    ExtractsThePrintedObject("", v, suffix);
    assert "" + Print(v) + suffix == Print(v) + suffix;
    assert (prefix + Print(v) + suffix)[|prefix|..] == Print(v) + suffix;
  }
}
