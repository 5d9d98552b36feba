/**
 JSON Pointers: `_json_path` writes one, `_pointer` evaluates one.  The two are inverse on
 every non-empty path that leads to a node (sections 3 and 4 of RFC 6901).
 */
module JsonPointer {
  import opened Prelude
  import opened Json
  import opened KeyOrder

  // ---------- `str.replace`, `str.split`, `str.join`, `int` ----------

  /** `text.replace(c, replacement)` for a one-character `c`. */
  function ReplaceChar(text: string, c: char, replacement: string): string {
    if |text| == 0 then ""
    else (if text[0] == c then replacement else [text[0]]) + ReplaceChar(text[1..], c, replacement)
  }

  /** `text.replace("~d", replacement)`: left to right, occurrences do not overlap. */
  function ReplacePair(text: string, d: char, replacement: char): string {
    if |text| == 0 then ""
    else if |text| >= 2 && text[0] == '~' && text[1] == d then [replacement] + ReplacePair(text[2..], d, replacement)
    else [text[0]] + ReplacePair(text[1..], d, replacement)
  }

  function Escape(text: string): string {
    ReplaceChar(ReplaceChar(text, '~', "~0"), '/', "~1")
  }

  function Unescape(token: string): string {
    ReplacePair(ReplacePair(token, '1', '/'), '0', '~')
  }

  /** `"/".join(tokens)`. */
  function Join(tokens: seq<string>): string {
    if |tokens| == 0 then ""
    else if |tokens| == 1 then tokens[0]
    else tokens[0] + "/" + Join(tokens[1..])
  }

  /** `text.split("/")`. */
  function Split(text: string): (r: seq<string>)
    ensures |r| >= 1
  {
    if |text| == 0 then [""]
    else
      var rest := Split(text[1..]);
      if text[0] == '/' then [""] + rest else [[text[0]] + rest[0]] + rest[1..]
  }

  predicate IsDigits(token: string) {
    |token| >= 1 && forall i :: 0 <= i < |token| ==> '0' <= token[i] <= '9'
  }

  /** `int(token)`. */
  function ParseNat(token: string): nat
    requires forall i :: 0 <= i < |token| ==> '0' <= token[i] <= '9'
  {
    if |token| == 0 then 0
    else 10 * ParseNat(token[..|token| - 1]) + (token[|token| - 1] - '0') as nat
  }

  // ---------- paths and pointers ----------

  datatype Step = Key(name: string) | Index(index: nat)

  /** The node a path leads to: what a pointer is meant to denote. */
  function Follow(value: Json, path: seq<Step>): Option<Json> {
    if |path| == 0 then Some(value)
    else
      match (value, path[0])
      case (Obj(fields), Key(name)) =>
        (match Lookup(fields, name) case Some(child) => Follow(child, path[1..]) case None => None)
      case (Arr(items), Index(index)) =>
        if index < |items| then Follow(items[index], path[1..]) else None
      case _ => None
  }

  function Token(step: Step): string {
    Escape(match step case Key(name) => name case Index(index) => Decimal(index))
  }

  function Tokens(path: seq<Step>): (r: seq<string>)
    ensures |r| == |path|
  {
    if |path| == 0 then [] else [Token(path[0])] + Tokens(path[1..])
  }

  /** `_json_path`. */
  function JsonPath(path: seq<Step>): string {
    if |path| == 0 then "/" else "/" + Join(Tokens(path))
  }

  /** One turn of `_pointer`'s loop: None where it raises `KeyError`. */
  function Descend(value: Json, token: string): Option<Json> {
    var name := Unescape(token);
    match value
    case Obj(fields) => Lookup(fields, name)
    case Arr(items) =>
      if IsDigits(name) && ParseNat(name) < |items| then Some(items[ParseNat(name)]) else None
    case _ => None
  }

  function DescendAll(value: Json, tokens: seq<string>): Option<Json> {
    if |tokens| == 0 then Some(value)
    else match Descend(value, tokens[0]) case Some(child) => DescendAll(child, tokens[1..]) case None => None
  }

  /** `_pointer`. */
  function Pointer(document: Json, reference: string): Option<Json> {
    if reference == "#" then Some(document)
    else if |reference| < 2 || reference[0] != '#' || reference[1] != '/' then None
    else DescendAll(document, Split(reference[2..]))
  }

  lemma {:induction false} DescendPrefix(value: Json, tokens: seq<string>, n: nat)
    requires n <= |tokens|
    ensures DescendAll(value, tokens) ==
      match DescendAll(value, tokens[..n]) case Some(child) => DescendAll(child, tokens[n..]) case None => None
  {
    if n != 0 {
      assert tokens[..n][1..] == tokens[1..][..n - 1];
      assert tokens[n..] == tokens[1..][n - 1..];
      if Descend(value, tokens[0]).Some? {
        DescendPrefix(Descend(value, tokens[0]).value, tokens[1..], n - 1);
      }
    } else {
      assert tokens[0..] == tokens;
    }
  }

  method EvaluatePointer(document: Json, reference: string) returns (result: Option<Json>)
    ensures result == Pointer(document, reference)
  {
    if reference == "#" {
      return Some(document);
    }
    if |reference| < 2 || reference[0] != '#' || reference[1] != '/' {
      return None;
    }
    var tokens := Split(reference[2..]);
    var value := document;
    for i := 0 to |tokens|
      invariant DescendAll(document, tokens) == DescendAll(value, tokens[i..])
    {
      var name := ReplacePair(tokens[i], '1', '/');
      name := ReplacePair(name, '0', '~');
      assert tokens[i..][1..] == tokens[i + 1..];
      if value.Obj? && Has(value.fields, name) {
        value := Lookup(value.fields, name).value;
      } else if value.Arr? && IsDigits(name) && ParseNat(name) < |value.items| {
        value := value.items[ParseNat(name)];
      } else {
        return None;
      }
    }
    return Some(value);
  }

  // ---------- escaping round trip ----------

  /** No `~` of the text is followed by `1`, as after `~` has become `~0`. */
  predicate TildesMarked(text: string) {
    forall i :: 0 <= i < |text| && text[i] == '~' ==> i + 1 < |text| && text[i + 1] == '0'
  }

  lemma {:induction false} MarkTildes(text: string)
    ensures TildesMarked(ReplaceChar(text, '~', "~0"))
    ensures ReplacePair(ReplaceChar(text, '~', "~0"), '0', '~') == text
  {
    if |text| != 0 {
      var rest := ReplaceChar(text[1..], '~', "~0");
      var marked := ReplaceChar(text, '~', "~0");
      MarkTildes(text[1..]);
      if text[0] == '~' {
        assert marked == ['~', '0'] + rest;
        assert marked[2..] == rest;
      } else {
        assert marked[1..] == rest;
      }
    }
  }

  lemma {:induction false} UndoSlashes(text: string)
    requires TildesMarked(text)
    ensures ReplacePair(ReplaceChar(text, '/', "~1"), '1', '/') == text
    ensures '/' !in ReplaceChar(text, '/', "~1")
  {
    if |text| != 0 {
      var rest := ReplaceChar(text[1..], '/', "~1");
      var escaped := ReplaceChar(text, '/', "~1");
      assert forall i :: 0 <= i < |text[1..]| ==> text[1..][i] == text[i + 1];
      UndoSlashes(text[1..]);
      if text[0] == '/' {
        assert escaped == ['~', '1'] + rest;
        assert escaped[2..] == rest;
      } else {
        assert escaped[1..] == rest;
        assert text[0] == '~' ==> text[1] == '0' && rest == "0" + ReplaceChar(text[1..][1..], '/', "~1");
      }
    }
  }

  /** Any key, with any mix of `~`, `/`, `~0` and `~1` in it. */
  lemma EscapeRoundTrip(text: string)
    ensures Unescape(Escape(text)) == text
    ensures '/' !in Escape(text)
  {
    MarkTildes(text);
    UndoSlashes(ReplaceChar(text, '~', "~0"));
  }

  lemma {:induction false} SplitPiece(piece: string, rest: string)
    requires '/' !in piece
    ensures Split(piece) == [piece]
    ensures Split(piece + "/" + rest) == [piece] + Split(rest)
  {
    var text := piece + "/" + rest;
    if |piece| == 0 {
      assert text[1..] == rest;
    } else {
      SplitPiece(piece[1..], rest);
      assert piece == [piece[0]] + piece[1..];
      assert text[1..] == piece[1..] + "/" + rest;
    }
  }

  lemma {:induction false} SplitJoin(tokens: seq<string>)
    requires |tokens| >= 1
    requires forall i :: 0 <= i < |tokens| ==> '/' !in tokens[i]
    ensures Split(Join(tokens)) == tokens
  {
    if |tokens| == 1 {
      SplitPiece(tokens[0], "");
    } else {
      SplitJoin(tokens[1..]);
      SplitPiece(tokens[0], Join(tokens[1..]));
    }
  }

  lemma {:induction false} DecimalRoundTrip(n: nat)
    ensures ParseNat(Decimal(n)) == n
  {
    if n >= 10 {
      DecimalRoundTrip(n / 10);
      assert Decimal(n)[..|Decimal(n)| - 1] == Decimal(n / 10);
    } else {
      assert Decimal(n)[..0] == [];
    }
  }

  // ---------- the theorems ----------

  lemma {:induction false} StepFollowed(value: Json, step: Step)
    requires Follow(value, [step]).Some?
    ensures Descend(value, Token(step)) == Follow(value, [step])
  {
    match step
    case Key(name) =>
      EscapeRoundTrip(name);
    case Index(index) =>
      EscapeRoundTrip(Decimal(index));
      DecimalRoundTrip(index);
  }

  lemma {:induction false} TokensFollowed(value: Json, path: seq<Step>)
    requires Follow(value, path).Some?
    ensures DescendAll(value, Tokens(path)) == Follow(value, path)
    ensures forall i :: 0 <= i < |path| ==> '/' !in Tokens(path)[i]
  {
    if |path| != 0 {
      StepFollowed(value, path[0]);
      EscapeRoundTrip(match path[0] case Key(name) => name case Index(index) => Decimal(index));
      TokensFollowed(Follow(value, [path[0]]).value, path[1..]);
    }
  }

  /** The pointer written for a path reaches exactly the node the path leads to. */
  lemma {:induction false} PointerRoundTrip(document: Json, path: seq<Step>)
    requires |path| > 0 && Follow(document, path).Some?
    ensures Pointer(document, "#" + JsonPath(path)) == Follow(document, path)
  {
    TokensFollowed(document, path);
    SplitJoin(Tokens(path));
    assert ("#" + JsonPath(path))[2..] == Join(Tokens(path));
  }

  /** Different paths into one document are written differently. */
  lemma {:induction false} PathsAreDistinct(value: Json, p: seq<Step>, q: seq<Step>)
    requires Follow(value, p).Some? && Follow(value, q).Some?
    requires Tokens(p) == Tokens(q)
    ensures p == q
  {
    if |p| != 0 {
      StepFollowed(value, p[0]);
      assert Token(p[0]) == Tokens(p)[0] == Tokens(q)[0] == Token(q[0]);
      match value {
        case Obj(_) =>
          EscapeRoundTrip(p[0].name);
          EscapeRoundTrip(q[0].name);
        case Arr(_) =>
          EscapeRoundTrip(Decimal(p[0].index));
          EscapeRoundTrip(Decimal(q[0].index));
          DecimalRoundTrip(p[0].index);
          DecimalRoundTrip(q[0].index);
        case _ =>
      }
      assert Tokens(p)[1..] == Tokens(p[1..]) && Tokens(q)[1..] == Tokens(q[1..]);
      PathsAreDistinct(Follow(value, [p[0]]).value, p[1..], q[1..]);
    }
  }

  lemma {:induction false} JsonPathIsInjective(document: Json, p: seq<Step>, q: seq<Step>)
    requires |p| > 0 && |q| > 0
    requires Follow(document, p).Some? && Follow(document, q).Some?
    requires JsonPath(p) == JsonPath(q)
    ensures p == q
  {
    TokensFollowed(document, p);
    TokensFollowed(document, q);
    SplitJoin(Tokens(p));
    SplitJoin(Tokens(q));
    assert JsonPath(p)[1..] == Join(Tokens(p)) && JsonPath(q)[1..] == Join(Tokens(q));
    PathsAreDistinct(document, p, q);
  }

  /** Whatever a pointer evaluates to is a node of the document. */
  lemma {:induction false} TokensReachANode(value: Json, tokens: seq<string>) returns (path: seq<Step>)
    requires DescendAll(value, tokens).Some?
    ensures |path| == |tokens| && Follow(value, path) == DescendAll(value, tokens)
  {
    if |tokens| == 0 {
      path := [];
    } else {
      var name := Unescape(tokens[0]);
      var step := if value.Obj? then Key(name) else Index(ParseNat(name));
      var rest := TokensReachANode(Descend(value, tokens[0]).value, tokens[1..]);
      path := [step] + rest;
      assert path[1..] == rest;
    }
  }

  lemma {:induction false} NodesAreSmaller(value: Json, tokens: seq<string>)
    requires |tokens| > 0 && DescendAll(value, tokens).Some?
    ensures DescendAll(value, tokens).value < value
  {
    var child := Descend(value, tokens[0]).value;
    assert child < value by {
      if value.Obj? {
        var i :| 0 <= i < |value.fields| && value.fields[i] == Field(Unescape(tokens[0]), child);
        assert child < value.fields[i] < value;
      }
    }
    if |tokens| > 1 {
      NodesAreSmaller(child, tokens[1..]);
    } else {
      assert tokens[1..] == [];
    }
  }

  /**
   The text `_json_path` writes for a path leads to the node at the path exactly when the
   path is not empty.  For the empty path it is `/`, which names the member with the empty key.
   */
  lemma {:induction false} PathTextExact(document: Json, path: seq<Step>)
    requires Follow(document, path).Some?
    ensures Pointer(document, "#" + JsonPath(path)) == Follow(document, path) <==> |path| > 0
  {
    if |path| > 0 {
      PointerRoundTrip(document, path);
    } else {
      assert ("#" + JsonPath([]))[2..] == "";
      if Pointer(document, "#/").Some? {
        NodesAreSmaller(document, Split(""));
      }
    }
  }

  // ---------- RFC 6901 ----------

  /** Section 3: every `~` is followed by `0` or `1`. */
  predicate WellEscaped(token: string) {
    forall i :: 0 <= i < |token| && token[i] == '~' ==> i + 1 < |token| && token[i + 1] in {'0', '1'}
  }

  /** Section 4: `0`, or digits that do not begin with `0`. */
  predicate IsArrayIndex(token: string) {
    IsDigits(token) && (token[0] == '0' ==> |token| == 1)
  }

  /** Sections 3 and 4 on one reference token. */
  function StandardDescend(value: Json, token: string): Option<Json> {
    if !WellEscaped(token) then None
    else
      match value
      case Obj(fields) => Lookup(fields, Unescape(token))
      case Arr(items) =>
        if IsArrayIndex(token) && ParseNat(token) < |items| then Some(items[ParseNat(token)]) else None
      case _ => None
  }

  function StandardDescendAll(value: Json, tokens: seq<string>): Option<Json> {
    if |tokens| == 0 then Some(value)
    else
      match StandardDescend(value, tokens[0])
      case Some(child) => StandardDescendAll(child, tokens[1..])
      case None => None
  }

  /** Evaluation by sections 3 and 4, of what follows the `#`. */
  function StandardPointer(document: Json, reference: string): Option<Json> {
    if reference == "#" then Some(document)
    else if |reference| < 2 || reference[0] != '#' || reference[1] != '/' then None
    else StandardDescendAll(document, Split(reference[2..]))
  }

  /** The token is escaped as section 3 says and, on an array, has no leading zero. */
  predicate Standard(value: Json, token: string) {
    WellEscaped(token) && (value.Arr? && |token| > 1 ==> token[0] != '0')
  }

  /** Every token is, on the value it is applied to. */
  predicate AllStandard(value: Json, tokens: seq<string>)
    requires DescendAll(value, tokens).Some?
  {
    |tokens| == 0 || (Standard(value, tokens[0]) && AllStandard(Descend(value, tokens[0]).value, tokens[1..]))
  }

  lemma {:induction false} NoTildes(text: string, d: char, replacement: char)
    requires '~' !in text
    ensures ReplacePair(text, d, replacement) == text
  {
    if |text| != 0 {
      NoTildes(text[1..], d, replacement);
    }
  }

  /** What replaces a pair is not a digit, so a token of digits was written as digits. */
  lemma {:induction false} DigitsUnchanged(text: string, d: char, replacement: char)
    requires replacement in {'/', '~'} && forall i :: 0 <= i < |ReplacePair(text, d, replacement)| ==> '0' <= ReplacePair(text, d, replacement)[i] <= '9'
    ensures ReplacePair(text, d, replacement) == text
    decreases |text|
  {
    if |text| != 0 {
      var replaced := ReplacePair(text, d, replacement);
      assert '0' <= replaced[0] <= '9';
      assert replaced[1..] == ReplacePair(text[1..], d, replacement);
      DigitsUnchanged(text[1..], d, replacement);
    }
  }

  lemma IndexAsWritten(token: string)
    requires IsDigits(Unescape(token)) || IsDigits(token)
    ensures Unescape(token) == token
  {
    if IsDigits(token) {
      NoTildes(token, '1', '/');
      NoTildes(token, '0', '~');
    } else {
      DigitsUnchanged(ReplacePair(token, '1', '/'), '0', '~');
      DigitsUnchanged(token, '1', '/');
    }
  }

  lemma StandardStep(value: Json, token: string)
    ensures Descend(value, token).None? ==> StandardDescend(value, token).None?
    ensures Descend(value, token).Some? ==>
      StandardDescend(value, token) == if Standard(value, token) then Descend(value, token) else None
  {
    if value.Arr? && (IsDigits(Unescape(token)) || IsDigits(token)) {
      IndexAsWritten(token);
    }
  }

  lemma {:induction false} StandardTokens(value: Json, tokens: seq<string>)
    ensures StandardDescendAll(value, tokens) ==
      if DescendAll(value, tokens).Some? && AllStandard(value, tokens) then DescendAll(value, tokens) else None
  {
    if |tokens| != 0 {
      StandardStep(value, tokens[0]);
      if Descend(value, tokens[0]).Some? {
        StandardTokens(Descend(value, tokens[0]).value, tokens[1..]);
      }
    }
  }

  /**
   Where the code departs from RFC 6901: it evaluates a pointer as sections 3 and 4 do,
   unless it resolves one with a leading zero on an array or a stray `~`, where they fail.
   */
  lemma {:induction false} StandardExact(document: Json, reference: string)
    ensures Pointer(document, reference) == StandardPointer(document, reference)
      <==> (|reference| >= 2 && Pointer(document, reference).Some? ==> AllStandard(document, Split(reference[2..])))
  {
    if reference != "#" && |reference| >= 2 {
      StandardTokens(document, Split(reference[2..]));
    }
  }

  lemma {:induction false} DescendOne(value: Json, token: string)
    requires '/' !in token
    ensures DescendAll(value, Split(token)) == Descend(value, token)
  {
    SplitPiece(token, "");
    assert DescendAll(value, [token]) ==
      match Descend(value, token) case Some(child) => DescendAll(child, [token][1..]) case None => None;
  }

  /** `01` names the second item to the code ... */
  lemma LeadingZeroAccepted(first: Json, second: Json)
    ensures Pointer(Arr([first, second]), "#/01") == Some(second)
  {
    assert "#/01"[2..] == "01";
    assert "01"[1..] == "1" && "1"[1..] == "";
    assert ReplacePair("01", '1', '/') == "01";
    assert Unescape("01") == "01";
    assert "01"[..1] == "0" && "0"[..0] == "";
    assert ParseNat("0") == 0;
    assert ParseNat("01") == 1;
    DescendOne(Arr([first, second]), "01");
  }

  /** ... and nothing to the standard. */
  lemma LeadingZeroRefused(items: seq<Json>)
    ensures StandardPointer(Arr(items), "#/01") == None
  {
    assert "#/01"[2..] == "01";
    SplitPiece("01", "");
    assert StandardDescend(Arr(items), "01") == None;
  }
}
