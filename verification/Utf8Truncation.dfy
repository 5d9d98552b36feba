/**
 Cutting text at a byte limit: `_truncate` of the task event service and `bounded_text` of
 the hook.  Text is a sequence of Unicode scalar values, encoded as in RFC 3629, section 3.
 */
module Utf8Truncation {
  import opened Prelude

  type Byte = b: int | 0 <= b < 256

  // ---------- UTF-8 ----------

  function Encode(c: char): (r: seq<Byte>)
    ensures 1 <= |r| <= 4
  {
    var n := c as int;
    if n < 0x80 then [n]
    else if n < 0x800 then [0xC0 + n / 64, 0x80 + n % 64]
    else if n < 0x1_0000 then [0xE0 + n / 4096, 0x80 + n / 64 % 64, 0x80 + n % 64]
    else [0xF0 + n / 262144, 0x80 + n / 4096 % 64, 0x80 + n / 64 % 64, 0x80 + n % 64]
  }

  /** `text.encode("utf-8")`. */
  function EncodeAll(text: string): seq<Byte> {
    if |text| == 0 then [] else Encode(text[0]) + EncodeAll(text[1..])
  }

  predicate IsContinuation(b: Byte) {
    0x80 <= b < 0xC0
  }

  predicate IsScalar(n: int) {
    0 <= n < 0xD800 || 0xE000 <= n < 0x11_0000
  }

  /** The character at the head of the bytes and its length: shortest form, no surrogates. */
  function DecodeHead(bytes: seq<Byte>): (r: Option<(char, nat)>)
    ensures r.Some? ==> 1 <= r.value.1 <= |bytes|
  {
    if |bytes| == 0 then None
    else if bytes[0] < 0x80 then Some((bytes[0] as char, 1))
    else if 0xC0 <= bytes[0] < 0xE0 && |bytes| >= 2 && IsContinuation(bytes[1]) then
      var n: int := (bytes[0] - 0xC0) as int * 64 + (bytes[1] - 0x80);
      if 0x80 <= n < 0x800 then Some((n as char, 2)) else None
    else if 0xE0 <= bytes[0] < 0xF0 && |bytes| >= 3 && IsContinuation(bytes[1]) && IsContinuation(bytes[2]) then
      var n: int := (bytes[0] - 0xE0) as int * 4096 + (bytes[1] - 0x80) as int * 64 + (bytes[2] - 0x80);
      if 0x800 <= n < 0x1_0000 && IsScalar(n) then Some((n as char, 3)) else None
    else if 0xF0 <= bytes[0] < 0xF8 && |bytes| >= 4
      && IsContinuation(bytes[1]) && IsContinuation(bytes[2]) && IsContinuation(bytes[3]) then
      var n: int := (bytes[0] - 0xF0) as int * 262144 + (bytes[1] - 0x80) as int * 4096 + (bytes[2] - 0x80) as int * 64 + (bytes[3] - 0x80);
      if 0x1_0000 <= n && IsScalar(n) then Some((n as char, 4)) else None
    else None
  }

  /** `bytes.decode("utf-8")`; None where it raises `UnicodeDecodeError`. */
  function Decode(bytes: seq<Byte>): Option<string> {
    if |bytes| == 0 then Some("")
    else
      match DecodeHead(bytes)
      case None => None
      case Some(head) =>
        match Decode(bytes[head.1..])
        case None => None
        case Some(rest) => Some([head.0] + rest)
  }

  /** `bytes.decode("utf-8", errors="ignore")`. */
  function DecodeIgnoring(bytes: seq<Byte>): string {
    if |bytes| == 0 then ""
    else
      match DecodeHead(bytes)
      case None => DecodeIgnoring(bytes[1..])
      case Some(head) => [head.0] + DecodeIgnoring(bytes[head.1..])
  }

  lemma HeadRoundTrip(c: char, rest: seq<Byte>)
    ensures DecodeHead(Encode(c) + rest) == Some((c, |Encode(c)|))
  {
    var n := c as int;
    assert n == n / 64 * 64 + n % 64;
    assert n / 64 == n / 4096 * 64 + n / 64 % 64;
    assert n / 4096 == n / 262144 * 64 + n / 4096 % 64;
  }

  // ---------- the longest prefix that fits ----------

  /** How many characters of the text fit into so many bytes. */
  function Fitting(text: string, bytes: nat): (m: nat)
    ensures m <= |text|
  {
    if |text| == 0 || |Encode(text[0])| > bytes then 0 else 1 + Fitting(text[1..], bytes - |Encode(text[0])|)
  }

  lemma {:induction false} EncodeSplits(text: string, m: nat)
    requires m <= |text|
    ensures EncodeAll(text) == EncodeAll(text[..m]) + EncodeAll(text[m..])
  {
    if m != 0 {
      EncodeSplits(text[1..], m - 1);
      assert text[..m][1..] == text[1..][..m - 1];
      assert text[1..][m - 1..] == text[m..];
    } else {
      assert text[0..] == text;
    }
  }

  /** The fitting prefix fits and no longer prefix does. */
  lemma {:induction false} FittingIsLongest(text: string, bytes: nat, m: nat)
    requires m <= |text|
    ensures |EncodeAll(text[..m])| <= bytes <==> m <= Fitting(text, bytes)
    decreases |text|
  {
    if m != 0 {
      assert text[..m][1..] == text[1..][..m - 1];
      if |Encode(text[0])| <= bytes {
        FittingIsLongest(text[1..], bytes - |Encode(text[0])|, m - 1);
      }
    }
  }

  /** The cut bytes beyond the fitting prefix: part of the first character that does not fit. */
  function Rest(text: string, bytes: nat): seq<Byte>
    requires bytes <= |EncodeAll(text)|
  {
    FittingIsLongest(text, bytes, Fitting(text, bytes));
    EncodeAll(text)[|EncodeAll(text[..Fitting(text, bytes)])|..bytes]
  }

  lemma {:induction false} CutBytes(text: string, bytes: nat)
    requires bytes <= |EncodeAll(text)|
    ensures EncodeAll(text)[..bytes] == EncodeAll(text[..Fitting(text, bytes)]) + Rest(text, bytes)
  {
    var m := Fitting(text, bytes);
    FittingIsLongest(text, bytes, m);
    EncodeSplits(text, m);
  }

  lemma {:induction false} EncodeNext(text: string, m: nat)
    requires m < |text|
    ensures EncodeAll(text[..m + 1]) == EncodeAll(text[..m]) + Encode(text[m])
    ensures EncodeAll(text[..m + 1]) <= EncodeAll(text)
  {
    EncodeSplits(text[..m + 1], m);
    assert text[..m + 1][..m] == text[..m] && text[..m + 1][m..] == [text[m]];
    EncodeOne(text[m]);
    EncodeSplits(text, m + 1);
  }

  lemma EncodeOne(c: char)
    ensures EncodeAll([c]) == Encode(c)
  {
    assert [c][1..] == [];
    assert Encode(c) + [] == Encode(c);
  }

  lemma {:induction false} RestIsCutShort(text: string, bytes: nat)
    requires bytes <= |EncodeAll(text)|
    ensures var m, rest := Fitting(text, bytes), Rest(text, bytes);
      if m == |text| then rest == [] else |rest| < |Encode(text[m])| && rest == Encode(text[m])[..|rest|]
  {
    var m := Fitting(text, bytes);
    FittingIsLongest(text, bytes, m);
    if m == |text| {
      assert text[..m] == text;
    } else {
      FittingIsLongest(text, bytes, m + 1);
      EncodeNext(text, m);
    }
  }

  lemma {:induction false} DecodeOne(c: char, rest: seq<Byte>)
    ensures Decode(Encode(c) + rest) == Prepend([c], Decode(rest))
    ensures DecodeIgnoring(Encode(c) + rest) == [c] + DecodeIgnoring(rest)
  {
    HeadRoundTrip(c, rest);
    assert (Encode(c) + rest)[|Encode(c)|..] == rest;
  }

  function Prepend(text: string, rest: Option<string>): Option<string> {
    match rest case None => None case Some(more) => Some(text + more)
  }

  lemma PrependTwice(c: char, text: string, rest: Option<string>)
    ensures Prepend([c], Prepend(text, rest)) == Prepend([c] + text, rest)
    ensures Prepend("", rest) == rest
  {
    if rest.Some? {
      assert [c] + (text + rest.value) == [c] + text + rest.value;
      assert "" + rest.value == rest.value;
    }
  }

  lemma {:induction false} DecodeEncoded(text: string, rest: seq<Byte>)
    ensures Decode(EncodeAll(text) + rest) == Prepend(text, Decode(rest))
    ensures DecodeIgnoring(EncodeAll(text) + rest) == text + DecodeIgnoring(rest)
  {
    if |text| == 0 {
      assert EncodeAll(text) + rest == rest;
      PrependTwice('a', "", Decode(rest));
    } else {
      var c, later := text[0], text[1..];
      DecodeEncoded(later, rest);
      DecodeOne(c, EncodeAll(later) + rest);
      Joins(c, later, rest);
      PrependTwice(c, later, Decode(rest));
      assert text == [c] + later;
      assert [c] + (later + DecodeIgnoring(rest)) == text + DecodeIgnoring(rest);
    }
  }

  lemma {:induction false} Joins(c: char, later: string, rest: seq<Byte>)
    ensures EncodeAll([c] + later) + rest == Encode(c) + (EncodeAll(later) + rest)
  {
    assert ([c] + later)[1..] == later;
  }

  lemma {:induction false} IgnoresCutShort(c: char, i: nat, k: nat)
    requires i <= k < |Encode(c)|
    ensures DecodeIgnoring(Encode(c)[i..k]) == ""
    decreases k - i
  {
    if i < k {
      assert Encode(c)[i..k][1..] == Encode(c)[i + 1..k];
      IgnoresCutShort(c, i + 1, k);
    }
  }

  lemma {:induction false} CutShortDecodes(text: string, c: char, j: nat)
    requires j < |Encode(c)|
    ensures Decode(EncodeAll(text) + Encode(c)[..j]) == if j == 0 then Some(text) else None
    ensures DecodeIgnoring(EncodeAll(text) + Encode(c)[..j]) == text
  {
    var rest := Encode(c)[0..j];
    assert Encode(c)[..j] == rest;
    DecodeEncoded(text, rest);
    IgnoresCutShort(c, 0, j);
    assert text + "" == text;
  }

  /** The fitting prefix followed by up to j of the bytes left over. */
  lemma {:induction false} CutDecodes(text: string, bytes: nat, j: nat)
    requires bytes <= |EncodeAll(text)| && j <= |Rest(text, bytes)|
    ensures |Rest(text, bytes)| <= 3
    ensures Decode(EncodeAll(text[..Fitting(text, bytes)]) + Rest(text, bytes)[..j])
      == if j == 0 then Some(text[..Fitting(text, bytes)]) else None
    ensures DecodeIgnoring(EncodeAll(text[..Fitting(text, bytes)]) + Rest(text, bytes)[..j]) == text[..Fitting(text, bytes)]
  {
    var m, rest := Fitting(text, bytes), Rest(text, bytes);
    RestIsCutShort(text, bytes);
    var c := if m < |text| then text[m] else 'a';
    assert rest[..j] == Encode(c)[..j];
    CutShortDecodes(text[..m], c, j);
  }

  /** All of the cut bytes: ignoring what does not decode leaves the fitting prefix. */
  lemma {:induction false} CutIgnores(text: string, bytes: nat)
    requires bytes <= |EncodeAll(text)|
    ensures DecodeIgnoring(EncodeAll(text)[..bytes]) == text[..Fitting(text, bytes)]
  {
    var rest := Rest(text, bytes);
    CutBytes(text, bytes);
    CutDecodes(text, bytes, |rest|);
    assert rest[..|rest|] == rest;
  }

  // ---------- `_truncate` ----------

  const ELLIPSIS: string := "\U{2026}"

  function Allowance(limit: int): nat {
    if limit < 3 then 0 else limit - 3
  }

  datatype Cut = Cut(value: Option<string>, length: nat, truncated: bool)

  /** What `_truncate` returns, without the digest. */
  function Truncated(value: Option<string>, limit: int): Cut {
    match value
    case None => Cut(None, 0, false)
    case Some(text) =>
      var length := |EncodeAll(text)|;
      if length <= limit then Cut(Some(text), length, false)
      else Cut(Some(text[..Fitting(text, Allowance(limit))] + ELLIPSIS), length, true)
  }

  /** How many bytes the loop drops. */
  ghost function DropTail(text: string, bytes: nat): (d: nat)
    requires bytes <= |EncodeAll(text)|
    ensures d <= 3 && d <= bytes
  {
    FittingIsLongest(text, bytes, Fitting(text, bytes));
    CutDecodes(text, bytes, 0);
    |Rest(text, bytes)|
  }

  /** What the loop sees after dropping some of those bytes. */
  lemma {:induction false} LoopSees(text: string, bytes: nat, n: nat)
    requires n <= bytes <= |EncodeAll(text)| && n >= bytes - DropTail(text, bytes)
    ensures Decode(EncodeAll(text)[..n]) ==
      if n == bytes - DropTail(text, bytes) then Some(text[..Fitting(text, bytes)]) else None
  {
    var rest := Rest(text, bytes);
    var j := n - (bytes - |rest|);
    CutBytes(text, bytes);
    CutDecodes(text, bytes, j);
    assert EncodeAll(text)[..n] == EncodeAll(text)[..bytes][..n];
    assert (EncodeAll(text[..Fitting(text, bytes)]) + rest)[..n] == EncodeAll(text[..Fitting(text, bytes)]) + rest[..j];
  }

  /** The source's loop: cut the bytes, then drop one at a time until they decode. */
  method Truncate(value: Option<string>, limit: int) returns (cut: Cut, ghost dropped: nat)
    ensures cut == Truncated(value, limit)
    ensures dropped <= 3
  {
    dropped := 0;
    if value.None? {
      return Cut(None, 0, false), 0;
    }
    var text := value.value;
    var encoded := EncodeAll(text);
    if |encoded| <= limit {
      return Cut(Some(text), |encoded|, false), 0;
    }
    var allowance := Allowance(limit);
    var raw := encoded[..allowance];
    dropped := DropTail(text, allowance);
    LoopSees(text, allowance, allowance);
    while Decode(raw).None?
      invariant allowance - dropped <= |raw| <= allowance
      invariant raw == encoded[..|raw|]
      invariant Decode(raw) == if |raw| == allowance - dropped then Some(text[..Fitting(text, allowance)]) else None
      decreases |raw|
    {
      raw := raw[..|raw| - 1];
      LoopSees(text, allowance, |raw|);
    }
    return Cut(Some(Decode(raw).value + ELLIPSIS), |encoded|, true), dropped;
  }

  /** `bounded_text`, on text with credentials removed and without the digest. */
  function Bounded(text: string, limit: int): Cut {
    var encoded := EncodeAll(text);
    if |encoded| <= limit then Cut(Some(text), |encoded|, false)
    else Cut(Some(DecodeIgnoring(encoded[..if limit < 0 then 0 else limit])), |encoded|, true)
  }

  // ---------- the theorems ----------

  lemma {:induction false} EncodeConcat(a: string, b: string)
    ensures EncodeAll(a + b) == EncodeAll(a) + EncodeAll(b)
  {
    EncodeSplits(a + b, |a|);
    assert (a + b)[..|a|] == a && (a + b)[|a|..] == b;
  }

  /**
   A truncated text is the longest prefix that leaves room for the ellipsis, and it is
   within the limit exactly when the limit leaves room for the ellipsis itself.
   */
  lemma {:induction false} TruncatedFits(text: string, limit: int, m: nat)
    requires |EncodeAll(text)| > limit && m <= |text|
    ensures var kept := Truncated(Some(text), limit).value.value;
      && (|EncodeAll(kept)| <= limit <==> limit >= 3)
      && (limit >= 3 ==> (|EncodeAll(text[..m] + ELLIPSIS)| <= limit <==> m <= |kept| - 1))
      && kept == text[..|kept| - 1] + ELLIPSIS
  {
    var n := Fitting(text, Allowance(limit));
    EncodeConcat(text[..n], ELLIPSIS);
    EncodeConcat(text[..m], ELLIPSIS);
    FittingIsLongest(text, Allowance(limit), n);
    FittingIsLongest(text, Allowance(limit), m);
  }

  /** `bounded_text` keeps the longest prefix within a limit that is not negative. */
  lemma {:induction false} BoundedFits(text: string, limit: nat, m: nat)
    requires |EncodeAll(text)| > limit && m <= |text|
    ensures var kept := Bounded(text, limit).value.value;
      && kept <= text && |EncodeAll(kept)| <= limit
      && (|EncodeAll(text[..m])| <= limit <==> m <= |kept|)
  {
    var n := Fitting(text, limit);
    CutIgnores(text, limit);
    FittingIsLongest(text, limit, n);
    FittingIsLongest(text, limit, m);
  }

  /** Dropping bytes until they decode and ignoring what does not decode keep the same text. */
  lemma {:induction false} BothCutsAgree(text: string, limit: int)
    requires |EncodeAll(text)| > limit >= 3
    ensures Truncated(Some(text), limit).value.value == Bounded(text, limit - 3).value.value + ELLIPSIS
  {
    CutIgnores(text, limit - 3);
  }
}
