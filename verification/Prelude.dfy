/** Shared result types, and the string and power functions several modules use. */
module Prelude {

  datatype Option<+T> = None | Some(value: T)

  /** A value, or the exception the source raises instead. */
  datatype Result<+T, +E> = Ok(value: T) | Err(error: E) {
    predicate IsFailure() {
      Err?
    }

    function PropagateFailure<U>(): Result<U, E>
      requires Err?
    {
      Err(error)
    }

    function Extract(): T
      requires Ok?
    {
      value
    }
  }

  // ---------- text and powers, as Python has them ----------

  function UpperChar(c: char): char {
    if 'a' <= c <= 'z' then c - 'a' + 'A' else c
  }

  /** `text.upper()`, on ASCII letters. */
  function Upper(text: string): string {
    seq(|text|, i requires 0 <= i < |text| => UpperChar(text[i]))
  }

  /** Besides A to Z, the Kelvin sign is the only character whose lower case is in ASCII. */
  function LowerChar(c: char): char {
    if 'A' <= c <= 'Z' then c - 'A' + 'a' else if c == '\U{212A}' then 'k' else c
  }

  /** `text.lower()`, as far as the result is in ASCII. */
  function Lower(text: string): (r: string)
    ensures |r| == |text|
  {
    seq(|text|, i requires 0 <= i < |text| => LowerChar(text[i]))
  }

  /** `str.isspace` of one character; what `\s` matches. */
  predicate IsSpace(c: char) {
    var n := c as int;
    || 0x09 <= n <= 0x0D || 0x1C <= n <= 0x20 || n == 0x85 || n == 0xA0 || n == 0x1680
    || 0x2000 <= n <= 0x200A || n == 0x2028 || n == 0x2029 || n == 0x202F || n == 0x205F || n == 0x3000
  }

  /** `text.strip()`. */
  function Strip(text: string): string {
    if |text| == 0 then ""
    else if IsSpace(text[0]) then Strip(text[1..])
    else if IsSpace(text[|text| - 1]) then Strip(text[..|text| - 1])
    else text
  }

  /** `not text.strip()`. */
  predicate IsBlank(text: string) {
    forall i :: 0 <= i < |text| ==> IsSpace(text[i])
  }

  function Power2(n: nat): (r: nat)
    ensures r >= 1
  {
    if n == 0 then 1 else 2 * Power2(n - 1)
  }
}
