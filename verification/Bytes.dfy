/** Byte strings, the `\r\n` search and decimal numerals shared by the protocol modules. */
module Bytes {
  import opened Common

  type byte = b: int | 0 <= b < 256
  type bytes = seq<byte>

  const CR: byte := 13
  const LF: byte := 10
  const CRLF: bytes := [CR, LF]
  const MINUS: byte := 45
  const ZERO: byte := 48

  /** `r` is what is left of `s` after some bytes were taken from its front. */
  predicate Suffix(r: bytes, s: bytes) {
    |r| <= |s| && r == s[|s| - |r|..]
  }

  lemma SuffixTransitive(r: bytes, s: bytes, t: bytes)
    requires Suffix(r, s) && Suffix(s, t)
    ensures Suffix(r, t)
  {
  }

  lemma SuffixExtends(r: bytes, s: bytes, y: bytes)
    requires Suffix(r, s)
    ensures Suffix(r + y, s + y)
  {
  }

  predicate CrlfAt(s: bytes, i: int) {
    0 <= i && i + 1 < |s| && s[i] == CR && s[i + 1] == LF
  }

  /** `std::string::find("\r\n")`, starting at position `from`. */
  function FindFrom(s: bytes, from: nat): (r: Option<nat>)
    requires from <= |s|
    ensures r.Some? ==> from <= r.value && CrlfAt(s, r.value) && forall i :: from <= i < r.value ==> !CrlfAt(s, i)
    ensures r.None? ==> forall i :: from <= i ==> !CrlfAt(s, i)
    decreases |s| - from
  {
    if CrlfAt(s, from) then Some(from)
    else if from == |s| then None
    else FindFrom(s, from + 1)
  }

  /** `std::string::find("\r\n")`: the first occurrence, if any. */
  function FindCrlf(s: bytes): (r: Option<nat>)
    ensures r.Some? ==> CrlfAt(s, r.value) && forall i :: 0 <= i < r.value ==> !CrlfAt(s, i)
    ensures r.None? ==> forall i :: !CrlfAt(s, i)
  {
    FindFrom(s, 0)
  }

  /** Bytes that arrive later do not move an end-of-line already found. */
  lemma FindCrlfExtends(x: bytes, y: bytes)
    requires FindCrlf(x).Some?
    ensures FindCrlf(x + y) == FindCrlf(x)
  {
    var k := FindCrlf(x).value;
    assert CrlfAt(x + y, k);
    assert forall i :: 0 <= i < k ==> CrlfAt(x + y, i) == CrlfAt(x, i);
  }

  /** A line without `\r\n` is ended by the `\r\n` that follows it. */
  lemma FindCrlfAfterLine(line: bytes, rest: bytes)
    requires forall i :: 0 <= i < |line| ==> !CrlfAt(line, i)
    ensures FindCrlf(line + CRLF + rest) == Some(|line|)
  {
    var s := line + CRLF + rest;
    assert CrlfAt(s, |line|);
    forall i | 0 <= i < |line| ensures !CrlfAt(s, i) {
      assert !CrlfAt(line, i);
    }
  }

  predicate IsDigit(b: byte) { ZERO <= b <= ZERO + 9 }

  predicate AllDigits(s: bytes) { forall i :: 0 <= i < |s| ==> IsDigit(s[i]) }

  /** `std::to_string` of an unsigned number. */
  function ToDecimal(n: nat): (s: bytes)
    ensures |s| > 0 && AllDigits(s)
  {
    if n < 10 then [ZERO + n] else ToDecimal(n / 10) + [ZERO + n % 10]
  }

  /** The number a digit string denotes. */
  function DecimalValue(s: bytes): (n: nat)
    requires AllDigits(s)
  {
    if s == [] then 0 else DecimalValue(s[..|s| - 1]) * 10 + (s[|s| - 1] - ZERO)
  }

  lemma {:induction false} DecimalRoundTrip(n: nat)
    ensures DecimalValue(ToDecimal(n)) == n
  {
    if n >= 10 {
      DecimalRoundTrip(n / 10);
      assert ToDecimal(n)[..|ToDecimal(n)| - 1] == ToDecimal(n / 10);
    }
  }

  lemma {:induction false} DecimalValuePrefix(s: bytes, k: nat)
    requires AllDigits(s) && k <= |s|
    ensures DecimalValue(s[..k]) <= DecimalValue(s)
    decreases |s|
  {
    if k == |s| {
      assert s[..k] == s;
    } else {
      DecimalValuePrefix(s[..|s| - 1], k);
      assert s[..|s| - 1][..k] == s[..k];
    }
  }

  /** Two's complement narrowing to 64 and to 32 bits. */
  const TWO31 := 0x8000_0000
  const TWO63 := 0x8000_0000_0000_0000
  const TWO64 := 0x1_0000_0000_0000_0000

  function Wrap64(x: int): (r: int)
    ensures -TWO63 <= r < TWO63
    ensures -TWO63 <= x < TWO63 ==> r == x
  {
    (x + TWO63) % TWO64 - TWO63
  }

  function Wrap32(x: int): (r: int)
    ensures -TWO31 <= r < TWO31
    ensures -TWO31 <= x < TWO31 ==> r == x
  {
    (x + TWO31) % TWO32 - TWO31
  }

  /** Narrowing keeps the value modulo the width, so with its range it is two's complement. */
  lemma Narrowing(x: int)
    ensures (x - Wrap64(x)) % TWO64 == 0 && (x - Wrap32(x)) % TWO32 == 0
  {
    var q, r := (x + TWO63) / TWO64, (x + TWO31) / TWO32;
    assert x - Wrap64(x) == TWO64 * q && x - Wrap32(x) == TWO32 * r;
  }
}
