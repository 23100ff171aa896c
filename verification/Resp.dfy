/**
 The Redis serialization protocol (RESP2): replies, their encoding, and a plain recursive-descent
 parser that looks at the whole stream at once. The incremental builders are proved to agree with it.
 */
module Resp {
  import opened Common
  import opened Bytes

  datatype Reply =
    | Null
    | SimpleString(str: bytes)
    | Error(str: bytes)
    | BulkString(str: bytes)
    | Integer(n: int)
    | Array(rows: seq<Reply>)

  /**
   What can go wrong. The first three are the `redis_error`s thrown by the builders; `Undefined`
   stands for a bulk size whose arithmetic in `fetch_str` C++ leaves undefined.
   */
  datatype Fault = Fine | InvalidType | InvalidDigit | WrongEnding | Undefined

  /** The exceptions the builders throw, as opposed to undefined behaviour. */
  predicate Thrown(f: Fault) { f in {InvalidType, InvalidDigit, WrongEnding} }

  const PLUS: byte := 43
  const DASH: byte := 45
  const COLON: byte := 58
  const DOLLAR: byte := 36
  const STAR: byte := 42

  // ---------- Encoding ----------

  function EncodeInt(n: int): (s: bytes)
    ensures s != []
  {
    if n < 0 then [MINUS] + ToDecimal(-n) else ToDecimal(n)
  }

  function Encode(v: Reply): (s: bytes)
    ensures s != []
  {
    match v
    case Null => [DOLLAR] + EncodeInt(-1) + CRLF
    case SimpleString(str) => [PLUS] + str + CRLF
    case Error(str) => [DASH] + str + CRLF
    case BulkString(str) => [DOLLAR] + EncodeInt(|str|) + CRLF + str + CRLF
    case Integer(n) => [COLON] + EncodeInt(n) + CRLF
    case Array(rows) => [STAR] + EncodeInt(|rows|) + CRLF + EncodeAll(rows)
  }

  function EncodeAll(vs: seq<Reply>): (s: bytes) {
    if vs == [] then [] else Encode(vs[0]) + EncodeAll(vs[1..])
  }

  /** The largest bulk size whose end offset still fits in an `int`. */
  const MAX_BULK := TWO31 - 3

  /** Text that the protocol can carry on one line. */
  predicate OneLine(s: bytes) {
    forall i :: 0 <= i < |s| ==> !CrlfAt(s, i)
  }

  predicate Encodable(v: Reply) {
    match v
    case Null => true
    case SimpleString(str) => OneLine(str)
    case Error(str) => OneLine(str)
    case BulkString(str) => |str| <= MAX_BULK
    case Integer(n) => -TWO63 < n < TWO63
    case Array(rows) => |rows| < TWO63 && AllEncodable(rows)
  }

  predicate AllEncodable(vs: seq<Reply>) {
    forall i :: 0 <= i < |vs| ==> Encodable(vs[i])
  }

  // ---------- Numbers ----------

  /** Accumulator of the digit scan: the number, its sign, and whether a bad character was met. */
  datatype Scan = Scan(nbr: int, mult: int, bad: bool)

  /** The digit loop of the integer builder over `line[i..]`, in 64-bit arithmetic. */
  function ScanDigits(line: bytes, i: nat, nbr: int, mult: int): (r: Scan)
    requires i <= |line|
    decreases |line| - i
  {
    if i == |line| then Scan(nbr, mult, false)
    else if i == 0 && mult == 1 && line[0] == MINUS then ScanDigits(line, 1, nbr, -1)
    else if !IsDigit(line[i]) then Scan(nbr, mult, true)
    else ScanDigits(line, i + 1, Wrap64(Wrap64(nbr * 10) + (line[i] - ZERO)), mult)
  }

  lemma {:induction false} ScanDigitsValue(ds: bytes, line: bytes, start: nat, i: nat, mult: int)
    requires start <= i <= |line| && line[start..] == ds && AllDigits(ds)
    requires start == 0 ==> AllDigits(line)
    requires DecimalValue(ds) < TWO63
    ensures ScanDigits(line, i, DecimalValue(ds[..i - start]), mult) == Scan(DecimalValue(ds), mult, false)
    decreases |line| - i
  {
    hide Wrap64;
    var k := i - start;
    if i == |line| {
      assert ds[..k] == ds;
    } else {
      DecimalValuePrefix(ds, k + 1);
      assert ds[..k + 1][..k] == ds[..k];
      assert ds[k] == line[i];
      var v := DecimalValue(ds[..k]);
      assert DecimalValue(ds[..k + 1]) == v * 10 + (line[i] - ZERO);
      ScanDigitsValue(ds, line, start, i + 1, mult);
    }
  }

  /** Scanning a printed number gives it back, for every number below 2^63 in absolute value. */
  lemma ScanEncodedInt(n: int)
    requires -TWO63 < n < TWO63
    ensures var r := ScanDigits(EncodeInt(n), 0, 0, 1);
            !r.bad && Wrap64(r.mult * r.nbr) == n
    ensures OneLine(EncodeInt(n))
  {
    var line := EncodeInt(n);
    var ds := ToDecimal(if n < 0 then -n else n);
    DecimalRoundTrip(if n < 0 then -n else n);
    forall i ensures !CrlfAt(line, i) {
      if 0 <= i < |line| { assert line[i] == MINUS || IsDigit(line[i]); }
    }
    if n < 0 {
      assert line[1..] == ds;
      assert ds[..0] == [];
      ScanDigitsValue(ds, line, 1, 1, -1);
    } else {
      assert line[0..] == ds;
      assert ds[..0] == [];
      ScanDigitsValue(ds, line, 0, 0, 1);
    }
  }

  // ---------- Reference parser ----------

  /** Outcome of parsing one item at the head of a stream. */
  datatype Parse<T> = Incomplete | Bad(fault: Fault) | Done(value: T, rest: bytes)

  function ParseLine(s: bytes): (r: Parse<bytes>)
    ensures r.Done? ==> |r.rest| < |s|
    ensures !r.Bad?
  {
    match FindCrlf(s)
    case None => Incomplete
    case Some(k) => Done(s[..k], s[k + 2..])
  }

  function ParseInt(s: bytes): (r: Parse<int>)
    ensures r.Done? ==> |r.rest| < |s| && -TWO63 <= r.value < TWO63
    ensures r.Bad? ==> r.fault != Fine
  {
    match ParseLine(s)
    case Done(line, rest) =>
      var sc := ScanDigits(line, 0, 0, 1);
      if sc.bad then Bad(InvalidDigit) else Done(Wrap64(sc.mult * sc.nbr), rest)
    case _ => Incomplete
  }

  /**
   The body of a bulk string of `size` bytes (`size` as narrowed to `int`). A size below -2 makes
   the unsigned length comparison unsatisfiable, so the parser waits for ever; -2 makes it vacuous
   and the index negative; the two largest sizes overflow one of the offsets behind the body, unless
   the ending is found wrong before.
   */
  function ParseBody(size: int, s: bytes): (r: Parse<bytes>)
    ensures r.Done? ==> |r.rest| < |s|
    ensures r.Bad? ==> r.fault != Fine
  {
    if size < -2 then Incomplete
    else if |s| < size + 2 then Incomplete
    else if size < 0 then Bad(Undefined)
    else if s[size] != CR then Bad(WrongEnding)
    else if size > MAX_BULK + 1 then Bad(Undefined)
    else if s[size + 1] != LF then Bad(WrongEnding)
    else if size > MAX_BULK then Bad(Undefined)
    else Done(s[..size], s[size + 2..])
  }

  /** A bulk string after its type byte. */
  function ParseBulk(s: bytes): (r: Parse<Reply>)
    ensures r.Done? ==> |r.rest| < |s|
    ensures r.Bad? ==> r.fault != Fine
  {
    match ParseInt(s)
    case Incomplete => Incomplete
    case Bad(f) => Bad(f)
    case Done(n, rest) =>
      if Wrap32(n) == -1 then Done(Null, rest)
      else match ParseBody(Wrap32(n), rest)
           case Incomplete => Incomplete
           case Bad(f) => Bad(f)
           case Done(str, rest') => Done(BulkString(str), rest')
  }

  /** An array after its type byte. */
  function ParseArray(s: bytes): (r: Parse<Reply>)
    ensures r.Done? ==> |r.rest| < |s|
    ensures r.Bad? ==> r.fault != Fine
    decreases |s|, 2, 0
  {
    match ParseInt(s)
    case Incomplete => Incomplete
    case Bad(f) => Bad(f)
    case Done(n, rest) =>
      if n < 0 then Done(Null, rest)
      else match ParseRows(n, rest)
           case Incomplete => Incomplete
           case Bad(f) => Bad(f)
           case Done(rows, rest') => Done(Array(rows), rest')
  }

  /** What follows the type byte `t`. */
  function ParseTyped(t: byte, s: bytes): (r: Parse<Reply>)
    ensures r.Done? ==> |r.rest| < |s|
    ensures r.Bad? ==> r.fault != Fine
    decreases |s|, 3, 0
  {
    if t == PLUS then
      match ParseLine(s)
      case Done(line, rest) => Done(SimpleString(line), rest)
      case _ => Incomplete
    else if t == DASH then
      match ParseLine(s)
      case Done(line, rest) => Done(Error(line), rest)
      case _ => Incomplete
    else if t == COLON then
      match ParseInt(s)
      case Incomplete => Incomplete
      case Bad(f) => Bad(f)
      case Done(n, rest) => Done(Integer(n), rest)
    else if t == DOLLAR then ParseBulk(s)
    else if t == STAR then ParseArray(s)
    else Bad(InvalidType)
  }

  function ParseReply(s: bytes): (r: Parse<Reply>)
    ensures r.Done? ==> |r.rest| < |s|
    ensures r.Bad? ==> r.fault != Fine
    decreases |s|, 0, 0
  {
    if s == [] then Incomplete else ParseTyped(s[0], s[1..])
  }

  function Prepend(v: Reply, p: Parse<seq<Reply>>): Parse<seq<Reply>> {
    match p
    case Incomplete => Incomplete
    case Bad(f) => Bad(f)
    case Done(vs, rest) => Done([v] + vs, rest)
  }

  /** `n` replies in a row. */
  function ParseRows(n: nat, s: bytes): (r: Parse<seq<Reply>>)
    ensures r.Done? ==> |r.rest| <= |s| && |r.value| == n
    ensures r.Bad? ==> r.fault != Fine
    decreases |s|, 1, n
  {
    if n == 0 then Done([], s)
    else
      match ParseReply(s)
      case Incomplete => Incomplete
      case Bad(f) => Bad(f)
      case Done(v, rest) => Prepend(v, ParseRows(n - 1, rest))
  }

  /** A whole stream: its complete replies, the bytes after the last of them, and how it stopped. */
  datatype Stream = Stream(replies: seq<Reply>, pending: bytes, fault: Fault)

  function ParseStream(s: bytes): (r: Stream)
    ensures |r.pending| <= |s|
    decreases |s|
  {
    match ParseReply(s)
    case Incomplete => Stream([], s, Fine)
    case Bad(f) => Stream([], s, f)
    case Done(v, rest) =>
      var t := ParseStream(rest);
      Stream([v] + t.replies, t.pending, t.fault)
  }

  // ---------- Round trip ----------

  lemma ParseLineOf(line: bytes, rest: bytes)
    requires OneLine(line)
    ensures ParseLine(line + CRLF + rest) == Done(line, rest)
  {
    FindCrlfAfterLine(line, rest);
    var s := line + CRLF + rest;
    assert s[..|line|] == line && s[|line| + 2..] == rest;
  }

  lemma ParseIntOf(n: int, rest: bytes)
    requires -TWO63 < n < TWO63
    ensures ParseInt(EncodeInt(n) + CRLF + rest) == Done(n, rest)
  {
    ScanEncodedInt(n);
    ParseLineOf(EncodeInt(n), rest);
  }

  lemma ParseBodyOf(str: bytes, rest: bytes)
    requires |str| <= MAX_BULK
    ensures ParseBody(|str|, str + CRLF + rest) == Done(str, rest)
  {
    var s := str + CRLF + rest;
    assert s[..|str|] == str && s[|str| + 2..] == rest;
  }

  lemma RoundTripLine(line: bytes, rest: bytes)
    requires OneLine(line)
    ensures ParseTyped(PLUS, line + CRLF + rest) == Done(SimpleString(line), rest)
    ensures ParseTyped(DASH, line + CRLF + rest) == Done(Error(line), rest)
  {
    ParseLineOf(line, rest);
  }

  lemma RoundTripInt(n: int, rest: bytes)
    requires -TWO63 < n < TWO63
    ensures ParseTyped(COLON, EncodeInt(n) + CRLF + rest) == Done(Integer(n), rest)
    ensures n == -1 ==> ParseTyped(DOLLAR, EncodeInt(n) + CRLF + rest) == Done(Null, rest)
    ensures n < 0 ==> ParseTyped(STAR, EncodeInt(n) + CRLF + rest) == Done(Null, rest)
  {
    ParseIntOf(n, rest);
  }

  lemma RoundTripBulk(str: bytes, rest: bytes)
    requires |str| <= MAX_BULK
    ensures ParseTyped(DOLLAR, EncodeInt(|str|) + CRLF + str + CRLF + rest) == Done(BulkString(str), rest)
  {
    var body := str + CRLF + rest;
    assert EncodeInt(|str|) + CRLF + str + CRLF + rest == EncodeInt(|str|) + CRLF + body;
    ParseIntOf(|str|, body);
    ParseBodyOf(str, rest);
    assert ParseBulk(EncodeInt(|str|) + CRLF + body) == Done(BulkString(str), rest);
  }

  /** Parsing an encoded reply followed by anything yields that reply and leaves exactly the rest. */
  lemma {:induction false} RoundTrip(v: Reply, rest: bytes)
    requires Encodable(v)
    ensures ParseReply(Encode(v) + rest) == Done(v, rest)
    decreases v, 0
  {
    hide ParseTyped, EncodeInt;
    var s := Encode(v) + rest;
    match v
    case Null =>
      assert s[1..] == EncodeInt(-1) + CRLF + rest;
      RoundTripInt(-1, rest);
    case SimpleString(str) =>
      assert s[1..] == str + CRLF + rest;
      RoundTripLine(str, rest);
    case Error(str) =>
      assert s[1..] == str + CRLF + rest;
      RoundTripLine(str, rest);
    case BulkString(str) =>
      assert s[1..] == EncodeInt(|str|) + CRLF + str + CRLF + rest;
      RoundTripBulk(str, rest);
    case Integer(n) =>
      assert s[1..] == EncodeInt(n) + CRLF + rest;
      RoundTripInt(n, rest);
    case Array(rows) =>
      assert s[1..] == EncodeInt(|rows|) + CRLF + (EncodeAll(rows) + rest);
      RoundTripArray(rows, rest);
  }

  lemma {:induction false} RoundTripArray(rows: seq<Reply>, rest: bytes)
    requires |rows| < TWO63 && AllEncodable(rows)
    ensures ParseTyped(STAR, EncodeInt(|rows|) + CRLF + (EncodeAll(rows) + rest)) == Done(Array(rows), rest)
    decreases rows, 2
  {
    ParseIntOf(|rows|, EncodeAll(rows) + rest);
    RoundTripRows(rows, rest);
    assert ParseArray(EncodeInt(|rows|) + CRLF + (EncodeAll(rows) + rest)) == Done(Array(rows), rest);
  }

  lemma {:induction false} RoundTripRows(vs: seq<Reply>, rest: bytes)
    requires AllEncodable(vs)
    ensures ParseRows(|vs|, EncodeAll(vs) + rest) == Done(vs, rest)
    decreases vs, 1
  {
    if vs == [] {
      assert EncodeAll(vs) + rest == rest;
    } else {
      assert EncodeAll(vs) + rest == Encode(vs[0]) + (EncodeAll(vs[1..]) + rest);
      RoundTrip(vs[0], EncodeAll(vs[1..]) + rest);
      RoundTripRows(vs[1..], rest);
      assert vs == [vs[0]] + vs[1..];
    }
  }

  /** A null array is also read as null, and so is every negative array size. */
  lemma NullArray(n: int, rest: bytes)
    requires -TWO63 < n < 0
    ensures ParseReply([STAR] + EncodeInt(n) + CRLF + rest) == Done(Null, rest)
  {
    var s := [STAR] + EncodeInt(n) + CRLF + rest;
    assert s[1..] == EncodeInt(n) + CRLF + rest;
    RoundTripInt(n, rest);
  }

  /** A concatenation of encoded replies is read back as exactly those replies, with nothing left over. */
  lemma {:induction false} StreamRoundTrip(vs: seq<Reply>)
    requires AllEncodable(vs)
    ensures ParseStream(EncodeAll(vs)) == Stream(vs, [], Fine)
  {
    hide Encode, ParseTyped, Encodable;
    if vs != [] {
      RoundTrip(vs[0], EncodeAll(vs[1..]));
      StreamRoundTrip(vs[1..]);
      assert vs == [vs[0]] + vs[1..];
    }
  }

  /** The encoding is uniquely decodable: no two reply sequences share a byte string. */
  lemma EncodeAllInjective(vs: seq<Reply>, ws: seq<Reply>)
    requires AllEncodable(vs) && AllEncodable(ws) && EncodeAll(vs) == EncodeAll(ws)
    ensures vs == ws
  {
    StreamRoundTrip(vs);
    StreamRoundTrip(ws);
  }

  lemma {:induction false} EncodeAllConcat(vs: seq<Reply>, ws: seq<Reply>)
    ensures EncodeAll(vs + ws) == EncodeAll(vs) + EncodeAll(ws)
  {
    if vs == [] {
      assert vs + ws == ws;
    } else {
      assert (vs + ws)[1..] == vs[1..] + ws;
      EncodeAllConcat(vs[1..], ws);
    }
  }
}
