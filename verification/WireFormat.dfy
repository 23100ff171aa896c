/**
 The bytes of RESP2, spelled out as numbers and without reference to the printer or the parser: what
 each message looks like on the wire and what it means. The parser, the incremental builder and the
 command printer are proved to follow it.
 */
module WireFormat {
  import opened Common
  import opened Bytes
  import opened Resp
  import opened ReplyStream

  predicate Digits(s: bytes) { forall i :: 0 <= i < |s| ==> 48 <= s[i] <= 57 }

  /** The number that decimal digits denote. */
  function Number(s: bytes): (n: nat)
    requires Digits(s)
  {
    if s == [] then 0 else Number(s[..|s| - 1]) * 10 + (s[|s| - 1] - 48)
  }

  /** With a sign. */
  function Value(negative: bool, digits: bytes): int
    requires Digits(digits)
  {
    var n: int := Number(digits);
    if negative then -n else n
  }

  /** The usual decimal numeral of a number, without leading zeros. */
  predicate Numeral(s: bytes, n: nat) { s != [] && Digits(s) && Number(s) == n && (|s| > 1 ==> s[0] != 48) }

  lemma {:induction false} NumberIsDecimalValue(s: bytes)
    requires Digits(s)
    ensures AllDigits(s) && DecimalValue(s) == Number(s)
  {
    if s != [] { NumberIsDecimalValue(s[..|s| - 1]); }
  }

  /** A numeral without leading zeros of more than one digit denotes at least ten. */
  lemma {:induction false} LongNumeral(s: bytes)
    requires Digits(s) && s != [] && s[0] != 48
    ensures Number(s) >= 1 && (|s| > 1 ==> Number(s) >= 10)
  {
    if |s| > 1 {
      LongNumeral(s[..|s| - 1]);
    } else {
      assert s[..0] == [];
    }
  }

  lemma LastDigit(s: bytes)
    requires Digits(s) && s != []
    ensures Number(s) / 10 == Number(s[..|s| - 1]) && Number(s) % 10 == s[|s| - 1] - 48
  {
  }

  lemma NoDigits()
    ensures Number([]) == 0
  {
  }

  lemma {:induction false} NumeralUnique(s: bytes, t: bytes, n: nat)
    requires Numeral(s, n) && Numeral(t, n)
    ensures s == t
    decreases |s|
  {
    hide Number;
    var a, b := s[..|s| - 1], t[..|t| - 1];
    LastDigit(s);
    LastDigit(t);
    NoDigits();
    assert s == a + [s[|s| - 1]] && t == b + [t[|t| - 1]];
    if |s| > 1 { LongNumeral(s); } else { assert a == []; }
    if |t| > 1 { LongNumeral(t); } else { assert b == []; }
    if |s| > 1 && |t| > 1 { NumeralUnique(a, b, n / 10); }
  }

  /** Numbers are printed as their numerals. */
  lemma {:induction false} PrintsNumeral(n: nat)
    ensures Numeral(ToDecimal(n), n) && (n > 0 ==> ToDecimal(n)[0] != 48)
  {
    if n < 10 {
      assert ToDecimal(n)[..0] == [];
    } else {
      PrintsNumeral(n / 10);
      assert ToDecimal(n)[..|ToDecimal(n)| - 1] == ToDecimal(n / 10);
    }
  }

  // ---------- Messages ----------

  /** A message, down to the digits its numbers are written with. */
  datatype Message =
    | Simple(text: bytes)
    | Failure(text: bytes)
    | Whole(negative: bool, digits: bytes)
    | Bulk(digits: bytes, text: bytes)
    | NullBulk(digits: bytes)
    | NullArray(digits: bytes)
    | List(digits: bytes, items: seq<Message>)

  /** Text without an end of line in it. */
  predicate Line(s: bytes) { forall i :: 0 <= i < |s| - 1 ==> !(s[i] == 13 && s[i + 1] == 10) }

  /** A bulk size is what the number leaves in 32 bits. */
  predicate BulkSize(n: nat, size: nat) { n < 0x8000_0000_0000_0000 && n % 4294967296 == size <= 2147483645 }

  predicate Proper(m: Message) {
    match m
    case Simple(text) => Line(text)
    case Failure(text) => Line(text)
    case Whole(_, digits) => Digits(digits) && Number(digits) < 0x8000_0000_0000_0000
    case Bulk(digits, text) => Digits(digits) && BulkSize(Number(digits), |text|)
    case NullBulk(digits) => Digits(digits) && Number(digits) < 0x8000_0000_0000_0000 && Number(digits) % 4294967296 == 1
    case NullArray(digits) => Digits(digits) && 0 < Number(digits) < 0x8000_0000_0000_0000
    case List(digits, items) =>
      && Digits(digits) && Number(digits) == |items| < 0x8000_0000_0000_0000
      && forall i :: 0 <= i < |items| ==> Proper(items[i])
  }

  /** What a message looks like on the wire. */
  function Spelling(m: Message): (s: bytes) {
    match m
    case Simple(text) => [43] + text + [13, 10]
    case Failure(text) => [45] + text + [13, 10]
    case Whole(negative, digits) => [58] + (if negative then [45] else []) + digits + [13, 10]
    case Bulk(digits, text) => [36] + digits + [13, 10] + text + [13, 10]
    case NullBulk(digits) => [36, 45] + digits + [13, 10]
    case NullArray(digits) => [42, 45] + digits + [13, 10]
    case List(digits, items) => [42] + digits + [13, 10] + Spellings(items)
  }

  function Spellings(ms: seq<Message>): (s: bytes) {
    if ms == [] then [] else Spelling(ms[0]) + Spellings(ms[1..])
  }

  /** What it means. */
  function Meaning(m: Message): (v: Reply)
    requires Proper(m)
  {
    match m
    case Simple(text) => SimpleString(text)
    case Failure(text) => Error(text)
    case Whole(negative, digits) => Integer(Value(negative, digits))
    case Bulk(_, text) => BulkString(text)
    case NullBulk(_) => Null
    case NullArray(_) => Null
    case List(_, items) => Array(seq(|items|, i requires 0 <= i < |items| => Meaning(items[i])))
  }

  function Meanings(ms: seq<Message>): (vs: seq<Reply>)
    requires forall i :: 0 <= i < |ms| ==> Proper(ms[i])
    ensures |vs| == |ms| && forall i :: 0 <= i < |ms| ==> vs[i] == Meaning(ms[i])
  {
    seq(|ms|, i requires 0 <= i < |ms| => Meaning(ms[i]))
  }

  // ---------- The parser follows the format ----------

  lemma LineIsOneLine(s: bytes)
    requires Line(s)
    ensures OneLine(s)
  {
  }

  lemma ReadsLine(text: bytes, rest: bytes)
    requires Line(text)
    ensures ParseLine(text + [13, 10] + rest) == Done(text, rest)
  {
    LineIsOneLine(text);
    ParseLineOf(text, rest);
  }

  function Signed(negative: bool, digits: bytes): bytes { (if negative then [45] else []) + digits }

  lemma SignedIsLine(negative: bool, digits: bytes)
    requires Digits(digits)
    ensures Line(Signed(negative, digits))
  {
    var line := Signed(negative, digits);
    assert forall i :: 0 <= i < |line| ==> line[i] == 45 || 48 <= line[i] <= 57;
  }

  lemma {:induction false} ScansNumber(negative: bool, digits: bytes)
    requires Digits(digits) && Number(digits) < 0x8000_0000_0000_0000
    ensures ScanDigits(Signed(negative, digits), 0, 0, 1) == Scan(Number(digits), if negative then -1 else 1, false)
  {
    var line := Signed(negative, digits);
    NumberIsDecimalValue(digits);
    assert digits[..0] == [];
    hide Number, DecimalValue;
    if negative {
      assert line[1..] == digits;
      ScanDigitsValue(digits, line, 1, 1, -1);
      assert ScanDigits(line, 0, 0, 1) == ScanDigits(line, 1, 0, -1);
    } else {
      assert line[0..] == digits && line == digits;
      ScanDigitsValue(digits, line, 0, 0, 1);
    }
  }

  /** Digits, with or without a minus sign, are read as the number they denote. */
  lemma {:induction false} ReadsNumber(negative: bool, digits: bytes, rest: bytes)
    requires Digits(digits) && Number(digits) < 0x8000_0000_0000_0000
    ensures ParseInt(Signed(negative, digits) + [13, 10] + rest) == Done(Value(negative, digits), rest)
  {
    hide ParseLine, ScanDigits, Signed, Number;
    SignedIsLine(negative, digits);
    ScansNumber(negative, digits);
    ReadsLine(Signed(negative, digits), rest);
  }

  lemma Narrowed(q: int, m: nat)
    requires m < 2147483648
    ensures Wrap32(q * 4294967296 + m) == m
  {
  }

  lemma NarrowedSize(n: nat, size: nat)
    requires BulkSize(n, size)
    ensures Wrap32(n) == size
  {
    Narrowed(n / 4294967296, size);
  }

  lemma NarrowedNull(n: int)
    requires 0 <= n && n % 4294967296 == 1
    ensures Wrap32(-n) == -1
  {
    var q := n / 4294967296;
    assert -n == (-q) * 4294967296 - 1;
  }

  lemma ReadsBulk(digits: bytes, text: bytes, rest: bytes)
    requires Digits(digits) && BulkSize(Number(digits), |text|)
    ensures ParseBulk(digits + [13, 10] + (text + [13, 10] + rest)) == Done(BulkString(text), rest)
  {
    hide ParseInt, ParseBody, Wrap32, Number;
    assert Signed(false, digits) == digits;
    ReadsNumber(false, digits, text + [13, 10] + rest);
    NarrowedSize(Number(digits), |text|);
    ParseBodyOf(text, rest);
  }

  lemma ReadsNull(digits: bytes, rest: bytes)
    requires Digits(digits) && 0 < Number(digits) < 0x8000_0000_0000_0000
    ensures Number(digits) % 4294967296 == 1 ==> ParseBulk([45] + digits + [13, 10] + rest) == Done(Null, rest)
    ensures ParseArray([45] + digits + [13, 10] + rest) == Done(Null, rest)
  {
    hide ParseInt, ParseBody, Wrap32, Number;
    assert Signed(true, digits) == [45] + digits;
    ReadsNumber(true, digits, rest);
    if Number(digits) % 4294967296 == 1 { NarrowedNull(Number(digits)); }
  }

  lemma TypeByte(t: byte, body: bytes)
    ensures ParseReply([t] + body) == ParseTyped(t, body)
  {
    hide ParseTyped;
    assert ([t] + body)[1..] == body;
  }

  lemma ReadsText(m: Message, rest: bytes)
    requires Proper(m) && (m.Simple? || m.Failure?)
    ensures ParseReply(Spelling(m) + rest) == Done(Meaning(m), rest)
  {
    hide ParseLine, ParseReply;
    var t: byte := if m.Simple? then 43 else 45;
    assert Spelling(m) + rest == [t] + (m.text + [13, 10] + rest);
    TypeByte(t, m.text + [13, 10] + rest);
    ReadsLine(m.text, rest);
  }

  lemma ReadsWhole(m: Message, rest: bytes)
    requires Proper(m) && m.Whole?
    ensures ParseReply(Spelling(m) + rest) == Done(Meaning(m), rest)
  {
    hide ParseInt, ParseReply;
    var body := Signed(m.negative, m.digits) + [13, 10] + rest;
    assert Spelling(m) + rest == [58] + body;
    TypeByte(58, body);
    ReadsNumber(m.negative, m.digits, rest);
  }

  lemma ReadsBulkOrNull(m: Message, rest: bytes)
    requires Proper(m) && (m.Bulk? || m.NullBulk? || m.NullArray?)
    ensures ParseReply(Spelling(m) + rest) == Done(Meaning(m), rest)
  {
    hide ParseBulk, ParseArray, ParseReply;
    if m.Bulk? {
      var body := m.digits + [13, 10] + (m.text + [13, 10] + rest);
      assert Spelling(m) + rest == [36] + body;
      TypeByte(36, body);
      ReadsBulk(m.digits, m.text, rest);
    } else {
      var t: byte := if m.NullBulk? then 36 else 42;
      var body := [45] + m.digits + [13, 10] + rest;
      assert Spelling(m) + rest == [t] + body;
      TypeByte(t, body);
      ReadsNull(m.digits, rest);
    }
  }

  lemma ReadsList(digits: bytes, rows: seq<Reply>, body: bytes, rest: bytes)
    requires ParseInt(digits + [13, 10] + body) == Done(|rows|, body) && ParseRows(|rows|, body) == Done(rows, rest)
    ensures ParseReply([42] + (digits + [13, 10] + body)) == Done(Array(rows), rest)
  {
    hide ParseInt, ParseRows, ParseReply;
    TypeByte(42, digits + [13, 10] + body);
  }

  lemma ListMeans(m: Message)
    requires Proper(m) && m.List?
    ensures Digits(m.digits) && Number(m.digits) == |m.items| < 0x8000_0000_0000_0000
    ensures forall i :: 0 <= i < |m.items| ==> Proper(m.items[i])
    ensures Meaning(m) == Array(Meanings(m.items))
  {
  }

  lemma ListIsSpelled(m: Message, rest: bytes)
    requires m.List?
    ensures Spelling(m) + rest == [42] + (m.digits + [13, 10] + (Spellings(m.items) + rest))
  {
    hide Spellings;
  }

  lemma {:induction false} ReadsListMessage(m: Message, rest: bytes)
    requires Proper(m) && m.List?
    requires ParseRows(|m.items|, Spellings(m.items) + rest) == Done(Meanings(m.items), rest)
    ensures ParseReply(Spelling(m) + rest) == Done(Meaning(m), rest)
  {
    hide ParseReply, ParseRows, ParseInt, Spellings, Spelling, Number, Meaning, Proper;
    var body := Spellings(m.items) + rest;
    ListMeans(m);
    ListIsSpelled(m, rest);
    assert Signed(false, m.digits) == m.digits;
    ReadsNumber(false, m.digits, body);
    ReadsList(m.digits, Meanings(m.items), body, rest);
  }

  /** Every message, followed by anything, is read as what it means and leaves the rest. */
  lemma {:induction false} ReadsMessage(m: Message, rest: bytes)
    requires Proper(m)
    ensures ParseReply(Spelling(m) + rest) == Done(Meaning(m), rest)
    decreases m, 0
  {
    hide ParseReply, ParseRows, Spelling, Meaning, Number;
    match m
    case List(digits, items) =>
      ReadsMessages(items, rest);
      ReadsListMessage(m, rest);
    case Simple(_) => ReadsText(m, rest);
    case Failure(_) => ReadsText(m, rest);
    case Whole(_, _) => ReadsWhole(m, rest);
    case _ => ReadsBulkOrNull(m, rest);
  }

  lemma {:induction false} ReadsMessages(ms: seq<Message>, rest: bytes)
    requires forall i :: 0 <= i < |ms| ==> Proper(ms[i])
    ensures ParseRows(|ms|, Spellings(ms) + rest) == Done(Meanings(ms), rest)
    decreases ms, 1
  {
    hide ParseReply, Spelling, Meaning;
    if ms == [] {
      assert Spellings(ms) + rest == rest;
    } else {
      assert Spellings(ms) + rest == Spelling(ms[0]) + (Spellings(ms[1..]) + rest);
      ReadsMessage(ms[0], Spellings(ms[1..]) + rest);
      ReadsMessages(ms[1..], rest);
      assert Meanings(ms) == [Meaning(ms[0])] + Meanings(ms[1..]);
    }
  }

  lemma {:induction false} PlainStream(ms: seq<Message>)
    requires forall i :: 0 <= i < |ms| ==> Proper(ms[i])
    ensures ParseStream(Spellings(ms)) == Stream(Meanings(ms), [], Fine)
  {
    hide ParseTyped, Spelling, Meaning;
    if ms != [] {
      ReadsMessage(ms[0], Spellings(ms[1..]));
      PlainStream(ms[1..]);
      assert Meanings(ms) == [Meaning(ms[0])] + Meanings(ms[1..]);
    }
  }

  /** A stream of messages, however it is cut into chunks, is read as exactly what the messages mean. */
  lemma {:induction false} ReadsStream(ms: seq<Message>, chunks: seq<bytes>)
    requires (forall i :: 0 <= i < |ms| ==> Proper(ms[i])) && Concat(chunks) == Spellings(ms)
    ensures FeedAll(EMPTY, chunks) == Fedp(Parser([], None, Meanings(ms)), Fine)
  {
    hide FeedAll, FeedChunk, ParseStream, Spellings, Concat;
    PlainStream(ms);
    IncrementalIsPlain(chunks);
    NothingParses();
  }

  // ---------- What is refused ----------

  /** Only five bytes begin a message. */
  lemma UnknownType(b: byte, rest: bytes)
    ensures b !in {36, 42, 43, 45, 58} ==> ParseReply([b] + rest) == Bad(InvalidType)
    ensures b in {36, 42, 43, 45, 58} ==> ParseReply([b]) == Incomplete
  {
    hide ParseReply;
    TypeByte(b, rest);
    TypeByte(b, []);
    assert [b] + [] == [b];
    assert FindCrlf([]).None?;
  }

  /** A character that does not belong into a number. */
  predicate BadAt(line: bytes, i: nat) {
    i < |line| && !(48 <= line[i] <= 57) && !(i == 0 && line[0] == 45)
  }

  lemma {:induction false} ScanBadAfter(line: bytes, i: nat, nbr: int, mult: int)
    requires 0 < i <= |line|
    ensures ScanDigits(line, i, nbr, mult).bad <==> exists j: nat :: i <= j && BadAt(line, j)
    decreases |line| - i
  {
    if i < |line| && 48 <= line[i] <= 57 {
      ScanBadAfter(line, i + 1, Wrap64(Wrap64(nbr * 10) + (line[i] - ZERO)), mult);
    } else if i < |line| {
      assert BadAt(line, i);
    }
  }

  /** A number is refused exactly when it has such a character, of whatever message it is part. */
  lemma {:induction false} BadNumber(line: bytes, rest: bytes)
    requires Line(line)
    ensures ParseInt(line + [13, 10] + rest) == Bad(InvalidDigit) <==> exists j: nat :: BadAt(line, j)
  {
    ReadsLine(line, rest);
    hide ParseLine;
    if line != [] {
      if line[0] == 45 {
        ScanBadAfter(line, 1, 0, -1);
      } else if 48 <= line[0] <= 57 {
        ScanBadAfter(line, 1, Wrap64(Wrap64(0) + (line[0] - ZERO)), 1);
      } else {
        assert BadAt(line, 0);
      }
    }
  }

  /** A body that is not followed by an end of line is refused. */
  lemma BadEnding(digits: bytes, text: bytes, x: byte, y: byte, rest: bytes)
    requires Digits(digits) && BulkSize(Number(digits), |text|) && !(x == 13 && y == 10)
    ensures ParseReply([36] + (digits + [13, 10] + (text + [x, y] + rest))) == Bad(WrongEnding)
  {
    hide ParseReply;
    var body := text + [x, y] + rest;
    TypeByte(36, digits + [13, 10] + body);
    assert Signed(false, digits) == digits;
    ReadsNumber(false, digits, body);
    NarrowedSize(Number(digits), |text|);
    assert body[|text|] == x && body[|text| + 1] == y;
    hide ParseInt, Wrap32, Number;
  }

  // ---------- The printer follows the format ----------

  /** How a reply is printed: numbers as their numerals, null as a bulk string. */
  function Printed(v: Reply): (m: Message)
    decreases v
  {
    match v
    case Null => NullBulk([49])
    case SimpleString(str) => Simple(str)
    case Error(str) => Failure(str)
    case BulkString(str) => Bulk(ToDecimal(|str|), str)
    case Integer(n) => Whole(n < 0, ToDecimal(if n < 0 then -n else n))
    case Array(rows) => List(ToDecimal(|rows|), seq(|rows|, i requires 0 <= i < |rows| => Printed(rows[i])))
  }

  lemma {:induction false} PrintsOne()
    ensures ToDecimal(1) == [49]
  {
  }

  lemma {:induction false} PrintsMessages(vs: seq<Reply>, ms: seq<Message>)
    requires |ms| == |vs| && forall i :: 0 <= i < |vs| ==> ms[i] == Printed(vs[i])
    ensures EncodeAll(vs) == Spellings(ms)
    decreases vs, 1
  {
    hide Encode, Spelling, Printed;
    if vs != [] {
      PrintsMessage(vs[0]);
      PrintsMessages(vs[1..], ms[1..]);
    }
  }

  /** The encoding of a reply is the spelling of that message, with numerals for its numbers. */
  lemma {:induction false} PrintsMessage(v: Reply)
    ensures Encode(v) == Spelling(Printed(v))
    decreases v, 0
  {
    hide ToDecimal;
    match v
    case Null => PrintsOne();
    case Array(rows) =>
      PrintsMessages(rows, Printed(v).items);
    case _ =>
  }

  function PartsText(parts: seq<bytes>): bytes {
    if parts == [] then []
    else [36] + ToDecimal(|parts[0]|) + [13, 10] + parts[0] + [13, 10] + PartsText(parts[1..])
  }

  /** The text of a command: an array of bulk strings, with numerals as `PrintsNumeral` says. */
  function CommandText(cmd: seq<bytes>): bytes { [42] + ToDecimal(|cmd|) + [13, 10] + PartsText(cmd) }

  lemma {:induction false} PrintsParts(parts: seq<bytes>, rows: seq<Reply>)
    requires |rows| == |parts| && forall i :: 0 <= i < |parts| ==> rows[i] == BulkString(parts[i])
    ensures EncodeAll(rows) == PartsText(parts)
  {
    hide ToDecimal;
    if parts != [] { PrintsParts(parts[1..], rows[1..]); }
  }
}
