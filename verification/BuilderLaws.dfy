/** Laws of one builder fed in pieces: chunking, stickiness of errors, agreement with the plain parser. */
module BuilderLaws {
  import opened Common
  import opened Bytes
  import opened Resp
  import opened BuilderSpec

  // ---------- Chunking ----------

  lemma {:induction false} LineSplit(l: LineState, x: bytes, y: bytes)
    ensures var r := FeedLine(l, x);
            FeedLine(l, x + y) == if r.b.ready then Fed(r.b, r.buf + y, Fine) else FeedLine(r.b, r.buf + y)
  {
    if FindCrlf(x).Some? {
      FindCrlfExtends(x, y);
      var k := FindCrlf(x).value;
      assert (x + y)[..k] == x[..k] && (x + y)[k + 2..] == x[k + 2..] + y;
    }
  }

  lemma {:induction false} IntSplit(n: IntState, x: bytes, y: bytes)
    ensures var r := FeedInt(n, x);
            FeedInt(n, x + y) == if r.fault != Fine || r.b.ready then Fed(r.b, r.buf + y, r.fault)
                                 else FeedInt(r.b, r.buf + y)
  {
    if FindCrlf(x).Some? {
      FindCrlfExtends(x, y);
      var k := FindCrlf(x).value;
      assert (x + y)[..k] == x[..k] && (x + y)[k + 2..] == x[k + 2..] + y;
    }
  }

  lemma {:induction false} ParseBodySplit(size: int, x: bytes, y: bytes)
    ensures var p := ParseBody(size, x);
            && (p.Bad? ==> ParseBody(size, x + y) == p)
            && (p.Done? ==> ParseBody(size, x + y) == Done(p.value, p.rest + y))
  {
    if 0 <= size && size + 2 <= |x| {
      assert (x + y)[..size] == x[..size] && (x + y)[size + 2..] == x[size + 2..] + y;
    }
  }

  lemma {:induction false} FetchStrSplit(u: BulkState, x: bytes, y: bytes)
    requires !u.ready && u.len.ready
    ensures var r := FetchStr(u, x);
            FetchStr(u, x + y) == if r.fault != Fine || r.b.ready then Fed(r.b, r.buf + y, r.fault)
                                  else FetchStr(r.b, r.buf + y)
  {
    hide ParseBody;
    ParseBodySplit(u.strSize, x, y);
  }

  lemma {:induction false} FetchSizeSplit(u: BulkState, x: bytes, y: bytes)
    requires !u.ready && !u.len.ready
    ensures var r := FetchSize(u, x);
            FetchSize(u, x + y) == if r.fault != Fine || r.b.len.ready then Fed(r.b, r.buf + y, r.fault)
                                   else FetchSize(r.b, r.buf + y)
  {
    hide FeedInt, Wrap32, GetInteger;
    IntSplit(u.len, x, y);
  }

  lemma {:induction false} BulkSplit(u: BulkState, x: bytes, y: bytes)
    ensures var r := FeedBulk(u, x);
            FeedBulk(u, x + y) == if r.fault != Fine || r.b.ready then Fed(r.b, r.buf + y, r.fault)
                                  else FeedBulk(r.b, r.buf + y)
  {
    hide FetchStr, FetchSize, Suffix;
    if !u.ready && u.len.ready {
      FetchStrSplit(u, x, y);
    } else if !u.ready {
      FetchSizeSplit(u, x, y);
      var f := FetchSize(u, x);
      if f.fault == Fine && f.b.len.ready && !f.b.ready {
        FetchStrSplit(f.b, f.buf, y);
      }
    }
  }

  /** What a call on `x` becomes when `y` arrives behind it. */
  function Continue(r: Fed<State>, y: bytes): Fed<State>
    requires r.fault == Fine ==> Wf(r.b)
  {
    if r.fault != Fine || Ready(r.b) then Fed(r.b, r.buf + y, r.fault) else Feed(r.b, r.buf + y)
  }

  function ContinueRows(r: Fed<ArrayState>, y: bytes): Fed<ArrayState>
    requires r.b.len.ready && (r.fault == Fine ==> WfArray(r.b))
  {
    if r.fault != Fine || r.b.ready then Fed(r.b, r.buf + y, r.fault) else FeedRows(r.b, r.buf + y)
  }

  /** Bytes that follow change nothing before them: feeding `x + y` is feeding `x` and then `y`. */
  lemma {:induction false} FeedSplit(b: State, x: bytes, y: bytes)
    requires Wf(b)
    ensures Feed(b, x + y) == Continue(Feed(b, x), y)
    decreases |x|, b, 3
  {
    match b
    case LineB(l) => LineSplit(l, x, y);
    case ErrorB(e) => LineSplit(e.inner, x, y);
    case IntB(n) => IntSplit(n, x, y);
    case BulkB(u) => BulkSplit(u, x, y);
    case ArrayB(a) => ArraySplit(a, x, y);
  }

  lemma {:induction false} ArraySplit(a: ArrayState, x: bytes, y: bytes)
    requires WfArray(a)
    ensures var r := FeedArray(a, x);
            FeedArray(a, x + y) == if r.fault != Fine || r.b.ready then Fed(r.b, r.buf + y, r.fault)
                                   else FeedArray(r.b, r.buf + y)
    decreases |x|, a, 2
  {
    if a.ready {
    } else if a.len.ready {
      FeedRowsSplit(a, x, y);
    } else {
      IntSplit(a.len, x, y);
      var f := FetchArraySize(a, x);
      if f.fault == Fine && f.b.len.ready {
        assert FetchArraySize(a, x + y) == Fed(f.b, f.buf + y, Fine);
        FeedRowsSplit(f.b, f.buf, y);
      }
    }
  }

  lemma {:induction false} FeedRowsSplit(a: ArrayState, x: bytes, y: bytes)
    requires a.len.ready && WfArray(a)
    ensures FeedRows(a, x + y) == ContinueRows(FeedRows(a, x), y)
    decreases |x|, a, 1
  {
    if a.ready {
    } else if x == [] {
      assert x + y == y;
    } else if a.current.Some? {
      FeedSplit(a.current.value, x, y);
      FinishRowSplit(a, x, y, Feed(a.current.value, x));
    } else {
      assert (x + y)[0] == x[0] && (x + y)[1..] == x[1..] + y;
      match CreateBuilder(x[0])
      case None =>
      case Some(c) =>
        FeedSplit(c, x[1..], y);
        FinishRowSplit(a, x, y, Feed(c, x[1..]));
    }
  }

  lemma {:induction false} ContinueIsRowFed(x: bytes, y: bytes, f: Fed<State>)
    requires RowFed(f, x)
    ensures RowFed(Continue(f, y), x + y)
  {
    SuffixExtends(f.buf, x, y);
  }

  /** `FinishRow` depends neither on the old current builder nor on the bytes before the new buffer. */
  lemma {:induction false} FinishRowFrame(a: ArrayState, x: bytes, a': ArrayState, x': bytes, f: Fed<State>)
    requires a.len.ready && WfArray(a) && !a.ready && RowFed(f, x)
    requires WfArray(a') && a' == a.(current := a'.current) && RowFed(f, x')
    ensures FinishRow(a, x, f) == FinishRow(a', x', f)
  {
    assert AppendRow(a, ReplyOf(f.b)) == AppendRow(a', ReplyOf(f.b));
    assert a.(current := Some(f.b)) == a'.(current := Some(f.b));
  }

  lemma {:induction false} NoLineInNothing()
    ensures FindCrlf([]).None?
  {
  }

  lemma {:induction false} FeedBulkNothing(u: BulkState)
    requires WfBulk(u)
    ensures FeedBulk(u, []) == Fed(u, [], Fine)
  {
    if !u.ready && u.len.ready {
      assert ParseBody(u.strSize, []) == Incomplete;
    } else if !u.ready {
      NoLineInNothing();
      assert FeedInt(u.len, []) == Fed(u.len, [], Fine);
      assert FetchSize(u, []) == Fed(u, [], Fine);
    }
  }

  lemma {:induction false} FeedArrayNothing(a: ArrayState)
    requires WfArray(a)
    ensures FeedArray(a, []) == Fed(a, [], Fine)
  {
    NoLineInNothing();
    assert FeedInt(a.len, []) == Fed(a.len, [], Fine);
  }

  /** An empty buffer changes nothing. */
  lemma {:induction false} FeedNothing(b: State)
    requires Wf(b)
    ensures Feed(b, []) == Fed(b, [], Fine)
  {
    match b
    case LineB(l) => NoLineInNothing();
    case ErrorB(e) => NoLineInNothing();
    case IntB(n) => NoLineInNothing();
    case BulkB(u) => FeedBulkNothing(u);
    case ArrayB(a) => FeedArrayNothing(a);
  }

  lemma {:induction false} FinishPartialRowSplit(a: ArrayState, x: bytes, y: bytes, f: Fed<State>)
    requires a.len.ready && WfArray(a) && !a.ready && RowFed(f, x) && !Ready(f.b) && f.fault == Fine
    requires RowFed(Continue(f, y), x + y)
    ensures FinishRow(a, x + y, Continue(f, y)) == ContinueRows(FinishRow(a, x, f), y)
  {
    hide Feed;
    var a' := a.(current := Some(f.b));
    var g := Feed(f.b, f.buf + y);
    assert ContinueRows(FinishRow(a, x, f), y) == FeedRows(a', f.buf + y);
    if f.buf + y == [] {
      FeedNothing(f.b);
    } else {
      assert FeedRows(a', f.buf + y) == FinishRow(a', f.buf + y, g);
      FinishRowFrame(a, x + y, a', f.buf + y, g);
    }
  }

  lemma {:induction false} FinishRowSplit(a: ArrayState, x: bytes, y: bytes, f: Fed<State>)
    requires a.len.ready && WfArray(a) && !a.ready && RowFed(f, x)
    ensures RowFed(Continue(f, y), x + y)
    ensures FinishRow(a, x + y, Continue(f, y)) == ContinueRows(FinishRow(a, x, f), y)
    decreases |x|, a, 0
  {
    ContinueIsRowFed(x, y, f);
    if Ready(f.b) {
      FeedRowsSplit(AppendRow(a, ReplyOf(f.b)), f.buf, y);
    } else if f.fault == Fine {
      FinishPartialRowSplit(a, x, y, f);
    }
  }

  // ---------- Agreement with the plain parser ----------

  /** A call agrees with a parse outcome: same reply and same rest, same error, or still waiting. */
  predicate Agrees(ready: bool, reply: Reply, buf: bytes, fault: Fault, p: Parse<Reply>) {
    match p
    case Incomplete => fault == Fine && !ready
    case Bad(f) => fault == f
    case Done(v, rest) => fault == Fine && ready && reply == v && buf == rest
  }

  lemma {:induction false} FreshIntAgrees(s: bytes)
    ensures var r := FeedInt(FRESH_INT, s);
            match ParseInt(s)
            case Incomplete => r.fault == Fine && !r.b.ready
            case Bad(f) => r.fault == f
            case Done(n, rest) => r.fault == Fine && r.b.ready && GetInteger(r.b) == n && r.b.reply == Integer(n)
                                  && r.buf == rest
  {
  }

  lemma {:induction false} FreshBulkAgrees(s: bytes)
    ensures var r := FeedBulk(FRESH_BULK, s); Agrees(r.b.ready, r.b.reply, r.buf, r.fault, ParseBulk(s))
  {
    FreshIntAgrees(s);
    var f := FetchSize(FRESH_BULK, s);
    if f.b.len.ready && !f.b.ready {
      assert ParseInt(s).Done? && f.b.strSize == Wrap32(ParseInt(s).value) && f.buf == ParseInt(s).rest;
    }
  }

  lemma {:induction false} FreshLineAgrees(s: bytes)
    ensures var r := FeedLine(FRESH_LINE, s);
            match ParseLine(s)
            case Done(line, rest) => r == Fed(LineState(line, true, SimpleString(line)), rest, Fine)
            case _ => r == Fed(FRESH_LINE, s, Fine)
  {
  }

  lemma {:induction false} FreshSimpleAgrees(s: bytes)
    ensures var r := Feed(LineB(FRESH_LINE), s); Agrees(Ready(r.b), ReplyOf(r.b), r.buf, r.fault, ParseTyped(PLUS, s))
    ensures var r := Feed(ErrorB(FRESH_ERROR), s); Agrees(Ready(r.b), ReplyOf(r.b), r.buf, r.fault, ParseTyped(DASH, s))
  {
    FreshLineAgrees(s);
  }

  lemma {:induction false} FreshNumberAgrees(s: bytes)
    ensures var r := Feed(IntB(FRESH_INT), s); Agrees(Ready(r.b), ReplyOf(r.b), r.buf, r.fault, ParseTyped(COLON, s))
  {
    hide ParseInt, FeedInt;
    FreshIntAgrees(s);
  }

  lemma {:induction false} FreshDollarAgrees(s: bytes)
    ensures var r := Feed(BulkB(FRESH_BULK), s); Agrees(Ready(r.b), ReplyOf(r.b), r.buf, r.fault, ParseTyped(DOLLAR, s))
  {
    hide ParseBulk, FeedBulk;
    FreshBulkAgrees(s);
  }

  /** A fresh builder reads exactly what the plain parser reads after the type byte. */
  lemma {:induction false} FreshAgrees(t: byte, s: bytes)
    requires CreateBuilder(t).Some?
    ensures var r := Feed(CreateBuilder(t).value, s); Agrees(Ready(r.b), ReplyOf(r.b), r.buf, r.fault, ParseTyped(t, s))
    decreases |s|, 1
  {
    hide Feed, ParseTyped;
    FreshSimpleAgrees(s);
    FreshNumberAgrees(s);
    FreshDollarAgrees(s);
    FreshStarAgrees(s);
  }

  lemma {:induction false} FreshStarAgrees(s: bytes)
    ensures var r := Feed(ArrayB(FRESH_ARRAY), s); Agrees(Ready(r.b), ReplyOf(r.b), r.buf, r.fault, ParseTyped(STAR, s))
    decreases |s|, 0, 1
  {
    hide FeedArray, ParseArray;
    FreshArrayAgrees(s);
    var f := FeedArray(FRESH_ARRAY, s);
    assert Feed(ArrayB(FRESH_ARRAY), s) == Fed(ArrayB(f.b), f.buf, f.fault);
    assert ParseTyped(STAR, s) == ParseArray(s);
  }

  lemma NoRows(s: bytes)
    ensures ParseRows(0, s) == Done([], s)
  {
  }

  lemma {:induction false} FullArray(a: ArrayState, s: bytes)
    requires a.ready && a.len.ready && WfArray(a)
    ensures FeedRows(a, s) == Fed(a, s, Fine)
  {
  }

  lemma RowsJoin(rows: seq<Reply>)
    ensures rows + [] == rows
    ensures forall vs: seq<Reply> :: [] + vs == vs
  {
  }

  lemma {:induction false} FreshArrayAgrees(s: bytes)
    ensures var r := FeedArray(FRESH_ARRAY, s); Agrees(r.b.ready, r.b.reply, r.buf, r.fault, ParseArray(s))
    decreases |s|, 0, 0
  {
    hide FeedInt, ParseInt, FeedRows, ParseRows;
    FreshIntAgrees(s);
    var f := FetchArraySize(FRESH_ARRAY, s);
    if f.fault == Fine && f.b.len.ready {
      var n := ParseInt(s).value;
      var rest := ParseInt(s).rest;
      assert f.buf == rest;
      if n > 0 {
        assert f.b == ArrayState(f.b.len, n, None, false, Array([]));
        RowsAgree(f.b, rest);
        RowsJoin([]);
      } else {
        NoRows(rest);
        FullArray(f.b, rest);
      }
    }
  }

  /** From a row boundary on, the row loop is the plain parse of the missing rows. */
  predicate RowsMatch(rows: seq<Reply>, r: Fed<ArrayState>, p: Parse<seq<Reply>>) {
    match p
    case Incomplete => r.fault == Fine && !r.b.ready
    case Bad(f) => r.fault == f
    case Done(vs, rest) => r.fault == Fine && r.b.ready && r.buf == rest && r.b.reply == Array(rows + vs)
  }

  lemma BadTypeByte(s: bytes)
    requires s != [] && CreateBuilder(s[0]).None?
    ensures ParseReply(s) == Bad(InvalidType)
  {
  }

  lemma {:induction false} RowsAgree(a: ArrayState, s: bytes)
    requires a.len.ready && !a.ready && WfArray(a) && a.current.None?
    ensures RowsMatch(a.reply.rows, FeedRows(a, s), ParseRows(a.size - |a.reply.rows|, s))
    decreases |s|, 2
  {
    hide Feed, ParseTyped;
    var n := a.size - |a.reply.rows|;
    if s == [] {
      assert ParseReply(s) == Incomplete;
    } else if CreateBuilder(s[0]).None? {
      BadTypeByte(s);
    } else {
      assert ParseReply(s) == ParseTyped(s[0], s[1..]);
      FreshAgrees(s[0], s[1..]);
      var f := Feed(CreateBuilder(s[0]).value, s[1..]);
      assert FeedRows(a, s) == FinishRow(a, s, f);
      if f.fault == Fine && Ready(f.b) {
        assert ParseRows(n, s) == Prepend(ReplyOf(f.b), ParseRows(n - 1, f.buf));
        NextRowAgrees(a, ReplyOf(f.b), f.buf);
      }
    }
  }

  lemma {:induction false} RowsPrepend(rows: seq<Reply>, v: Reply, r: Fed<ArrayState>, p: Parse<seq<Reply>>)
    requires RowsMatch(rows + [v], r, p)
    ensures RowsMatch(rows, r, Prepend(v, p))
  {
    if p.Done? { assert rows + [v] + p.value == rows + ([v] + p.value); }
  }

  lemma {:induction false} NextRowAgrees(a: ArrayState, v: Reply, s: bytes)
    requires a.len.ready && !a.ready && WfArray(a) && a.current.None?
    ensures RowsMatch(a.reply.rows, FeedRows(AppendRow(a, v), s),
                      Prepend(v, ParseRows(a.size - |a.reply.rows| - 1, s)))
    decreases |s|, 3
  {
    hide FeedRows, ParseRows;
    var a' := AppendRow(a, v);
    var rows := a.reply.rows;
    if a'.ready {
      NoRows(s);
      FullArray(a', s);
      RowsJoin(rows + [v]);
    } else {
      RowsAgree(a', s);
      RowsPrepend(rows, v, FeedRows(a', s), ParseRows(a.size - |rows| - 1, s));
    }
  }

  lemma RowsAssoc(rows: seq<Reply>, v: Reply)
    ensures forall vs: seq<Reply> :: rows + [v] + vs == rows + ([v] + vs)
  {
  }

  // ---------- Errors are sticky ----------

  ghost predicate IntPoisoned(n: IntState, buf: bytes) {
    && !n.ready
    && FindCrlf(buf).Some?
    && ScanDigits(buf[..FindCrlf(buf).value], 0, n.nbr, n.mult).bad
  }

  ghost predicate BulkPoisoned(u: BulkState, buf: bytes) {
    && !u.ready
    && if u.len.ready then ParseBody(u.strSize, buf) == Bad(WrongEnding) else IntPoisoned(u.len, buf)
  }

  /** The builder will throw on this buffer, however many bytes are added to it. */
  ghost predicate Poisoned(b: State, buf: bytes) {
    match b
    case LineB(_) => false
    case ErrorB(_) => false
    case IntB(n) => IntPoisoned(n, buf)
    case BulkB(u) => BulkPoisoned(u, buf)
    case ArrayB(a) => ArrayPoisoned(a, buf)
  }

  ghost predicate ArrayPoisoned(a: ArrayState, buf: bytes) {
    && !a.ready
    && if !a.len.ready then IntPoisoned(a.len, buf)
       else if a.current.Some? then buf != [] && Poisoned(a.current.value, buf)
       else buf != [] && CreateBuilder(buf[0]).None?
  }

  /** Past the first character neither the number nor the sign decides whether the line is bad. */
  lemma {:induction false} ScanBadAnyway(line: bytes, i: nat, nbr: int, mult: int, nbr': int, mult': int)
    requires 0 < i <= |line|
    ensures ScanDigits(line, i, nbr, mult).bad == ScanDigits(line, i, nbr', mult').bad
    ensures ScanDigits(line, i, nbr, mult).mult == mult
    decreases |line| - i
  {
    if i < |line| && IsDigit(line[i]) {
      ScanBadAnyway(line, i + 1, Wrap64(Wrap64(nbr * 10) + (line[i] - ZERO)), mult,
                    Wrap64(Wrap64(nbr' * 10) + (line[i] - ZERO)), mult');
    }
  }

  /** A bad line is bad again, starting from whatever number and sign the first scan left behind. */
  lemma {:induction false} ScanBadAgain(line: bytes, nbr: int, mult: int)
    requires ScanDigits(line, 0, nbr, mult).bad
    ensures var r := ScanDigits(line, 0, nbr, mult); ScanDigits(line, 0, r.nbr, r.mult).bad
  {
    var r := ScanDigits(line, 0, nbr, mult);
    if mult == 1 && line[0] == MINUS {
      ScanBadAnyway(line, 1, nbr, -1, nbr, -1);
    } else if IsDigit(line[0]) {
      ScanBadAnyway(line, 1, Wrap64(Wrap64(nbr * 10) + (line[0] - ZERO)), mult,
                    Wrap64(Wrap64(r.nbr * 10) + (line[0] - ZERO)), r.mult);
    }
  }

  lemma {:induction false} IntFaultPoisons(n: IntState, buf: bytes)
    requires FeedInt(n, buf).fault != Fine
    ensures IntPoisoned(FeedInt(n, buf).b, buf) && buf != []
  {
    ScanBadAgain(buf[..FindCrlf(buf).value], n.nbr, n.mult);
  }

  lemma {:induction false} IntPoisonedStays(n: IntState, buf: bytes, y: bytes)
    requires IntPoisoned(n, buf)
    ensures var r := FeedInt(n, buf + y); r.fault == InvalidDigit && r.buf == buf + y && IntPoisoned(r.b, r.buf)
  {
    FindCrlfExtends(buf, y);
    var k := FindCrlf(buf).value;
    assert (buf + y)[..k] == buf[..k];
    IntFaultPoisons(n, buf + y);
  }

  lemma {:induction false} BulkFaultPoisons(u: BulkState, buf: bytes)
    requires Thrown(FeedBulk(u, buf).fault)
    ensures var r := FeedBulk(u, buf); BulkPoisoned(r.b, r.buf)
  {
    if !u.len.ready && FeedInt(u.len, buf).fault != Fine { IntFaultPoisons(u.len, buf); }
  }

  lemma {:induction false} BulkPoisonedStays(u: BulkState, buf: bytes, y: bytes)
    requires BulkPoisoned(u, buf)
    ensures var r := FeedBulk(u, buf + y); Thrown(r.fault) && BulkPoisoned(r.b, r.buf)
  {
    hide FeedInt, IntPoisoned, ParseBody, GetInteger, Wrap32;
    if u.len.ready {
      ParseBodySplit(u.strSize, buf, y);
    } else {
      IntPoisonedStays(u.len, buf, y);
    }
  }

  /** A call that throws leaves the builder poisoned. */
  lemma {:induction false} FaultPoisons(b: State, buf: bytes)
    requires Wf(b) && Thrown(Feed(b, buf).fault)
    ensures var r := Feed(b, buf); Poisoned(r.b, r.buf) && r.buf != []
    decreases |buf|, b, 3
  {
    match b
    case IntB(n) => IntFaultPoisons(n, buf);
    case BulkB(u) => BulkFaultPoisons(u, buf);
    case ArrayB(a) => ArrayFaultPoisons(a, buf);
    case _ =>
  }

  lemma {:induction false} ArrayFaultPoisons(a: ArrayState, buf: bytes)
    requires WfArray(a) && Thrown(FeedArray(a, buf).fault)
    ensures var r := FeedArray(a, buf); ArrayPoisoned(r.b, r.buf) && r.buf != []
    decreases |buf|, a, 2
  {
    hide FeedRows, FeedInt, IntPoisoned, GetInteger;
    if a.len.ready {
      RowsFaultPoisons(a, buf);
    } else {
      var f := FetchArraySize(a, buf);
      if f.fault != Fine { IntFaultPoisons(a.len, buf); } else { RowsFaultPoisons(f.b, f.buf); }
    }
  }

  lemma {:induction false} RowsFaultPoisons(a: ArrayState, buf: bytes)
    requires a.len.ready && WfArray(a) && Thrown(FeedRows(a, buf).fault)
    ensures var r := FeedRows(a, buf); ArrayPoisoned(r.b, r.buf) && r.buf != []
    decreases |buf|, a, 1
  {
    hide Feed, FinishRow;
    if a.current.Some? {
      RowFaultPoisons(a, buf, a.current.value, buf);
    } else if CreateBuilder(buf[0]).Some? {
      RowFaultPoisons(a, buf, CreateBuilder(buf[0]).value, buf[1..]);
    }
  }

  lemma {:induction false} RowFaultPoisons(a: ArrayState, buf: bytes, c: State, s: bytes)
    requires a.len.ready && WfArray(a) && !a.ready && Wf(c) && !Ready(c)
    requires |s| < |buf| || (s == buf && a.current == Some(c))
    requires RowFed(Feed(c, s), buf) && Thrown(FinishRow(a, buf, Feed(c, s)).fault)
    ensures var r := FinishRow(a, buf, Feed(c, s)); ArrayPoisoned(r.b, r.buf) && r.buf != []
    decreases |buf|, a, 0
  {
    var f := Feed(c, s);
    if Ready(f.b) {
      assert FinishRow(a, buf, f) == FeedRows(AppendRow(a, ReplyOf(f.b)), f.buf);
      RowsFaultPoisons(AppendRow(a, ReplyOf(f.b)), f.buf);
    } else {
      assert FinishRow(a, buf, f) == Fed(a.(current := Some(f.b)), f.buf, f.fault);
      FaultPoisons(c, s);
    }
  }

  /** A poisoned builder throws on every longer buffer and stays poisoned. */
  lemma {:induction false} PoisonedStays(b: State, buf: bytes, y: bytes)
    requires Wf(b) && Poisoned(b, buf)
    ensures var r := Feed(b, buf + y); Thrown(r.fault) && Poisoned(r.b, r.buf)
    decreases b
  {
    match b
    case IntB(n) => IntPoisonedStays(n, buf, y);
    case BulkB(u) => BulkPoisonedStays(u, buf, y);
    case ArrayB(a) =>
      if !a.len.ready {
        IntPoisonedStays(a.len, buf, y);
      } else if a.current.Some? {
        var c := a.current.value;
        PoisonedStays(c, buf, y);
        var f := Feed(c, buf + y);
        assert FeedRows(a, buf + y) == FinishRow(a, buf + y, f);
        FaultPoisons(c, buf + y);
      } else {
        assert (buf + y)[0] == buf[0];
        assert FeedRows(a, buf + y) == Fed(a, buf + y, InvalidType);
      }
  }
}
