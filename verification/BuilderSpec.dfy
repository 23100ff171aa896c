/**
 The reply builders as values: what one call of `operator<<` does to a builder and to the shared
 buffer. The classes in `Builders` are proved to compute these functions; the laws of the
 incremental parser are proved here.
 */
module BuilderSpec {
  import opened Common
  import opened Bytes
  import opened Resp

  /** State of a `simple_string_builder`. */
  datatype LineState = LineState(str: bytes, ready: bool, reply: Reply)

  /** State of an `integer_builder`. */
  datatype IntState = IntState(nbr: int, mult: int, ready: bool, reply: Reply)

  /** State of an `error_builder`. */
  datatype ErrorState = ErrorState(inner: LineState, reply: Reply)

  /** State of a `bulk_string_builder`. */
  datatype BulkState = BulkState(len: IntState, strSize: int, str: bytes, isNull: bool, ready: bool, reply: Reply)

  /** State of an `array_builder`. */
  datatype ArrayState = ArrayState(len: IntState, size: nat, current: Option<State>, ready: bool, reply: Reply)

  /** State of any builder. */
  datatype State =
    | LineB(line: LineState)
    | ErrorB(error: ErrorState)
    | IntB(num: IntState)
    | BulkB(bulk: BulkState)
    | ArrayB(array: ArrayState)

  const FRESH_LINE := LineState([], false, Null)
  const FRESH_INT := IntState(0, 1, false, Null)

  const FRESH_ERROR := ErrorState(FRESH_LINE, Null)
  const FRESH_BULK := BulkState(FRESH_INT, 0, [], false, false, Null)
  const FRESH_ARRAY := ArrayState(FRESH_INT, 0, None, false, Array([]))

  predicate Ready(b: State) {
    match b
    case LineB(l) => l.ready
    case ErrorB(e) => e.inner.ready
    case IntB(n) => n.ready
    case BulkB(u) => u.ready
    case ArrayB(a) => a.ready
  }

  function ReplyOf(b: State): Reply {
    match b
    case LineB(l) => l.reply
    case ErrorB(e) => e.reply
    case IntB(n) => n.reply
    case BulkB(u) => u.reply
    case ArrayB(a) => a.reply
  }

  ghost predicate WfBulk(u: BulkState) {
    !u.ready && u.len.ready ==> u.strSize != -2
  }

  /** The states the builders can be in, as long as nothing undefined has happened. */
  ghost predicate Wf(b: State) {
    match b
    case ErrorB(e) => e.inner.ready ==> e.reply == Error(e.inner.str)
    case BulkB(u) => WfBulk(u)
    case ArrayB(a) => WfArray(a)
    case _ => true
  }

  ghost predicate WfArray(a: ArrayState) {
    && (!a.ready ==> a.reply.Array?)
    && (!a.ready && a.len.ready ==> |a.reply.rows| < a.size)
    && (!a.ready && !a.len.ready ==> a.current.None? && a.reply.rows == [])
    && (!a.ready && a.current.Some? ==> !Ready(a.current.value) && Wf(a.current.value))
  }

  /** `create_builder`: the type byte selects the builder, any other byte is an error. */
  function CreateBuilder(id: byte): (r: Option<State>)
    ensures r.Some? <==> id in {43, 45, 58, 36, 42}
    ensures id == 43 ==> r.value.LineB?
    ensures id == 45 ==> r.value.ErrorB?
    ensures id == 58 ==> r.value.IntB?
    ensures id == 36 ==> r.value.BulkB?
    ensures id == 42 ==> r.value.ArrayB?
    ensures r.Some? ==> Wf(r.value) && !Ready(r.value)
  {
    if id == PLUS then Some(LineB(FRESH_LINE))
    else if id == DASH then Some(ErrorB(FRESH_ERROR))
    else if id == COLON then Some(IntB(FRESH_INT))
    else if id == DOLLAR then Some(BulkB(FRESH_BULK))
    else if id == STAR then Some(ArrayB(FRESH_ARRAY))
    else None
  }

  // ---------- One call of operator<< ----------

  /** Builder and buffer after a call, and whether it threw. */
  datatype Fed<T> = Fed(b: T, buf: bytes, fault: Fault)

  function FeedLine(l: LineState, buf: bytes): (r: Fed<LineState>)
    ensures Suffix(r.buf, buf)
    ensures !l.ready && r.b.ready ==> |r.buf| < |buf|
    ensures r.fault == Fine
  {
    if l.ready then Fed(l, buf, Fine)
    else
      match FindCrlf(buf)
      case None => Fed(l, buf, Fine)
      case Some(k) => Fed(LineState(buf[..k], true, SimpleString(buf[..k])), buf[k + 2..], Fine)
  }

  /** A bad character leaves the digits read so far and the sign in the builder, and the buffer as it was. */
  function FeedInt(n: IntState, buf: bytes): (r: Fed<IntState>)
    ensures Suffix(r.buf, buf)
    ensures !n.ready && r.b.ready ==> |r.buf| < |buf|
    ensures r.fault != Fine ==> r.fault == InvalidDigit && !r.b.ready && r.buf == buf
    ensures n.ready ==> r.b == n
  {
    if n.ready then Fed(n, buf, Fine)
    else
      match FindCrlf(buf)
      case None => Fed(n, buf, Fine)
      case Some(k) =>
        var sc := ScanDigits(buf[..k], 0, n.nbr, n.mult);
        if sc.bad then Fed(IntState(sc.nbr, sc.mult, false, n.reply), buf, InvalidDigit)
        else Fed(IntState(sc.nbr, sc.mult, true, Integer(Wrap64(sc.mult * sc.nbr))), buf[k + 2..], Fine)
  }

  function GetInteger(n: IntState): (r: int)
    ensures -TWO63 <= r < TWO63
  {
    Wrap64(n.mult * n.nbr)
  }

  function FeedError(e: ErrorState, buf: bytes): (r: Fed<ErrorState>)
    ensures Suffix(r.buf, buf)
    ensures !e.inner.ready && r.b.inner.ready ==> |r.buf| < |buf|
    ensures r.fault == Fine
    ensures r.b.inner.ready ==> r.b.reply == Error(r.b.inner.str)
  {
    var f := FeedLine(e.inner, buf);
    Fed(ErrorState(f.b, if f.b.ready then Error(f.b.str) else e.reply), f.buf, Fine)
  }

  /** `fetch_size`, then the null test. */
  function FetchSize(u: BulkState, buf: bytes): (r: Fed<BulkState>)
    requires !u.ready && !u.len.ready
    ensures Suffix(r.buf, buf)
    ensures r.b.len.ready ==> |r.buf| < |buf|
    ensures r.fault != Fine ==> !r.b.len.ready && r.fault != Undefined
    ensures !r.b.len.ready ==> !r.b.ready
  {
    var f := FeedInt(u.len, buf);
    if !f.b.ready then Fed(u.(len := f.b), f.buf, f.fault)
    else
      var strSize := Wrap32(GetInteger(f.b));
      if strSize == -1
      then Fed(u.(len := f.b, strSize := strSize, isNull := true, reply := Null, ready := true), f.buf, Fine)
      else Fed(u.(len := f.b, strSize := strSize), f.buf, Fine)
  }

  /** `fetch_str`: waits for the whole body and its end sequence. */
  function FetchStr(u: BulkState, buf: bytes): (r: Fed<BulkState>)
    requires !u.ready && u.len.ready
    ensures Suffix(r.buf, buf)
    ensures r.b.ready ==> |r.buf| < |buf|
    ensures !r.b.ready ==> r.b == u && r.buf == buf
    ensures r.fault != Undefined ==> WfBulk(r.b)
    ensures r.fault != Fine ==> !r.b.ready
  {
    match ParseBody(u.strSize, buf)
    case Incomplete => Fed(u, buf, Fine)
    case Bad(f) => Fed(u, buf, f)
    case Done(str, rest) =>
      Fed(u.(str := str, reply := if u.isNull then Null else BulkString(str), ready := true), rest, Fine)
  }

  function FeedBulk(u: BulkState, buf: bytes): (r: Fed<BulkState>)
    ensures r.fault != Undefined ==> WfBulk(r.b)
    ensures Suffix(r.buf, buf)
    ensures !u.ready && r.b.ready ==> |r.buf| < |buf|
    ensures r.fault != Fine ==> !r.b.ready
    ensures u.ready ==> r == Fed(u, buf, Fine)
  {
    if u.ready then Fed(u, buf, Fine)
    else if u.len.ready then FetchStr(u, buf)
    else
      var f := FetchSize(u, buf);
      if f.fault != Fine || !f.b.len.ready || f.b.ready then f
      else FetchStr(f.b, f.buf)
  }

  /** `fetch_array_size`: a negative size is a null reply, zero an empty array. */
  function FetchArraySize(a: ArrayState, buf: bytes): (r: Fed<ArrayState>)
    requires !a.ready && !a.len.ready && WfArray(a)
    ensures Suffix(r.buf, buf)
    ensures WfArray(r.b) && (r.b.len.ready ==> |r.buf| < |buf|)
    ensures r.fault != Fine ==> !r.b.len.ready && r.fault != Undefined
    ensures !r.b.len.ready ==> !r.b.ready
  {
    var f := FeedInt(a.len, buf);
    if !f.b.ready then Fed(a.(len := f.b), f.buf, f.fault)
    else
      var size := GetInteger(f.b);
      if size < 0
      then Fed(a.(len := f.b, size := size + TWO64, reply := Null, ready := true), f.buf, Fine)
      else Fed(a.(len := f.b, size := size, ready := size == 0), f.buf, Fine)
  }

  function Feed(b: State, buf: bytes): (r: Fed<State>)
    requires Wf(b)
    ensures r.fault != Undefined ==> Wf(r.b)
    ensures Suffix(r.buf, buf)
    ensures !Ready(b) && Ready(r.b) ==> |r.buf| < |buf|
    ensures r.fault != Fine ==> !Ready(r.b)
    ensures Ready(b) ==> r == Fed(b, buf, Fine)
    decreases |buf|, b, 3
  {
    match b
    case LineB(l) => var f := FeedLine(l, buf); Fed(LineB(f.b), f.buf, f.fault)
    case ErrorB(e) => var f := FeedError(e, buf); Fed(ErrorB(f.b), f.buf, f.fault)
    case IntB(n) => var f := FeedInt(n, buf); Fed(IntB(f.b), f.buf, f.fault)
    case BulkB(u) => var f := FeedBulk(u, buf); Fed(BulkB(f.b), f.buf, f.fault)
    case ArrayB(a) => var f := FeedArray(a, buf); Fed(ArrayB(f.b), f.buf, f.fault)
  }

  function FeedArray(a: ArrayState, buf: bytes): (r: Fed<ArrayState>)
    requires WfArray(a)
    ensures r.fault != Undefined ==> WfArray(r.b)
    ensures Suffix(r.buf, buf)
    ensures !a.ready && r.b.ready ==> |r.buf| < |buf|
    ensures r.fault != Fine ==> !r.b.ready
    ensures a.ready ==> r == Fed(a, buf, Fine)
    decreases |buf|, a, 2
  {
    if a.ready then Fed(a, buf, Fine)
    else if a.len.ready then FeedRows(a, buf)
    else
      var f := FetchArraySize(a, buf);
      if f.fault != Fine || !f.b.len.ready then f
      else FeedRows(f.b, f.buf)
  }

  /** The array after its current builder has produced a reply. */
  function AppendRow(a: ArrayState, row: Reply): (r: ArrayState)
    requires WfArray(a) && !a.ready && a.len.ready
    ensures WfArray(r) && r.len.ready
  {
    var rows := a.reply.rows + [row];
    a.(reply := Array(rows), current := None, ready := |rows| == a.size)
  }

  /** The loop of `array_builder::operator<<`: build rows while there are bytes and rows are missing. */
  function FeedRows(a: ArrayState, buf: bytes): (r: Fed<ArrayState>)
    requires a.len.ready && WfArray(a)
    ensures r.b.len.ready && (r.fault != Undefined ==> WfArray(r.b))
    ensures Suffix(r.buf, buf)
    ensures !a.ready && r.b.ready ==> |r.buf| < |buf|
    ensures r.fault != Fine ==> !r.b.ready
    decreases |buf|, a, 1
  {
    if buf == [] || a.ready then Fed(a, buf, Fine)
    else if a.current.Some? then FinishRow(a, buf, Feed(a.current.value, buf))
    else
      match CreateBuilder(buf[0])
      case None => Fed(a, buf, InvalidType)
      case Some(c) => FinishRow(a, buf, Feed(c, buf[1..]))
  }

  /** What feeding a row's builder leaves: a well-formed builder and a suffix of the buffer. */
  ghost predicate RowFed(f: Fed<State>, buf: bytes) {
    && (f.fault != Undefined ==> Wf(f.b))
    && Suffix(f.buf, buf)
    && (Ready(f.b) ==> |f.buf| < |buf| && f.fault == Fine)
  }

  /** The rest of `build_row` and of the loop, once the current builder has been fed. */
  function FinishRow(a: ArrayState, buf: bytes, f: Fed<State>): (r: Fed<ArrayState>)
    requires a.len.ready && WfArray(a) && !a.ready && RowFed(f, buf)
    ensures r.b.len.ready && (r.fault != Undefined ==> WfArray(r.b))
    ensures Suffix(r.buf, buf)
    ensures r.b.ready ==> |r.buf| < |buf|
    ensures r.fault != Fine ==> !r.b.ready
    decreases |buf|, a, 0
  {
    if !Ready(f.b) then Fed(a.(current := Some(f.b)), f.buf, f.fault)
    else FeedRows(AppendRow(a, ReplyOf(f.b)), f.buf)
  }

  /** One turn of the row loop: the builder `c` of the next row is fed `s`. */
  lemma {:induction false} RowStep(a: ArrayState, buf: bytes, c: State, s: bytes)
    requires a.len.ready && WfArray(a) && !a.ready && buf != []
    requires if a.current.Some? then a.current == Some(c) && s == buf
             else CreateBuilder(buf[0]) == Some(c) && s == buf[1..]
    ensures var f := Feed(c, s);
            && Suffix(f.buf, s) && (Ready(f.b) ==> f.fault == Fine && |f.buf| < |buf|)
            && FeedRows(a, buf) == if Ready(f.b) then FeedRows(AppendRow(a, ReplyOf(f.b)), f.buf)
                                   else Fed(a.(current := Some(f.b)), f.buf, f.fault)
  {
    hide Feed;
    assert FeedRows(a, buf) == FinishRow(a, buf, Feed(c, s));
  }

  lemma RowRefused(a: ArrayState, buf: bytes)
    requires a.len.ready && WfArray(a) && !a.ready && a.current.None? && buf != [] && CreateBuilder(buf[0]).None?
    ensures FeedRows(a, buf) == Fed(a, buf, InvalidType)
  {
  }

  lemma RowsOver(a: ArrayState, buf: bytes)
    requires a.len.ready && WfArray(a) && (buf == [] || a.ready)
    ensures FeedRows(a, buf) == Fed(a, buf, Fine)
  {
  }
}
