/**
 The builder classes, updated in place over one shared buffer. Each `Feed` is `operator<<`; it
 reports a thrown exception in its result and leaves the object as the exception leaves it.
 */
module Builders {
  import opened Common
  import opened Bytes
  import opened Resp
  import opened BuilderSpec

  /** The `std::string&` that all builders of one parser read from and erase from. */
  class ByteBuffer {
    var data: bytes

    constructor ()
      ensures data == []
    {
      data := [];
    }

    /** `erase(0, n)`. */
    method Erase(n: nat)
      requires n <= |data|
      modifies this
      ensures data == old(data)[n..]
    {
      data := data[n..];
    }
  }

  class SimpleStringBuilder {
    var str: bytes
    var ready: bool
    var reply: Reply

    ghost function View(): LineState
      reads this
    {
      LineState(str, ready, reply)
    }

    constructor ()
      ensures View() == FRESH_LINE
    {
      str, ready, reply := [], false, Null;
    }

    method Feed(buffer: ByteBuffer)
      modifies this, buffer
      ensures Fed(View(), buffer.data, Fine) == FeedLine(old(View()), old(buffer.data))
    {
      if ready { return; }
      var end := FindCrlf(buffer.data);
      if end.None? { return; }
      str := buffer.data[..end.value];
      reply := SimpleString(str);
      buffer.Erase(end.value + 2);
      ready := true;
    }
  }

  class ErrorBuilder {
    const inner: SimpleStringBuilder
    var reply: Reply

    ghost function View(): ErrorState
      reads this, inner
    {
      ErrorState(inner.View(), reply)
    }

    constructor ()
      ensures View() == FRESH_ERROR && fresh(inner)
    {
      inner := new SimpleStringBuilder();
      reply := Null;
    }

    method Feed(buffer: ByteBuffer)
      modifies this, inner, buffer
      ensures Fed(View(), buffer.data, Fine) == FeedError(old(View()), old(buffer.data))
    {
      inner.Feed(buffer);
      if inner.ready { reply := Error(inner.str); }
    }
  }

  class IntegerBuilder {
    var nbr: int
    var mult: int
    var ready: bool
    var reply: Reply

    ghost function View(): IntState
      reads this
    {
      IntState(nbr, mult, ready, reply)
    }

    constructor ()
      ensures View() == FRESH_INT
    {
      nbr, mult, ready, reply := 0, 1, false, Null;
    }

    method Feed(buffer: ByteBuffer) returns (fault: Fault)
      modifies this, buffer
      ensures Fed(View(), buffer.data, fault) == FeedInt(old(View()), old(buffer.data))
    {
      hide FindCrlf, Wrap64;
      fault := Fine;
      if ready { return; }
      var end := FindCrlf(buffer.data);
      if end.None? { return; }
      ghost var line := buffer.data[..end.value];
      var i := 0;
      while i < end.value
        invariant 0 <= i <= end.value
        invariant ScanDigits(line, i, nbr, mult) == ScanDigits(line, 0, old(nbr), old(mult))
        invariant unchanged(buffer) && unchanged(`ready) && unchanged(`reply)
      {
        var c := buffer.data[i];
        if i == 0 && mult == 1 && c == MINUS {
          mult := -1;
        } else if !IsDigit(c) {
          fault := InvalidDigit;
          return;
        } else {
          nbr := Wrap64(nbr * 10);
          nbr := Wrap64(nbr + (c - ZERO));
        }
        i := i + 1;
      }
      buffer.Erase(end.value + 2);
      reply := Integer(Wrap64(mult * nbr));
      ready := true;
    }
  }

  class BulkStringBuilder {
    const len: IntegerBuilder
    var strSize: int
    var str: bytes
    var isNull: bool
    var ready: bool
    var reply: Reply

    ghost function View(): BulkState
      reads this, len
    {
      BulkState(len.View(), strSize, str, isNull, ready, reply)
    }

    constructor ()
      ensures View() == FRESH_BULK && fresh(len)
    {
      len := new IntegerBuilder();
      strSize, str, isNull, ready, reply := 0, [], false, false, Null;
    }

    method BuildReply()
      modifies this
      ensures View() == old(View()).(reply := if isNull then Null else BulkString(str), ready := true)
    {
      reply := if isNull then Null else BulkString(str);
      ready := true;
    }

    /** `fetch_size`; `got` is its return value. */
    method FetchSize(buffer: ByteBuffer) returns (got: bool, fault: Fault)
      requires !ready
      modifies this, len, buffer
      ensures old(len.ready) ==> got && fault == Fine && unchanged(this) && unchanged(len) && unchanged(buffer)
      ensures !old(len.ready) ==> Fed(View(), buffer.data, fault) == BuilderSpec.FetchSize(old(View()), old(buffer.data))
      ensures got == (fault == Fine && len.ready)
    {
      if len.ready { return true, Fine; }
      fault := len.Feed(buffer);
      if !len.ready { return false, fault; }
      strSize := Wrap32(Wrap64(len.mult * len.nbr));
      if strSize == -1 {
        isNull := true;
        BuildReply();
      }
      got := true;
    }

    /** `fetch_str`. Converted to `size_t`, a size below -2 exceeds the length of every buffer. */
    method FetchStr(buffer: ByteBuffer) returns (fault: Fault)
      requires !ready && len.ready
      modifies this, buffer
      ensures Fed(View(), buffer.data, fault) == BuilderSpec.FetchStr(old(View()), old(buffer.data))
    {
      fault := Fine;
      if strSize < -2 || |buffer.data| < strSize + 2 { return; }
      if strSize < 0 { return Undefined; }
      if buffer.data[strSize] != CR { return WrongEnding; }
      if strSize > MAX_BULK + 1 { return Undefined; }
      if buffer.data[strSize + 1] != LF { return WrongEnding; }
      if strSize > MAX_BULK { return Undefined; }
      str := buffer.data[..strSize];
      buffer.Erase(strSize + 2);
      BuildReply();
    }

    method Feed(buffer: ByteBuffer) returns (fault: Fault)
      modifies this, len, buffer
      ensures Fed(View(), buffer.data, fault) == FeedBulk(old(View()), old(buffer.data))
    {
      fault := Fine;
      if ready { return; }
      var got;
      got, fault := FetchSize(buffer);
      if !got || ready { return; }
      fault := FetchStr(buffer);
    }
  }

  /** What a `std::unique_ptr<builder_iface>` can point to. */
  datatype Node =
    | Line(line: SimpleStringBuilder)
    | Err(err: ErrorBuilder)
    | Num(num: IntegerBuilder)
    | Bulk(bulk: BulkStringBuilder)
    | Arr(arr: ArrayBuilder)

  ghost function Root(n: Node): object {
    match n
    case Line(l) => l
    case Err(e) => e
    case Num(i) => i
    case Bulk(u) => u
    case Arr(a) => a
  }

  /** The objects a builder owns, itself included. */
  ghost function NodeRepr(n: Node): set<object>
    reads Root(n)
  {
    match n
    case Line(l) => {l}
    case Err(e) => {e, e.inner}
    case Num(i) => {i}
    case Bulk(u) => {u, u.len}
    case Arr(a) => a.Repr
  }

  ghost predicate NodeValid(n: Node)
    reads Root(n), NodeRepr(n)
    ensures NodeValid(n) ==> Root(n) in NodeRepr(n)
    decreases NodeRepr(n), 1
  {
    n.Arr? ==> n.arr.Valid()
  }

  ghost function NodeView(n: Node): State
    requires NodeValid(n)
    reads Root(n), NodeRepr(n)
    decreases NodeRepr(n), 1
  {
    match n
    case Line(l) => LineB(l.View())
    case Err(e) => ErrorB(e.View())
    case Num(i) => IntB(i.View())
    case Bulk(u) => BulkB(u.View())
    case Arr(a) => ArrayB(a.View())
  }

  /** `create_builder`. */
  method CreateNode(id: byte) returns (r: Option<Node>)
    ensures r.Some? == CreateBuilder(id).Some?
    ensures r.Some? ==> NodeValid(r.value) && fresh(NodeRepr(r.value)) && NodeView(r.value) == CreateBuilder(id).value
    ensures r.Some? <==> id in {43, 45, 58, 36, 42}
    ensures r.Some? ==> && (id == 43 <==> r.value.Line?) && (id == 45 <==> r.value.Err?) && (id == 58 <==> r.value.Num?)
                        && (id == 36 <==> r.value.Bulk?) && (id == 42 <==> r.value.Arr?)
  {
    if id == PLUS {
      var l := new SimpleStringBuilder();
      r := Some(Line(l));
    } else if id == DASH {
      var e := new ErrorBuilder();
      r := Some(Err(e));
    } else if id == COLON {
      var i := new IntegerBuilder();
      r := Some(Num(i));
    } else if id == DOLLAR {
      var u := new BulkStringBuilder();
      r := Some(Bulk(u));
    } else if id == STAR {
      var a := new ArrayBuilder();
      r := Some(Arr(a));
    } else {
      r := None;
    }
  }

  /** The virtual call of `operator<<`. */
  method FeedNode(n: Node, buffer: ByteBuffer) returns (fault: Fault)
    requires NodeValid(n) && buffer !in NodeRepr(n) && Wf(NodeView(n))
    modifies NodeRepr(n), buffer
    ensures NodeValid(n) && fresh(NodeRepr(n) - old(NodeRepr(n)))
    ensures Fed(NodeView(n), buffer.data, fault) == Feed(old(NodeView(n)), old(buffer.data))
    decreases |buffer.data|, NodeRepr(n), 5
  {
    match n
    case Line(l) => l.Feed(buffer); fault := Fine;
    case Err(e) => e.Feed(buffer); fault := Fine;
    case Num(i) => fault := i.Feed(buffer);
    case Bulk(u) => fault := u.Feed(buffer);
    case Arr(a) => fault := a.Feed(buffer);
  }

  /** `reply_ready` and `get_reply` through the base class. */
  method NodeResult(n: Node) returns (ready: bool, reply: Reply)
    requires NodeValid(n)
    ensures ready == Ready(NodeView(n)) && reply == ReplyOf(NodeView(n))
  {
    match n
    case Line(l) => return l.ready, l.reply;
    case Err(e) => return e.inner.ready, e.reply;
    case Num(i) => return i.ready, i.reply;
    case Bulk(u) => return u.ready, u.reply;
    case Arr(a) => return a.ready, a.reply;
  }

  class ArrayBuilder {
    const len: IntegerBuilder
    var arraySize: nat
    var current: Option<Node>
    var ready: bool
    var reply: Reply
    ghost var Repr: set<object>

    ghost predicate Valid()
      reads this, Repr
      ensures Valid() ==> this in Repr
      decreases Repr, 0
    {
      && this in Repr && len in Repr
      && (current.Some? ==>
            && Root(current.value) in Repr
            && NodeRepr(current.value) <= Repr - {this, len}
            && NodeValid(current.value))
    }

    ghost function View(): ArrayState
      requires Valid()
      reads this, Repr
      decreases Repr, 0
    {
      ArrayState(len.View(), arraySize, if current.Some? then Some(NodeView(current.value)) else None, ready, reply)
    }

    constructor ()
      ensures Valid() && fresh(Repr) && View() == FRESH_ARRAY
    {
      len := new IntegerBuilder();
      arraySize, current, ready, reply := 0, None, false, Array([]);
      new;
      Repr := {this, len};
    }

    /** `fetch_array_size`; `got` is its return value. */
    method FetchArraySize(buffer: ByteBuffer) returns (got: bool, fault: Fault)
      requires Valid() && buffer !in Repr && WfArray(View()) && !ready
      modifies this, len, buffer
      ensures Valid() && Repr == old(Repr)
      ensures old(len.ready) ==> got && fault == Fine && unchanged(this) && unchanged(len) && unchanged(buffer)
      ensures !old(len.ready) ==>
                Fed(View(), buffer.data, fault) == BuilderSpec.FetchArraySize(old(View()), old(buffer.data))
      ensures got == (fault == Fine && len.ready)
    {
      if len.ready { return true, Fine; }
      fault := len.Feed(buffer);
      if !len.ready { return false, fault; }
      var size := Wrap64(len.mult * len.nbr);
      if size < 0 {
        reply := Null;
        ready := true;
      } else if size == 0 {
        ready := true;
      }
      arraySize := if size < 0 then size + TWO64 else size;
      got := true;
    }

    /** The first half of `build_row`: make sure there is a builder for the next row. */
    method OpenRow(buffer: ByteBuffer) returns (ok: bool)
      requires Valid() && buffer !in Repr && WfArray(View()) && len.ready && !ready && buffer.data != []
      modifies this, buffer
      ensures Valid() && fresh(Repr - old(Repr)) && buffer !in Repr
      ensures ok == (old(current).Some? || CreateBuilder(old(buffer.data)[0]).Some?)
      ensures old(current).Some? || !ok ==> unchanged(this) && unchanged(buffer)
      ensures ok ==> current.Some? && View() == old(View()).(current := View().current)
      ensures old(current).None? && ok ==>
                && View().current == CreateBuilder(old(buffer.data)[0])
                && buffer.data == old(buffer.data)[1..]
    {
      if current.Some? { return true; }
      var next := CreateNode(buffer.data[0]);
      if next.None? { return false; }
      current := next;
      Repr := Repr + NodeRepr(next.value);
      buffer.Erase(1);
      ok := true;
    }

    /** The middle of `build_row`: feed the row's builder and look at it. */
    method FeedRow(buffer: ByteBuffer) returns (done: bool, row: Reply, fault: Fault)
      requires Valid() && buffer !in Repr && current.Some? && Wf(View().current.value)
      modifies Repr, buffer
      ensures Valid() && fresh(Repr - old(Repr)) && buffer !in Repr
      ensures var f := BuilderSpec.Feed(old(View().current.value), old(buffer.data));
              && View() == old(View()).(current := Some(f.b))
              && buffer.data == f.buf && fault == f.fault && done == Ready(f.b) && row == ReplyOf(f.b)
      decreases |buffer.data|, Repr, 2
    {
      hide BuilderSpec.Feed, Wf;
      fault := FeedNode(current.value, buffer);
      Repr := Repr + NodeRepr(current.value);
      done, row := NodeResult(current.value);
    }

    /** The second half of `build_row`: the row is appended and its builder dropped. */
    method CloseRow(row: Reply)
      requires Valid() && len.ready && !ready && reply.Array? && |reply.rows| < arraySize
      modifies this
      ensures Valid() && Repr == old(Repr)
      ensures View() == AppendRow(old(View()).(current := None), row)
    {
      reply := Array(reply.rows + [row]);
      current := None;
      if |reply.rows| == arraySize { ready := true; }
    }

    /** `build_row`: either one more row is complete and the loop goes on, or the call is over. */
    method BuildRow(buffer: ByteBuffer) returns (more: bool, fault: Fault)
      requires Valid() && buffer !in Repr && WfArray(View()) && len.ready && !ready && buffer.data != []
      modifies Repr, buffer
      ensures Valid() && fresh(Repr - old(Repr)) && buffer !in Repr
      ensures more ==> && fault == Fine && WfArray(View()) && len.ready
                       && |buffer.data| < |old(buffer.data)|
                       && FeedRows(old(View()), old(buffer.data)) == FeedRows(View(), buffer.data)
      ensures !more ==> FeedRows(old(View()), old(buffer.data)) == Fed(View(), buffer.data, fault)
      decreases |buffer.data|, Repr, 3
    {
      hide FeedRows, BuilderSpec.Feed, Suffix;
      ghost var v, s := View(), buffer.data;
      var ok := OpenRow(buffer);
      if !ok {
        RowRefused(v, s);
        return false, InvalidType;
      }
      RowStep(v, s, View().current.value, buffer.data);
      var done, row;
      done, row, fault := FeedRow(buffer);
      if !done { return false, fault; }
      CloseRow(row);
      more := true;
      assert View() == AppendRow(v, row);
    }

    method Feed(buffer: ByteBuffer) returns (fault: Fault)
      requires Valid() && buffer !in Repr && WfArray(View())
      modifies Repr, buffer
      ensures Valid() && fresh(Repr - old(Repr)) && buffer !in Repr
      ensures Fed(View(), buffer.data, fault) == FeedArray(old(View()), old(buffer.data))
      decreases |buffer.data|, Repr, 4
    {
      hide FeedRows;
      fault := Fine;
      if ready { return; }
      var got;
      got, fault := FetchArraySize(buffer);
      if !got { return; }
      ghost var v, s := View(), buffer.data;
      while |buffer.data| > 0 && !ready
        invariant Valid() && fresh(Repr - old(Repr)) && buffer !in Repr
        invariant len.ready && WfArray(View()) && fault == Fine
        invariant FeedRows(View(), buffer.data) == FeedRows(v, s)
        invariant |buffer.data| < |old(buffer.data)| || (|buffer.data| == |old(buffer.data)| && Repr == old(Repr))
        decreases |buffer.data|
      {
        var more;
        more, fault := BuildRow(buffer);
        if !more { return; }
      }
      RowsOver(View(), buffer.data);
    }
  }
}
