/** The top-level parser object that drives the builders. */
module ReplyBuilders {
  import opened Common
  import opened Bytes
  import opened Resp
  import opened BuilderSpec
  import opened Builders
  import opened ReplyStream

  class ReplyBuilder {
    const buffer: ByteBuffer
    var builder: Option<Node>
    var replies: seq<Reply>
    ghost var Repr: set<object>

    ghost predicate Valid()
      reads this, Repr
      ensures Valid() ==> this in Repr
    {
      && this in Repr && buffer in Repr
      && (builder.Some? ==>
            && Root(builder.value) in Repr
            && NodeRepr(builder.value) <= Repr - {this, buffer}
            && NodeValid(builder.value))
    }

    ghost function View(): Parser
      requires Valid()
      reads this, Repr
    {
      Parser(buffer.data, if builder.Some? then Some(NodeView(builder.value)) else None, replies)
    }

    constructor ()
      ensures Valid() && fresh(Repr) && View() == EMPTY
    {
      buffer := new ByteBuffer();
      builder, replies := None, [];
      new;
      Repr := {this, buffer};
    }

    /** The first half of `build_reply`: make sure there is a builder for the next reply. */
    method OpenReply() returns (ok: bool)
      requires Valid() && WfParser(View()) && buffer.data != []
      modifies this, buffer
      ensures Valid() && fresh(Repr - old(Repr))
      ensures ok == (old(builder).Some? || CreateBuilder(old(buffer.data)[0]).Some?)
      ensures old(builder).Some? || !ok ==> unchanged(this) && unchanged(buffer)
      ensures ok ==> builder.Some? && View().replies == old(replies)
      ensures old(builder).None? && ok ==>
                && View().builder == CreateBuilder(old(buffer.data)[0])
                && buffer.data == old(buffer.data)[1..]
    {
      if builder.Some? { return true; }
      var next := CreateNode(buffer.data[0]);
      if next.None? { return false; }
      builder := next;
      Repr := Repr + NodeRepr(next.value);
      buffer.Erase(1);
      ok := true;
    }

    /** The middle of `build_reply`: feed the builder and look at it. */
    method FeedBuilder() returns (done: bool, reply: Reply, fault: Fault)
      requires Valid() && builder.Some? && Wf(View().builder.value)
      modifies Repr
      ensures Valid() && fresh(Repr - old(Repr))
      ensures var f := BuilderSpec.Feed(old(View().builder.value), old(buffer.data));
              && View() == Parser(f.buf, Some(f.b), old(replies))
              && fault == f.fault && done == Ready(f.b) && reply == ReplyOf(f.b)
    {
      hide BuilderSpec.Feed, Wf;
      fault := FeedNode(builder.value, buffer);
      Repr := Repr + NodeRepr(builder.value);
      done, reply := NodeResult(builder.value);
    }

    /** `build_reply`: either one more reply is complete and the loop goes on, or it is over. */
    method BuildReply() returns (more: bool, fault: Fault)
      requires Valid() && WfParser(View())
      modifies Repr
      ensures Valid() && fresh(Repr - old(Repr))
      ensures more ==> && fault == Fine && WfParser(View()) && |buffer.data| < |old(buffer.data)|
                       && Drain(old(View())) == Drain(View())
      ensures !more ==> Drain(old(View())) == Fedp(View(), fault)
    {
      if buffer.data == [] { return false, Fine; }
      hide Drain, BuilderSpec.Feed;
      ghost var p := View();
      var ok := OpenReply();
      if !ok {
        ReplyRefused(p);
        return false, InvalidType;
      }
      ReplyStep(p, View().builder.value, buffer.data);
      var done, reply;
      done, reply, fault := FeedBuilder();
      if !done { return false, fault; }
      replies := replies + [reply];
      builder := None;
      more := true;
    }

    /** `operator<<`: append the chunk and build replies while possible. */
    method Feed(data: bytes) returns (fault: Fault)
      requires Valid() && WfParser(View())
      modifies Repr
      ensures Valid() && fresh(Repr - old(Repr))
      ensures Fedp(View(), fault) == FeedChunk(old(View()), data)
    {
      hide Drain;
      buffer.data := buffer.data + data;
      ghost var p := View();
      var more := true;
      fault := Fine;
      while more
        invariant Valid() && fresh(Repr - old(Repr))
        invariant more ==> fault == Fine && WfParser(View()) && Drain(View()) == Drain(p)
        invariant !more ==> Drain(p) == Fedp(View(), fault)
        decreases more, |buffer.data|
      {
        more, fault := BuildReply();
      }
    }

    method Reset()
      requires Valid()
      modifies this, buffer
      ensures Valid() && Repr == old(Repr)
      ensures View() == ReplyStream.Reset(old(View()))
    {
      builder := None;
      buffer.data := [];
    }

    /** `get_front`; `None` is the thrown error. */
    method GetFront() returns (r: Option<Reply>)
      ensures r == if replies == [] then None else Some(replies[0])
    {
      r := if |replies| == 0 then None else Some(replies[0]);
    }

    /** `pop_front`; the result says whether it threw. */
    method PopFront() returns (threw: bool)
      requires Valid()
      modifies this
      ensures Valid() && Repr == old(Repr)
      ensures threw == (old(replies) == [])
      ensures View() == if threw then old(View()) else old(View()).(replies := old(replies)[1..])
    {
      threw := |replies| == 0;
      if !threw { replies := replies[1..]; }
    }
  }
}
