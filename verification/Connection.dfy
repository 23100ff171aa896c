/** `redis_connection`: the command printer, the send buffer, and the receive and drop handlers. */
module Connection {
  import opened Common
  import opened Bytes
  import opened Resp
  import opened BuilderSpec
  import opened ReplyStream
  import opened ReplyBuilders
  import opened WireFormat

  type Command = seq<bytes>

  function Bulks(cmd: Command): (rows: seq<Reply>)
    ensures |rows| == |cmd|
    ensures forall i :: 0 <= i < |cmd| ==> rows[i] == BulkString(cmd[i])
  {
    seq(|cmd|, i requires 0 <= i < |cmd| => BulkString(cmd[i]))
  }

  /** A command as the protocol sees it: an array of bulk strings. */
  function CommandReply(cmd: Command): (v: Reply)
  {
    Array(Bulks(cmd))
  }

  /** Commands whose parts are short enough for the protocol's reader. */
  predicate Sendable(cmd: Command) {
    |cmd| < TWO63 && forall i :: 0 <= i < |cmd| ==> |cmd[i]| <= MAX_BULK
  }

  function CommandReplies(cmds: seq<Command>): (vs: seq<Reply>)
    ensures |vs| == |cmds|
    ensures forall i :: 0 <= i < |cmds| ==> vs[i] == CommandReply(cmds[i])
  {
    seq(|cmds|, i requires 0 <= i < |cmds| => CommandReply(cmds[i]))
  }

  /** The bytes of a command. */
  lemma CommandSpelling(cmd: Command)
    ensures Encode(CommandReply(cmd)) == CommandText(cmd)
  {
    PrintsParts(cmd, Bulks(cmd));
  }

  /** `build_command` prints exactly the RESP2 encoding of the command. */
  method BuildCommand(cmd: Command) returns (s: bytes)
    ensures s == Encode(CommandReply(cmd)) == CommandText(cmd)
  {
    s := [STAR] + ToDecimal(|cmd|) + CRLF;
    ghost var head := s;
    ghost var rows := Bulks(cmd);
    for k := 0 to |cmd|
      invariant s == head + EncodeAll(rows[..k])
    {
      ghost var before := s;
      s := s + ([DOLLAR] + ToDecimal(|cmd[k]|) + CRLF + cmd[k] + CRLF);
      EncodeAllConcat(rows[..k], [rows[k]]);
      assert rows[..k] + [rows[k]] == rows[..k + 1];
      assert EncodeAll([rows[k]]) == Encode(rows[k]) + EncodeAll([]);
      assert s == before + Encode(rows[k]);
    }
    assert rows[..|cmd|] == rows;
    CommandSpelling(cmd);
  }

  lemma CommandsEncodable(cmds: seq<Command>)
    requires forall i :: 0 <= i < |cmds| ==> Sendable(cmds[i])
    ensures AllEncodable(CommandReplies(cmds))
  {
    forall i | 0 <= i < |cmds| ensures Encodable(CommandReplies(cmds)[i]) {
      var rows := Bulks(cmds[i]);
      assert AllEncodable(rows);
    }
  }

  lemma {:induction false} CommandRepliesInjective(cmds: seq<Command>, other: seq<Command>)
    requires CommandReplies(cmds) == CommandReplies(other)
    ensures cmds == other
  {
    assert |cmds| == |other|;
    forall i | 0 <= i < |cmds| ensures cmds[i] == other[i] {
      assert CommandReplies(cmds)[i] == CommandReplies(other)[i];
      var a, b := Bulks(cmds[i]), Bulks(other[i]);
      assert a == b;
      forall j | 0 <= j < |a| ensures cmds[i][j] == other[i][j] { assert a[j] == b[j]; }
      assert cmds[i] == other[i];
    }
  }

  /** The bytes of a sequence of sends. */
  function Wire(cmds: seq<Command>): (s: bytes) { EncodeAll(CommandReplies(cmds)) }

  lemma {:induction false} WireAppend(cmds: seq<Command>, cmd: Command)
    ensures Wire(cmds + [cmd]) == Wire(cmds) + Encode(CommandReply(cmd))
  {
    assert CommandReplies(cmds + [cmd]) == CommandReplies(cmds) + [CommandReply(cmd)];
    EncodeAllConcat(CommandReplies(cmds), [CommandReply(cmd)]);
    assert EncodeAll([CommandReply(cmd)]) == Encode(CommandReply(cmd)) + EncodeAll([]);
  }

  /**
   Unique decodability: whatever bytes the arguments hold, the send buffer reads back through the
   reply builder, chunk by chunk, as exactly the commands sent, and no other commands print the same.
   */
  lemma {:induction false} SendBufferDecodes(cmds: seq<Command>, chunks: seq<bytes>)
    requires forall i :: 0 <= i < |cmds| ==> Sendable(cmds[i])
    requires Concat(chunks) == Wire(cmds)
    ensures FeedAll(EMPTY, chunks) == Fedp(Parser([], None, CommandReplies(cmds)), Fine)
    ensures forall other: seq<Command> ::
              (forall i :: 0 <= i < |other| ==> Sendable(other[i])) && Wire(other) == Wire(cmds) ==> other == cmds
  {
    CommandsEncodable(cmds);
    hide Drain, EncodeAll, Encode, Concat, ParseStream;
    var vs := CommandReplies(cmds);
    assert Concat(chunks) == EncodeAll(vs) + [];
    IncrementalRoundTrip(vs, [], chunks);
    NothingParses();
    assert vs + [] == vs;
    forall other: seq<Command> |
      (forall i :: 0 <= i < |other| ==> Sendable(other[i])) && Wire(other) == Wire(cmds)
      ensures other == cmds
    {
      CommandsEncodable(other);
      EncodeAllInjective(CommandReplies(other), vs);
      CommandRepliesInjective(other, cmds);
    }
  }

  /** What an asynchronous read delivers. */
  datatype ReadResult = ReadResult(success: bool, data: bytes)

  class RedisConnection {
    var buffer: bytes
    const builder: ReplyBuilder

    ghost predicate Valid()
      reads this, builder, builder.Repr
    {
      builder.Valid() && this !in builder.Repr
    }

    ghost function Reader(): Parser
      requires Valid()
      reads this, builder, builder.Repr
    {
      builder.View()
    }

    constructor ()
      ensures Valid() && fresh(builder) && fresh(builder.Repr) && buffer == [] && Reader() == EMPTY
    {
      buffer := [];
      builder := new ReplyBuilder();
    }

    method Send(cmd: Command)
      requires Valid()
      modifies this
      ensures Valid() && Reader() == old(Reader())
      ensures buffer == old(buffer) + Encode(CommandReply(cmd))
    {
      var s := BuildCommand(cmd);
      buffer := buffer + s;
    }

    /** `commit`: the buffer is moved out first, so a failed write loses it. */
    method Commit(writeOk: bool) returns (written: bytes, threw: bool)
      requires Valid()
      modifies this
      ensures Valid() && Reader() == old(Reader())
      ensures buffer == [] && threw == !writeOk
      ensures written + (if threw then old(buffer) else []) == old(buffer)
    {
      var out := buffer;
      buffer := [];
      if !writeOk { return [], true; }
      return out, false;
    }

    /** One turn of the loop below. */
    method TakeFront() returns (front: Reply)
      requires Valid() && |builder.replies| > 0
      modifies builder
      ensures Valid() && builder.Repr == old(builder.Repr)
      ensures [front] + builder.replies == old(builder.replies)
      ensures Reader() == old(Reader()).(replies := builder.replies)
    {
      var f := builder.GetFront();
      var _ := builder.PopFront();
      front := f.value;
    }

    /** The loop that takes the finished replies off the builder, oldest first. */
    method HandOver() returns (handed: seq<Reply>)
      requires Valid()
      modifies builder
      ensures Valid() && builder.Repr == old(builder.Repr)
      ensures handed == old(Reader()).replies && Reader() == old(Reader()).(replies := [])
    {
      hide ReplyBuilder.Valid;
      handed := [];
      while |builder.replies| > 0
        invariant Valid() && builder.Repr == old(builder.Repr)
        invariant handed + builder.replies == old(Reader()).replies
        invariant Reader() == old(Reader()).(replies := builder.replies)
        decreases |builder.replies|
      {
        var front := TakeFront();
        assert handed + ([front] + builder.replies) == handed + [front] + builder.replies;
        handed := handed + [front];
      }
    }

    /**
     `tcp_client_receive_handler`: the replies handed to the reply callback, in order, and whether
     the disconnection handler is called instead (after an error nothing is cleared or handed over).
     */
    method Receive(result: ReadResult) returns (handed: seq<Reply>, dropped: bool)
      requires Valid() && WfParser(Reader())
      modifies builder, builder.Repr
      ensures Valid() && fresh(builder.Repr - old(builder.Repr)) && buffer == old(buffer)
      ensures !result.success ==> handed == [] && !dropped && Reader() == old(Reader())
      ensures result.success ==>
                var r := FeedChunk(old(Reader()), result.data);
                && dropped == Thrown(r.fault)
                && (dropped ==> handed == [] && Reader() == r.p)
                && (r.fault == Fine ==> handed == r.p.replies && Reader() == r.p.(replies := []))
    {
      handed, dropped := [], false;
      if !result.success { return; }
      hide FeedChunk;
      var fault := builder.Feed(result.data);
      if fault != Fine {
        dropped := Thrown(fault);
        return;
      }
      handed := HandOver();
    }

    /** `tcp_client_disconnection_handler`, up to the call of the user's handler. */
    method Disconnected()
      requires Valid()
      modifies this, builder, builder.buffer
      ensures Valid() && builder.Repr == old(builder.Repr)
      ensures buffer == [] && Reader() == ReplyStream.Reset(old(Reader()))
    {
      buffer := [];
      builder.Reset();
    }
  }
}
