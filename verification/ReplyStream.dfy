/**
 The whole `reply_builder` as a value, and the laws of the incremental parser: the way the bytes
 are split never matters, the replies are those of the plain parser, no byte is lost, and an error
 is repeated until `reset`.
 */
module ReplyStream {
  import opened Common
  import opened Bytes
  import opened Resp
  import opened BuilderSpec
  import opened BuilderLaws

  /** State of a `reply_builder`: unread bytes, the unfinished builder, finished replies. */
  datatype Parser = Parser(buffer: bytes, builder: Option<State>, replies: seq<Reply>)

  const EMPTY := Parser([], None, [])

  ghost predicate WfParser(p: Parser) {
    p.builder.Some? ==> Wf(p.builder.value) && !Ready(p.builder.value)
  }

  datatype Fedp = Fedp(p: Parser, fault: Fault)

  /** The loop `while (build_reply());`. */
  function Drain(p: Parser): (r: Fedp)
    requires WfParser(p)
    ensures r.fault != Undefined ==> WfParser(r.p)
    ensures p.replies <= r.p.replies
    ensures Suffix(r.p.buffer, p.buffer)
    ensures r.p.replies != p.replies ==> |r.p.buffer| < |p.buffer|
    decreases |p.buffer|, 1
  {
    if p.buffer == [] then Fedp(p, Fine)
    else if p.builder.Some? then FinishReply(p, Feed(p.builder.value, p.buffer))
    else
      match CreateBuilder(p.buffer[0])
      case None => Fedp(p, InvalidType)
      case Some(c) => FinishReply(p, Feed(c, p.buffer[1..]))
  }

  /** The rest of `build_reply` and of the loop, once the builder has been fed. */
  function FinishReply(p: Parser, f: Fed<State>): (r: Fedp)
    requires RowFed(f, p.buffer)
    ensures r.fault != Undefined ==> WfParser(r.p)
    ensures p.replies <= r.p.replies
    ensures Suffix(r.p.buffer, p.buffer)
    ensures r.p.replies != p.replies ==> |r.p.buffer| < |p.buffer|
    decreases |p.buffer|, 0
  {
    if !Ready(f.b) then Fedp(Parser(f.buf, Some(f.b), p.replies), f.fault)
    else Drain(Parser(f.buf, None, p.replies + [ReplyOf(f.b)]))
  }

  /** `reply_builder::operator<<`. */
  function FeedChunk(p: Parser, data: bytes): (r: Fedp)
    requires WfParser(p)
    ensures r.fault != Undefined ==> WfParser(r.p)
    ensures p.replies <= r.p.replies
    ensures Suffix(r.p.buffer, p.buffer + data)
  {
    Drain(p.(buffer := p.buffer + data))
  }

  /** `reply_builder::reset`: unread bytes and the unfinished builder go, finished replies stay. */
  function Reset(p: Parser): (r: Parser)
    ensures WfParser(r)
  {
    Parser([], None, p.replies)
  }

  // ---------- Chunking ----------

  function ContinueDrain(r: Fedp, y: bytes): Fedp
    requires r.fault == Fine ==> WfParser(r.p)
  {
    if r.fault != Fine then Fedp(r.p.(buffer := r.p.buffer + y), r.fault)
    else Drain(r.p.(buffer := r.p.buffer + y))
  }

  lemma {:induction false} DrainSplit(p: Parser, y: bytes)
    requires WfParser(p)
    ensures Drain(p.(buffer := p.buffer + y)) == ContinueDrain(Drain(p), y)
    decreases |p.buffer|, 1
  {
    hide Feed;
    var x := p.buffer;
    if x == [] {
    } else if p.builder.Some? {
      FeedSplit(p.builder.value, x, y);
      FinishReplySplit(p, y, Feed(p.builder.value, x));
    } else {
      assert (x + y)[0] == x[0] && (x + y)[1..] == x[1..] + y;
      match CreateBuilder(x[0])
      case None =>
      case Some(c) =>
        FeedSplit(c, x[1..], y);
        FinishReplySplit(p, y, Feed(c, x[1..]));
    }
  }

  lemma {:induction false} FinishPartialReplySplit(p: Parser, y: bytes, f: Fed<State>)
    requires RowFed(f, p.buffer) && !Ready(f.b) && f.fault == Fine
    requires RowFed(Feed(f.b, f.buf + y), p.buffer + y)
    ensures FinishReply(p.(buffer := p.buffer + y), Feed(f.b, f.buf + y))
            == Drain(Parser(f.buf + y, Some(f.b), p.replies))
  {
    hide Feed;
    var q := Parser(f.buf + y, Some(f.b), p.replies);
    var g := Feed(f.b, f.buf + y);
    if q.buffer == [] {
      FeedNothing(f.b);
    } else {
      assert Drain(q) == FinishReply(q, g);
      if Ready(g.b) {
        assert FinishReply(q, g) == Drain(Parser(g.buf, None, p.replies + [ReplyOf(g.b)]));
      }
    }
  }

  lemma {:induction false} FinishReplySplit(p: Parser, y: bytes, f: Fed<State>)
    requires RowFed(f, p.buffer)
    ensures RowFed(Continue(f, y), p.buffer + y)
    ensures FinishReply(p.(buffer := p.buffer + y), Continue(f, y)) == ContinueDrain(FinishReply(p, f), y)
    decreases |p.buffer|, 0
  {
    hide Feed, Wf, Suffix;
    ContinueIsRowFed(p.buffer, y, f);
    if Ready(f.b) {
      var q := Parser(f.buf, None, p.replies + [ReplyOf(f.b)]);
      DrainSplit(q, y);
      assert q.(buffer := q.buffer + y) == Parser(f.buf + y, None, q.replies);
    } else if f.fault == Fine {
      FinishPartialReplySplit(p, y, f);
    }
  }

  /**
   The way the bytes are split never matters: feeding `a` and then `b` leaves exactly the state
   (buffer, nested unfinished builders, finished replies) and the error that feeding `a + b` leaves;
   and if `a` alone already throws, so does `a + b`, in the same place.
   */
  lemma {:induction false} ChunkingNeverMatters(p: Parser, a: bytes, b: bytes)
    requires WfParser(p)
    ensures var r := FeedChunk(p, a);
            FeedChunk(p, a + b) == if r.fault == Fine then FeedChunk(r.p, b)
                                   else Fedp(r.p.(buffer := r.p.buffer + b), r.fault)
  {
    hide Drain;
    var q := p.(buffer := p.buffer + a);
    DrainSplit(q, b);
    assert p.buffer + (a + b) == p.buffer + a + b;
    assert q.(buffer := q.buffer + b) == p.(buffer := p.buffer + (a + b));
  }

  function Concat(chunks: seq<bytes>): (s: bytes) {
    if chunks == [] then [] else chunks[0] + Concat(chunks[1..])
  }

  /** A run of feeds that stops at the first error. */
  function FeedAll(p: Parser, chunks: seq<bytes>): (r: Fedp)
    requires WfParser(p)
    ensures r.fault != Undefined ==> WfParser(r.p)
    decreases |chunks|
  {
    if chunks == [] then Fedp(p, Fine)
    else
      var r := FeedChunk(p, chunks[0]);
      if r.fault != Fine then r else FeedAll(r.p, chunks[1..])
  }

  /** Nothing more to read: feeding the empty chunk would change nothing. */
  ghost predicate Settled(p: Parser) {
    WfParser(p) && Drain(p) == Fedp(p, Fine)
  }

  lemma {:induction false} FeedSettles(p: Parser, a: bytes)
    requires WfParser(p) && FeedChunk(p, a).fault == Fine
    ensures Settled(FeedChunk(p, a).p)
  {
    hide Drain;
    var r := FeedChunk(p, a);
    ChunkingNeverMatters(p, a, []);
    assert a + [] == a;
    assert r.p.(buffer := r.p.buffer + []) == r.p by { assert r.p.buffer + [] == r.p.buffer; }
  }

  /** Every split of a byte string into chunks gives the same replies, error and final state as one feed. */
  lemma {:induction false} AnySplit(p: Parser, chunks: seq<bytes>)
    requires Settled(p)
    ensures var one := FeedChunk(p, Concat(chunks));
            var many := FeedAll(p, chunks);
            && many.fault == one.fault
            && many.p.replies == one.p.replies
            && many.p.builder == one.p.builder
            && (one.fault == Fine ==> many.p == one.p)
    decreases |chunks|
  {
    hide Drain;
    if chunks == [] {
      assert p.(buffer := p.buffer + []) == p by { assert p.buffer + [] == p.buffer; }
    } else {
      ChunkingNeverMatters(p, chunks[0], Concat(chunks[1..]));
      var r := FeedChunk(p, chunks[0]);
      if r.fault == Fine {
        FeedSettles(p, chunks[0]);
        AnySplit(r.p, chunks[1..]);
      }
    }
  }

  // ---------- Agreement with the plain parser, and conservation of bytes ----------

  /** From a reply boundary on, the drain loop is the plain parse of the stream. */
  ghost predicate DrainAgrees(r: Fedp, acc: seq<Reply>, t: Stream) {
    && r.fault == t.fault
    && r.p.replies == acc + t.replies
    && r.p.buffer == Drain(Parser(t.pending, None, [])).p.buffer
    && r.p.builder == Drain(Parser(t.pending, None, [])).p.builder
  }

  lemma {:induction false} DrainFresh(s: bytes, acc: seq<Reply>)
    requires s != [] && CreateBuilder(s[0]).Some?
    ensures var f := Feed(CreateBuilder(s[0]).value, s[1..]);
            Drain(Parser(s, None, acc)) == if Ready(f.b) then Drain(Parser(f.buf, None, acc + [ReplyOf(f.b)]))
                                           else Fedp(Parser(f.buf, Some(f.b), acc), f.fault)
  {
    hide Feed;
    var f := Feed(CreateBuilder(s[0]).value, s[1..]);
    assert Drain(Parser(s, None, acc)) == FinishReply(Parser(s, None, acc), f);
  }

  lemma DrainNothing(p: Parser)
    requires WfParser(p) && p.buffer == []
    ensures Drain(p) == Fedp(p, Fine)
  {
  }

  lemma ReplyRefused(p: Parser)
    requires WfParser(p) && p.builder.None? && p.buffer != [] && CreateBuilder(p.buffer[0]).None?
    ensures Drain(p) == Fedp(p, InvalidType)
  {
  }

  lemma {:induction false} DrainParses(s: bytes, acc: seq<Reply>)
    ensures DrainAgrees(Drain(Parser(s, None, acc)), acc, ParseStream(s))
    decreases |s|
  {
    hide Feed, ParseTyped, Suffix, Drain;
    if s == [] {
      assert ParseReply(s) == Incomplete;
      DrainNothing(Parser(s, None, acc));
      DrainNothing(Parser(s, None, []));
    } else if CreateBuilder(s[0]).None? {
      BadTypeByte(s);
      ReplyRefused(Parser(s, None, acc));
      ReplyRefused(Parser(s, None, []));
    } else {
      FreshAgrees(s[0], s[1..]);
      var f := Feed(CreateBuilder(s[0]).value, s[1..]);
      DrainFresh(s, acc);
      if f.fault == Fine && Ready(f.b) {
        DrainParses(f.buf, acc + [ReplyOf(f.b)]);
        RowsAssoc(acc, ReplyOf(f.b));
      } else {
        DrainFresh(s, []);
      }
    }
  }

  /** What is left of a stream behind its first `n` replies. */
  function After(s: bytes, n: nat): (r: Option<bytes>)
    decreases n
  {
    if n == 0 then Some(s)
    else
      match ParseReply(s)
      case Done(_, rest) => After(rest, n - 1)
      case _ => None
  }

  /** What a reply leaves is a suffix of what it was read from. */
  lemma {:induction false} ReplyConserves(s: bytes)
    requires ParseReply(s).Done?
    ensures Suffix(ParseReply(s).rest, s)
  {
    if CreateBuilder(s[0]).None? { BadTypeByte(s); }
    hide Feed, ParseTyped;
    FreshAgrees(s[0], s[1..]);
  }

  /** `ParseStream` loses no byte: what it leaves pending is the input behind its replies. */
  lemma {:induction false} StreamConserves(s: bytes)
    ensures var t := ParseStream(s); After(s, |t.replies|) == Some(t.pending) && Suffix(t.pending, s)
    decreases |s|
  {
    hide ParseReply;
    match ParseReply(s)
    case Done(v, rest) =>
      ReplyConserves(s);
      StreamConserves(rest);
      SuffixTransitive(ParseStream(rest).pending, rest, s);
    case _ =>
  }

  lemma {:induction false} FeedEmpty(s: bytes)
    ensures FeedChunk(EMPTY, s) == Drain(Parser(s, None, []))
  {
    assert [] + s == s;
  }

  /** The pending bytes hold no complete reply, and stop the way the whole stream stops. */
  lemma {:induction false} PendingHasNoReply(s: bytes)
    ensures var t := ParseStream(s); ParseStream(t.pending) == Stream([], t.pending, t.fault)
    decreases |s|
  {
    hide ParseReply;
    match ParseReply(s)
    case Done(v, rest) => PendingHasNoReply(rest);
    case _ =>
  }

  lemma EmptySettled()
    ensures Settled(EMPTY)
  {
  }

  /**
   The refinement theorem. For every way of splitting a byte string into chunks, the incremental
   builder produces exactly the replies of the plain parser on the concatenation, throws exactly when
   that parser meets malformed input, and otherwise holds exactly what the bytes after the last
   complete reply determine.
   */
  lemma {:induction false} IncrementalIsPlain(chunks: seq<bytes>)
    ensures var s := Concat(chunks);
            var t := ParseStream(s);
            var r := FeedAll(EMPTY, chunks);
            && r.fault == t.fault
            && r.p.replies == t.replies
            && (t.fault == Fine ==> r.p.(replies := []) == FeedChunk(EMPTY, t.pending).p)
            && After(s, |t.replies|) == Some(t.pending)
  {
    hide Drain, ParseStream, After, Concat;
    var s := Concat(chunks);
    var t := ParseStream(s);
    EmptySettled();
    AnySplit(EMPTY, chunks);
    FeedEmpty(s);
    FeedEmpty(t.pending);
    DrainParses(s, []);
    PendingHasNoReply(s);
    DrainParses(t.pending, []);
    StreamConserves(s);
    assert [] + t.replies == t.replies;
  }

  /** No byte is invented or dropped: the unread buffer is the tail of everything that was fed. */
  lemma {:induction false} BytesConserved(p: Parser, chunks: seq<bytes>)
    requires WfParser(p)
    ensures FeedAll(p, chunks).fault == Fine ==> Suffix(FeedAll(p, chunks).p.buffer, p.buffer + Concat(chunks))
    decreases |chunks|
  {
    hide Drain;
    if chunks == [] {
      assert p.buffer + [] == p.buffer;
    } else {
      var r := FeedChunk(p, chunks[0]);
      if r.fault == Fine {
        var rest := Concat(chunks[1..]);
        BytesConserved(r.p, chunks[1..]);
        SuffixExtends(r.p.buffer, p.buffer + chunks[0], rest);
        assert p.buffer + Concat(chunks) == p.buffer + chunks[0] + rest;
        if FeedAll(p, chunks).fault == Fine {
          SuffixTransitive(FeedAll(p, chunks).p.buffer, r.p.buffer + rest, p.buffer + Concat(chunks));
        }
      }
    }
  }

  // ---------- Errors are sticky ----------

  ghost predicate ParserPoisoned(p: Parser) {
    && p.buffer != []
    && WfParser(p)
    && if p.builder.Some? then Poisoned(p.builder.value, p.buffer) else CreateBuilder(p.buffer[0]).None?
  }

  lemma {:induction false} DrainFaultPoisons(p: Parser)
    requires WfParser(p) && Thrown(Drain(p).fault)
    ensures ParserPoisoned(Drain(p).p)
    decreases |p.buffer|, 1
  {
    hide Feed, Drain;
    if p.buffer == [] {
      DrainNothing(p);
    } else if p.builder.Some? {
      StepFaultPoisons(p, p.builder.value, p.buffer);
    } else if CreateBuilder(p.buffer[0]).Some? {
      StepFaultPoisons(p, CreateBuilder(p.buffer[0]).value, p.buffer[1..]);
    } else {
      ReplyRefused(p);
    }
  }

  lemma {:induction false} ReplyStep(p: Parser, c: State, s: bytes)
    requires WfParser(p) && p.buffer != []
    requires if p.builder.Some? then p.builder == Some(c) && s == p.buffer
             else CreateBuilder(p.buffer[0]) == Some(c) && s == p.buffer[1..]
    ensures var f := Feed(c, s);
            && (Ready(f.b) ==> f.fault == Fine && |f.buf| < |p.buffer|)
            && Drain(p) == if Ready(f.b) then Drain(Parser(f.buf, None, p.replies + [ReplyOf(f.b)]))
                           else Fedp(Parser(f.buf, Some(f.b), p.replies), f.fault)
  {
    hide Feed;
    assert Drain(p) == FinishReply(p, Feed(c, s));
  }

  lemma {:induction false} StepFaultPoisons(p: Parser, c: State, s: bytes)
    requires WfParser(p) && p.buffer != [] && Thrown(Drain(p).fault)
    requires if p.builder.Some? then p.builder == Some(c) && s == p.buffer
             else CreateBuilder(p.buffer[0]) == Some(c) && s == p.buffer[1..]
    ensures ParserPoisoned(Drain(p).p)
    decreases |p.buffer|, 0
  {
    hide Feed, Drain, Poisoned;
    ReplyStep(p, c, s);
    var f := Feed(c, s);
    if Ready(f.b) {
      DrainFaultPoisons(Parser(f.buf, None, p.replies + [ReplyOf(f.b)]));
    } else {
      FaultPoisons(c, s);
    }
  }

  lemma {:induction false} PoisonedFeed(p: Parser, y: bytes)
    requires ParserPoisoned(p)
    ensures var r := FeedChunk(p, y); Thrown(r.fault) && ParserPoisoned(r.p) && r.p.replies == p.replies
  {
    hide Feed;
    var q := p.(buffer := p.buffer + y);
    if p.builder.Some? {
      PoisonedStays(p.builder.value, p.buffer, y);
      assert Drain(q) == FinishReply(q, Feed(p.builder.value, q.buffer));
      FaultPoisons(p.builder.value, q.buffer);
    } else {
      assert (p.buffer + y)[0] == p.buffer[0];
    }
  }

  /** Feeding on after errors: every call throws and no reply is added. */
  ghost predicate AllThrow(p: Parser, chunks: seq<bytes>)
    requires WfParser(p)
    decreases |chunks|
  {
    chunks == [] ||
    (var r := FeedChunk(p, chunks[0]);
     Thrown(r.fault) && r.p.replies == p.replies && AllThrow(r.p, chunks[1..]))
  }

  lemma {:induction false} PoisonedAllThrow(p: Parser, chunks: seq<bytes>)
    requires ParserPoisoned(p)
    ensures AllThrow(p, chunks)
    decreases |chunks|
  {
    hide Drain, Poisoned;
    if chunks != [] {
      PoisonedFeed(p, chunks[0]);
      PoisonedAllThrow(FeedChunk(p, chunks[0]).p, chunks[1..]);
    }
  }

  /** Once a feed throws, every later feed before `reset` throws and appends no reply. */
  lemma {:induction false} ErrorsAreSticky(p: Parser, a: bytes, chunks: seq<bytes>)
    requires WfParser(p) && Thrown(FeedChunk(p, a).fault)
    ensures AllThrow(FeedChunk(p, a).p, chunks)
  {
    hide Drain, Poisoned;
    DrainFaultPoisons(p.(buffer := p.buffer + a));
    PoisonedAllThrow(FeedChunk(p, a).p, chunks);
  }

  /** After `reset` a parser reads as if new, behind the replies it had already finished. */
  lemma {:induction false} ResetRestarts(p: Parser, s: bytes)
    ensures var r := FeedChunk(Reset(p), s);
            r.fault == ParseStream(s).fault && r.p.replies == p.replies + ParseStream(s).replies
  {
    hide Drain, ParseReply;
    DrainParses(s, p.replies);
    assert Reset(p).(buffer := [] + s) == Parser(s, None, p.replies) by { assert [] + s == s; }
  }

  // ---------- Round trip through the incremental parser ----------

  lemma {:induction false} StreamAppend(vs: seq<Reply>, rest: bytes)
    requires AllEncodable(vs)
    ensures var t := ParseStream(rest);
            ParseStream(EncodeAll(vs) + rest) == Stream(vs + t.replies, t.pending, t.fault)
    decreases |vs|
  {
    hide ParseReply, Encode, Encodable;
    if vs == [] {
      assert EncodeAll(vs) + rest == rest;
    } else {
      var more := EncodeAll(vs[1..]) + rest;
      assert EncodeAll(vs) + rest == Encode(vs[0]) + more;
      RoundTrip(vs[0], more);
      assert ParseStream(EncodeAll(vs) + rest).replies == [vs[0]] + ParseStream(more).replies;
      StreamAppend(vs[1..], rest);
      var t := ParseStream(rest);
      assert [vs[0]] + (vs[1..] + t.replies) == vs + t.replies;
    }
  }

  /**
   Encoded replies followed by anything, cut into chunks anywhere: exactly those replies come out
   first, and what follows is read as if it stood alone.
   */
  lemma {:induction false} IncrementalRoundTrip(vs: seq<Reply>, rest: bytes, chunks: seq<bytes>)
    requires AllEncodable(vs) && Concat(chunks) == EncodeAll(vs) + rest
    ensures var r := FeedAll(EMPTY, chunks);
            var t := ParseStream(rest);
            && r.fault == t.fault
            && r.p.replies == vs + t.replies
            && (t.fault == Fine ==> r.p.(replies := []) == FeedChunk(EMPTY, t.pending).p)
  {
    hide Drain, ParseStream, Concat, Encode;
    IncrementalIsPlain(chunks);
    StreamAppend(vs, rest);
  }

  /** A prefix of an encoded sequence yields a prefix of the sequence, and no error. */
  lemma {:induction false} PrefixParses(vs: seq<Reply>, x: bytes, y: bytes)
    requires AllEncodable(vs) && x + y == EncodeAll(vs)
    ensures var r := FeedChunk(EMPTY, x);
            r.fault == Fine && r.p.replies <= vs && (y == [] ==> r.p == EMPTY.(replies := vs))
  {
    hide Drain, Encode, EncodeAll, ParseReply;
    FeedEmpty(x);
    FeedEmpty(x + y);
    ChunkingNeverMatters(EMPTY, x, y);
    StreamRoundTrip(vs);
    DrainParses(x + y, []);
    assert [] + vs == vs;
    EmptySettled();
    if y == [] { assert x + y == x; }
  }

  lemma NothingParses()
    ensures ParseStream([]) == Stream([], [], Fine)
    ensures FeedChunk(EMPTY, []) == Fedp(EMPTY, Fine)
  {
    assert ParseReply([]) == Incomplete;
    assert EMPTY.buffer + [] == [];
  }
}
