/**
 Pipelining end to end: a client that sends commands with callbacks, a server that reads them from
 the byte stream and answers in order, and the two byte streams between them, cut anywhere. The
 stream to the client may be garbled, and the connection may be lost and opened again. Every
 interleaving of the steps is a run.
 */
module Pipeline {
  import opened Common
  import opened Bytes
  import opened Resp
  import opened ReplyStream
  import opened Connection

  /** A command together with the callback registered for its reply. */
  datatype Request<Callback> = Request(cmd: Command, callback: Callback)

  /** A callback invocation. */
  datatype Call<Callback> = Call(callback: Callback, reply: Reply)

  /** The receive handler: waiting for a read, in its loop over the finished replies, or stopped by an error. */
  datatype Phase = Listening | Calling | Deaf

  /**
   `buffer`, `callbacks` and `reader` are the client's send buffer, callback queue and reply builder;
   `server` is the server's reader. The streams hold the bytes in flight. `requests`, `answers` and
   `calls` record what happened on the present connection; `pristine` says that it started with nothing
   left over from the one before, and `garbled` how many answers were sent before its stream was garbled.
   */
  datatype System<Callback> = System(
    requests: seq<Request<Callback>>,
    buffer: bytes,
    callbacks: seq<Callback>,
    toServer: bytes,
    server: Parser,
    answers: seq<Reply>,
    toClient: bytes,
    reader: Parser,
    phase: Phase,
    calls: seq<Call<Callback>>,
    pristine: bool,
    garbled: Option<nat>)

  /** `Junk` is anything else that arrives at the client; `Reopen` a new connection after a drop or a disconnect. */
  datatype Step<Callback> =
    | Send(request: Request<Callback>)
    | Commit
    | ServerReads(n: nat)
    | ServerAnswers(answer: Reply)
    | Junk(junk: bytes)
    | ClientReads(n: nat)
    | HandOver
    | Reopen(dropped: bool)

  function Start<Callback>(): System<Callback> {
    System([], [], [], [], EMPTY, [], [], EMPTY, Listening, [], true, None)
  }

  /** `connection_receive_handler` once per reply: the front callback is popped and called, if there is one. */
  function Dispatch<Callback>(callbacks: seq<Callback>, calls: seq<Call<Callback>>, replies: seq<Reply>)
    : (r: (seq<Callback>, seq<Call<Callback>>))
    decreases |replies|
  {
    if replies == [] then (callbacks, calls)
    else if callbacks == [] then Dispatch(callbacks, calls, replies[1..])
    else Dispatch(callbacks[1..], calls + [Call(callbacks[0], replies[0])], replies[1..])
  }

  /**
   Which steps are possible. The server answers a command only after having read it. The next read is
   asked for when the loop over the finished replies is over, and never again after an error.
   */
  ghost predicate Enabled<Callback>(s: System<Callback>, step: Step<Callback>) {
    && WfParser(s.server) && WfParser(s.reader)
    && match step
       case Send(request) => Sendable(request.cmd)
       case ServerReads(n) => n <= |s.toServer|
       case ServerAnswers(answer) => |s.answers| < |s.server.replies| && Encodable(answer)
       case ClientReads(n) =>
         s.phase == Listening && n <= |s.toClient| && FeedChunk(s.reader, s.toClient[..n]).fault != Undefined
       case HandOver => s.phase == Calling && s.reader.replies != []
       case _ => true
  }

  /** The receive handler: an error calls the disconnection handler, which clears the callbacks. */
  function Receive<Callback>(s: System<Callback>, n: nat): System<Callback>
    requires WfParser(s.reader) && n <= |s.toClient|
  {
    var r := FeedChunk(s.reader, s.toClient[..n]);
    var t := s.(reader := r.p, toClient := s.toClient[n..]);
    if r.fault != Fine then t.(phase := Deaf, callbacks := [])
    else t.(phase := if r.p.replies == [] then Listening else Calling)
  }

  /** One turn of its loop. */
  function TakeReply<Callback>(s: System<Callback>): System<Callback>
    requires s.reader.replies != []
  {
    var rest := s.reader.replies[1..];
    var d := Dispatch(s.callbacks, s.calls, [s.reader.replies[0]]);
    s.(reader := s.reader.(replies := rest), callbacks := d.0, calls := d.1,
       phase := if rest == [] then Listening else Calling)
  }

  /**
   The connection is gone and a new one is opened. Send buffer and half-read input are cleared, finished
   replies are kept; the callbacks go only if the disconnection handler runs, which it does not when
   the user disconnects. A loop over replies goes on.
   */
  function NewConnection<Callback>(s: System<Callback>, dropped: bool): System<Callback> {
    var callbacks := if dropped then [] else s.callbacks;
    System([], [], callbacks, [], EMPTY, [], [], Reset(s.reader),
           if s.phase == Calling then Calling else Listening, [], s.reader.replies == [] && callbacks == [], None)
  }

  function Next<Callback>(s: System<Callback>, step: Step<Callback>): System<Callback>
    requires Enabled(s, step)
  {
    match step
    case Send(request) =>
      s.(requests := s.requests + [request],
         buffer := s.buffer + Encode(CommandReply(request.cmd)),
         callbacks := s.callbacks + [request.callback])
    case Commit => s.(toServer := s.toServer + s.buffer, buffer := [])
    case ServerReads(n) =>
      s.(server := FeedChunk(s.server, s.toServer[..n]).p, toServer := s.toServer[n..])
    case ServerAnswers(answer) =>
      s.(answers := s.answers + [answer], toClient := s.toClient + Encode(answer))
    case Junk(junk) =>
      s.(toClient := s.toClient + junk, garbled := if s.garbled.None? then Some(|s.answers|) else s.garbled)
    case ClientReads(n) => Receive(s, n)
    case HandOver => TakeReply(s)
    case Reopen(dropped) => NewConnection(s, dropped)
  }

  // ---------- The invariant ----------

  function Commands<Callback>(requests: seq<Request<Callback>>): (cmds: seq<Command>)
    ensures |cmds| == |requests| && forall i :: 0 <= i < |cmds| ==> cmds[i] == requests[i].cmd
  {
    seq(|requests|, i requires 0 <= i < |requests| => requests[i].cmd)
  }

  function Callbacks<Callback>(requests: seq<Request<Callback>>): (cs: seq<Callback>)
    ensures |cs| == |requests| && forall i :: 0 <= i < |cs| ==> cs[i] == requests[i].callback
  {
    seq(|requests|, i requires 0 <= i < |requests| => requests[i].callback)
  }

  /** The first `n` answers, each handed to the callback of the command with the same number. */
  function Paired<Callback>(callbacks: seq<Callback>, answers: seq<Reply>, n: nat): (calls: seq<Call<Callback>>)
    requires n <= |callbacks| && n <= |answers|
    ensures |calls| == n && forall i :: 0 <= i < n ==> calls[i] == Call(callbacks[i], answers[i])
  {
    seq(n, i requires 0 <= i < n => Call(callbacks[i], answers[i]))
  }

  /**
   A reader that has seen `seen` out of the encoding of `vs`, with `more` still to come, and from
   which the replies `taken` have been removed.
   */
  ghost predicate Reads(p: Parser, taken: seq<Reply>, more: bytes, vs: seq<Reply>, seen: bytes) {
    && seen + more == EncodeAll(vs)
    && FeedChunk(EMPTY, seen) == Fedp(p.(replies := taken + p.replies), Fine)
    && WfParser(p)
  }

  /** The server's side, on every connection: it reads what was sent, and answers what it has read. */
  ghost predicate ServerSide<Callback>(s: System<Callback>) {
    && (forall i :: 0 <= i < |s.requests| ==> Sendable(s.requests[i].cmd))
    && AllEncodable(s.answers)
    && (exists seen: bytes ::
          Reads(s.server, [], s.toServer + s.buffer, CommandReplies(Commands(s.requests)), seen))
    && |s.answers| <= |s.server.replies|
    && |s.answers| <= |s.requests|
  }

  /** The client's side, on a clean connection: it reads what was answered, and calls back in order. */
  ghost predicate ClientSide<Callback>(s: System<Callback>) {
    && |s.calls| <= |s.answers| <= |s.requests|
    && (exists seen: bytes :: Reads(s.reader, s.answers[..|s.calls|], s.toClient, s.answers, seen))
    && s.callbacks == Callbacks(s.requests)[|s.calls|..]
    && s.calls == Paired(Callbacks(s.requests), s.answers, |s.calls|)
    && s.phase != Deaf
  }

  /**
   The client's reader on a garbled connection: it has seen `seen` out of the encoding of the first `g`
   answers and of `tail`, which may be anything, and has handed over `handed`. Up to `g` the callbacks
   are in step.
   */
  ghost predicate GarbledReads<Callback>(s: System<Callback>, g: nat, seen: bytes, handed: seq<Reply>, tail: bytes) {
    && g <= |s.answers|
    && seen + s.toClient == EncodeAll(s.answers[..g]) + tail
    && FeedChunk(EMPTY, seen) == Fedp(s.reader.(replies := handed + s.reader.replies), Fine)
    && (|handed| < g ==> |s.calls| == |handed| <= |s.requests| && s.callbacks == Callbacks(s.requests)[|handed|..])
    && (|handed| >= g ==> |s.calls| >= g)
  }

  /** The client's side on a garbled connection: the first `g` calls are still in order. */
  ghost predicate GarbledSide<Callback>(s: System<Callback>, g: nat) {
    && g <= |s.answers| <= |s.requests|
    && (forall k :: 0 <= k < |s.calls| && k < g ==> s.calls[k] == Call(s.requests[k].callback, s.answers[k]))
    && (s.phase != Deaf ==> exists seen, handed, tail :: GarbledReads(s, g, seen, handed, tail))
  }

  ghost predicate PristineSide<Callback>(s: System<Callback>) {
    match s.garbled
    case None => ClientSide(s)
    case Some(g) => GarbledSide(s, g)
  }

  ghost predicate Inv<Callback>(s: System<Callback>) {
    && ServerSide(s)
    && WfParser(s.reader)
    && (s.phase == Calling ==> s.reader.replies != [])
    && (s.pristine ==> PristineSide(s))
  }

  /** Replies already finished and still queued do not influence parsing. */
  lemma {:induction false} DrainBehind(p: Parser, taken: seq<Reply>)
    requires WfParser(p)
    ensures var r := Drain(p);
            Drain(p.(replies := taken + p.replies)) == Fedp(r.p.(replies := taken + r.p.replies), r.fault)
    decreases |p.buffer|
  {
    hide BuilderSpec.Feed;
    var q := p.(replies := taken + p.replies);
    if p.buffer == [] {
    } else if p.builder.Some? {
      BehindStep(p, taken, p.builder.value, p.buffer);
    } else if BuilderSpec.CreateBuilder(p.buffer[0]).Some? {
      BehindStep(p, taken, BuilderSpec.CreateBuilder(p.buffer[0]).value, p.buffer[1..]);
    }
  }

  lemma {:induction false} BehindStep(p: Parser, taken: seq<Reply>, c: BuilderSpec.State, s: bytes)
    requires WfParser(p) && p.buffer != []
    requires if p.builder.Some? then p.builder == Some(c) && s == p.buffer
             else BuilderSpec.CreateBuilder(p.buffer[0]) == Some(c) && s == p.buffer[1..]
    ensures var r := Drain(p);
            Drain(p.(replies := taken + p.replies)) == Fedp(r.p.(replies := taken + r.p.replies), r.fault)
    decreases |p.buffer|, 0
  {
    hide BuilderSpec.Feed, Drain;
    var f := BuilderSpec.Feed(c, s);
    ReplyStep(p, c, s);
    ReplyStep(p.(replies := taken + p.replies), c, s);
    if BuilderSpec.Ready(f.b) {
      var v := BuilderSpec.ReplyOf(f.b);
      DrainBehind(Parser(f.buf, None, p.replies + [v]), taken);
      assert taken + p.replies + [v] == taken + (p.replies + [v]);
    }
  }

  lemma {:induction false} FeedBehind(p: Parser, taken: seq<Reply>, chunk: bytes)
    requires WfParser(p)
    ensures var r := FeedChunk(p, chunk);
            FeedChunk(p.(replies := taken + p.replies), chunk)
            == Fedp(r.p.(replies := taken + r.p.replies), r.fault)
  {
    hide Drain;
    DrainBehind(p.(buffer := p.buffer + chunk), taken);
  }

  /** One read: the reader stays in step with what was sent, whatever the size of the chunk. */
  lemma {:induction false} ReadChunk(p: Parser, taken: seq<Reply>, more: bytes, vs: seq<Reply>, seen: bytes, n: nat)
    requires AllEncodable(vs) && Reads(p, taken, more, vs, seen) && n <= |more|
    ensures var q := FeedChunk(p, more[..n]);
            && q.fault == Fine
            && Reads(q.p, taken, more[n..], vs, seen + more[..n])
            && taken + q.p.replies <= vs
            && p.replies <= q.p.replies
            && (n == |more| ==> taken + q.p.replies == vs)
  {
    hide Drain, Encode, EncodeAll, Encodable;
    var chunk := more[..n];
    assert seen + more == seen + chunk + more[n..];
    PrefixParses(vs, seen + chunk, more[n..]);
    ChunkingNeverMatters(EMPTY, seen, chunk);
    FeedBehind(p, taken, chunk);
  }

  // ---------- Every step keeps the invariant ----------

  /** What a reader has produced is a prefix of what was sent, and all of it once nothing is in flight. */
  lemma {:induction false} ReadsPrefix(p: Parser, taken: seq<Reply>, more: bytes, vs: seq<Reply>, seen: bytes)
    requires AllEncodable(vs) && Reads(p, taken, more, vs, seen)
    ensures taken + p.replies <= vs && (more == [] ==> taken + p.replies == vs)
  {
    hide FeedChunk, EncodeAll, Encodable;
    PrefixParses(vs, seen, more);
  }

  lemma EncodeAllSnoc(vs: seq<Reply>, v: Reply)
    ensures EncodeAll(vs + [v]) == EncodeAll(vs) + Encode(v)
  {
    EncodeAllConcat(vs, [v]);
    assert EncodeAll([v]) == Encode(v) + EncodeAll([]);
  }

  /** One more item behind what is in flight. */
  lemma {:induction false} ReadsMore(p: Parser, taken: seq<Reply>, more: bytes, vs: seq<Reply>, seen: bytes, v: Reply)
    requires Reads(p, taken, more, vs, seen)
    ensures Reads(p, taken, more + Encode(v), vs + [v], seen)
  {
    hide FeedChunk, EncodeAll, Encode;
    EncodeAllSnoc(vs, v);
    assert seen + (more + Encode(v)) == seen + more + Encode(v);
  }

  /** `t` is `s` with more sent, answered or in flight; the client's reader has not moved. */
  ghost predicate Grown<Callback>(s: System<Callback>, t: System<Callback>, x: bytes) {
    && t.reader == s.reader && t.phase == s.phase && t.calls == s.calls
    && s.requests <= t.requests && s.answers <= t.answers && |t.answers| <= |t.requests|
    && t.toClient == s.toClient + x
    && t.callbacks == s.callbacks + Callbacks(t.requests)[|s.requests|..]
  }

  lemma {:induction false} GarbledReadsGrows<Callback>(
    s: System<Callback>, t: System<Callback>, x: bytes, g: nat, seen: bytes, handed: seq<Reply>, tail: bytes)
    requires GarbledReads(s, g, seen, handed, tail) && Grown(s, t, x)
    ensures GarbledReads(t, g, seen, handed, tail + x)
  {
    hide FeedChunk, EncodeAll;
    assert t.answers[..g] == s.answers[..g];
    assert seen + t.toClient == seen + s.toClient + x;
    assert EncodeAll(t.answers[..g]) + (tail + x) == EncodeAll(s.answers[..g]) + tail + x;
    if |handed| < g {
      assert Callbacks(t.requests) == Callbacks(s.requests) + Callbacks(t.requests)[|s.requests|..];
      assert Callbacks(t.requests)[|handed|..] == Callbacks(s.requests)[|handed|..] + Callbacks(t.requests)[|s.requests|..];
    }
  }

  /** Whatever is sent, answered or garbled behind, the first `g` calls stay in order. */
  lemma {:induction false} GarbledGrows<Callback>(s: System<Callback>, t: System<Callback>, x: bytes, g: nat)
    requires GarbledSide(s, g) && Grown(s, t, x)
    ensures GarbledSide(t, g)
  {
    hide GarbledReads;
    if s.phase != Deaf {
      var seen, handed, tail :| GarbledReads(s, g, seen, handed, tail);
      GarbledReadsGrows(s, t, x, g, seen, handed, tail);
      assert GarbledReads(t, g, seen, handed, tail + x);
    }
  }

  lemma {:induction false} SendKeeps<Callback>(s: System<Callback>, request: Request<Callback>)
    requires Inv(s) && Enabled(s, Send(request))
    ensures Inv(Next(s, Send(request)))
  {
    hide Reads, Encode, Encodable, Sendable, CommandReply, GarbledSide;
    var t := Next(s, Send(request));
    var vs, v := CommandReplies(Commands(s.requests)), CommandReply(request.cmd);
    var seen: bytes :| Reads(s.server, [], s.toServer + s.buffer, vs, seen);
    ReadsMore(s.server, [], s.toServer + s.buffer, vs, seen, v);
    assert CommandReplies(Commands(t.requests)) == vs + [v];
    assert s.toServer + s.buffer + Encode(v) == t.toServer + t.buffer;
    assert Reads(t.server, [], t.toServer + t.buffer, CommandReplies(Commands(t.requests)), seen);
    assert Callbacks(t.requests) == Callbacks(s.requests) + [request.callback];
    if s.pristine && s.garbled.Some? { GarbledGrows(s, t, [], s.garbled.value); }
  }

  lemma {:induction false} CommitKeeps<Callback>(s: System<Callback>)
    requires Inv(s) && Enabled(s, Commit)
    ensures Inv(Next(s, Commit))
  {
    hide Reads, Encodable, Sendable, GarbledSide;
    var t := Next(s, Commit);
    assert t.toServer + t.buffer == s.toServer + s.buffer;
    if s.pristine && s.garbled.Some? { GarbledGrows(s, t, [], s.garbled.value); }
  }

  /** What the server does with its own reader is nothing to the client. */
  lemma PristineSideSame<Callback>(s: System<Callback>, t: System<Callback>)
    requires PristineSide(s) && t == s.(server := t.server, toServer := t.toServer)
    ensures PristineSide(t)
  {
    hide Reads, GarbledReads;
    if s.garbled.Some? { GarbledGrows(s, t, [], s.garbled.value); }
  }

  /** One read by the server, whose reader keeps all replies. */
  lemma {:induction false} ServerChunk(server: Parser, toServer: bytes, buffer: bytes, vs: seq<Reply>, seen: bytes, n: nat)
    requires AllEncodable(vs) && Reads(server, [], toServer + buffer, vs, seen) && n <= |toServer|
    ensures var q := FeedChunk(server, toServer[..n]).p;
            Reads(q, [], toServer[n..] + buffer, vs, seen + toServer[..n]) && |server.replies| <= |q.replies|
  {
    hide Reads, FeedChunk, Encodable;
    var more := toServer + buffer;
    assert more[..n] == toServer[..n] && more[n..] == toServer[n..] + buffer;
    ReadChunk(server, [], more, vs, seen, n);
  }

  lemma {:induction false} ServerReadsKeeps<Callback>(s: System<Callback>, n: nat)
    requires Inv(s) && Enabled(s, ServerReads(n))
    ensures Inv(Next(s, ServerReads(n)))
  {
    hide FeedChunk, Reads, Encodable, PristineSide, Sendable, CommandReply;
    var t := Next(s, ServerReads(n));
    if s.pristine { PristineSideSame(s, t); }
    var vs := CommandReplies(Commands(s.requests));
    var seen: bytes :| Reads(s.server, [], s.toServer + s.buffer, vs, seen);
    CommandsEncodable(Commands(s.requests));
    ServerChunk(s.server, s.toServer, s.buffer, vs, seen, n);
    assert Reads(t.server, [], t.toServer + t.buffer, vs, seen + s.toServer[..n]);
  }

  lemma {:induction false} AnswerArrives<Callback>(s: System<Callback>, answer: Reply, t: System<Callback>)
    requires ClientSide(s) && |s.answers| < |s.requests|
    requires t == s.(answers := s.answers + [answer], toClient := s.toClient + Encode(answer))
    ensures ClientSide(t)
  {
    hide Reads, Encode;
    var got: bytes :| Reads(s.reader, s.answers[..|s.calls|], s.toClient, s.answers, got);
    ReadsMore(s.reader, s.answers[..|s.calls|], s.toClient, s.answers, got, answer);
    assert t.answers[..|t.calls|] == s.answers[..|s.calls|];
    assert Reads(t.reader, t.answers[..|t.calls|], t.toClient, t.answers, got);
  }

  lemma {:induction false} ServerAnswersKeeps<Callback>(s: System<Callback>, answer: Reply)
    requires Inv(s) && Enabled(s, ServerAnswers(answer))
    ensures Inv(Next(s, ServerAnswers(answer)))
  {
    hide Reads, Encode, Encodable, Sendable, ClientSide, GarbledSide, CommandReply;
    var t := Next(s, ServerAnswers(answer));
    var vs := CommandReplies(Commands(s.requests));
    var seen: bytes :| Reads(s.server, [], s.toServer + s.buffer, vs, seen);
    CommandsEncodable(Commands(s.requests));
    ReadsPrefix(s.server, [], s.toServer + s.buffer, vs, seen);
    assert [] + s.server.replies == s.server.replies;
    if s.pristine && s.garbled.None? { AnswerArrives(s, answer, t); }
    if s.pristine && s.garbled.Some? { GarbledGrows(s, t, Encode(answer), s.garbled.value); }
  }

  /** A reply without a callback is dropped; calls already made are never changed. */
  lemma DispatchAny<Callback>(cs: seq<Callback>, calls: seq<Call<Callback>>, v: Reply)
    ensures cs == [] ==> Dispatch(cs, calls, [v]) == (cs, calls)
    ensures cs != [] ==> Dispatch(cs, calls, [v]) == (cs[1..], calls + [Call(cs[0], v)])
  {
    assert [v][1..] == [];
  }

  /** As long as callbacks last, replies and callbacks are paired off in order. */
  lemma {:induction false} DispatchPairs<Callback>(cs: seq<Callback>, answers: seq<Reply>, k: nat, replies: seq<Reply>)
    requires k + |replies| <= |cs| && k + |replies| <= |answers| && answers[k..k + |replies|] == replies
    ensures Dispatch(cs[k..], Paired(cs, answers, k), replies)
            == (cs[k + |replies|..], Paired(cs, answers, k + |replies|))
    decreases |replies|
  {
    if replies != [] {
      assert replies[0] == answers[k];
      assert cs[k..][1..] == cs[k + 1..];
      assert Paired(cs, answers, k) + [Call(cs[k], answers[k])] == Paired(cs, answers, k + 1);
      DispatchPairs(cs, answers, k + 1, replies[1..]);
    }
  }

  /** What the client does with its own reader is nothing to the server. */
  lemma ServerSideSame<Callback>(s: System<Callback>, t: System<Callback>)
    requires ServerSide(s) && t.requests == s.requests && t.answers == s.answers && t.server == s.server
    requires t.toServer == s.toServer && t.buffer == s.buffer
    ensures ServerSide(t) && AllEncodable(s.answers)
  {
    hide Reads, Sendable, Encodable;
  }

  /** One read on a garbled connection, if it raises no error. */
  lemma {:induction false} GarbledChunk<Callback>(
    s: System<Callback>, n: nat, g: nat, seen: bytes, handed: seq<Reply>, tail: bytes)
    requires GarbledReads(s, g, seen, handed, tail) && WfParser(s.reader) && n <= |s.toClient|
    requires FeedChunk(s.reader, s.toClient[..n]).fault == Fine
    ensures GarbledReads(Receive(s, n), g, seen + s.toClient[..n], handed, tail)
  {
    hide Drain, EncodeAll;
    var chunk := s.toClient[..n];
    assert seen + chunk + s.toClient[n..] == seen + s.toClient;
    ChunkingNeverMatters(EMPTY, seen, chunk);
    FeedBehind(s.reader, handed, chunk);
  }

  lemma {:induction false} GarbledReceives<Callback>(s: System<Callback>, n: nat, g: nat)
    requires GarbledSide(s, g) && WfParser(s.reader) && s.phase == Listening && n <= |s.toClient|
    ensures GarbledSide(Receive(s, n), g)
  {
    hide GarbledReads, FeedChunk;
    var seen, handed, tail :| GarbledReads(s, g, seen, handed, tail);
    if FeedChunk(s.reader, s.toClient[..n]).fault == Fine {
      GarbledChunk(s, n, g, seen, handed, tail);
      assert GarbledReads(Receive(s, n), g, seen + s.toClient[..n], handed, tail);
    }
  }

  lemma {:induction false} ClientReadsKeeps<Callback>(s: System<Callback>, n: nat)
    requires Inv(s) && Enabled(s, ClientReads(n))
    ensures Inv(Next(s, ClientReads(n)))
  {
    hide FeedChunk, Reads, Encodable, ServerSide, GarbledSide;
    var t := Next(s, ClientReads(n));
    ServerSideSame(s, t);
    if s.pristine && s.garbled.Some? { GarbledReceives(s, n, s.garbled.value); }
    if s.pristine && s.garbled.None? {
      var taken := s.answers[..|s.calls|];
      var seen: bytes :| Reads(s.reader, taken, s.toClient, s.answers, seen);
      ReadChunk(s.reader, taken, s.toClient, s.answers, seen, n);
      assert Reads(t.reader, taken, t.toClient, t.answers, seen + s.toClient[..n]);
    }
  }

  /** The oldest queued reply is the next answer. */
  lemma FrontIsNext(answers: seq<Reply>, k: nat, queued: seq<Reply>)
    requires k <= |answers| && queued != [] && answers[..k] + queued <= answers
    ensures k < |answers| && answers[k..k + 1] == [queued[0]]
    ensures answers[..k + 1] + queued[1..] == answers[..k] + queued
  {
    assert (answers[..k] + queued)[k] == queued[0];
  }

  /** Handing over the oldest queued reply, which is the next answer. */
  lemma {:induction false} TakeNext(p: Parser, answers: seq<Reply>, k: nat, more: bytes, seen: bytes)
    requires k <= |answers| && Reads(p, answers[..k], more, answers, seen) && AllEncodable(answers) && p.replies != []
    ensures k < |answers| && answers[k..k + 1] == [p.replies[0]]
    ensures Reads(p.(replies := p.replies[1..]), answers[..k + 1], more, answers, seen)
  {
    hide FeedChunk, EncodeAll, Encodable;
    ReadsPrefix(p, answers[..k], more, answers, seen);
    FrontIsNext(answers, k, p.replies);
  }

  lemma OneChunk(x: bytes)
    ensures Concat([x]) == x && FeedAll(EMPTY, [x]) == FeedChunk(EMPTY, x)
  {
    hide FeedChunk;
    assert [x][1..] == [] && x + [] == x;
  }

  /** What a reader makes of encoded replies followed by anything: in front it is those replies. */
  lemma {:induction false} FrontOfGarbled(vs: seq<Reply>, seen: bytes, more: bytes, tail: bytes)
    requires AllEncodable(vs) && seen + more == EncodeAll(vs) + tail && FeedChunk(EMPTY, seen).fault == Fine
    ensures var rs := FeedChunk(EMPTY, seen).p.replies; forall k :: 0 <= k < |rs| && k < |vs| ==> rs[k] == vs[k]
  {
    hide FeedChunk, EncodeAll, Encodable, ParseStream;
    var all := EncodeAll(vs);
    assert (seen + more)[..|seen|] == seen && (all + tail)[..|all|] == all;
    if |seen| <= |all| {
      assert seen == all[..|seen|];
      PrefixParses(vs, seen, all[|seen|..]);
    } else {
      assert seen == all + seen[|all|..];
      OneChunk(seen);
      IncrementalRoundTrip(vs, seen[|all|..], [seen]);
    }
  }

  /** Handing over on a garbled connection: the first `g` calls are in order. */
  lemma {:induction false} GarbledTakes<Callback>(s: System<Callback>, g: nat)
    requires GarbledSide(s, g) && AllEncodable(s.answers) && s.phase == Calling && s.reader.replies != []
    ensures GarbledSide(TakeReply(s), g)
  {
    hide FeedChunk, EncodeAll, Encodable, Dispatch;
    var seen, handed, tail :| GarbledReads(s, g, seen, handed, tail);
    var vs, v, t := s.answers[..g], s.reader.replies[0], TakeReply(s);
    var k := |handed|;
    FrontOfGarbled(vs, seen, s.toClient, tail);
    var rs := handed + s.reader.replies;
    assert rs[k] == v && handed + [v] + s.reader.replies[1..] == rs;
    DispatchAny(s.callbacks, s.calls, v);
    if k < g {
      assert vs[k] == s.answers[k] == v;
      assert s.callbacks[0] == s.requests[k].callback && s.callbacks[1..] == Callbacks(s.requests)[k + 1..];
    }
    assert GarbledReads(t, g, seen, handed + [v], tail);
  }

  lemma {:induction false} HandOverKeeps<Callback>(s: System<Callback>)
    requires Inv(s) && Enabled(s, HandOver)
    ensures Inv(Next(s, HandOver))
  {
    hide Reads, Encodable, Dispatch, ServerSide, GarbledSide;
    var t := Next(s, HandOver);
    ServerSideSame(s, t);
    if s.pristine && s.garbled.Some? { GarbledTakes(s, s.garbled.value); }
    if s.pristine && s.garbled.None? {
      var k := |s.calls|;
      var seen: bytes :| Reads(s.reader, s.answers[..k], s.toClient, s.answers, seen);
      TakeNext(s.reader, s.answers, k, s.toClient, seen);
      DispatchPairs(Callbacks(s.requests), s.answers, k, [s.reader.replies[0]]);
      assert Reads(t.reader, t.answers[..|t.calls|], t.toClient, t.answers, seen);
    }
  }

  lemma {:induction false} StartReads()
    ensures Reads(EMPTY, [], [], [], [])
  {
    hide FeedChunk;
    NothingParses();
    assert EMPTY.(replies := [] + []) == EMPTY;
    assert EncodeAll([]) == [];
  }

  /** A new connection, whatever was left over. */
  lemma {:induction false} FreshServerSide<Callback>(s: System<Callback>)
    requires s.requests == [] && s.buffer == [] && s.toServer == [] && s.server == EMPTY && s.answers == []
    ensures ServerSide(s)
  {
    hide Reads, Sendable, Encodable;
    StartReads();
    assert CommandReplies(Commands(s.requests)) == [] && s.toServer + s.buffer == [];
    assert Reads(s.server, [], s.toServer + s.buffer, CommandReplies(Commands(s.requests)), []);
  }

  lemma {:induction false} StartInv<Callback>()
    ensures Inv(Start<Callback>())
  {
    hide Reads, Paired, Callbacks, Sendable, Encodable;
    StartReads();
    var s := Start<Callback>();
    FreshServerSide(s);
    assert Reads(s.reader, s.answers[..|s.calls|], s.toClient, s.answers, []);
  }

  /** A connection that starts with nothing left over starts like the first one. */
  lemma CleanStart<Callback>(s: System<Callback>, dropped: bool)
    requires s.phase == Calling ==> s.reader.replies != []
    ensures s.reader.replies == [] && (dropped || s.callbacks == []) <==> NewConnection(s, dropped).pristine
    ensures NewConnection(s, dropped).pristine ==> NewConnection(s, dropped) == Start()
  {
  }

  lemma {:induction false} ReopenKeeps<Callback>(s: System<Callback>, dropped: bool)
    requires Inv(s)
    ensures Inv(NewConnection(s, dropped))
  {
    hide ServerSide, PristineSide;
    CleanStart(s, dropped);
    FreshServerSide(NewConnection(s, dropped));
    StartInv<Callback>();
  }

  /** The stream is garbled for the first time: all answers so far are in front. */
  lemma {:induction false} GarbledStarts<Callback>(s: System<Callback>, junk: bytes)
    requires ClientSide(s)
    ensures GarbledSide(s.(toClient := s.toClient + junk, garbled := Some(|s.answers|)), |s.answers|)
  {
    hide FeedChunk, EncodeAll;
    var g, k, t := |s.answers|, |s.calls|, s.(toClient := s.toClient + junk, garbled := Some(|s.answers|));
    var seen: bytes :| Reads(s.reader, s.answers[..k], s.toClient, s.answers, seen);
    assert s.answers[..g] == s.answers;
    assert seen + t.toClient == seen + s.toClient + junk;
    assert GarbledReads(t, g, seen, s.answers[..k], junk);
  }

  lemma GarbledBounds<Callback>(s: System<Callback>, g: nat)
    requires GarbledSide(s, g)
    ensures |s.answers| <= |s.requests|
  {
  }

  lemma {:induction false} JunkKeeps<Callback>(s: System<Callback>, junk: bytes)
    requires Inv(s) && Enabled(s, Junk(junk))
    ensures Inv(Next(s, Junk(junk)))
  {
    hide ClientSide, GarbledSide, ServerSide;
    var t := Next(s, Junk(junk));
    ServerSideSame(s, t);
    if s.pristine && s.garbled.None? { GarbledStarts(s, junk); }
    if s.pristine && s.garbled.Some? {
      GarbledBounds(s, s.garbled.value);
      GarbledGrows(s, t, junk, s.garbled.value);
    }
  }

  lemma {:induction false} StepKeeps<Callback>(s: System<Callback>, step: Step<Callback>)
    requires Inv(s) && Enabled(s, step)
    ensures Inv(Next(s, step))
  {
    hide Inv, Receive, TakeReply, NewConnection;
    match step
    case Send(request) => SendKeeps(s, request);
    case Commit => CommitKeeps(s);
    case ServerReads(n) => ServerReadsKeeps(s, n);
    case ServerAnswers(answer) => ServerAnswersKeeps(s, answer);
    case Junk(junk) => JunkKeeps(s, junk);
    case ClientReads(n) => ClientReadsKeeps(s, n);
    case HandOver => HandOverKeeps(s);
    case Reopen(dropped) => ReopenKeeps(s, dropped);
  }

  /**
   First in, first out on the present connection: the k-th command the server reads is the k-th command
   sent, the k-th callback run is that of the k-th command and it is given the k-th answer; and nothing
   is left undone once nothing is in flight.
   */
  ghost predicate Fifo<Callback>(t: System<Callback>) {
    && |t.calls| <= |t.answers| <= |t.server.replies| <= |t.requests|
    && (forall k :: 0 <= k < |t.server.replies| ==> t.server.replies[k] == CommandReply(t.requests[k].cmd))
    && (forall k :: 0 <= k < |t.calls| ==> t.calls[k] == Call(t.requests[k].callback, t.answers[k]))
    && t.phase != Deaf
    && (t.toClient == [] && t.reader.replies == [] ==> |t.calls| == |t.answers|)
    && (t.toServer + t.buffer == [] ==> |t.server.replies| == |t.requests|)
  }

  /** The queue holds exactly the callbacks of the commands that have not been answered to the user. */
  ghost predicate QueueInStep<Callback>(t: System<Callback>) {
    |t.calls| <= |t.requests| && t.callbacks == Callbacks(t.requests)[|t.calls|..]
  }

  predicate Clean<Callback>(s: System<Callback>) { s.pristine && s.garbled.None? }

  lemma {:induction false} InvMeans<Callback>(t: System<Callback>)
    requires Inv(t) && Clean(t)
    ensures Fifo(t) && QueueInStep(t)
  {
    hide Reads, Encodable, CommandReply, Sendable;
    var vs := CommandReplies(Commands(t.requests));
    var seen: bytes :| Reads(t.server, [], t.toServer + t.buffer, vs, seen);
    CommandsEncodable(Commands(t.requests));
    ReadsPrefix(t.server, [], t.toServer + t.buffer, vs, seen);
    assert [] + t.server.replies == t.server.replies;
    var got: bytes :| Reads(t.reader, t.answers[..|t.calls|], t.toClient, t.answers, got);
    ReadsPrefix(t.reader, t.answers[..|t.calls|], t.toClient, t.answers, got);
    assert t.answers[..|t.calls|] + [] == t.answers[..|t.calls|];
  }

  // ---------- Runs ----------

  /** `t` is reached from `s` by the given steps, each possible when taken. */
  ghost predicate Run<Callback(!new)>(s: System<Callback>, steps: seq<Step<Callback>>, t: System<Callback>)
    decreases |steps|
  {
    if steps == [] then s == t else Enabled(s, steps[0]) && Run(Next(s, steps[0]), steps[1..], t)
  }

  lemma {:induction false} RunKeeps<Callback(!new)>(s: System<Callback>, steps: seq<Step<Callback>>, t: System<Callback>)
    requires Inv(s) && Run(s, steps, t)
    ensures Inv(t)
    decreases |steps|
  {
    hide Inv, Next, Enabled;
    if steps != [] {
      StepKeeps(s, steps[0]);
      RunKeeps(Next(s, steps[0]), steps[1..], t);
    }
  }

  lemma {:induction false} RunThen<Callback(!new)>(
    s: System<Callback>, xs: seq<Step<Callback>>, t: System<Callback>, ys: seq<Step<Callback>>, u: System<Callback>)
    requires Run(s, xs, t) && Run(t, ys, u)
    ensures Run(s, xs + ys, u)
    decreases |xs|
  {
    hide Next, Enabled;
    if xs == [] {
      assert xs + ys == ys;
    } else {
      RunThen(Next(s, xs[0]), xs[1..], t, ys, u);
      assert (xs + ys)[1..] == xs[1..] + ys;
    }
  }

  /**
   In every run, whatever the order of sends, commits, reads and callbacks, however both streams are cut,
   and however often the connection was lost before: a clean connection is first in, first out.
   */
  lemma {:induction false} PipeliningIsFifo<Callback(!new)>(steps: seq<Step<Callback>>, t: System<Callback>)
    requires Run(Start(), steps, t)
    ensures Clean(t) ==> Fifo(t) && QueueInStep(t)
  {
    hide Inv, Run, Fifo, QueueInStep;
    StartInv<Callback>();
    RunKeeps(Start(), steps, t);
    if Clean(t) { InvMeans(t); }
  }

  /**
   In every run, on a connection that started with nothing left over and was garbled after `g` answers:
   of the callbacks run, whatever they were given later, the first `g` are those of the first commands,
   each with its own answer.
   */
  lemma {:induction false} FifoInFrontOfJunk<Callback(!new)>(steps: seq<Step<Callback>>, t: System<Callback>, g: nat)
    requires Run(Start(), steps, t) && t.pristine && t.garbled == Some(g)
    ensures g <= |t.answers| <= |t.requests|
    ensures forall k :: 0 <= k < |t.calls| && k < g ==> t.calls[k] == Call(t.requests[k].callback, t.answers[k])
  {
    hide Run, ServerSide, GarbledReads;
    StartInv<Callback>();
    RunKeeps(Start(), steps, t);
  }

  /** After an error no callback runs until there is a new connection. */
  lemma {:induction false} SilentAfterError<Callback(!new)>(s: System<Callback>, steps: seq<Step<Callback>>, t: System<Callback>)
    requires s.phase == Deaf && Run(s, steps, t) && forall i :: 0 <= i < |steps| ==> !steps[i].Reopen?
    ensures t.calls == s.calls && t.phase == Deaf
    decreases |steps|
  {
    hide FeedChunk, Encode;
    if steps != [] { SilentAfterError(Next(s, steps[0]), steps[1..], t); }
  }

  // ---------- What a new connection needs ----------

  /** The steps of one connection whose stream is not garbled. */
  predicate Undisturbed<Callback>(steps: seq<Step<Callback>>) {
    forall i :: 0 <= i < |steps| ==> !steps[i].Junk? && !steps[i].Reopen?
  }

  lemma {:induction false} StaysClean<Callback(!new)>(s: System<Callback>, steps: seq<Step<Callback>>, t: System<Callback>)
    requires Undisturbed(steps) && Run(s, steps, t)
    ensures t.pristine == s.pristine && t.garbled == s.garbled
    decreases |steps|
  {
    hide FeedChunk, Encode;
    if steps != [] { StaysClean(Next(s, steps[0]), steps[1..], t); }
  }

  /** A connection on which one command has been sent and answered, and nothing has been read yet. */
  function Answered<Callback>(s: System<Callback>, request: Request<Callback>, answer: Reply): System<Callback> {
    s.(requests := [request], callbacks := s.callbacks + [request.callback],
       server := EMPTY.(replies := [CommandReply(request.cmd)]), answers := [answer], toClient := Encode(answer))
  }

  ghost predicate JustOpened<Callback>(s: System<Callback>) {
    && s.requests == [] && s.buffer == [] && s.toServer == [] && s.server == EMPTY
    && s.answers == [] && s.toClient == [] && WfParser(s.reader)
  }

  function Exchange<Callback>(request: Request<Callback>, answer: Reply): seq<Step<Callback>> {
    [Send(request), Commit, ServerReads(|Encode(CommandReply(request.cmd))|), ServerAnswers(answer)]
  }

  lemma {:induction false} FeedOne(v: Reply)
    requires Encodable(v)
    ensures FeedChunk(EMPTY, Encode(v)) == Fedp(EMPTY.(replies := [v]), Fine)
  {
    hide FeedChunk;
    assert AllEncodable([v]);
    assert EncodeAll([v]) == Encode(v) + EncodeAll([]) && EncodeAll([]) == [];
    assert Encode(v) + [] == Encode(v) == EncodeAll([v]);
    PrefixParses([v], Encode(v), []);
  }

  lemma {:induction false} TwoSteps<Callback(!new)>(
    s: System<Callback>, a: Step<Callback>, s1: System<Callback>, b: Step<Callback>, s2: System<Callback>)
    requires Enabled(s, a) && Enabled(s1, b) && s1 == Next(s, a) && s2 == Next(s1, b)
    ensures Run(s, [a, b], s2)
  {
    hide Enabled, Next;
    assert [a, b][1..] == [b] && [b][1..] == [];
    assert Run(s2, [], s2) && Run(s1, [b], s2);
  }

  lemma {:induction false} SendAndCommit<Callback(!new)>(s: System<Callback>, request: Request<Callback>)
    requires JustOpened(s) && Sendable(request.cmd)
    ensures Run(s, [Send(request), Commit],
                s.(requests := [request], callbacks := s.callbacks + [request.callback],
                   toServer := Encode(CommandReply(request.cmd))))
  {
    hide FeedChunk, Encode, Sendable;
    var enc := Encode(CommandReply(request.cmd));
    var s1 := s.(requests := [request], buffer := enc, callbacks := s.callbacks + [request.callback]);
    assert [] + [request] == [request] && [] + enc == enc;
    TwoSteps(s, Send(request), s1, Commit, s1.(toServer := enc, buffer := []));
  }

  lemma {:induction false} ReadAndAnswer<Callback(!new)>(s: System<Callback>, v: Reply, answer: Reply)
    requires s.server == EMPTY && s.answers == [] && s.toClient == [] && WfParser(s.reader)
    requires Encodable(v) && Encodable(answer) && s.toServer == Encode(v)
    ensures Run(s, [ServerReads(|Encode(v)|), ServerAnswers(answer)],
                s.(server := EMPTY.(replies := [v]), toServer := [], answers := [answer], toClient := Encode(answer)))
  {
    hide FeedChunk, Encode, Encodable;
    FeedOne(v);
    var enc := Encode(v);
    assert enc[..|enc|] == enc && enc[|enc|..] == [];
    assert [] + [answer] == [answer] && [] + Encode(answer) == Encode(answer);
    var s1 := s.(server := EMPTY.(replies := [v]), toServer := []);
    TwoSteps(s, ServerReads(|enc|), s1, ServerAnswers(answer), s1.(answers := [answer], toClient := Encode(answer)));
  }

  lemma {:induction false} ExchangeRuns<Callback(!new)>(s: System<Callback>, request: Request<Callback>, answer: Reply)
    requires JustOpened(s) && Sendable(request.cmd) && Encodable(answer)
    ensures Run(s, Exchange(request, answer), Answered(s, request, answer))
  {
    var v := CommandReply(request.cmd);
    CommandsEncodable([request.cmd]);
    assert v == CommandReplies([request.cmd])[0];
    hide Run, Encode, Encodable, Sendable, CommandReply;
    var n := |Encode(v)|;
    var s1 := s.(requests := [request], callbacks := s.callbacks + [request.callback], toServer := Encode(v));
    SendAndCommit(s, request);
    ReadAndAnswer(s1, v, answer);
    RunThen(s, [Send(request), Commit], s1, [ServerReads(n), ServerAnswers(answer)], Answered(s, request, answer));
    assert [Send(request), Commit] + [ServerReads(n), ServerAnswers(answer)] == Exchange(request, answer);
  }

  /** The steps after which the first callback of a new connection has been run. */
  function FirstCall<Callback>(request: Request<Callback>, answer: Reply): seq<Step<Callback>> {
    Exchange(request, answer) + [ClientReads(|Encode(answer)|), HandOver]
  }

  /** The first read of a connection, with replies queued from before in front, and the first call. */
  lemma {:induction false} ReadAndCall<Callback(!new)>(s: System<Callback>, queued: seq<Reply>, answer: Reply)
    requires s.reader == Parser([], None, queued) && WfParser(s.server) && s.phase == Listening && Encodable(answer)
    requires s.toClient == Encode(answer) && s.callbacks != [] && s.calls == []
    ensures var all := queued + [answer];
            var t := s.(reader := Parser([], None, all[1..]), toClient := [], callbacks := s.callbacks[1..],
                        calls := [Call(s.callbacks[0], all[0])], phase := if queued == [] then Listening else Calling);
            Run(s, [ClientReads(|Encode(answer)|), HandOver], t)
  {
    hide FeedChunk, Encode, Encodable, Dispatch;
    var n, all := |Encode(answer)|, queued + [answer];
    FeedOne(answer);
    FeedBehind(EMPTY, queued, Encode(answer));
    assert EMPTY.(replies := queued + []) == s.reader;
    assert Encode(answer)[..n] == Encode(answer) && Encode(answer)[n..] == [];
    var s1 := s.(reader := Parser([], None, all), toClient := [], phase := Calling);
    assert s1 == Receive(s, n);
    var call := Call(s.callbacks[0], all[0]);
    DispatchAny(s.callbacks, [], all[0]);
    assert [] + [call] == [call] && (all[1..] == [] <==> queued == []);
    TwoSteps(s, ClientReads(n), s1, HandOver, TakeReply(s1));
  }

  /**
   What the first call of a new connection is made of, whatever was left over: the oldest callback, a
   waiting one if there is any, and the oldest reply, a queued one if there is any.
   */
  lemma {:induction false} FirstCallRuns<Callback(!new)>(
    s: System<Callback>, dropped: bool, request: Request<Callback>, answer: Reply) returns (t: System<Callback>)
    requires s.phase != Calling && Sendable(request.cmd) && Encodable(answer)
    ensures Run(NewConnection(s, dropped), FirstCall(request, answer), t)
    ensures t.requests == [request] && t.answers == [answer]
    ensures var cs := (if dropped then [] else s.callbacks) + [request.callback];
            t.calls == [Call(cs[0], (s.reader.replies + [answer])[0])]
  {
    hide Encode, Encodable, Run, Exchange, Sendable, CommandReply;
    var queued, all := s.reader.replies, s.reader.replies + [answer];
    var s0 := NewConnection(s, dropped);
    var s1 := Answered(s0, request, answer);
    ExchangeRuns(s0, request, answer);
    ReadAndCall(s1, queued, answer);
    t := s1.(reader := Parser([], None, all[1..]), toClient := [], callbacks := s1.callbacks[1..],
             calls := [Call(s1.callbacks[0], all[0])], phase := if queued == [] then Listening else Calling);
    RunThen(s0, Exchange(request, answer), s1, [ClientReads(|Encode(answer)|), HandOver], t);
  }

  /**
   A finished reply that was still queued when the connection was lost is handed over first on the next
   one: whatever the server answers, the first callback is given the old reply.
   */
  lemma {:induction false} OldReplyIsDelivered<Callback(!new)>(
    s: System<Callback>, request: Request<Callback>, answer: Reply) returns (t: System<Callback>)
    requires s.reader.replies != [] && s.phase != Calling && Sendable(request.cmd) && Encodable(answer)
    ensures Run(NewConnection(s, true), FirstCall(request, answer), t)
    ensures t.requests == [request] && t.answers == [answer]
    ensures t.calls == [Call(request.callback, s.reader.replies[0])]
  {
    hide Run, NewConnection, FirstCall, Sendable, Encodable;
    t := FirstCallRuns(s, true, request, answer);
  }

  /**
   A callback that was still waiting when the user disconnected is the first to be called on the next
   connection: it is given the answer to a command that was sent with another callback.
   */
  lemma {:induction false} OldCallbackIsCalled<Callback(!new)>(
    s: System<Callback>, request: Request<Callback>, answer: Reply) returns (t: System<Callback>)
    requires s.reader.replies == [] && s.callbacks != [] && s.phase != Calling
    requires Sendable(request.cmd) && Encodable(answer)
    ensures Run(NewConnection(s, false), FirstCall(request, answer), t)
    ensures t.requests == [request] && t.answers == [answer] && t.calls == [Call(s.callbacks[0], answer)]
  {
    hide Run, NewConnection, FirstCall, Sendable, Encodable;
    t := FirstCallRuns(s, false, request, answer);
  }

  /** A loop that was interrupted goes on, with the first callback of the new connection. */
  lemma {:induction false} OldReplyGoesOn<Callback(!new)>(s: System<Callback>, dropped: bool, request: Request<Callback>)
    returns (t: System<Callback>)
    requires Inv(s) && s.phase == Calling && Sendable(request.cmd)
    ensures Run(NewConnection(s, dropped), [Send(request), HandOver], t)
    ensures t.answers == [] && |t.calls| == 1
  {
    hide ServerSide, PristineSide, Encode, Sendable, Dispatch;
    var s0 := NewConnection(s, dropped);
    var s1 := Next(s0, Send(request));
    DispatchAny(s1.callbacks, [], s.reader.replies[0]);
    t := TakeReply(s1);
    TwoSteps(s0, Send(request), s1, HandOver, t);
  }

  /** Every undisturbed run from here is first in, first out. */
  ghost predicate FifoFrom<Callback(!new)>(s: System<Callback>) {
    forall steps, t :: Undisturbed(steps) && Run(s, steps, t) ==> Fifo(t)
  }

  lemma {:induction false} FifoFromStart<Callback(!new)>()
    ensures FifoFrom(Start<Callback>())
  {
    hide Run, Fifo, Undisturbed;
    forall steps, t | Undisturbed(steps) && Run(Start<Callback>(), steps, t) ensures Fifo(t) {
      StaysClean(Start(), steps, t);
      PipeliningIsFifo(steps, t);
    }
  }

  /** What is left over is delivered wrongly, or to the wrong callback. */
  lemma {:induction false} LeftoverBreaks<Callback(!new)>(s: System<Callback>, dropped: bool, request: Request<Callback>)
    requires Inv(s) && Sendable(request.cmd) && !(s.reader.replies == [] && (dropped || s.callbacks == []))
    requires !dropped && s.callbacks != [] ==> request.callback != s.callbacks[0]
    ensures !FifoFrom(NewConnection(s, dropped))
  {
    hide Inv, Run, NewConnection;
    if s.phase == Calling {
      var t := OldReplyGoesOn(s, dropped, request);
      assert Undisturbed([Send(request), HandOver]);
      assert !Fifo(t);
    } else {
      var answer := if s.reader.replies != [] && s.reader.replies[0] == Null then Integer(0) else Null;
      var t := FirstCallRuns(s, dropped, request, answer);
      assert Undisturbed(FirstCall(request, answer));
      assert t.calls[0] != Call(t.requests[0].callback, t.answers[0]);
      assert !Fifo(t);
    }
  }

  lemma QueueWhileCalling<Callback>(s: System<Callback>)
    requires Inv(s)
    ensures s.phase == Calling ==> s.reader.replies != []
  {
  }

  /**
   When first in, first out starts again. On a new connection it holds in every undisturbed run if and
   only if no finished reply was queued when the old one was lost and, where the user disconnected, no
   callback was waiting either. The next command is assumed to come with a callback of its own.
   */
  lemma {:induction false} FifoRestarts<Callback(!new)>(
    steps: seq<Step<Callback>>, s: System<Callback>, dropped: bool, request: Request<Callback>)
    requires Run(Start(), steps, s) && Sendable(request.cmd)
    requires !dropped && s.callbacks != [] ==> request.callback != s.callbacks[0]
    ensures FifoFrom(NewConnection(s, dropped)) <==> s.reader.replies == [] && (dropped || s.callbacks == [])
  {
    hide Run, Fifo, FifoFrom, Inv, NewConnection;
    StartInv<Callback>();
    RunKeeps(Start(), steps, s);
    QueueWhileCalling(s);
    CleanStart(s, dropped);
    if s.reader.replies == [] && (dropped || s.callbacks == []) {
      FifoFromStart<Callback>();
    } else {
      LeftoverBreaks(s, dropped, request);
    }
  }

  /** A run that ends with the wrong callback: one command is sent, the user disconnects, connects and sends another. */
  lemma {:induction false} AnswerToOldCallback<Callback(!new)>(
    first: Request<Callback>, second: Request<Callback>, answer: Reply) returns (t: System<Callback>)
    requires Sendable(first.cmd) && Sendable(second.cmd) && Encodable(answer)
    ensures Run(Start(), [Send(first), Reopen(false)] + FirstCall(second, answer), t)
    ensures t.requests == [second] && t.answers == [answer] && t.calls == [Call(first.callback, answer)]
  {
    hide FirstCall, Encode, Sendable, Encodable;
    var s0 := Start<Callback>();
    var s1 := Next(s0, Send(first));
    var s2 := NewConnection(s1, false);
    TwoSteps(s0, Send(first), s1, Reopen(false), s2);
    t := OldCallbackIsCalled(s1, second, answer);
    hide Run;
    RunThen(s0, [Send(first), Reopen(false)], s2, FirstCall(second, answer), t);
  }

  lemma JunkRefused(vs: seq<Reply>)
    ensures FeedChunk(Parser([], None, vs), [63]) == Fedp(Parser([63], None, vs), InvalidType)
  {
    hide Drain;
    var junk: bytes := [63];
    assert [] + junk == junk;
    ReplyRefused(Parser(junk, None, vs));
  }

  lemma {:induction false} FeedOneAndJunk(v: Reply)
    requires Encodable(v)
    ensures FeedChunk(EMPTY, Encode(v) + [63]) == Fedp(Parser([63], None, [v]), InvalidType)
  {
    hide Encode, Encodable, FeedChunk;
    FeedOne(v);
    ChunkingNeverMatters(EMPTY, Encode(v), [63]);
    JunkRefused([v]);
  }

  lemma {:induction false} GarbledRead<Callback(!new)>(s: System<Callback>, answer: Reply)
    requires Encodable(answer) && WfParser(s.server)
    requires s.reader == EMPTY && s.phase == Listening && s.toClient == Encode(answer) && s.garbled.None?
    ensures var n := |Encode(answer)| + 1;
            Run(s, [Junk([63]), ClientReads(n)],
                s.(toClient := [], garbled := Some(|s.answers|), reader := Parser([63], None, [answer]), phase := Deaf, callbacks := []))
  {
    hide FeedChunk, Encode, Encodable;
    var chunk := Encode(answer) + [63];
    var s1 := Next(s, Junk([63]));
    assert s1.toClient == chunk && chunk[..|chunk|] == chunk && chunk[|chunk|..] == [];
    FeedOneAndJunk(answer);
    TwoSteps(s, Junk([63]), s1, ClientReads(|chunk|), Receive(s1, |chunk|));
  }

  /** Such a reply can be queued: the one that was finished in front of a byte that is no type byte. */
  lemma {:induction false} GarbledBehindReply<Callback(!new)>(request: Request<Callback>, answer: Reply)
    returns (steps: seq<Step<Callback>>, t: System<Callback>)
    requires Sendable(request.cmd) && Encodable(answer)
    ensures Run(Start(), steps, t)
    ensures t.reader.replies == [answer] && t.phase == Deaf && t.callbacks == [] && t.calls == []
  {
    hide FeedChunk, Encode, Encodable, Run, Exchange, Sendable, CommandReply;
    var s0 := Start<Callback>();
    ExchangeRuns(s0, request, answer);
    var s1 := Answered(s0, request, answer);
    GarbledRead(s1, answer);
    t := s1.(toClient := [], garbled := Some(1), reader := Parser([63], None, [answer]), phase := Deaf, callbacks := []);
    var more := [Junk([63]), ClientReads(|Encode(answer)| + 1)];
    steps := Exchange(request, answer) + more;
    RunThen(s0, Exchange(request, answer), s1, more, t);
  }
}
