/**
 Progress of the pipeline: from every state a run can reach, a commit and a read bring every command to
 the server, and on a clean connection whatever the server answers can be brought to the callbacks.
 */
module PipelineProgress {
  import opened Common
  import opened Bytes
  import opened Resp
  import opened ReplyStream
  import opened Connection
  import opened Pipeline

  lemma {:induction false} ParsersWf<Callback>(s: System<Callback>)
    requires Inv(s)
    ensures WfParser(s.server) && WfParser(s.reader)
  {
    hide FeedChunk, EncodeAll, PristineSide;
    var vs := CommandReplies(Commands(s.requests));
    var seen: bytes :| Reads(s.server, [], s.toServer + s.buffer, vs, seen);
  }

  /** Once nothing is on its way to the server, it has read every command. */
  lemma {:induction false} AllRead<Callback>(t: System<Callback>)
    requires Inv(t) && t.toServer == [] && t.buffer == []
    ensures t.server.replies == CommandReplies(Commands(t.requests))
  {
    hide Reads, Encodable, CommandReply, Sendable, PristineSide;
    var vs := CommandReplies(Commands(t.requests));
    assert t.toServer + t.buffer == [];
    var seen: bytes :| Reads(t.server, [], t.toServer + t.buffer, vs, seen);
    CommandsEncodable(Commands(t.requests));
    ReadsPrefix(t.server, [], t.toServer + t.buffer, vs, seen);
    assert [] + t.server.replies == t.server.replies;
  }

  /**
   A commit writes everything: after it, one read of what is on the wire gives the server every command
   that was sent, in order, and nothing else changes.
   */
  lemma {:induction false} CommitReaches<Callback(!new)>(s: System<Callback>) returns (t: System<Callback>)
    requires Inv(s)
    ensures Run(s, [Commit, ServerReads(|s.toServer| + |s.buffer|)], t) && Inv(t)
    ensures t == s.(toServer := [], buffer := [], server := t.server)
    ensures t.server.replies == CommandReplies(Commands(s.requests))
  {
    hide Inv, FeedChunk;
    var n := |s.toServer| + |s.buffer|;
    ParsersWf(s);
    var s1 := Next(s, Commit);
    StepKeeps(s, Commit);
    ParsersWf(s1);
    assert s1.toServer[n..] == [];
    t := Next(s1, ServerReads(n));
    StepKeeps(s1, ServerReads(n));
    TwoSteps(s, Commit, s1, ServerReads(n), t);
    AllRead(t);
  }

  /** In every run: what was sent can be brought to the server. */
  lemma {:induction false} EveryCommandIsRead<Callback(!new)>(steps: seq<Step<Callback>>, s: System<Callback>)
    returns (t: System<Callback>)
    requires Run(Start(), steps, s)
    ensures Run(s, [Commit, ServerReads(|s.toServer| + |s.buffer|)], t)
    ensures t.buffer == [] && t.toServer == [] && t.requests == s.requests
    ensures |t.server.replies| == |t.requests|
    ensures forall k :: 0 <= k < |t.requests| ==> t.server.replies[k] == CommandReply(t.requests[k].cmd)
  {
    hide Inv, Run;
    StartInv<Callback>();
    RunKeeps(Start(), steps, s);
    t := CommitReaches(s);
  }

  // ---------- Answers ----------

  function Answering<Callback>(vs: seq<Reply>): seq<Step<Callback>> {
    seq(|vs|, i requires 0 <= i < |vs| => ServerAnswers(vs[i]))
  }

  /** The server can answer every command it has read, with whatever it likes. */
  lemma {:induction false} ServerCanAnswer<Callback(!new)>(s: System<Callback>, vs: seq<Reply>) returns (t: System<Callback>)
    requires Inv(s) && AllEncodable(vs) && |s.answers| + |vs| == |s.server.replies|
    ensures Run(s, Answering(vs), t) && Inv(t)
    ensures t == s.(answers := s.answers + vs, toClient := t.toClient)
    decreases |vs|
  {
    hide Inv, Encode, Encodable;
    if vs == [] {
      t := s;
      assert s.answers + vs == s.answers;
    } else {
      ParsersWf(s);
      var s1 := Next(s, ServerAnswers(vs[0]));
      StepKeeps(s, ServerAnswers(vs[0]));
      t := ServerCanAnswer(s1, vs[1..]);
      assert Answering<Callback>(vs)[1..] == Answering(vs[1..]);
      assert s.answers + [vs[0]] + vs[1..] == s.answers + vs;
    }
  }

  // ---------- Calls ----------

  /** What the client does on its own: requests and answers stay. */
  ghost predicate ClientMoved<Callback>(s: System<Callback>, t: System<Callback>) {
    && t.requests == s.requests && t.answers == s.answers && t.server == s.server
    && t.toServer == s.toServer && t.buffer == s.buffer && t.pristine == s.pristine && t.garbled == s.garbled
  }

  function HandOvers<Callback>(n: nat): seq<Step<Callback>> { seq(n, _ => HandOver) }

  /** The loop over the finished replies ends, with all of them handed over. */
  lemma {:induction false} LoopEnds<Callback(!new)>(s: System<Callback>) returns (t: System<Callback>)
    requires Inv(s) && s.phase == Calling
    ensures Run(s, HandOvers(|s.reader.replies|), t) && Inv(t) && ClientMoved(s, t)
    ensures t.phase == Listening && t.reader.replies == [] && t.toClient == s.toClient
    decreases |s.reader.replies|
  {
    hide Inv, Dispatch;
    ParsersWf(s);
    QueueWhileCalling(s);
    var s1 := Next(s, HandOver);
    StepKeeps(s, HandOver);
    var n := |s.reader.replies|;
    assert HandOvers<Callback>(n)[1..] == HandOvers(n - 1);
    if n == 1 {
      t := s1;
      assert HandOvers<Callback>(0) == [];
    } else {
      t := LoopEnds(s1);
    }
  }

  lemma {:induction false} CleanReadIsFine<Callback>(s: System<Callback>)
    requires Inv(s) && Clean(s)
    ensures FeedChunk(s.reader, s.toClient).fault == Fine
  {
    hide FeedChunk, Reads, Encodable, Sendable;
    var taken := s.answers[..|s.calls|];
    var seen: bytes :| Reads(s.reader, taken, s.toClient, s.answers, seen);
    ReadChunk(s.reader, taken, s.toClient, s.answers, seen, |s.toClient|);
    assert s.toClient[..|s.toClient|] == s.toClient;
  }

  lemma OneStep<Callback(!new)>(s: System<Callback>, step: Step<Callback>)
    requires Enabled(s, step)
    ensures Run(s, [step], Next(s, step))
  {
    hide Enabled, Next;
    assert [step][1..] == [];
    assert Run(Next(s, step), [], Next(s, step));
  }

  /** Everything in flight to the client can be read and handed over. */
  lemma {:induction false} AllHandedOver<Callback(!new)>(s: System<Callback>) returns (steps: seq<Step<Callback>>, t: System<Callback>)
    requires Inv(s) && Clean(s) && s.phase == Listening
    ensures Run(s, steps, t) && Inv(t) && ClientMoved(s, t) && t.toClient == [] && t.reader.replies == []
  {
    hide Inv, FeedChunk, Run;
    ParsersWf(s);
    CleanReadIsFine(s);
    var n := |s.toClient|;
    assert s.toClient[..n] == s.toClient && s.toClient[n..] == [];
    var s1 := Next(s, ClientReads(n));
    StepKeeps(s, ClientReads(n));
    OneStep(s, ClientReads(n));
    if s1.phase == Calling {
      t := LoopEnds(s1);
      steps := [ClientReads(n)] + HandOvers(|s1.reader.replies|);
      RunThen(s, [ClientReads(n)], s1, HandOvers(|s1.reader.replies|), t);
    } else {
      steps, t := [ClientReads(n)], s1;
    }
  }

  lemma CleanIsNotDeaf<Callback>(s: System<Callback>)
    requires Inv(s) && Clean(s)
    ensures s.phase != Deaf && |s.answers| <= |s.server.replies|
  {
    hide Reads;
  }

  lemma {:induction false} ClientCanFinish<Callback(!new)>(s: System<Callback>) returns (steps: seq<Step<Callback>>, t: System<Callback>)
    requires Inv(s) && Clean(s)
    ensures Run(s, steps, t) && Inv(t) && ClientMoved(s, t) && t.toClient == [] && t.reader.replies == []
  {
    hide Inv, Run;
    CleanIsNotDeaf(s);
    if s.phase == Calling {
      var s1 := LoopEnds(s);
      var more;
      more, t := AllHandedOver(s1);
      steps := HandOvers(|s.reader.replies|) + more;
      RunThen(s, HandOvers(|s.reader.replies|), s1, more, t);
    } else {
      steps, t := AllHandedOver(s);
    }
  }

  /**
   Completion. In every run, on a clean connection, whatever the server is going to answer to the commands
   it has not answered yet: some way of going on runs every callback, in order, each with its own answer,
   and leaves nothing waiting and nothing in flight.
   */
  lemma {:induction false} EveryCallbackCanRun<Callback(!new)>(steps: seq<Step<Callback>>, s: System<Callback>, vs: seq<Reply>)
    returns (more: seq<Step<Callback>>, t: System<Callback>)
    requires Run(Start(), steps, s) && Clean(s) && AllEncodable(vs) && |s.answers| + |vs| == |s.requests|
    ensures Run(s, more, t) && t.requests == s.requests && t.answers == s.answers + vs
    ensures |t.calls| == |t.requests|
    ensures forall k :: 0 <= k < |t.calls| ==> t.calls[k] == Call(t.requests[k].callback, t.answers[k])
    ensures t.callbacks == [] && t.buffer == [] && t.toServer == [] && t.toClient == [] && t.reader.replies == []
  {
    hide Inv, Run, Answering, Encodable, CommandReply;
    StartInv<Callback>();
    RunKeeps(Start(), steps, s);
    var s1 := CommitReaches(s);
    var s2 := ServerCanAnswer(s1, vs);
    var last;
    last, t := ClientCanFinish(s2);
    var first := [Commit, ServerReads(|s.toServer| + |s.buffer|)];
    RunThen(s, first, s1, Answering(vs), s2);
    RunThen(s, first + Answering(vs), s2, last, t);
    more := first + Answering(vs) + last;
    InvMeans(t);
  }
}
