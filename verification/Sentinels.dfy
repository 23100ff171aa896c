/**
 The callback queue of `sentinel`: the critical sections of its methods, interleaved in any order,
 and what the wait of `sync_commit` may conclude from the two fields it looks at.
 */
module Sentinels {
  import opened Common
  import opened Bytes
  import opened Resp
  import opened Connection
  import opened Pipeline

  // ---------- The interleavings ----------

  /**
   History of a queue. Callbacks are numbered in the order they were sent; a number is waiting,
   taken by a running receive handler, finished, or discarded by `clear_callbacks`. A handler that
   found the queue empty runs without one.
   */
  datatype History = History(
    sent: nat,
    waiting: seq<nat>,
    running: seq<Option<nat>>,
    finished: seq<nat>,
    discarded: seq<nat>)

  datatype Event =
    | Sent
    | HandlerEnters
    | HandlerLeaves(i: nat)
    | Cleared

  const NOTHING_SENT := History(0, [], [], [], [])

  predicate Possible(h: History, e: Event) {
    e.HandlerLeaves? ==> e.i < |h.running|
  }

  function After(h: History, e: Event): History
    requires Possible(h, e)
  {
    match e
    case Sent => h.(sent := h.sent + 1, waiting := h.waiting + [h.sent])
    case HandlerEnters =>
      if h.waiting == [] then h.(running := h.running + [None])
      else h.(waiting := h.waiting[1..], running := h.running + [Some(h.waiting[0])])
    case HandlerLeaves(i) =>
      h.(running := h.running[..i] + h.running[i + 1..],
         finished := if h.running[i].None? then h.finished else h.finished + [h.running[i].value])
    case Cleared => h.(waiting := [], discarded := h.discarded + h.waiting)
  }

  /** The number a running handler holds. */
  function Held(r: Option<nat>): multiset<nat> {
    if r.None? then multiset{} else multiset{r.value}
  }

  /** The numbers held by running handlers. */
  function Taken(running: seq<Option<nat>>): (r: multiset<nat>)
  {
    if running == [] then multiset{} else Held(running[0]) + Taken(running[1..])
  }

  lemma {:induction false} TakenConcat(xs: seq<Option<nat>>, ys: seq<Option<nat>>)
    ensures Taken(xs + ys) == Taken(xs) + Taken(ys)
  {
    if xs == [] {
      assert xs + ys == ys;
    } else {
      assert (xs + ys)[1..] == xs[1..] + ys;
      TakenConcat(xs[1..], ys);
    }
  }

  /** Where all numbers are: waiting, taken, finished or discarded. */
  function Accounted(h: History): multiset<nat> {
    multiset(h.waiting) + Taken(h.running) + multiset(h.finished) + multiset(h.discarded)
  }

  /** The numbers below `k`, each once. */
  function Below(k: nat): multiset<nat> {
    if k == 0 then multiset{} else Below(k - 1) + multiset{k - 1}
  }

  lemma {:induction false} BelowCounts(k: nat, n: nat)
    ensures Below(k)[n] == if n < k then 1 else 0
  {
    if k > 0 { BelowCounts(k - 1, n); }
  }

  predicate Ascending(s: seq<nat>) {
    forall i, j :: 0 <= i < j < |s| ==> s[i] < s[j]
  }

  /** Every number sent so far is in exactly one place, once; the waiting ones are in the order sent. */
  ghost predicate Conserved(h: History) {
    && Accounted(h) == Below(h.sent)
    && Ascending(h.waiting)
  }

  /** How often a number occurs, place by place. */
  lemma {:induction false} Places(h: History, n: nat)
    requires Conserved(h)
    ensures multiset(h.waiting)[n] + Taken(h.running)[n] + multiset(h.finished)[n] + multiset(h.discarded)[n]
            == if n < h.sent then 1 else 0
  {
    BelowCounts(h.sent, n);
    assert Accounted(h)[n] == multiset(h.waiting)[n] + Taken(h.running)[n] + multiset(h.finished)[n] + multiset(h.discarded)[n];
  }

  lemma AddWaiting(w: multiset<nat>, x: multiset<nat>, t: multiset<nat>, f: multiset<nat>, d: multiset<nat>)
    ensures (w + x) + t + f + d == w + t + f + d + x
  {
  }

  lemma NextBelow(k: nat)
    ensures Below(k + 1) == Below(k) + multiset{k}
  {
  }

  lemma {:induction false} SentKeeps(h: History)
    requires Conserved(h)
    ensures Conserved(After(h, Sent))
  {
    hide Taken, Below;
    var k := After(h, Sent);
    assert multiset(k.waiting) == multiset(h.waiting) + multiset{h.sent};
    AddWaiting(multiset(h.waiting), multiset{h.sent}, Taken(h.running), multiset(h.finished), multiset(h.discarded));
    NextBelow(h.sent);
    forall i | 0 <= i < |h.waiting| ensures h.waiting[i] < h.sent {
      Places(h, h.waiting[i]);
    }
  }

  lemma MoveToTaken(w: multiset<nat>, x: multiset<nat>, t: multiset<nat>, f: multiset<nat>, d: multiset<nat>)
    ensures w + (t + x) + f + d == (x + w) + t + f + d
  {
  }

  lemma MoveToFinished(w: multiset<nat>, x: multiset<nat>, t: multiset<nat>, f: multiset<nat>, d: multiset<nat>)
    ensures w + t + (f + x) + d == w + (t + x) + f + d
  {
  }

  lemma TakenOne(r: Option<nat>)
    ensures Taken([r]) == Held(r)
  {
    assert Taken([r]) == Held(r) + Taken([]);
  }

  lemma FrontAndRest(s: seq<nat>)
    requires s != []
    ensures multiset(s) == multiset{s[0]} + multiset(s[1..])
  {
    assert s == [s[0]] + s[1..];
  }

  lemma {:induction false} EnterKeeps(h: History)
    requires Conserved(h)
    ensures Conserved(After(h, HandlerEnters))
  {
    hide Taken;
    var k := After(h, HandlerEnters);
    var r := if h.waiting == [] then None else Some(h.waiting[0]);
    TakenConcat(h.running, [r]);
    TakenOne(r);
    if h.waiting != [] { FrontAndRest(h.waiting); }
    assert multiset(h.waiting) == Held(r) + multiset(k.waiting);
    MoveToTaken(multiset(k.waiting), Held(r), Taken(h.running), multiset(h.finished), multiset(h.discarded));
    assert Ascending(k.waiting);
  }

  lemma {:induction false} LeaveKeeps(h: History, i: nat)
    requires Conserved(h) && i < |h.running|
    ensures Conserved(After(h, HandlerLeaves(i)))
  {
    hide Taken, Ascending;
    var k := After(h, HandlerLeaves(i));
    var r := h.running[i];
    var left, right := h.running[..i], h.running[i + 1..];
    assert h.running == left + ([r] + right);
    TakenConcat(left, [r] + right);
    TakenConcat([r], right);
    TakenConcat(left, right);
    TakenOne(r);
    assert Taken(h.running) == Taken(k.running) + Held(r);
    assert multiset(k.finished) == multiset(h.finished) + Held(r);
    MoveToFinished(multiset(h.waiting), Held(r), Taken(k.running), multiset(h.finished), multiset(h.discarded));
  }

  lemma {:induction false} ClearKeeps(h: History)
    requires Conserved(h)
    ensures Conserved(After(h, Cleared))
  {
    assert Accounted(After(h, Cleared)) == Accounted(h);
  }

  lemma {:induction false} EventKeeps(h: History, e: Event)
    requires Conserved(h) && Possible(h, e)
    ensures Conserved(After(h, e))
  {
    hide Conserved, After;
    match e
    case Sent => SentKeeps(h);
    case HandlerEnters => EnterKeeps(h);
    case HandlerLeaves(i) => LeaveKeeps(h, i);
    case Cleared => ClearKeeps(h);
  }

  /** `k` is reached from `h` by these critical sections, in this order. */
  ghost predicate Reaches(h: History, es: seq<Event>, k: History)
    decreases |es|
  {
    if es == [] then h == k else Possible(h, es[0]) && Reaches(After(h, es[0]), es[1..], k)
  }

  lemma {:induction false} RunConserves(h: History, es: seq<Event>, k: History)
    requires Conserved(h) && Reaches(h, es, k)
    ensures Conserved(k)
    decreases |es|
  {
    hide Conserved, After;
    if es != [] {
      EventKeeps(h, es[0]);
      RunConserves(After(h, es[0]), es[1..], k);
    }
  }

  /** The condition `sync_commit` waits for. */
  predicate MayReturn(h: History) { |h.running| == 0 && h.waiting == [] }

  lemma SomeoneWaits(h: History)
    requires Conserved(h) && h.waiting != []
    ensures h.waiting[0] < h.sent && h.waiting[0] !in multiset(h.finished) && h.waiting[0] !in multiset(h.discarded)
  {
    var n := h.waiting[0];
    Places(h, n);
    hide Conserved, Taken;
    assert n in multiset(h.waiting);
  }

  /** Nothing runs and nothing waits exactly when nothing runs and every number is finished or discarded. */
  lemma {:induction false} WaitCondition(h: History)
    requires Conserved(h)
    ensures MayReturn(h)
            <==> |h.running| == 0
                 && forall n: nat :: n < h.sent ==> multiset(h.finished)[n] + multiset(h.discarded)[n] == 1
  {
    if h.waiting != [] {
      SomeoneWaits(h);
      hide Conserved;
      var n := h.waiting[0];
      assert multiset(h.finished)[n] + multiset(h.discarded)[n] == 0;
    } else if |h.running| == 0 {
      forall n: nat | n < h.sent ensures multiset(h.finished)[n] + multiset(h.discarded)[n] == 1 { Places(h, n); }
    }
  }

  /**
   Safety of `sync_commit`: in every interleaving, no callback runs twice, and when the wait condition
   holds every callback sent so far has returned or was discarded.
   */
  lemma {:induction false} SyncCommitIsSafe(es: seq<Event>, k: History)
    requires Reaches(NOTHING_SENT, es, k)
    ensures forall n: nat ::
              multiset(k.waiting)[n] + Taken(k.running)[n] + multiset(k.finished)[n] + multiset(k.discarded)[n]
              == if n < k.sent then 1 else 0
    ensures MayReturn(k)
            <==> |k.running| == 0
                 && forall n: nat :: n < k.sent ==> multiset(k.finished)[n] + multiset(k.discarded)[n] == 1
  {
    RunConserves(NOTHING_SENT, es, k);
    hide Conserved, Taken, MayReturn, Reaches;
    forall n: nat
      ensures multiset(k.waiting)[n] + Taken(k.running)[n] + multiset(k.finished)[n] + multiset(k.discarded)[n]
              == if n < k.sent then 1 else 0
    {
      Places(k, n);
    }
    WaitCondition(k);
  }

  /** The waiting numbers are the newest ones, all of them and in order. */
  ghost predicate NewestWait(h: History) {
    |h.waiting| <= h.sent && forall i :: 0 <= i < |h.waiting| ==> h.waiting[i] == h.sent - |h.waiting| + i
  }

  /** Callbacks are taken in the order they were sent: a handler always gets the oldest that waits. */
  lemma {:induction false} TakenInOrder(h: History, es: seq<Event>, k: History)
    requires NewestWait(h) && Reaches(h, es, k)
    ensures NewestWait(k)
    ensures k.waiting != [] ==> After(k, HandlerEnters).running == k.running + [Some(k.sent - |k.waiting|)]
    decreases |es|
  {
    if es != [] { TakenInOrder(After(h, es[0]), es[1..], k); }
  }

  /**
   The wait can always end: from every state the handlers can leave and the waiting callbacks be taken,
   without sending or discarding any, until the condition holds.
   */
  lemma {:induction false} WaitCanEnd(h: History) returns (es: seq<Event>, k: History)
    ensures Reaches(h, es, k) && MayReturn(k) && k.sent == h.sent && k.discarded == h.discarded
    ensures forall i :: 0 <= i < |es| ==> es[i].HandlerEnters? || es[i].HandlerLeaves?
    decreases 2 * |h.waiting| + |h.running|
  {
    if MayReturn(h) {
      es, k := [], h;
    } else {
      var e := if |h.running| > 0 then HandlerLeaves(0) else HandlerEnters;
      var rest;
      rest, k := WaitCanEnd(After(h, e));
      es := [e] + rest;
      assert es[1..] == rest;
    }
  }

  // ---------- The object ----------

  lemma DispatchStep<Callback>(cs: seq<Callback>, calls: seq<Call<Callback>>, replies: seq<Reply>, k: nat)
    requires k < |replies|
    ensures cs == [] ==> Dispatch(cs, calls, replies[k..]) == Dispatch([], calls, replies[k + 1..])
    ensures cs != [] ==>
              Dispatch(cs, calls, replies[k..])
              == Dispatch(cs[1..], calls + [Call(cs[0], replies[k])], replies[k + 1..])
  {
    assert replies[k..][1..] == replies[k + 1..];
  }

  lemma DispatchEnd<Callback>(cs: seq<Callback>, calls: seq<Call<Callback>>, replies: seq<Reply>)
    ensures Dispatch(cs, calls, replies[|replies|..]) == (cs, calls)
  {
  }

  class Sentinel<Callback> {
    var callbacks: seq<Callback>
    var callbacksRunning: nat
    ghost var registered: seq<Callback>
    ghost var history: History

    /** The two fields are what the history of critical sections made them. */
    ghost predicate Valid()
      reads this
    {
      && callbacksRunning == |history.running|
      && |registered| == history.sent
      && |callbacks| == |history.waiting|
      && (forall i :: 0 <= i < |callbacks| ==>
            history.waiting[i] < |registered| && callbacks[i] == registered[history.waiting[i]])
      && Conserved(history)
    }

    constructor ()
      ensures Valid() && history == NOTHING_SENT && callbacks == []
    {
      callbacks, callbacksRunning, registered, history := [], 0, [], NOTHING_SENT;
    }

    /** `send`: the command goes to the connection and its callback to the back of the queue. */
    method Send(client: RedisConnection, cmd: Command, callback: Callback)
      requires Valid() && client.Valid() && this !in client.builder.Repr
      modifies this, client
      ensures Valid() && history == After(old(history), Sent) && registered == old(registered) + [callback]
      ensures callbacks == old(callbacks) + [callback]
      ensures client.Valid() && client.buffer == old(client.buffer) + Encode(CommandReply(cmd))
    {
      client.Send(cmd);
      callbacks := callbacks + [callback];
      hide Conserved;
      SentKeeps(history);
      registered := registered + [callback];
      history := After(history, Sent);
    }

    /** The first critical section of `connection_receive_handler`. */
    method EnterHandler() returns (callback: Option<Callback>)
      requires Valid()
      modifies this
      ensures Valid() && history == After(old(history), HandlerEnters) && registered == old(registered)
      ensures old(callbacks) == (if callback.None? then [] else [callback.value]) + callbacks
      ensures callback.None? ==> callbacks == []
      ensures callbacksRunning == old(callbacksRunning) + 1 == |history.running|
    {
      hide Conserved;
      EnterKeeps(history);
      callbacksRunning := callbacksRunning + 1;
      callback := None;
      if |callbacks| > 0 {
        callback := Some(callbacks[0]);
        callbacks := callbacks[1..];
      }
      history := After(history, HandlerEnters);
    }

    /** The second critical section of `connection_receive_handler`, for the `i`-th running handler. */
    method LeaveHandler(ghost i: nat)
      requires Valid() && i < |history.running|
      modifies this
      ensures Valid() && history == After(old(history), HandlerLeaves(i))
      ensures callbacks == old(callbacks) && registered == old(registered)
      ensures callbacksRunning == old(callbacksRunning) - 1
    {
      hide Conserved;
      LeaveKeeps(history, i);
      callbacksRunning := callbacksRunning - 1;
      history := After(history, HandlerLeaves(i));
    }

    method ClearCallbacks()
      requires Valid()
      modifies this
      ensures Valid() && history == After(old(history), Cleared) && registered == old(registered)
      ensures callbacks == []
    {
      hide Conserved;
      ClearKeeps(history);
      callbacks := [];
      history := After(history, Cleared);
    }

    /** The predicate the condition variable of `sync_commit` tests under the mutex. */
    method WaitIsOver() returns (over: bool)
      requires Valid()
      ensures over == MayReturn(history)
      ensures over ==> forall n: nat :: n < |registered| ==>
                         multiset(history.finished)[n] + multiset(history.discarded)[n] == 1
    {
      over := callbacksRunning == 0 && |callbacks| == 0;
      if over {
        forall n: nat | n < |registered|
          ensures multiset(history.finished)[n] + multiset(history.discarded)[n] == 1
        {
          Places(history, n);
        }
      }
    }

    /** `connection_receive_handler` for one reply, with no other handler in between. */
    method HandleReply(reply: Reply) returns (call: Option<Call<Callback>>)
      requires Valid()
      modifies this
      ensures Valid() && registered == old(registered) && callbacksRunning == old(callbacksRunning)
      ensures call.None? ==> old(callbacks) == [] && callbacks == []
      ensures call.Some? ==> call.value.reply == reply && old(callbacks) == [call.value.callback] + callbacks
    {
      hide Valid, After;
      var callback := EnterHandler();
      call := if callback.Some? then Some(Call(callback.value, reply)) else None;
      LeaveHandler(|history.running| - 1);
    }

    /** The receive handler run for each reply of one read, one after the other. */
    method HandleReplies(replies: seq<Reply>) returns (calls: seq<Call<Callback>>)
      requires Valid()
      modifies this
      ensures Valid() && registered == old(registered) && callbacksRunning == old(callbacksRunning)
      ensures (callbacks, calls) == Dispatch(old(callbacks), [], replies)
    {
      hide Valid, Dispatch;
      calls := [];
      assert replies[0..] == replies;
      for k := 0 to |replies|
        invariant Valid() && registered == old(registered) && callbacksRunning == old(callbacksRunning)
        invariant Dispatch(callbacks, calls, replies[k..]) == Dispatch(old(callbacks), [], replies)
      {
        DispatchStep(callbacks, calls, replies, k);
        var call := HandleReply(replies[k]);
        if call.Some? {
          calls := calls + [call.value];
        }
      }
      DispatchEnd(callbacks, calls, replies);
    }
  }
}
