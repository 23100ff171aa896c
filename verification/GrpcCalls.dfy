/**
 The life cycle of asynchronous server calls: objects whose `status_` is driven by a switch, and
 their continuations, which wait in the completion queue, in the queues of two threads, or in the
 hands of the library or of a handler. Each continuation is a token; a step takes one token from any
 place, so every scheduling order is a run.
 */
module GrpcCalls {

  datatype Status = Create | Process | Finish

  datatype CallData<Method> = CallData(rpc: Method, status: Status)

  /** Where a continuation waits. `Event` is the completion queue, with its `ok` flag. */
  datatype Place =
    | PostedProceed
    | Requested
    | Event(ok: bool)
    | PostedProcess
    | Working
    | PostedDone
    | Finishing

  datatype Token = Token(place: Place, id: nat)

  /**
   `objects` are the live call objects, `tokens` the outstanding continuations. The rest is history:
   how often `Process` ran for an object, whose `Finish` event has come, what was deleted, whose event
   has failed, for which methods a request event has failed, and whether a step ever touched a deleted
   object.
   */
  datatype Server<Method(==)> = Server(
    objects: map<nat, CallData<Method>>,
    created: nat,
    tokens: multiset<Token>,
    registered: set<Method>,
    ran: multiset<nat>,
    finished: set<nat>,
    deleted: set<nat>,
    failed: set<nat>,
    lost: set<Method>,
    dangling: bool)

  function Start<Method>(): Server<Method> {
    Server(map[], 0, multiset{}, {}, multiset{}, {}, {}, {}, {}, false)
  }

  function Move<Method>(s: Server<Method>, from: Token, to: Place): Server<Method> {
    s.(tokens := s.tokens - multiset{from} + multiset{Token(to, from.id)})
  }

  function Drop<Method>(s: Server<Method>, from: Token): Server<Method> {
    s.(tokens := s.tokens - multiset{from})
  }

  function SetStatus<Method>(s: Server<Method>, id: nat, status: Status): Server<Method>
    requires id in s.objects
  {
    s.(objects := s.objects[id := s.objects[id].(status := status)])
  }

  /** `NewCallData`, whose first `Proceed` leaves the given continuation. */
  function Spawn<Method>(s: Server<Method>, m: Method, status: Status, place: Place): Server<Method> {
    s.(objects := s.objects[s.created := CallData(m, status)],
       created := s.created + 1,
       tokens := s.tokens + multiset{Token(place, s.created)})
  }

  /** `Proceed` on the dispatch thread. */
  function Proceed<Method>(s: Server<Method>, id: nat): Server<Method> {
    var t := Token(PostedProceed, id);
    if id !in s.objects then Drop(s, t).(dangling := true)
    else
      match s.objects[id].status
      case Create => Move(SetStatus(s, id, Process), t, Requested)
      case Process => Spawn(Move(s, t, PostedProcess), s.objects[id].rpc, Process, Requested)
      case Finish => Drop(s, t).(objects := s.objects - {id}, deleted := s.deleted + {id})
  }

  /** `OnProcessed` on the dispatch thread. */
  function Done<Method>(s: Server<Method>, id: nat): Server<Method> {
    var t := Token(PostedDone, id);
    if id !in s.objects then Drop(s, t).(dangling := true)
    else Move(SetStatus(s, id, Finish), t, Finishing)
  }

  /** `Process` starts on the task thread. */
  function StartProcess<Method>(s: Server<Method>, id: nat): Server<Method> {
    var t := Token(PostedProcess, id);
    if id !in s.objects then Drop(s, t).(dangling := true)
    else Move(s, t, Working).(ran := s.ran + multiset{id})
  }

  /** The event loop takes an event: `Proceed` is posted if it is good, otherwise nothing happens. */
  function HandleEvent<Method>(s: Server<Method>, id: nat, ok: bool): Server<Method> {
    var t := Token(Event(ok), id);
    if !ok then Drop(s, t) else if id !in s.objects then Drop(s, t).(dangling := true) else Move(s, t, PostedProceed)
  }

  /** The library answers a request: a failed event is recorded for the object and for its method. */
  function AnswerRequest<Method>(s: Server<Method>, id: nat, ok: bool): Server<Method> {
    var s' := Move(s, Token(Requested, id), Event(ok));
    if ok then s'
    else s'.(failed := s.failed + {id}, lost := if id in s.objects then s.lost + {s.objects[id].rpc} else s.lost)
  }

  /** The library has sent the response, or failed to. */
  function AnswerFinish<Method>(s: Server<Method>, id: nat, ok: bool): Server<Method> {
    var s' := Move(s, Token(Finishing, id), Event(ok));
    if ok then s'.(finished := s.finished + {id}) else s'.(failed := s.failed + {id})
  }

  datatype Step<Method> =
    | Register(m: Method)
    | RunProceed(id: nat)
    | RequestArrives(id: nat, ok: bool)
    | FinishCompletes(id: nat, ok: bool)
    | TakeEvent(id: nat, ok: bool)
    | RunProcess(id: nat)
    | HandlerReturns(id: nat)
    | RunDone(id: nat)

  /** A step needs its token; a method is registered once. Nothing is assumed about the object. */
  predicate Enabled<Method>(s: Server<Method>, step: Step<Method>) {
    match step
    case Register(m) => m !in s.registered
    case RunProceed(id) => Token(PostedProceed, id) in s.tokens
    case RequestArrives(id, _) => Token(Requested, id) in s.tokens
    case FinishCompletes(id, _) => Token(Finishing, id) in s.tokens
    case TakeEvent(id, ok) => Token(Event(ok), id) in s.tokens
    case RunProcess(id) => Token(PostedProcess, id) in s.tokens
    case HandlerReturns(id) => Token(Working, id) in s.tokens
    case RunDone(id) => Token(PostedDone, id) in s.tokens
  }

  function Next<Method>(s: Server<Method>, step: Step<Method>): Server<Method> {
    match step
    case Register(m) => Spawn(s, m, Create, PostedProceed).(registered := s.registered + {m})
    case RunProceed(id) => Proceed(s, id)
    case RequestArrives(id, ok) => AnswerRequest(s, id, ok)
    case FinishCompletes(id, ok) => AnswerFinish(s, id, ok)
    case TakeEvent(id, ok) => HandleEvent(s, id, ok)
    case RunProcess(id) => StartProcess(s, id)
    case HandlerReturns(id) => Move(s, Token(Working, id), PostedDone)
    case RunDone(id) => Done(s, id)
  }

  // ---------- The invariant ----------

  /** Which continuation an object can have in which state, and whether `Process` has run by then. */
  predicate Consistent(place: Place, status: Status, ran: nat) {
    match place
    case PostedProceed => ran == (if status == Finish then 1 else 0)
    case Requested => status == Process && ran == 0
    case Event(_) => status != Create && ran == (if status == Finish then 1 else 0)
    case PostedProcess => status == Process && ran == 0
    case Working => status == Process && ran == 1
    case PostedDone => status == Process && ran == 1
    case Finishing => status == Finish && ran == 1
  }

  /** A token is alone, belongs to a live object and fits its state; good and bad news has been recorded. */
  ghost predicate TokenOk<Method>(s: Server<Method>, t: Token) {
    && s.tokens[t] == 1
    && t.id in s.objects
    && Consistent(t.place, s.objects[t.id].status, s.ran[t.id])
    && (t.id in s.finished <==> s.objects[t.id].status == Finish && (t.place == PostedProceed || t.place == Event(true)))
    && (t.place == Event(false) <==> t.id in s.failed)
  }

  ghost predicate Safe<Method>(s: Server<Method>) {
    && !s.dangling
    && (forall t :: t in s.tokens ==> TokenOk(s, t))
    && (forall t, u :: t in s.tokens && u in s.tokens && t.id == u.id ==> t == u)
    && (forall id :: id in s.objects ==> id < s.created && id !in s.deleted)
    && (forall id :: id in s.deleted ==> id < s.created && id in s.finished && s.ran[id] == 1)
    && (forall id: nat :: s.ran[id] <= 1 && (s.created <= id ==> s.ran[id] == 0))
    && (forall id :: id in s.failed ==> id in s.objects)
    && (forall id :: id in s.finished ==> id < s.created)
  }

  lemma {:induction false} TokenFact<Method>(s: Server<Method>, t: Token)
    requires Safe(s) && t in s.tokens
    ensures TokenOk(s, t) && t.id in s.objects && t.id < s.created && !s.dangling
  {
  }

  /** `s'` is `s` with one token moved, its object brought to a state that fits, and failures recorded. */
  ghost predicate Moved<Method>(s: Server<Method>, from: Token, to: Place, s': Server<Method>) {
    && from in s.tokens && from.place != Event(false)
    && s'.tokens == s.tokens - multiset{from} + multiset{Token(to, from.id)}
    && s'.failed == (if to == Event(false) then s.failed + {from.id} else s.failed)
    && s'.objects.Keys == s.objects.Keys && s'.created == s.created && s'.deleted == s.deleted && !s'.dangling
    && (forall id :: id in s.objects && id != from.id ==> s'.objects[id] == s.objects[id])
    && (forall id: nat :: id != from.id ==> s'.ran[id] == s.ran[id])
    && (forall id :: id != from.id ==> (id in s'.finished <==> id in s.finished))
    && from.id in s'.objects && Consistent(to, s'.objects[from.id].status, s'.ran[from.id])
    && (from.id in s'.finished <==> s'.objects[from.id].status == Finish && (to == PostedProceed || to == Event(true)))
  }

  lemma {:induction false} MovedToken<Method>(s: Server<Method>, from: Token, to: Place, s': Server<Method>, t: Token)
    requires Safe(s) && Moved(s, from, to, s') && t in s'.tokens
    ensures TokenOk(s', t) && (t.id == from.id ==> t == Token(to, from.id)) && (t.id != from.id ==> t in s.tokens)
  {
    hide Consistent;
    assert TokenOk(s, from);
    assert t in s.tokens || t == Token(to, from.id);
  }

  lemma {:induction false} MoveKeeps<Method>(s: Server<Method>, from: Token, to: Place, s': Server<Method>)
    requires Safe(s) && Moved(s, from, to, s')
    ensures Safe(s')
  {
    hide TokenOk;
    TokenFact(s, from);
    forall t | t in s'.tokens
      ensures TokenOk(s', t) && (t.id == from.id ==> t == Token(to, from.id)) && (t.id != from.id ==> t in s.tokens)
    {
      MovedToken(s, from, to, s', t);
    }
  }

  lemma {:induction false} DropKeeps<Method>(s: Server<Method>, from: Token, s': Server<Method>)
    requires Safe(s) && from in s.tokens
    requires s'.tokens == s.tokens - multiset{from} && s'.ran == s.ran && !s'.dangling
    requires s'.created == s.created && s'.finished == s.finished && s'.failed == s.failed
    requires (s'.objects == s.objects && s'.deleted == s.deleted)
             || (s'.objects == s.objects - {from.id} && s'.deleted == s.deleted + {from.id}
                 && from.place != Event(false) && from.id in s.finished && s.ran[from.id] == 1)
    ensures Safe(s')
  {
    forall t | t in s'.tokens ensures TokenOk(s', t) && t.id != from.id {
      assert t in s.tokens;
      assert TokenOk(s, from);
    }
  }

  lemma {:induction false} SpawnKeeps<Method>(s: Server<Method>, m: Method, status: Status, place: Place)
    requires Safe(s) && ((place == Requested && status == Process) || (place == PostedProceed && status == Create))
    ensures Safe(Spawn(s, m, status, place))
  {
    var s' := Spawn(s, m, status, place);
    var n := Token(place, s.created);
    assert n !in s.tokens;
    forall t | t in s'.tokens ensures TokenOk(s', t) && (t == n || (t in s.tokens && t.id < s.created)) {
      if t != n {
        assert t in s.tokens && TokenOk(s, t);
      }
    }
  }

  lemma {:induction false} ProceedKeeps<Method>(s: Server<Method>, id: nat)
    requires Safe(s) && Token(PostedProceed, id) in s.tokens
    ensures Safe(Proceed(s, id))
  {
    var t := Token(PostedProceed, id);
    assert TokenOk(s, t);
    match s.objects[id].status
    case Create => MoveKeeps(s, t, Requested, Proceed(s, id));
    case Process =>
      MoveKeeps(s, t, PostedProcess, Move(s, t, PostedProcess));
      SpawnKeeps(Move(s, t, PostedProcess), s.objects[id].rpc, Process, Requested);
    case Finish => DropKeeps(s, t, Proceed(s, id));
  }

  lemma {:induction false} EventKeeps<Method>(s: Server<Method>, id: nat, ok: bool)
    requires Safe(s)
    ensures Token(Requested, id) in s.tokens ==> Safe(AnswerRequest(s, id, ok))
    ensures Token(Finishing, id) in s.tokens ==> Safe(AnswerFinish(s, id, ok))
  {
    hide Safe;
    var t, u := Token(Requested, id), Token(Finishing, id);
    if t in s.tokens {
      TokenFact(s, t);
      MoveKeeps(s, t, Event(ok), AnswerRequest(s, id, ok));
    }
    if u in s.tokens {
      TokenFact(s, u);
      MoveKeeps(s, u, Event(ok), AnswerFinish(s, id, ok));
    }
  }

  lemma {:induction false} TakeEventKeeps<Method>(s: Server<Method>, id: nat, ok: bool)
    requires Safe(s) && Token(Event(ok), id) in s.tokens
    ensures Safe(HandleEvent(s, id, ok))
  {
    var t := Token(Event(ok), id);
    assert TokenOk(s, t);
    if ok { MoveKeeps(s, t, PostedProceed, HandleEvent(s, id, ok)); } else { DropKeeps(s, t, HandleEvent(s, id, ok)); }
  }

  lemma {:induction false} ProcessKeeps<Method>(s: Server<Method>, id: nat)
    requires Safe(s) && Token(PostedProcess, id) in s.tokens
    ensures Safe(StartProcess(s, id))
  {
    var t := Token(PostedProcess, id);
    assert TokenOk(s, t);
    MoveKeeps(s, t, Working, StartProcess(s, id));
  }

  lemma {:induction false} DoneKeeps<Method>(s: Server<Method>, id: nat)
    requires Safe(s)
    ensures Token(Working, id) in s.tokens ==> Safe(Move(s, Token(Working, id), PostedDone))
    ensures Token(PostedDone, id) in s.tokens ==> Safe(Done(s, id))
  {
    var t, u := Token(Working, id), Token(PostedDone, id);
    if t in s.tokens {
      assert TokenOk(s, t);
      MoveKeeps(s, t, PostedDone, Move(s, t, PostedDone));
    } else if u in s.tokens {
      assert TokenOk(s, u);
      MoveKeeps(s, u, Finishing, Done(s, id));
    }
  }

  lemma {:induction false} SafeFrame<Method>(s: Server<Method>, s': Server<Method>)
    requires Safe(s) && s' == s.(registered := s'.registered)
    ensures Safe(s')
  {
    assert forall t :: TokenOk(s', t) == TokenOk(s, t);
  }

  lemma {:induction false} StepSafe<Method>(s: Server<Method>, step: Step<Method>)
    requires Safe(s) && Enabled(s, step)
    ensures Safe(Next(s, step))
  {
    hide Safe, Proceed, HandleEvent, StartProcess, Done;
    match step
    case Register(m) =>
      SpawnKeeps(s, m, Create, PostedProceed);
      SafeFrame(Spawn(s, m, Create, PostedProceed), Next(s, step));
    case RunProceed(id) => ProceedKeeps(s, id);
    case RequestArrives(id, ok) => EventKeeps(s, id, ok);
    case FinishCompletes(id, ok) => EventKeeps(s, id, ok);
    case TakeEvent(id, ok) => TakeEventKeeps(s, id, ok);
    case RunProcess(id) => ProcessKeeps(s, id);
    case HandlerReturns(id) => DoneKeeps(s, id);
    case RunDone(id) => DoneKeeps(s, id);
  }

  // ---------- One object waits for the next request ----------

  /** Where the continuation of an object is that has not been given a request yet. */
  predicate WaitingPlace(p: Place) { p == PostedProceed || p == Requested || p == Event(true) }

  ghost predicate Waits<Method>(s: Server<Method>, id: nat) {
    && id in s.objects && s.objects[id].status != Finish
    && exists t :: t in s.tokens && t.id == id && WaitingPlace(t.place)
  }

  /** The waiting objects and the methods they wait for. */
  ghost function Waiters<Method>(s: Server<Method>): map<nat, Method> {
    map id | id in s.objects && Waits(s, id) :: s.objects[id].rpc
  }

  ghost predicate OneEach<Method(!new)>(w: map<nat, Method>, wanted: set<Method>) {
    && (forall m :: m in wanted ==> exists id :: id in w && w[id] == m)
    && (forall id :: id in w ==> w[id] in wanted)
    && (forall i, j :: i in w && j in w && w[i] == w[j] ==> i == j)
  }

  /** Exactly one object waits for each registered method that has not lost its request, none for any other. */
  ghost predicate OneWaits<Method(!new)>(s: Server<Method>) {
    OneEach(Waiters(s), s.registered - s.lost) && s.lost <= s.registered
  }

  lemma {:induction false} OneMore<Method(!new)>(w: map<nat, Method>, wanted: set<Method>, n: nat, m: Method)
    requires OneEach(w, wanted) && n !in w && m !in wanted
    ensures OneEach(w[n := m], wanted + {m})
  {
    var v := w[n := m];
    forall k | k in wanted + {m} ensures exists id :: id in v && v[id] == k {
      if k == m {
        assert v[n] == m;
      } else {
        var id :| id in w && w[id] == k;
        assert id in v && v[id] == k;
      }
    }
  }

  lemma {:induction false} OneLess<Method(!new)>(w: map<nat, Method>, wanted: set<Method>, id: nat)
    requires OneEach(w, wanted) && id in w
    ensures OneEach(w - {id}, wanted - {w[id]})
  {
    var v := w - {id};
    forall k | k in wanted - {w[id]} ensures exists i :: i in v && v[i] == k {
      var i :| i in w && w[i] == k;
      assert i in v && v[i] == k;
    }
  }

  lemma {:induction false} Replaced<Method(!new)>(w: map<nat, Method>, wanted: set<Method>, id: nat, n: nat)
    requires OneEach(w, wanted) && id in w && n !in w
    ensures OneEach((w - {id})[n := w[id]], wanted)
  {
    var v := (w - {id})[n := w[id]];
    forall k | k in wanted ensures exists i :: i in v && v[i] == k {
      var i :| i in w && w[i] == k;
      if i == id {
        assert v[n] == k;
      } else {
        assert i in v && v[i] == k;
      }
    }
  }

  /** In a safe state the one token of an object decides whether it waits. */
  lemma {:induction false} TokenDecides<Method>(s: Server<Method>, t: Token)
    requires Safe(s) && t in s.tokens
    ensures t.id in s.objects && (Waits(s, t.id) <==> s.objects[t.id].status != Finish && WaitingPlace(t.place))
  {
    assert TokenOk(s, t);
    if Waits(s, t.id) {
      var u :| u in s.tokens && u.id == t.id && WaitingPlace(u.place);
      assert u == t;
    }
  }

  /** An object whose tokens and status are untouched waits as before. */
  lemma {:induction false} UntouchedWaits<Method>(s: Server<Method>, s': Server<Method>, id: nat)
    requires id in s.objects <==> id in s'.objects
    requires id in s.objects ==> s.objects[id] == s'.objects[id]
    requires forall t: Token :: t.id == id ==> (t in s.tokens <==> t in s'.tokens)
    ensures Waits(s, id) <==> Waits(s', id)
  {
    if Waits(s, id) {
      var t :| t in s.tokens && t.id == id && WaitingPlace(t.place);
      assert t in s'.tokens;
    }
    if Waits(s', id) {
      var t :| t in s'.tokens && t.id == id && WaitingPlace(t.place);
      assert t in s.tokens;
    }
  }

  lemma MovedElsewhere(tokens: multiset<Token>, from: Token, to: Token, t: Token)
    requires t != from && t != to
    ensures t in tokens <==> t in tokens - multiset{from} + multiset{to}
    ensures t in tokens <==> t in tokens - multiset{from}
    ensures t in tokens <==> t in tokens + multiset{to}
  {
  }

  /** A step on the tokens of `id`, and on a new object, leaves all other objects waiting as they were. */
  lemma {:induction false} OthersWait<Method>(s: Server<Method>, s': Server<Method>, id: nat)
    requires forall k :: k in s.objects && k != id ==> k in s'.objects && s'.objects[k] == s.objects[k]
    requires forall t: Token :: t.id != id && t.id in s.objects ==> (t in s.tokens <==> t in s'.tokens)
    ensures forall k :: k in s.objects && k != id ==> (Waits(s, k) <==> Waits(s', k))
  {
    hide Waits;
    forall k | k in s.objects && k != id ensures Waits(s, k) <==> Waits(s', k) {
      UntouchedWaits(s, s', k);
    }
  }

  /** A move of one token changes at most whether its own object waits. */
  lemma {:induction false} MoveWaiting<Method(!new)>(s: Server<Method>, t: Token, to: Place, s': Server<Method>)
    requires Safe(s) && Safe(s') && OneWaits(s) && t in s.tokens
    requires s'.registered == s.registered && s'.lost == s.lost
    requires s'.tokens == s.tokens - multiset{t} + multiset{Token(to, t.id)}
    requires s'.objects.Keys == s.objects.Keys
    requires forall id :: id in s.objects && id != t.id ==> s'.objects[id] == s.objects[id]
    requires t.id in s.objects && s'.objects[t.id].rpc == s.objects[t.id].rpc
    requires s.objects[t.id].status != Finish && WaitingPlace(t.place)
             <==> s'.objects[t.id].status != Finish && WaitingPlace(to)
    ensures OneWaits(s')
  {
    hide Safe, Waits, OneEach;
    TokenDecides(s, t);
    TokenDecides(s', Token(to, t.id));
    forall u: Token | u.id != t.id ensures u in s.tokens <==> u in s'.tokens {
      MovedElsewhere(s.tokens, t, Token(to, t.id), u);
    }
    OthersWait(s, s', t.id);
    assert Waiters(s') == Waiters(s);
  }

  lemma {:induction false} NewIdIsNew<Method>(s: Server<Method>)
    requires Safe(s)
    ensures s.created !in s.objects && forall k :: k in s.objects ==> k < s.created
  {
  }

  lemma {:induction false} RegisterWaiting<Method(!new)>(s: Server<Method>, m: Method)
    requires Safe(s) && Safe(Next(s, Register(m))) && OneWaits(s) && m !in s.registered
    ensures OneWaits(Next(s, Register(m)))
  {
    hide Safe, Waits, OneEach;
    var s', n := Next(s, Register(m)), s.created;
    var to := Token(PostedProceed, n);
    NewIdIsNew(s);
    TokenDecides(s', to);
    forall u: Token | u.id != n ensures u in s.tokens <==> u in s'.tokens {
      MovedElsewhere(s.tokens, to, to, u);
    }
    OthersWait(s, s', n);
    assert Waiters(s') == Waiters(s)[n := m];
    assert s'.registered - s'.lost == (s.registered - s.lost) + {m};
    OneMore(Waiters(s), s.registered - s.lost, n, m);
  }

  /** The request is taken up: the object stops waiting and the one it creates waits instead. */
  lemma {:induction false} HandOver<Method(!new)>(s: Server<Method>, id: nat)
    requires Safe(s) && Safe(Proceed(s, id)) && OneWaits(s) && Token(PostedProceed, id) in s.tokens
    requires id in s.objects && s.objects[id].status == Process
    ensures OneWaits(Proceed(s, id))
  {
    hide Safe, Waits, OneEach;
    var s', n, t := Proceed(s, id), s.created, Token(PostedProceed, id);
    var s1 := Move(s, t, PostedProcess);
    assert s' == Spawn(s1, s.objects[id].rpc, Process, Requested);
    NewIdIsNew(s);
    TokenDecides(s, t);
    TokenDecides(s', Token(PostedProcess, id));
    TokenDecides(s', Token(Requested, n));
    forall u: Token | u.id != id && u.id in s.objects ensures u in s.tokens <==> u in s'.tokens {
      MovedElsewhere(s.tokens, t, Token(PostedProcess, id), u);
      MovedElsewhere(s1.tokens, t, Token(Requested, n), u);
    }
    OthersWait(s, s', id);
    assert Waiters(s') == (Waiters(s) - {id})[n := Waiters(s)[id]];
    Replaced(Waiters(s), s.registered - s.lost, id, n);
  }

  /** A token that goes away leaves the waiting objects as they were, if its own object did not wait. */
  lemma {:induction false} DropWaiting<Method(!new)>(s: Server<Method>, t: Token, s': Server<Method>)
    requires Safe(s) && OneWaits(s) && t in s.tokens && s'.registered == s.registered && s'.lost == s.lost
    requires s'.tokens == s.tokens - multiset{t}
    requires t.id in s.objects && !(s.objects[t.id].status != Finish && WaitingPlace(t.place))
    requires s'.objects == s.objects || s'.objects == s.objects - {t.id}
    ensures OneWaits(s')
  {
    hide Safe, OneEach;
    TokenDecides(s, t);
    forall u: Token | u.id != t.id ensures u in s.tokens <==> u in s'.tokens {
      MovedElsewhere(s.tokens, t, t, u);
    }
    OthersWait(s, s', t.id);
    assert Waiters(s') == Waiters(s);
  }

  lemma {:induction false} ProceedWaiting<Method(!new)>(s: Server<Method>, id: nat)
    requires Safe(s) && Safe(Proceed(s, id)) && OneWaits(s) && Token(PostedProceed, id) in s.tokens
    ensures OneWaits(Proceed(s, id))
  {
    hide OneWaits, Safe;
    var t := Token(PostedProceed, id);
    TokenFact(s, t);
    match s.objects[id].status
    case Create => MoveWaiting(s, t, Requested, Proceed(s, id));
    case Process => HandOver(s, id);
    case Finish => DropWaiting(s, t, Proceed(s, id));
  }

  lemma WaiterIsWanted<Method(!new)>(w: map<nat, Method>, wanted: set<Method>, id: nat)
    requires OneEach(w, wanted) && id in w
    ensures w[id] in wanted
  {
  }

  /** A failed request event leaves nobody waiting for its method: the object is not replaced. */
  lemma {:induction false} LostWaiting<Method(!new)>(s: Server<Method>, id: nat)
    requires Safe(s) && OneWaits(s) && Token(Requested, id) in s.tokens
    ensures OneWaits(AnswerRequest(s, id, false))
  {
    hide Safe, Waits, OneEach;
    var t, to := Token(Requested, id), Token(Event(false), id);
    var s' := AnswerRequest(s, id, false);
    TokenFact(s, t);
    EventKeeps(s, id, false);
    TokenDecides(s, t);
    TokenDecides(s', to);
    forall u: Token | u.id != id ensures u in s.tokens <==> u in s'.tokens {
      MovedElsewhere(s.tokens, t, to, u);
    }
    OthersWait(s, s', id);
    assert Waiters(s') == Waiters(s) - {id};
    OneLess(Waiters(s), s.registered - s.lost, id);
    WaiterIsWanted(Waiters(s), s.registered - s.lost, id);
    assert s'.registered - s'.lost == (s.registered - s.lost) - {s.objects[id].rpc};
  }

  /** News from the library: only a failed request changes who waits. */
  lemma {:induction false} EventWaiting<Method(!new)>(s: Server<Method>, id: nat, ok: bool)
    requires Safe(s) && OneWaits(s)
    ensures Token(Requested, id) in s.tokens ==> OneWaits(AnswerRequest(s, id, ok))
    ensures Token(Finishing, id) in s.tokens ==> OneWaits(AnswerFinish(s, id, ok))
  {
    hide OneWaits, Safe;
    var t, u := Token(Requested, id), Token(Finishing, id);
    EventKeeps(s, id, ok);
    if t in s.tokens {
      TokenFact(s, t);
      if ok { MoveWaiting(s, t, Event(true), AnswerRequest(s, id, true)); } else { LostWaiting(s, id); }
    }
    if u in s.tokens {
      TokenFact(s, u);
      MoveWaiting(s, u, Event(ok), AnswerFinish(s, id, ok));
    }
  }

  lemma {:induction false} TakeEventWaiting<Method(!new)>(s: Server<Method>, id: nat, ok: bool)
    requires Safe(s) && OneWaits(s) && Token(Event(ok), id) in s.tokens
    ensures OneWaits(HandleEvent(s, id, ok))
  {
    hide OneWaits, Safe;
    var t := Token(Event(ok), id);
    TokenFact(s, t);
    TakeEventKeeps(s, id, ok);
    if ok {
      MoveWaiting(s, t, PostedProceed, HandleEvent(s, id, true));
    } else {
      DropWaiting(s, t, HandleEvent(s, id, false));
    }
  }

  lemma {:induction false} ProcessWaiting<Method(!new)>(s: Server<Method>, id: nat)
    requires Safe(s) && OneWaits(s) && Token(PostedProcess, id) in s.tokens
    ensures OneWaits(StartProcess(s, id))
  {
    hide OneWaits, Safe;
    var t := Token(PostedProcess, id);
    TokenFact(s, t);
    ProcessKeeps(s, id);
    MoveWaiting(s, t, Working, StartProcess(s, id));
  }

  lemma {:induction false} DoneWaiting<Method(!new)>(s: Server<Method>, id: nat)
    requires Safe(s) && OneWaits(s)
    ensures Token(Working, id) in s.tokens ==> OneWaits(Next(s, HandlerReturns(id)))
    ensures Token(PostedDone, id) in s.tokens ==> OneWaits(Done(s, id))
  {
    hide OneWaits, Safe;
    var t, u := Token(Working, id), Token(PostedDone, id);
    DoneKeeps(s, id);
    if t in s.tokens {
      TokenFact(s, t);
      MoveWaiting(s, t, PostedDone, Next(s, HandlerReturns(id)));
    }
    if u in s.tokens {
      TokenFact(s, u);
      MoveWaiting(s, u, Finishing, Done(s, id));
    }
  }

  lemma {:induction false} StepWaiting<Method(!new)>(s: Server<Method>, step: Step<Method>)
    requires Safe(s) && OneWaits(s) && Enabled(s, step)
    ensures OneWaits(Next(s, step))
  {
    hide OneWaits, Safe, Proceed, HandleEvent, StartProcess, Done, AnswerRequest, AnswerFinish;
    StepSafe(s, step);
    match step
    case Register(m) => RegisterWaiting(s, m);
    case RunProceed(id) => ProceedWaiting(s, id);
    case RequestArrives(id, ok) => EventWaiting(s, id, ok);
    case FinishCompletes(id, ok) => EventWaiting(s, id, ok);
    case TakeEvent(id, ok) => TakeEventWaiting(s, id, ok);
    case RunProcess(id) => ProcessWaiting(s, id);
    case HandlerReturns(id) => DoneWaiting(s, id);
    case RunDone(id) => DoneWaiting(s, id);
  }

  // ---------- No call is forgotten ----------

  ghost predicate HasToken<Method>(s: Server<Method>, id: nat) { exists t :: t in s.tokens && t.id == id }

  /** Every live object whose event has not failed has an outstanding continuation. */
  ghost predicate NoneForgotten<Method>(s: Server<Method>) {
    forall id :: id in s.objects && id !in s.failed ==> HasToken(s, id)
  }

  /** A step that takes the token of one object, and leaves it one unless it is gone or has failed. */
  lemma {:induction false} StepRemembers<Method>(s: Server<Method>, from: Token, s': Server<Method>)
    requires NoneForgotten(s)
    requires forall t :: t in s.tokens && t.id != from.id ==> t in s'.tokens
    requires s.failed <= s'.failed
    requires forall id :: id in s'.objects && id !in s.objects ==> HasToken(s', id)
    requires from.id !in s'.objects || from.id in s'.failed || HasToken(s', from.id)
    ensures NoneForgotten(s')
  {
    forall id | id in s'.objects && id !in s'.failed ensures HasToken(s', id) {
      if id in s.objects && id != from.id {
        var t :| t in s.tokens && t.id == id;
        assert t in s'.tokens;
      }
    }
  }

  lemma {:induction false} MoveRemembers<Method>(s: Server<Method>, from: Token, to: Place, s': Server<Method>)
    requires NoneForgotten(s) && s.failed <= s'.failed && s'.objects.Keys == s.objects.Keys
    requires s'.tokens == s.tokens - multiset{from} + multiset{Token(to, from.id)}
    ensures NoneForgotten(s')
  {
    assert Token(to, from.id) in s'.tokens;
    StepRemembers(s, from, s');
  }

  lemma {:induction false} ProceedRemembers<Method>(s: Server<Method>, id: nat)
    requires NoneForgotten(s) && id in s.objects
    ensures NoneForgotten(Proceed(s, id))
  {
    var s', t := Proceed(s, id), Token(PostedProceed, id);
    match s.objects[id].status
    case Create => MoveRemembers(s, t, Requested, s');
    case Process =>
      assert Token(PostedProcess, id) in s'.tokens && Token(Requested, s.created) in s'.tokens;
      StepRemembers(s, t, s');
    case Finish => StepRemembers(s, t, s');
  }

  /** The steps between the library and the event loop. */
  lemma {:induction false} EventRemembers<Method>(s: Server<Method>, id: nat, ok: bool)
    requires Safe(s) && NoneForgotten(s)
    ensures NoneForgotten(AnswerRequest(s, id, ok)) && NoneForgotten(AnswerFinish(s, id, ok))
    ensures Token(Event(ok), id) in s.tokens ==> NoneForgotten(HandleEvent(s, id, ok))
  {
    hide Safe, NoneForgotten;
    MoveRemembers(s, Token(Requested, id), Event(ok), AnswerRequest(s, id, ok));
    MoveRemembers(s, Token(Finishing, id), Event(ok), AnswerFinish(s, id, ok));
    var t := Token(Event(ok), id);
    if t in s.tokens {
      TokenFact(s, t);
      if ok { MoveRemembers(s, t, PostedProceed, HandleEvent(s, id, true)); } else { StepRemembers(s, t, Drop(s, t)); }
    }
  }

  /** The steps of the handler. */
  lemma {:induction false} WorkRemembers<Method>(s: Server<Method>, id: nat)
    requires NoneForgotten(s) && id in s.objects
    ensures NoneForgotten(StartProcess(s, id)) && NoneForgotten(Move(s, Token(Working, id), PostedDone))
    ensures NoneForgotten(Done(s, id))
  {
    hide NoneForgotten;
    MoveRemembers(s, Token(PostedProcess, id), Working, StartProcess(s, id));
    MoveRemembers(s, Token(Working, id), PostedDone, Move(s, Token(Working, id), PostedDone));
    MoveRemembers(s, Token(PostedDone, id), Finishing, Done(s, id));
  }

  lemma {:induction false} RegisterRemembers<Method>(s: Server<Method>, m: Method)
    requires NoneForgotten(s)
    ensures NoneForgotten(Next(s, Register(m)))
  {
    hide NoneForgotten;
    var s', t := Next(s, Register(m)), Token(PostedProceed, s.created);
    assert t in s'.tokens;
    StepRemembers(s, t, s');
  }

  lemma {:induction false} StepNotForgotten<Method>(s: Server<Method>, step: Step<Method>)
    requires Safe(s) && NoneForgotten(s) && Enabled(s, step)
    ensures NoneForgotten(Next(s, step))
  {
    hide Safe, NoneForgotten, Proceed, HandleEvent, StartProcess, Done, AnswerRequest, AnswerFinish, Move;
    match step
    case Register(m) => RegisterRemembers(s, m);
    case RunProceed(id) =>
      TokenFact(s, Token(PostedProceed, id));
      ProceedRemembers(s, id);
    case RequestArrives(id, ok) => EventRemembers(s, id, ok);
    case FinishCompletes(id, ok) => EventRemembers(s, id, ok);
    case TakeEvent(id, ok) => EventRemembers(s, id, ok);
    case RunProcess(id) =>
      TokenFact(s, Token(PostedProcess, id));
      WorkRemembers(s, id);
    case HandlerReturns(id) =>
      TokenFact(s, Token(Working, id));
      WorkRemembers(s, id);
    case RunDone(id) =>
      TokenFact(s, Token(PostedDone, id));
      WorkRemembers(s, id);
  }

  // ---------- Runs ----------

  ghost predicate Run<Method(!new)>(s: Server<Method>, steps: seq<Step<Method>>, t: Server<Method>)
    decreases |steps|
  {
    if steps == [] then s == t else Enabled(s, steps[0]) && Run(Next(s, steps[0]), steps[1..], t)
  }

  lemma {:induction false} RunKeeps<Method(!new)>(s: Server<Method>, steps: seq<Step<Method>>, t: Server<Method>)
    requires Safe(s) && OneWaits(s) && NoneForgotten(s) && Run(s, steps, t)
    ensures Safe(t) && OneWaits(t) && NoneForgotten(t)
    decreases |steps|
  {
    hide Safe, OneWaits, NoneForgotten, Enabled, Next;
    if steps != [] {
      StepSafe(s, steps[0]);
      StepWaiting(s, steps[0]);
      StepNotForgotten(s, steps[0]);
      RunKeeps(Next(s, steps[0]), steps[1..], t);
    }
  }

  ghost predicate WaitsFor<Method(!new)>(s: Server<Method>, id: nat, m: Method) {
    Waits(s, id) && s.objects[id].rpc == m
  }

  ghost predicate SomeWaitsFor<Method(!new)>(s: Server<Method>, m: Method) { exists id :: WaitsFor(s, id, m) }

  ghost predicate OneWaitsFor<Method(!new)>(s: Server<Method>, m: Method) {
    SomeWaitsFor(s, m) && forall i, j :: WaitsFor(s, i, m) && WaitsFor(s, j, m) ==> i == j
  }

  lemma WaiterIsObject<Method>(s: Server<Method>, id: nat)
    requires Waits(s, id)
    ensures id in s.objects
  {
  }

  /** What the invariant says about one method. */
  lemma {:induction false} WhoWaits<Method(!new)>(s: Server<Method>, m: Method)
    requires OneWaits(s)
    ensures OneWaitsFor(s, m) <==> m in s.registered && m !in s.lost
    ensures SomeWaitsFor(s, m) <==> m in s.registered && m !in s.lost
  {
    hide Waits;
    var w := Waiters(s);
    forall id | WaitsFor(s, id, m) ensures id in w && w[id] == m { WaiterIsObject(s, id); }
    if m in s.registered - s.lost {
      var id :| id in w && w[id] == m;
      assert WaitsFor(s, id, m);
    }
  }

  lemma StartIsSafe<Method(!new)>()
    ensures Safe(Start<Method>()) && OneWaits(Start<Method>()) && NoneForgotten(Start<Method>())
  {
    assert Waiters(Start<Method>()) == map[];
  }

  /**
   In every run: no step ever touches a deleted object; every live object has at most one outstanding
   continuation, and exactly one unless its event has failed, after which there is only that event and
   the object is never deleted;
   `Process` runs at most once per object; an object is deleted only after its own good `Finish` event.
   */
  lemma {:induction false} CallsAreSafe<Method(!new)>(steps: seq<Step<Method>>, t: Server<Method>)
    requires Run(Start(), steps, t)
    ensures !t.dangling
    ensures forall c :: c in t.tokens ==> t.tokens[c] == 1 && c.id in t.objects && c.id !in t.deleted
    ensures forall c, d :: c in t.tokens && d in t.tokens && c.id == d.id ==> c == d
    ensures forall id :: id in t.objects && id !in t.failed ==> HasToken(t, id)
    ensures forall c :: c in t.tokens && c.id in t.failed ==> c.place == Event(false)
    ensures forall id :: id in t.failed ==> id in t.objects && id !in t.deleted
    ensures forall id: nat :: t.ran[id] <= 1
    ensures forall id :: id in t.deleted ==> id in t.finished && t.ran[id] == 1 && id !in t.objects
  {
    hide Run;
    StartIsSafe<Method>();
    RunKeeps(Start(), steps, t);
    forall c | c in t.tokens
      ensures t.tokens[c] == 1 && c.id in t.objects && c.id !in t.deleted && (c.id in t.failed ==> c.place == Event(false))
    {
      assert TokenOk(t, c);
    }
  }

  /**
   In every run, for every method: exactly one object waits for it if and only if it is registered and
   no request event for it has failed, and otherwise none does.
   */
  lemma {:induction false} OneWaiterPerMethod<Method(!new)>(steps: seq<Step<Method>>, t: Server<Method>, m: Method)
    requires Run(Start(), steps, t)
    ensures OneWaitsFor(t, m) <==> m in t.registered && m !in t.lost
    ensures SomeWaitsFor(t, m) <==> m in t.registered && m !in t.lost
  {
    hide Run;
    StartIsSafe<Method>();
    RunKeeps(Start(), steps, t);
    WhoWaits(t, m);
  }

  /** A run on the failing side: the first request for a method fails, and nobody waits for it any more. */
  lemma {:induction false} NobodyWaits<Method(!new)>(m: Method) returns (t: Server<Method>)
    ensures Run(Start(), [Register(m), RunProceed(0), RequestArrives(0, false)], t)
    ensures m in t.registered && m in t.lost && !SomeWaitsFor(t, m)
  {
    var a, b, c := Register(m), RunProceed(0), RequestArrives(0, false);
    var s1 := Next(Start<Method>(), a);
    var s2 := Next(s1, b);
    t := Next(s2, c);
    assert Token(PostedProceed, 0) in s1.tokens && Token(Requested, 0) in s2.tokens;
    assert [a, b, c][1..] == [b, c] && [b, c][1..] == [c] && [c][1..] == [];
    assert Run(t, [], t) && Run(s2, [c], t) && Run(s1, [b, c], t);
    OneWaiterPerMethod([a, b, c], t, m);
  }

  // ---------- The code ----------

  /** The call objects and queues, updated in place by the functions of the source. */
  class CallServer<Method(==)> {
    var objects: map<nat, CallData<Method>>
    var created: nat
    var tokens: multiset<Token>
    var registered: set<Method>
    ghost var ran: multiset<nat>
    ghost var finished: set<nat>
    ghost var deleted: set<nat>
    ghost var failed: set<nat>
    ghost var lost: set<Method>

    ghost function View(): Server<Method>
      reads this
    {
      Server(objects, created, tokens, registered, ran, finished, deleted, failed, lost, false)
    }

    constructor ()
      ensures View() == Start()
    {
      objects, created, tokens, registered := map[], 0, multiset{}, {};
      ran, finished, deleted, failed, lost := multiset{}, {}, {}, {}, {};
    }

    method Post(from: Token, to: Place)
      modifies this`tokens
      ensures View() == Move(old(View()), from, to)
    {
      tokens := tokens - multiset{from} + multiset{Token(to, from.id)};
    }

    /** `NewCallData`: a new object, whose first `Proceed` leaves the given continuation. */
    method NewCallData(m: Method, status: Status, place: Place)
      modifies this
      ensures View() == Spawn(old(View()), m, status, place)
    {
      objects := objects[created := CallData(m, status)];
      tokens := tokens + multiset{Token(place, created)};
      created := created + 1;
    }

    method ChangeStatus(id: nat, status: Status)
      requires id in objects
      modifies this`objects
      ensures View() == SetStatus(old(View()), id, status)
    {
      objects := objects[id := objects[id].(status := status)];
    }

    /** `NewCallData` called off the dispatch thread, for one method of the service. */
    method Register(m: Method)
      requires Safe(View()) && Enabled(View(), Step.Register(m))
      modifies this
      ensures View() == Next(old(View()), Step.Register(m)) && Safe(View())
    {
      StepSafe(View(), Step.Register(m));
      NewCallData(m, Create, PostedProceed);
      registered := registered + {m};
    }

    /** The switch of `Proceed`; the object is live because the state is safe. */
    method Proceed(id: nat)
      requires Safe(View()) && Enabled(View(), RunProceed(id))
      modifies this
      ensures View() == Next(old(View()), RunProceed(id)) && Safe(View())
    {
      StepSafe(View(), RunProceed(id));
      var t := Token(PostedProceed, id);
      TokenFact(View(), t);
      hide Safe, Spawn, Move, Consistent;
      match objects[id].status
      case Create =>
        ChangeStatus(id, Process);
        Post(t, Requested);
      case Process =>
        Post(t, PostedProcess);
        NewCallData(objects[id].rpc, Process, Requested);
      case Finish =>
        tokens := tokens - multiset{t};
        objects := objects - {id};
        deleted := deleted + {id};
    }

    /** `OnProcessed` on the dispatch thread: the status changes before `Finish` is called. */
    method OnProcessed(id: nat)
      requires Safe(View()) && Enabled(View(), RunDone(id))
      modifies this
      ensures View() == Next(old(View()), RunDone(id)) && Safe(View())
    {
      StepSafe(View(), RunDone(id));
      assert TokenOk(View(), Token(PostedDone, id));
      hide Safe;
      ChangeStatus(id, Finish);
      Post(Token(PostedDone, id), Finishing);
    }

    /** One turn of the event loop. */
    method HandleRpc(id: nat, ok: bool)
      requires Safe(View()) && Enabled(View(), TakeEvent(id, ok))
      modifies this
      ensures View() == Next(old(View()), TakeEvent(id, ok)) && Safe(View())
    {
      StepSafe(View(), TakeEvent(id, ok));
      var t := Token(Event(ok), id);
      assert TokenOk(View(), t);
      hide Safe;
      if ok { Post(t, PostedProceed); } else { tokens := tokens - multiset{t}; }
    }
  }
}
