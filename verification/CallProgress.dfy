/**
 Progress of the call objects: from every state a run can reach, a live object whose event has not
 failed can be taken through its own continuations, one after the other, until it is deleted.
 */
module CallProgress {
  import opened GrpcCalls

  /** How many steps an object is away from its deletion. */
  function Rank(place: Place, status: Status): nat {
    match place
    case PostedProceed => if status == Create then 10 else if status == Process then 7 else 1
    case Requested => 9
    case Event(_) => if status == Finish then 2 else 8
    case PostedProcess => 6
    case Working => 5
    case PostedDone => 4
    case Finishing => 3
  }

  /** The step that takes a continuation on, if the library reports no failure. */
  function Onward<Method>(place: Place, id: nat): Step<Method> {
    match place
    case PostedProceed => RunProceed(id)
    case Requested => RequestArrives(id, true)
    case Event(_) => TakeEvent(id, true)
    case PostedProcess => RunProcess(id)
    case Working => HandlerReturns(id)
    case PostedDone => RunDone(id)
    case Finishing => FinishCompletes(id, true)
  }

  /** The object is live, has not failed, and its continuation is where it is one step nearer. */
  ghost predicate At<Method>(s: Server<Method>, id: nat, rank: nat) {
    && id in s.objects && id !in s.failed
    && exists c :: c in s.tokens && c.id == id && Rank(c.place, s.objects[id].status) == rank
  }

  ghost predicate Gone<Method>(s: Server<Method>, id: nat) {
    id in s.deleted && id !in s.objects && s.ran[id] == 1 && forall c :: c in s.tokens ==> c.id != id
  }

  lemma {:induction false} AtToken<Method>(s: Server<Method>, id: nat, place: Place, rank: nat)
    requires id in s.objects && id !in s.failed && Token(place, id) in s.tokens
    requires Rank(place, s.objects[id].status) == rank
    ensures At(s, id, rank)
  {
  }

  lemma {:induction false} GoneForGood<Method>(s: Server<Method>, id: nat)
    requires Safe(s) && id in s.deleted
    ensures Gone(s, id)
  {
    forall c | c in s.tokens ensures c.id != id { TokenFact(s, c); }
  }

  /** The posted `Proceed` of an object whose `Finish` event was good deletes it, and nothing of it is left. */
  lemma {:induction false} FinishDeletes<Method>(s: Server<Method>, id: nat)
    requires Safe(s) && Token(PostedProceed, id) in s.tokens && id in s.objects && s.objects[id].status == Finish
    ensures Gone(Next(s, RunProceed(id)), id)
  {
    hide Safe;
    StepSafe(s, RunProceed(id));
    GoneForGood(Next(s, RunProceed(id)), id);
  }

  lemma {:induction false} CreateAdvances<Method>(s: Server<Method>, id: nat)
    requires id !in s.failed && id in s.objects && s.objects[id].status == Create
    ensures At(Proceed(s, id), id, 9)
  {
    hide At;
    assert Token(Requested, id) in Proceed(s, id).tokens;
    AtToken(Proceed(s, id), id, Requested, 9);
  }

  lemma {:induction false} ProcessAdvances<Method>(s: Server<Method>, id: nat)
    requires Safe(s) && id !in s.failed && id in s.objects && s.objects[id].status == Process
    ensures At(Proceed(s, id), id, 6)
  {
    NewIdIsNew(s);
    hide At, Safe;
    assert Token(PostedProcess, id) in Proceed(s, id).tokens;
    AtToken(Proceed(s, id), id, PostedProcess, 6);
  }

  /** One step on from `Proceed`. */
  lemma {:induction false} ProceedAdvances<Method>(s: Server<Method>, id: nat)
    requires Safe(s) && Token(PostedProceed, id) in s.tokens && id !in s.failed && id in s.objects
    ensures var s' := Next(s, RunProceed(id));
            match s.objects[id].status
            case Create => At(s', id, 9)
            case Process => At(s', id, 6)
            case Finish => Gone(s', id)
  {
    hide Safe, At, Gone;
    match s.objects[id].status
    case Create => CreateAdvances(s, id);
    case Process => ProcessAdvances(s, id);
    case Finish => FinishDeletes(s, id);
  }

  /** Good news from the library, and its delivery. */
  lemma {:induction false} NewsAdvances<Method>(s: Server<Method>, id: nat)
    requires id in s.objects && id !in s.failed
    ensures s.objects[id].status == Process ==> At(AnswerRequest(s, id, true), id, 8)
    ensures s.objects[id].status == Finish ==> At(AnswerFinish(s, id, true), id, 2)
  {
    hide At;
    assert Token(Event(true), id) in AnswerRequest(s, id, true).tokens;
    assert Token(Event(true), id) in AnswerFinish(s, id, true).tokens;
    if s.objects[id].status == Process { AtToken(AnswerRequest(s, id, true), id, Event(true), 8); }
    if s.objects[id].status == Finish { AtToken(AnswerFinish(s, id, true), id, Event(true), 2); }
  }

  lemma {:induction false} DeliveryAdvances<Method>(s: Server<Method>, id: nat)
    requires id in s.objects && id !in s.failed && s.objects[id].status != Create
    ensures At(HandleEvent(s, id, true), id, if s.objects[id].status == Finish then 1 else 7)
  {
    hide At;
    assert Token(PostedProceed, id) in HandleEvent(s, id, true).tokens;
    AtToken(HandleEvent(s, id, true), id, PostedProceed, if s.objects[id].status == Finish then 1 else 7);
  }

  /** The handler. */
  lemma {:induction false} WorkAdvances<Method>(s: Server<Method>, id: nat)
    requires id in s.objects && id !in s.failed
    ensures At(StartProcess(s, id), id, 5) && At(Move(s, Token(Working, id), PostedDone), id, 4)
    ensures At(Done(s, id), id, 3)
  {
    hide At;
    assert Token(Working, id) in StartProcess(s, id).tokens;
    assert Token(PostedDone, id) in Move(s, Token(Working, id), PostedDone).tokens;
    assert Token(Finishing, id) in Done(s, id).tokens;
    AtToken(StartProcess(s, id), id, Working, 5);
    AtToken(Move(s, Token(Working, id), PostedDone), id, PostedDone, 4);
    AtToken(Done(s, id), id, Finishing, 3);
  }

  /** One step on from any other place. */
  lemma {:induction false} OthersAdvance<Method>(s: Server<Method>, id: nat, place: Place)
    requires id in s.objects && id !in s.failed && place != PostedProceed && place != Event(false)
    requires Consistent(place, s.objects[id].status, s.ran[id])
    ensures Rank(place, s.objects[id].status) > 1
    ensures At(Next(s, Onward(place, id)), id, Rank(place, s.objects[id].status) - 1)
  {
    hide At, AnswerRequest, AnswerFinish, HandleEvent, StartProcess, Done, Move;
    match place
    case Requested => NewsAdvances(s, id);
    case Finishing => NewsAdvances(s, id);
    case Event(_) => DeliveryAdvances(s, id);
    case _ => WorkAdvances(s, id);
  }

  lemma OnwardEnabled<Method>(s: Server<Method>, id: nat, place: Place)
    requires Token(place, id) in s.tokens && place != Event(false)
    ensures Enabled(s, Onward(place, id))
  {
  }

  lemma OnwardFromProceed<Method>(id: nat)
    ensures Onward<Method>(PostedProceed, id) == RunProceed(id)
  {
  }

  lemma {:induction false} AdvancesFrom<Method>(s: Server<Method>, id: nat, place: Place)
    requires Safe(s) && Token(place, id) in s.tokens && id !in s.failed && id in s.objects
    ensures var step, rank := Onward(place, id), Rank(place, s.objects[id].status);
            && rank > 0 && Enabled(s, step) && Safe(Next(s, step))
            && if rank == 1 then Gone(Next(s, step), id) else At(Next(s, step), id, rank - 1)
  {
    TokenFact(s, Token(place, id));
    hide Safe, At, Gone, Next, Enabled, Onward;
    OnwardEnabled(s, id, place);
    StepSafe(s, Onward(place, id));
    if place == PostedProceed {
      ProceedAdvances(s, id);
      OnwardFromProceed<Method>(id);
    } else {
      OthersAdvance(s, id, place);
    }
  }

  /** One step nearer to the deletion, which is the last. */
  lemma {:induction false} Advances<Method>(s: Server<Method>, id: nat, rank: nat) returns (step: Step<Method>)
    requires Safe(s) && At(s, id, rank)
    ensures rank > 0 && Enabled(s, step) && Safe(Next(s, step))
    ensures if rank == 1 then Gone(Next(s, step), id) else At(Next(s, step), id, rank - 1)
  {
    var c :| c in s.tokens && c.id == id && Rank(c.place, s.objects[id].status) == rank;
    hide Safe, At, Gone, Next, Enabled, Onward, Rank;
    assert c == Token(c.place, id);
    step := Onward(c.place, id);
    AdvancesFrom(s, id, c.place);
  }

  lemma {:induction false} CanFinish<Method(!new)>(s: Server<Method>, id: nat, rank: nat)
    returns (steps: seq<Step<Method>>, t: Server<Method>)
    requires Safe(s) && At(s, id, rank)
    ensures |steps| == rank && Run(s, steps, t) && Gone(t, id)
    decreases rank
  {
    hide Safe, At, Gone, Enabled, Next;
    var step := Advances(s, id, rank);
    var s1 := Next(s, step);
    if rank == 1 {
      steps, t := [step], s1;
      assert [step][1..] == [] && Run(s1, [], s1);
    } else {
      var more;
      more, t := CanFinish(s1, id, rank - 1);
      steps := [step] + more;
      assert steps[1..] == more;
    }
  }

  /**
   In every run: a live object whose event has not failed can be taken through at most ten steps of its
   own, in which `Process` runs exactly once over its life, to its deletion, and nothing of it is left.
   */
  lemma {:induction false} EveryCallCanFinish<Method(!new)>(before: seq<Step<Method>>, s: Server<Method>, id: nat)
    returns (steps: seq<Step<Method>>, t: Server<Method>)
    requires Run(Start(), before, s) && id in s.objects && id !in s.failed
    ensures |steps| <= 10 && Run(s, steps, t)
    ensures id in t.deleted && id !in t.objects && t.ran[id] == 1 && forall c :: c in t.tokens ==> c.id != id
  {
    StartIsSafe<Method>();
    hide Run, Safe, OneWaits;
    RunKeeps(Start(), before, s);
    var c :| c in s.tokens && c.id == id;
    var rank := Rank(c.place, s.objects[id].status);
    steps, t := CanFinish(s, id, rank);
  }

  /** In every run: the `Proceed` posted after a good `Finish` event deletes its object, and nothing of it is left. */
  lemma {:induction false} FinishedIsDeleted<Method(!new)>(before: seq<Step<Method>>, s: Server<Method>, id: nat)
    requires Run(Start(), before, s) && Token(PostedProceed, id) in s.tokens && id in s.finished
    ensures var t := Next(s, RunProceed(id));
            id in t.deleted && id !in t.objects && t.ran[id] == 1 && forall c :: c in t.tokens ==> c.id != id
  {
    StartIsSafe<Method>();
    hide Run, Safe, OneWaits, NoneForgotten, Next;
    RunKeeps(Start(), before, s);
    TokenFact(s, Token(PostedProceed, id));
    FinishDeletes(s, id);
  }
}
