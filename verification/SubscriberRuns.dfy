/**
 What a subscriber remembers, over every sequence of steps: what the user gave last is what is kept, and
 what a connection that comes back is greeted with.
 */
module SubscriberRuns {
  import opened Common
  import opened Bytes
  import opened Connection
  import opened Subscriptions

  /** The words of the commands, in ASCII. */
  lemma Words()
    ensures AUTH == [65, 85, 84, 72]
    ensures CLIENT == [67, 76, 73, 69, 78, 84] && SETNAME == [83, 69, 84, 78, 65, 77, 69]
    ensures SUBSCRIBE == [83, 85, 66, 83, 67, 82, 73, 66, 69] && UNSUBSCRIBE == [85, 78] + SUBSCRIBE
    ensures PSUBSCRIBE == [80] + SUBSCRIBE && PUNSUBSCRIBE == [80] + UNSUBSCRIBE
  {
  }

  // ---------- What a step leaves alone ----------

  lemma TellKeeps<Callback>(s: Client<Callback>, es: seq<ConnectState>)
    ensures Tell(s, es) == s.(events := Tell(s, es).events)
  {
  }

  lemma {:induction false} AttemptKeeps<Callback>(s: Client<Callback>, a: Attempt, w: World)
    ensures var t := Reconnect(s, a, w);
            t.settings == s.settings && t.channels == s.channels && t.patterns == s.patterns
  {
    hide Tell, Greeting;
    TellKeeps(s, if s.settings.sleeps then [Sleeping] else []);
    var s1 := BeginAttempt(s);
    TellKeeps(s1, [LookupFailed]);
    TellKeeps(s1, [Starting, Failed]);
    TellKeeps(s1, [Starting, Connected, Connected]);
  }

  lemma {:induction false} LoopKeeps<Callback>(s: Client<Callback>, tries: seq<Attempt>, w: World)
    ensures var t := ReconnectLoop(s, tries, w).s;
            t.settings == s.settings && t.channels == s.channels && t.patterns == s.patterns
    decreases |tries|
  {
    hide Reconnect, ShouldReconnect, Throws;
    TellKeeps(s, if s.settings.sleeps then [Sleeping] else []);
    if tries != [] {
      AttemptKeeps(s, tries[0], w);
      LoopKeeps(Reconnect(s, tries[0], w), tries[1..], w);
    }
  }

  /** The handler never touches the settings; the maps it keeps or empties, both together. */
  lemma {:induction false} HandlerKeeps<Callback>(s: Client<Callback>, w: World)
    ensures var t := HandleDrop(s, w).s;
            && t.settings == s.settings
            && ((t.channels == s.channels && t.patterns == s.patterns) || (t.channels == map[] && t.patterns == map[]))
  {
    hide Tell, ReconnectLoop;
    var s0 := s.(reconnecting := true, attempts := 0);
    var s1 := Tell(s0, [Dropped]);
    TellKeeps(s0, [Dropped]);
    LoopKeeps(s1, w.tries, w);
    var r := ReconnectLoop(s1, w.tries, w);
    TellKeeps(r.s.(channels := map[], patterns := map[]), [Stopped]);
  }

  lemma ConnectSettings<Callback>(s: Client<Callback>, o: Options, accepts: bool)
    ensures var t := Connect(s, o, accepts).s;
            t.settings == Configure(s.settings, o) && t.channels == s.channels && t.patterns == s.patterns
  {
    hide Tell;
    var s0 := s.(settings := Configure(s.settings, o));
    var t := Tell(s0, [Starting]);
    TellKeeps(s0, [Starting]);
    TellKeeps(t.(connected := true, sent := []), [Connected]);
  }

  predicate IsDrop<Callback>(step: Step<Callback>) { step.Lost? || step.Garbled? }

  lemma {:induction false} StepSettings<Callback>(s: Client<Callback>, step: Step<Callback>)
    ensures var c, d := s.settings, Next(s, step).settings;
            && (!step.DoAuth? ==> d.password == c.password)
            && (!step.DoSetName? ==> d.clientName == c.clientName)
            && (!step.DoConnectByName? ==> d.masterName == c.masterName)
            && (!step.DoAddSentinel? && !step.DoClearSentinels? ==> d.sentinels == c.sentinels)
            && (!step.DoConnect? && !step.DoConnectByName? ==>
                  d.maxReconnects == c.maxReconnects && d.sleeps == c.sleeps && d.listening == c.listening)
  {
    hide HandleDrop, Connect;
    match step
    case DoConnect(o, accepts) => ConnectSettings(s, o, accepts);
    case DoConnectByName(name, _, o, accepts) =>
      ConnectSettings(s.(settings := s.settings.(masterName := name)), o, accepts);
    case Lost(w) => HandlerKeeps(s.(connected := false, sent := [], buffered := []), w);
    case Garbled(w) => HandlerKeeps(s, w);
    case _ =>
  }

  // ---------- Sequences of steps ----------

  lemma {:induction false} AfterConcat<Callback>(s: Client<Callback>, xs: seq<Step<Callback>>, ys: seq<Step<Callback>>)
    ensures After(s, xs + ys) == After(After(s, xs), ys)
    decreases |xs|
  {
    hide Next;
    if xs == [] {
      assert xs + ys == ys;
    } else {
      assert (xs + ys)[1..] == xs[1..] + ys;
      AfterConcat(Next(s, xs[0]), xs[1..], ys);
    }
  }

  lemma {:induction false} AfterLast<Callback>(
    s: Client<Callback>, xs: seq<Step<Callback>>, step: Step<Callback>, ys: seq<Step<Callback>>)
    ensures After(s, xs + [step] + ys) == After(Next(After(s, xs), step), ys)
  {
    hide Next;
    AfterConcat(s, xs + [step], ys);
    AfterConcat(s, xs, [step]);
    assert [step][1..] == [];
    assert After(After(s, xs), [step]) == Next(After(s, xs), step);
  }

  lemma {:induction false} RunIsAfter<Callback(!new)>(
    s: Client<Callback>, steps: seq<Step<Callback>>, t: Client<Callback>)
    requires Run(s, steps, t)
    ensures t == After(s, steps)
    decreases |steps|
  {
    hide Next, Enabled;
    if steps != [] { RunIsAfter(Next(s, steps[0]), steps[1..], t); }
  }

  // ---------- The settings ----------

  lemma {:induction false} PasswordStays<Callback>(s: Client<Callback>, ys: seq<Step<Callback>>)
    requires forall i :: 0 <= i < |ys| ==> !ys[i].DoAuth?
    ensures After(s, ys).settings.password == s.settings.password
    decreases |ys|
  {
    hide Next;
    if ys != [] {
      StepSettings(s, ys[0]);
      PasswordStays(Next(s, ys[0]), ys[1..]);
    }
  }

  /** The password is the text of the last `auth`, whatever happened before and since. */
  lemma {:induction false} PasswordIsLast<Callback>(
    s: Client<Callback>, xs: seq<Step<Callback>>, text: bytes, ys: seq<Step<Callback>>)
    requires forall i :: 0 <= i < |ys| ==> !ys[i].DoAuth?
    ensures After(s, xs + [DoAuth(text)] + ys).settings.password == text
  {
    hide After;
    AfterLast(s, xs, DoAuth(text), ys);
    PasswordStays(Next(After(s, xs), DoAuth(text)), ys);
  }

  lemma {:induction false} NameStays<Callback>(s: Client<Callback>, ys: seq<Step<Callback>>)
    requires forall i :: 0 <= i < |ys| ==> !ys[i].DoSetName?
    ensures After(s, ys).settings.clientName == s.settings.clientName
    decreases |ys|
  {
    hide Next;
    if ys != [] {
      StepSettings(s, ys[0]);
      NameStays(Next(s, ys[0]), ys[1..]);
    }
  }

  lemma {:induction false} NameIsLast<Callback>(
    s: Client<Callback>, xs: seq<Step<Callback>>, text: bytes, ys: seq<Step<Callback>>)
    requires forall i :: 0 <= i < |ys| ==> !ys[i].DoSetName?
    ensures After(s, xs + [DoSetName(text)] + ys).settings.clientName == text
  {
    hide After;
    AfterLast(s, xs, DoSetName(text), ys);
    NameStays(Next(After(s, xs), DoSetName(text)), ys);
  }

  lemma {:induction false} MasterStays<Callback>(s: Client<Callback>, ys: seq<Step<Callback>>)
    requires forall i :: 0 <= i < |ys| ==> !ys[i].DoConnectByName?
    ensures After(s, ys).settings.masterName == s.settings.masterName
    decreases |ys|
  {
    hide Next;
    if ys != [] {
      StepSettings(s, ys[0]);
      MasterStays(Next(s, ys[0]), ys[1..]);
    }
  }

  /** The name of the last master asked for is kept, even when that call failed. */
  lemma {:induction false} MasterIsLast<Callback>(
    s: Client<Callback>, xs: seq<Step<Callback>>, step: Step<Callback>, ys: seq<Step<Callback>>)
    requires step.DoConnectByName? && forall i :: 0 <= i < |ys| ==> !ys[i].DoConnectByName?
    ensures After(s, xs + [step] + ys).settings.masterName == step.name
  {
    hide After, Connect;
    AfterLast(s, xs, step, ys);
    var u := After(s, xs);
    ConnectSettings(u.(settings := u.settings.(masterName := step.name)), step.options, step.accepts);
    MasterStays(Next(u, step), ys);
  }

  lemma {:induction false} OptionsStay<Callback>(s: Client<Callback>, ys: seq<Step<Callback>>)
    requires forall i :: 0 <= i < |ys| ==> !ys[i].DoConnect? && !ys[i].DoConnectByName?
    ensures var c, d := s.settings, After(s, ys).settings;
            d.maxReconnects == c.maxReconnects && d.sleeps == c.sleeps && d.listening == c.listening
    decreases |ys|
  {
    hide Next;
    if ys != [] {
      StepSettings(s, ys[0]);
      OptionsStay(Next(s, ys[0]), ys[1..]);
    }
  }

  /** The parameters of the last `connect` to a host are kept, even when it failed. */
  lemma {:induction false} OptionsAreLast<Callback>(
    s: Client<Callback>, xs: seq<Step<Callback>>, o: Options, accepts: bool, ys: seq<Step<Callback>>)
    requires forall i :: 0 <= i < |ys| ==> !ys[i].DoConnect? && !ys[i].DoConnectByName?
    ensures var c := After(s, xs + [DoConnect(o, accepts)] + ys).settings;
            c.maxReconnects == o.maxReconnects && c.sleeps == o.sleeps && c.listening == o.listening
  {
    hide After, Connect;
    var step: Step<Callback> := DoConnect(o, accepts);
    AfterLast(s, xs, step, ys);
    ConnectSettings(After(s, xs), o, accepts);
    OptionsStay(Next(After(s, xs), step), ys);
  }

  /** How many sentinels were added. */
  function Added<Callback>(ys: seq<Step<Callback>>): nat
    decreases |ys|
  {
    if ys == [] then 0 else (if ys[0].DoAddSentinel? then 1 else 0) + Added(ys[1..])
  }

  lemma {:induction false} SentinelsAdd<Callback>(s: Client<Callback>, ys: seq<Step<Callback>>)
    requires forall i :: 0 <= i < |ys| ==> !ys[i].DoClearSentinels?
    ensures After(s, ys).settings.sentinels == s.settings.sentinels + Added(ys)
    decreases |ys|
  {
    if ys != [] {
      assert ys[0].DoAddSentinel? ==> Next(s, ys[0]).settings.sentinels == s.settings.sentinels + 1;
      StepSettings(s, ys[0]);
      hide Next;
      SentinelsAdd(Next(s, ys[0]), ys[1..]);
    }
  }

  /** The sentinels are those added since the last time they were cleared. */
  lemma {:induction false} SentinelsSinceClear<Callback>(
    s: Client<Callback>, xs: seq<Step<Callback>>, ys: seq<Step<Callback>>)
    requires forall i :: 0 <= i < |ys| ==> !ys[i].DoClearSentinels?
    ensures After(s, xs + [DoClearSentinels] + ys).settings.sentinels == Added(ys)
  {
    hide After;
    AfterLast(s, xs, DoClearSentinels, ys);
    SentinelsAdd(Next(After(s, xs), DoClearSentinels), ys);
  }

  // ---------- The maps ----------

  /** The two kinds of subscription. */
  function Book<Callback>(s: Client<Callback>, pattern: bool): map<bytes, Callback> {
    if pattern then s.patterns else s.channels
  }

  function Giving<Callback>(pattern: bool, key: bytes, callback: Callback): Step<Callback> {
    if pattern then DoPSubscribe(key, callback) else DoSubscribe(key, callback)
  }

  function Taking<Callback>(pattern: bool, key: bytes): Step<Callback> {
    if pattern then DoPUnsubscribe(key) else DoUnsubscribe(key)
  }

  predicate Touches<Callback>(step: Step<Callback>, pattern: bool, key: bytes) {
    if pattern then (step.DoPSubscribe? || step.DoPUnsubscribe?) && step.key == key
    else (step.DoSubscribe? || step.DoUnsubscribe?) && step.key == key
  }

  /** The callback of a key, if there is one. */
  function Entry<Callback>(m: map<bytes, Callback>, key: bytes): Option<Callback> {
    if key in m then Some(m[key]) else None
  }

  lemma {:induction false} ConnectingStep<Callback>(s: Client<Callback>, step: Step<Callback>)
    requires step.DoConnect? || step.DoConnectByName?
    ensures Next(s, step).channels == s.channels && Next(s, step).patterns == s.patterns
  {
    hide Connect;
    match step
    case DoConnect(o, accepts) => ConnectSettings(s, o, accepts);
    case DoConnectByName(name, _, o, accepts) =>
      ConnectSettings(s.(settings := s.settings.(masterName := name)), o, accepts);
  }

  lemma {:induction false} DropStep<Callback>(s: Client<Callback>, step: Step<Callback>, pattern: bool)
    requires IsDrop(step)
    ensures var m := Book(Next(s, step), pattern); m == Book(s, pattern) || m == map[]
  {
    hide HandleDrop;
    match step
    case Lost(w) => HandlerKeeps(s.(connected := false, sent := [], buffered := []), w);
    case Garbled(w) => HandlerKeeps(s, w);
  }

  lemma {:induction false} OtherKeys<Callback>(s: Client<Callback>, step: Step<Callback>, pattern: bool, key: bytes)
    requires !Touches(step, pattern, key) && !IsDrop(step)
    ensures Entry(Book(Next(s, step), pattern), key) == Entry(Book(s, pattern), key)
  {
    hide Connect, ConnectByName;
    if step.DoConnect? || step.DoConnectByName? { ConnectingStep(s, step); }
  }

  /** Steps that do not name a key leave it alone; only a drop can take it away. */
  lemma {:induction false} KeyStays<Callback>(s: Client<Callback>, ys: seq<Step<Callback>>, pattern: bool, key: bytes)
    requires forall i :: 0 <= i < |ys| ==> !Touches(ys[i], pattern, key)
    ensures var before, after := Entry(Book(s, pattern), key), Entry(Book(After(s, ys), pattern), key);
            && (after == before || after == None)
            && ((forall i :: 0 <= i < |ys| ==> !IsDrop(ys[i])) ==> after == before)
    decreases |ys|
  {
    hide Next, Touches;
    if ys != [] {
      if IsDrop(ys[0]) { DropStep(s, ys[0], pattern); } else { OtherKeys(s, ys[0], pattern, key); }
      KeyStays(Next(s, ys[0]), ys[1..], pattern, key);
    }
  }

  /** The callback of a key is the one given last; it is there unless a drop has emptied the maps since. */
  lemma {:induction false} LastCallback<Callback>(
    s: Client<Callback>, xs: seq<Step<Callback>>, pattern: bool, key: bytes, callback: Callback, ys: seq<Step<Callback>>)
    requires forall i :: 0 <= i < |ys| ==> !Touches(ys[i], pattern, key)
    ensures var m := Book(After(s, xs + [Giving(pattern, key, callback)] + ys), pattern);
            && (key in m ==> m[key] == callback)
            && ((forall i :: 0 <= i < |ys| ==> !IsDrop(ys[i])) ==> key in m)
  {
    hide After, Touches;
    var step := Giving(pattern, key, callback);
    AfterLast(s, xs, step, ys);
    KeyStays(Next(After(s, xs), step), ys, pattern, key);
  }

  /** A key that was unsubscribed last is not there. */
  lemma {:induction false} LastUnsubscribed<Callback>(
    s: Client<Callback>, xs: seq<Step<Callback>>, pattern: bool, key: bytes, ys: seq<Step<Callback>>)
    requires forall i :: 0 <= i < |ys| ==> !Touches(ys[i], pattern, key)
    ensures key !in Book(After(s, xs + [Taking(pattern, key)] + ys), pattern)
  {
    hide After, Touches;
    var step: Step<Callback> := Taking(pattern, key);
    AfterLast(s, xs, step, ys);
    KeyStays(Next(After(s, xs), step), ys, pattern, key);
  }

  // ---------- The commands ----------

  /** What a step puts into the send buffer, in bytes. */
  function Spelled<Callback>(s: Client<Callback>, step: Step<Callback>): seq<Command> {
    var subscribe: bytes := [83, 85, 66, 83, 67, 82, 73, 66, 69];
    match step
    case DoSubscribe(key, _) => [[subscribe, key]]
    case DoPSubscribe(key, _) => [[[80] + subscribe, key]]
    case DoUnsubscribe(key) => if key in s.channels then [[[85, 78] + subscribe, key]] else []
    case DoPUnsubscribe(key) => if key in s.patterns then [[[80, 85, 78] + subscribe, key]] else []
    case DoAuth(text) => [[[65, 85, 84, 72], text]]
    case DoSetName(text) => [[[67, 76, 73, 69, 78, 84], [83, 69, 84, 78, 65, 77, 69], text]]
    case _ => []
  }

  function Issued<Callback>(s: Client<Callback>, ys: seq<Step<Callback>>): seq<Command>
    decreases |ys|
  {
    if ys == [] then [] else Spelled(s, ys[0]) + Issued(Next(s, ys[0]), ys[1..])
  }

  /** The steps between connecting and the end of a connection. */
  predicate WhileConnected<Callback>(step: Step<Callback>) {
    !step.DoConnect? && !step.DoConnectByName? && !step.DoDisconnect? && !IsDrop(step)
  }

  lemma {:induction false} StepIssues<Callback>(s: Client<Callback>, step: Step<Callback>)
    requires s.connected && WhileConnected(step)
    ensures var t := Next(s, step);
            && t.connected && t.sent + t.buffered == s.sent + s.buffered + Spelled(s, step)
            && (step.DoCommit? ==> t.buffered == [])
  {
    Words();
    assert [80] + ([85, 78] + SUBSCRIBE) == [80, 85, 78] + SUBSCRIBE;
    hide AUTH, CLIENT, SETNAME, SUBSCRIBE, UNSUBSCRIBE, PSUBSCRIBE, PUNSUBSCRIBE;
    var cmds := Spelled(s, step);
    assert s.sent + (s.buffered + cmds) == s.sent + s.buffered + cmds;
  }

  /**
   While a connection lasts, what was sent and what is buffered is exactly what the user asked for, in
   order, and a commit at the end has sent all of it.
   */
  lemma {:induction false} EverythingIsSent<Callback>(s: Client<Callback>, ys: seq<Step<Callback>>)
    requires s.connected && forall i :: 0 <= i < |ys| ==> WhileConnected(ys[i])
    ensures var t := After(s, ys);
            && t.connected && t.sent + t.buffered == s.sent + s.buffered + Issued(s, ys)
            && Commit(t).sent == s.sent + s.buffered + Issued(s, ys)
    decreases |ys|
  {
    hide Next, Spelled, WhileConnected;
    if ys == [] {
      assert s.sent + s.buffered + [] == s.sent + s.buffered;
    } else {
      var u := Next(s, ys[0]);
      StepIssues(s, ys[0]);
      EverythingIsSent(u, ys[1..]);
      assert s.sent + s.buffered + Spelled(s, ys[0]) + Issued(u, ys[1..])
             == s.sent + s.buffered + (Spelled(s, ys[0]) + Issued(u, ys[1..]));
    }
  }

  // ---------- Connecting ----------

  /** `connect` throws exactly when there is a connection already or the host refuses, and then changes neither. */
  lemma ConnectOutcome<Callback>(s: Client<Callback>, o: Options, accepts: bool)
    ensures var r := Connect(s, o, accepts);
            && (r.threw <==> s.connected || !accepts)
            && (r.threw ==> r.s.connected == s.connected && r.s.sent == s.sent)
            && (!r.threw ==> r.s.connected && r.s.sent == [])
            && r.s.buffered == s.buffered
            && r.s.events == s.events + (if !o.listening then [] else if r.threw then [Starting] else [Starting, Connected])
  {
  }

  /** By name it throws as well when there is no sentinel or the lookup does not find the master. */
  lemma ConnectByNameOutcome<Callback>(s: Client<Callback>, name: bytes, lookup: Lookup, o: Options, accepts: bool)
    ensures var r := ConnectByName(s, name, lookup, o, accepts);
            && (r.threw <==> s.settings.sentinels == 0 || lookup != Found || s.connected || !accepts)
            && (r.threw ==> r.s.connected == s.connected && r.s.sent == s.sent)
            && (!r.threw ==> r.s.connected && r.s.sent == [])
            && r.s.buffered == s.buffered
  {
  }

  // ---------- Coming back ----------

  predicate Succeeds(c: Settings, a: Attempt) {
    (c.masterName == [] || (c.sentinels > 0 && a.lookup == Found)) && a.accepts
  }

  /** The attempt finds no master, or the host refuses; a lookup that throws is neither. */
  predicate Fails(c: Settings, a: Attempt) {
    if c.masterName == [] then !a.accepts
    else c.sentinels > 0 && (a.lookup == NotFound || (a.lookup == Found && !a.accepts))
  }

  /** After `n` attempts, the `k`-th of these is the first that does not fail; it is allowed, and succeeds. */
  predicate BackAt(c: Settings, tries: seq<Attempt>, n: nat, k: nat) {
    && k < |tries| && (c.maxReconnects == -1 || n + k < c.maxReconnects) && Succeeds(c, tries[k])
    && forall j :: 0 <= j < k ==> Fails(c, tries[j])
  }

  lemma AttemptKinds(c: Settings, a: Attempt)
    ensures Succeeds(c, a) <==> !Throws(c, a) && !Misses(c, a)
    ensures Fails(c, a) <==> !Throws(c, a) && Misses(c, a)
  {
  }

  lemma {:induction false} LoopComesBack<Callback>(s: Client<Callback>, tries: seq<Attempt>, w: World, k: nat)
    requires !s.connected && s.buffered == [] && s.sent == [] && !s.cancel && BackAt(s.settings, tries, s.attempts, k)
    ensures var r := ReconnectLoop(s, tries, w); r.s.connected && r.s.attempts == s.attempts + k + 1
    decreases k
  {
    hide ReconnectLoop, Reconnect, Throws, Misses, Greeting;
    AttemptKinds(s.settings, tries[0]);
    var t := Reconnect(s, tries[0], w);
    AttemptOutcome(s, tries[0], w);
    LoopTurns(s, tries, w);
    if k == 0 {
      LoopStops(t, tries[1..], w);
    } else {
      assert Fails(s.settings, tries[0]);
      hide Succeeds, Fails;
      assert BackAt(t.settings, tries[1..], t.attempts, k - 1);
      LoopComesBack(t, tries[1..], w, k - 1);
    }
  }

  lemma {:induction false} LoopCameBack<Callback>(s: Client<Callback>, tries: seq<Attempt>, w: World) returns (k: nat)
    requires !s.connected && s.buffered == [] && s.sent == [] && ReconnectLoop(s, tries, w).s.connected
    ensures !s.cancel && BackAt(s.settings, tries, s.attempts, k)
    decreases |tries|
  {
    hide ReconnectLoop, Reconnect, Throws, Misses, Greeting;
    if !ShouldReconnect(s) {
      LoopStops(s, tries, w);
      assert false;
    }
    LoopTurns(s, tries, w);
    TellKeeps(s, if s.settings.sleeps then [Sleeping] else []);
    AttemptKinds(s.settings, tries[0]);
    AttemptOutcome(s, tries[0], w);
    var t := Reconnect(s, tries[0], w);
    if t.connected {
      k := 0;
    } else {
      hide Succeeds;
      var j := LoopCameBack(t, tries[1..], w);
      k := j + 1;
      assert tries[k] == tries[1..][j];
      forall i | 0 <= i < k ensures Fails(s.settings, tries[i]) {
        if i > 0 { assert tries[i] == tries[1..][i - 1]; }
      }
    }
  }

  lemma HandlerConnects<Callback>(s: Client<Callback>, w: World)
    requires !s.reconnecting
    ensures var s0 := s.(connected := false, sent := [], buffered := [], reconnecting := true, attempts := 0);
            var r, d := ReconnectLoop(Tell(s0, [Dropped]), w.tries, w), Drop(s, w);
            d.s.connected == r.s.connected && d.s.attempts == r.s.attempts
  {
    hide ReconnectLoop, Tell;
    var s0 := s.(connected := false, sent := [], buffered := [], reconnecting := true, attempts := 0);
    var r := ReconnectLoop(Tell(s0, [Dropped]), w.tries, w);
    TellKeeps(r.s.(channels := map[], patterns := map[]), [Stopped]);
  }

  /**
   A dropped connection comes back exactly when reconnecting was not cancelled and some allowed attempt
   succeeds after others that only fail; the number of attempts made is then known.
   */
  lemma {:induction false} ComesBack<Callback>(s: Client<Callback>, w: World)
    requires !s.reconnecting
    ensures Drop(s, w).s.connected <==> !s.cancel && exists k: nat :: BackAt(s.settings, w.tries, 0, k)
    ensures forall k: nat :: !s.cancel && BackAt(s.settings, w.tries, 0, k) ==> Drop(s, w).s.attempts == k + 1
  {
    hide ReconnectLoop, Tell, BackAt, Drop;
    HandlerConnects(s, w);
    var s0 := s.(connected := false, sent := [], buffered := [], reconnecting := true, attempts := 0);
    var s1 := Tell(s0, [Dropped]);
    TellKeeps(s0, [Dropped]);
    forall k: nat | !s.cancel && BackAt(s.settings, w.tries, 0, k)
      ensures Drop(s, w).s.connected && Drop(s, w).s.attempts == k + 1
    {
      LoopComesBack(s1, w.tries, w, k);
    }
    if Drop(s, w).s.connected {
      var k := LoopCameBack(s1, w.tries, w);
    }
  }

  /** When it does not throw, the handler stops only for one of three reasons. */
  lemma {:induction false} LoopEndsWhen<Callback>(s: Client<Callback>, tries: seq<Attempt>, w: World)
    ensures var r := ReconnectLoop(s, tries, w);
            r.threw || r.s.connected || r.s.cancel
            || (s.settings.maxReconnects != -1 && r.s.attempts >= s.settings.maxReconnects)
    decreases |tries|
  {
    hide Reconnect, ReconnectLoop, Throws;
    if !ShouldReconnect(s) {
      LoopStops(s, tries, w);
    } else {
      LoopTurns(s, tries, w);
      if tries != [] && !Throws(s.settings, tries[0]) {
        AttemptKeeps(s, tries[0], w);
        LoopEndsWhen(Reconnect(s, tries[0], w), tries[1..], w);
      }
    }
  }

  /** A drop is given up only when reconnecting was cancelled or no attempt is left. */
  lemma {:induction false} GivesUpWhen<Callback>(s: Client<Callback>, w: World)
    requires !s.reconnecting
    ensures var r := Drop(s, w);
            r.threw || r.s.connected || r.s.cancel
            || (s.settings.maxReconnects != -1 && r.s.attempts >= s.settings.maxReconnects)
  {
    hide ReconnectLoop, Tell;
    var s0 := s.(connected := false, sent := [], buffered := [], reconnecting := true, attempts := 0);
    var s1 := Tell(s0, [Dropped]);
    TellKeeps(s0, [Dropped]);
    LoopEndsWhen(s1, w.tries, w);
    var r := ReconnectLoop(s1, w.tries, w);
    TellKeeps(r.s.(channels := map[], patterns := map[]), [Stopped]);
  }

  lemma {:induction false} LoopCancel<Callback>(s: Client<Callback>, tries: seq<Attempt>, w: World)
    requires s.cancel
    ensures ReconnectLoop(s, tries, w) == Ended(s, false)
  {
    hide ReconnectLoop;
    LoopStops(s, tries, w);
  }

  lemma {:induction false} HandlerCancel<Callback>(s: Client<Callback>, w: World)
    requires s.cancel
    ensures var r := HandleDrop(s, w);
            r.s.cancel && !r.threw && r.s.connected == s.connected && (!s.reconnecting ==> r.s.attempts == 0)
  {
    hide ReconnectLoop;
    LoopCancel(Tell(s.(reconnecting := true, attempts := 0), [Dropped]), w.tries, w);
  }

  lemma {:induction false} StepCancel<Callback>(s: Client<Callback>, step: Step<Callback>)
    requires s.cancel
    ensures Next(s, step).cancel
  {
    hide HandleDrop;
    match step
    case Lost(w) => HandlerCancel(s.(connected := false, sent := [], buffered := []), w);
    case Garbled(w) => HandlerCancel(s, w);
    case _ =>
  }

  lemma {:induction false} CancelStays<Callback>(s: Client<Callback>, ys: seq<Step<Callback>>)
    requires s.cancel
    ensures After(s, ys).cancel
    decreases |ys|
  {
    hide Next;
    if ys != [] {
      StepCancel(s, ys[0]);
      CancelStays(Next(s, ys[0]), ys[1..]);
    }
  }

  /** `cancel_reconnect` is for good: whatever follows, a later drop makes no attempt and does not throw. */
  lemma {:induction false} CancelIsFinal<Callback>(
    s: Client<Callback>, xs: seq<Step<Callback>>, ys: seq<Step<Callback>>, w: World)
    ensures var t := After(s, xs + [DoCancelReconnect] + ys);
            && t.cancel && !Drop(t, w).s.connected && !Drop(t, w).threw
            && (!t.reconnecting ==> Drop(t, w).s.attempts == 0)
  {
    hide After, HandleDrop;
    AfterLast(s, xs, DoCancelReconnect, ys);
    CancelStays(Next(After(s, xs), DoCancelReconnect), ys);
    var t := After(s, xs + [DoCancelReconnect] + ys);
    HandlerCancel(t.(connected := false, sent := [], buffered := []), w);
  }

  // ---------- The greeting ----------

  /** What is sent first on a connection that came back, in bytes. */
  function Hello(password: bytes, name: bytes, channels: seq<bytes>, patterns: seq<bytes>): seq<Command> {
    (if password == [] then [] else [[[65, 85, 84, 72], password]])
    + (if name == [] then [] else [[[67, 76, 73, 69, 78, 84], [83, 69, 84, 78, 65, 77, 69], name]])
    + seq(|channels|, i requires 0 <= i < |channels| => [[83, 85, 66, 83, 67, 82, 73, 66, 69], channels[i]])
    + seq(|patterns|, i requires 0 <= i < |patterns| => [[80, 83, 85, 66, 83, 67, 82, 73, 66, 69], patterns[i]])
  }

  lemma GreetingIsHello<Callback>(s: Client<Callback>, w: World)
    ensures Greeting(s, w) == Hello(s.settings.password, s.settings.clientName, w.channelOrder, w.patternOrder)
  {
    Words();
    assert PSUBSCRIBE == [80, 83, 85, 66, 83, 67, 82, 73, 66, 69];
    hide AUTH, CLIENT, SETNAME, SUBSCRIBE, PSUBSCRIBE;
  }

  /** An attempt that succeeds sends what was still buffered, and then the greeting. */
  lemma {:induction false} SendsBuffered<Callback>(s: Client<Callback>, a: Attempt, w: World)
    requires Succeeds(s.settings, a)
    ensures var t := Reconnect(s, a, w);
            && t.connected && t.buffered == []
            && t.sent == s.buffered + Hello(s.settings.password, s.settings.clientName, w.channelOrder, w.patternOrder)
  {
    hide Hello, Tell, Greeting;
    TellKeeps(s, if s.settings.sleeps then [Sleeping] else []);
    TellKeeps(BeginAttempt(s), [Starting, Connected, Connected]);
    GreetingSame(s, BeginAttempt(s), w);
    GreetingIsHello(s, w);
  }

  /** In every run, a connection that comes back is greeted with what the client holds by then. */
  lemma {:induction false} GreetedOnReturn<Callback(!new)>(
    s: Client<Callback>, steps: seq<Step<Callback>>, t: Client<Callback>, w: World)
    requires Unused(s) && Run(s, steps, t) && Enabled(t, Lost(w)) && Drop(t, w).s.connected
    ensures Drop(t, w).s.sent == Hello(t.settings.password, t.settings.clientName, w.channelOrder, w.patternOrder)
  {
    hide Run, Drop, Greeting, Hello, DropThrows;
    UnusedInv(s);
    RunKeeps(s, steps, t);
    InvParts(t);
    DropOutcome(t, w);
    GreetingIsHello(t, w);
  }

  /** So the first command on it is `AUTH` with the last password given, if that is not empty. */
  lemma {:induction false} AuthenticatesFirst<Callback(!new)>(
    s: Client<Callback>, xs: seq<Step<Callback>>, text: bytes, ys: seq<Step<Callback>>, t: Client<Callback>, w: World)
    requires Unused(s) && Run(s, xs + [DoAuth(text)] + ys, t) && Enabled(t, Lost(w)) && Drop(t, w).s.connected
    requires text != [] && forall i :: 0 <= i < |ys| ==> !ys[i].DoAuth?
    ensures [[[65, 85, 84, 72], text]] <= Drop(t, w).s.sent
  {
    hide Run, Drop, Enabled;
    var steps := xs + [DoAuth(text)] + ys;
    RunIsAfter(s, steps, t);
    PasswordIsLast(s, xs, text, ys);
    GreetedOnReturn(s, steps, t, w);
  }

  /** And the command behind it, or the first if there is no password, sets the last name given. */
  lemma {:induction false} NamesItself<Callback(!new)>(
    s: Client<Callback>, xs: seq<Step<Callback>>, text: bytes, ys: seq<Step<Callback>>, t: Client<Callback>, w: World)
    requires Unused(s) && Run(s, xs + [DoSetName(text)] + ys, t) && Enabled(t, Lost(w)) && Drop(t, w).s.connected
    requires text != [] && forall i :: 0 <= i < |ys| ==> !ys[i].DoSetName?
    ensures var k := if t.settings.password == [] then 0 else 1;
            && k < |Drop(t, w).s.sent|
            && Drop(t, w).s.sent[k] == [[67, 76, 73, 69, 78, 84], [83, 69, 84, 78, 65, 77, 69], text]
  {
    hide Run, Drop, Enabled;
    var steps := xs + [DoSetName(text)] + ys;
    RunIsAfter(s, steps, t);
    NameIsLast(s, xs, text, ys);
    GreetedOnReturn(s, steps, t, w);
  }

  // ---------- The events ----------

  function Count(es: seq<ConnectState>, e: ConnectState): nat {
    if es == [] then 0 else (if es[0] == e then 1 else 0) + Count(es[1..], e)
  }

  lemma {:induction false} CountConcat(es: seq<ConnectState>, fs: seq<ConnectState>, e: ConnectState)
    ensures Count(es + fs, e) == Count(es, e) + Count(fs, e)
    decreases |es|
  {
    if es == [] {
      assert es + fs == fs;
    } else {
      assert (es + fs)[1..] == es[1..] + fs;
      CountConcat(es[1..], fs, e);
    }
  }

  /** The events of one attempt that does not throw. */
  function AttemptEvents(c: Settings, a: Attempt): seq<ConnectState> {
    (if c.sleeps then [Sleeping] else [])
    + (if Succeeds(c, a) then [Starting, Connected, Connected]
       else if c.masterName != [] && a.lookup == NotFound then [LookupFailed]
       else [Starting, Failed])
  }

  function One(yes: bool): nat { if yes then 1 else 0 }

  lemma CountOne(a: ConnectState, e: ConnectState)
    ensures Count([], e) == 0 && Count([a], e) == One(a == e)
  {
    assert [a][1..] == [];
  }

  lemma {:induction false} CountFew(a: ConnectState, b: ConnectState, c: ConnectState, e: ConnectState)
    ensures Count([], e) == 0 && Count([a], e) == One(a == e)
    ensures Count([a, b], e) == One(a == e) + One(b == e)
    ensures Count([a, b, c], e) == One(a == e) + One(b == e) + One(c == e)
  {
    hide Count;
    CountOne(a, e);
    CountOne(b, e);
    CountOne(c, e);
    CountConcat([a], [b], e);
    CountConcat([a, b], [c], e);
    assert [a] + [b] == [a, b] && [a, b] + [c] == [a, b, c];
  }

  lemma {:induction false} AttemptCount(c: Settings, a: Attempt, e: ConnectState)
    ensures Count(AttemptEvents(c, a), e)
            == One(c.sleeps && e == Sleeping)
               + (if Succeeds(c, a) then One(e == Starting) + 2 * One(e == Connected)
                  else if c.masterName != [] && a.lookup == NotFound then One(e == LookupFailed)
                  else One(e == Starting) + One(e == Failed))
  {
    hide Succeeds, Count;
    CountFew(Sleeping, Sleeping, Sleeping, e);
    CountFew(Starting, Connected, Connected, e);
    CountFew(LookupFailed, Failed, Failed, e);
    CountFew(Starting, Failed, Failed, e);
    CountConcat(if c.sleeps then [Sleeping] else [],
                if Succeeds(c, a) then [Starting, Connected, Connected]
                else if c.masterName != [] && a.lookup == NotFound then [LookupFailed]
                else [Starting, Failed], e);
  }

  lemma Told<Callback>(s: Client<Callback>, es: seq<ConnectState>)
    ensures s.settings.listening ==> Tell(s, es).events == s.events + es
    ensures !s.settings.listening ==> Tell(s, es) == s
    ensures Tell(s, es) == s.(events := Tell(s, es).events)
  {
  }

  lemma {:induction false} AttemptTells<Callback>(s: Client<Callback>, a: Attempt, w: World)
    requires !Throws(s.settings, a)
    ensures Reconnect(s, a, w).events == s.events + if s.settings.listening then AttemptEvents(s.settings, a) else []
  {
    hide Greeting, Tell;
    var sleep := if s.settings.sleeps then [Sleeping] else [];
    var s1 := BeginAttempt(s);
    Told(s, sleep);
    Told(s1, [LookupFailed]);
    Told(s1, [Starting, Failed]);
    Told(s1, [Starting, Connected, Connected]);
  }

  /** How many events of a kind were added, by a listener's count. */
  function More<Callback>(s: Client<Callback>, t: Client<Callback>, e: ConnectState): int {
    Count(t.events, e) - Count(s.events, e)
  }

  /** Every attempt that sleeps says so, every failed one ends in a failure event, and success is told twice. */
  ghost predicate Announced<Callback>(s: Client<Callback>, r: Ended<Callback>) {
    var n := r.s.attempts - s.attempts;
    && More(s, r.s, Sleeping) == (if s.settings.sleeps then n else 0)
    && More(s, r.s, Failed) + More(s, r.s, LookupFailed) == (if r.s.connected || r.threw then n - 1 else n)
    && More(s, r.s, Connected) == (if r.s.connected then 2 else 0)
    && More(s, r.s, Dropped) == 0 && More(s, r.s, Stopped) == 0
  }

  lemma {:induction false} AttemptAnnounced<Callback>(s: Client<Callback>, a: Attempt, w: World)
    requires s.settings.listening && !s.connected && s.buffered == [] && s.sent == [] && !Throws(s.settings, a)
    ensures Announced(s, Ended(Reconnect(s, a, w), false))
  {
    hide Greeting, Reconnect, Count, AttemptEvents, Throws, Misses, Succeeds;
    AttemptTells(s, a, w);
    AttemptOutcome(s, a, w);
    AttemptKinds(s.settings, a);
    forall e: ConnectState ensures More(s, Reconnect(s, a, w), e) == Count(AttemptEvents(s.settings, a), e) {
      CountConcat(s.events, AttemptEvents(s.settings, a), e);
    }
    AttemptCount(s.settings, a, Sleeping);
    AttemptCount(s.settings, a, Failed);
    AttemptCount(s.settings, a, LookupFailed);
    AttemptCount(s.settings, a, Connected);
    AttemptCount(s.settings, a, Dropped);
    AttemptCount(s.settings, a, Stopped);
  }

  lemma {:induction false} ThrowAnnounced<Callback>(s: Client<Callback>)
    requires s.settings.listening && !s.connected
    ensures Announced(s, Ended(BeginAttempt(s), true))
  {
    hide Count, Tell;
    var sleep := if s.settings.sleeps then [Sleeping] else [];
    Told(s, sleep);
    forall e: ConnectState ensures More(s, BeginAttempt(s), e) == One(s.settings.sleeps && e == Sleeping) {
      CountConcat(s.events, sleep, e);
      CountFew(Sleeping, Sleeping, Sleeping, e);
      assert s.events + [] == s.events;
    }
  }

  lemma {:induction false} LoopAnnounced<Callback>(s: Client<Callback>, tries: seq<Attempt>, w: World)
    requires s.settings.listening && !s.connected && s.buffered == [] && s.sent == []
    ensures Announced(s, ReconnectLoop(s, tries, w))
    decreases |tries|
  {
    hide Greeting, Reconnect, Count, Throws, ReconnectLoop, BeginAttempt, Misses;
    if !ShouldReconnect(s) {
      LoopStops(s, tries, w);
    } else {
      LoopTurns(s, tries, w);
      if tries != [] && Throws(s.settings, tries[0]) {
        ThrowAnnounced(s);
      } else if tries != [] {
        AttemptAnnounced(s, tries[0], w);
        AttemptOutcome(s, tries[0], w);
        var t := Reconnect(s, tries[0], w);
        if t.connected { LoopStops(t, tries[1..], w); } else { LoopAnnounced(t, tries[1..], w); }
      }
    }
  }

  /** The state in which the reconnect loop starts. */
  function LoopStart<Callback>(s: Client<Callback>): Client<Callback> {
    Tell(s.(connected := false, sent := [], buffered := [], reconnecting := true, attempts := 0), [Dropped])
  }

  lemma {:induction false} DropCount<Callback>(s: Client<Callback>, w: World, e: ConnectState)
    requires !s.reconnecting && s.settings.listening
    ensures var l, r := ReconnectLoop(LoopStart(s), w.tries, w), Drop(s, w);
            && r.threw == l.threw && r.s.connected == l.s.connected && r.s.attempts == l.s.attempts
            && More(s, r.s, e)
               == One(e == Dropped) + More(LoopStart(s), l.s, e)
                  + (if r.threw || r.s.connected then 0 else One(e == Stopped))
  {
    hide ReconnectLoop, Tell, Count;
    var s1 := LoopStart(s);
    Told(s.(connected := false, sent := [], buffered := [], reconnecting := true, attempts := 0), [Dropped]);
    LoopKeeps(s1, w.tries, w);
    var l := ReconnectLoop(s1, w.tries, w);
    Told(l.s.(channels := map[], patterns := map[]), [Stopped]);
    CountConcat(s.events, [Dropped], e);
    CountConcat(l.s.events, [Stopped], e);
    CountOne(Dropped, e);
    CountOne(Stopped, e);
  }

  /** What a listener is told of a drop: once that it happened, every attempt, and once if it was given up. */
  lemma {:induction false} DropAnnounced<Callback>(s: Client<Callback>, w: World)
    requires !s.reconnecting && s.settings.listening
    ensures var r := Drop(s, w);
            && More(s, r.s, Dropped) == 1
            && More(s, r.s, Stopped) == (if r.threw || r.s.connected then 0 else 1)
            && More(s, r.s, Connected) == (if r.s.connected then 2 else 0)
            && More(s, r.s, Sleeping) == (if s.settings.sleeps then r.s.attempts else 0)
            && More(s, r.s, Failed) + More(s, r.s, LookupFailed)
               == (if r.s.connected || r.threw then r.s.attempts - 1 else r.s.attempts)
  {
    TellKeeps(s.(connected := false, sent := [], buffered := [], reconnecting := true, attempts := 0), [Dropped]);
    hide ReconnectLoop, Tell, Count, More, Drop;
    LoopAnnounced(LoopStart(s), w.tries, w);
    DropCount(s, w, Dropped);
    DropCount(s, w, Stopped);
    DropCount(s, w, Connected);
    DropCount(s, w, Sleeping);
    DropCount(s, w, Failed);
    DropCount(s, w, LookupFailed);
  }

  lemma {:induction false} QuietLoop<Callback>(s: Client<Callback>, tries: seq<Attempt>, w: World)
    requires !s.settings.listening
    ensures ReconnectLoop(s, tries, w).s.events == s.events
    decreases |tries|
  {
    hide Reconnect, ReconnectLoop, Throws, ShouldReconnect;
    if !ShouldReconnect(s) {
      LoopStops(s, tries, w);
    } else {
      LoopTurns(s, tries, w);
      if tries != [] && !Throws(s.settings, tries[0]) {
        AttemptTells(s, tries[0], w);
        AttemptKeeps(s, tries[0], w);
        QuietLoop(Reconnect(s, tries[0], w), tries[1..], w);
      }
    }
  }

  lemma {:induction false} QuietHandler<Callback>(s: Client<Callback>, w: World)
    requires !s.settings.listening
    ensures HandleDrop(s, w).s.events == s.events
  {
    hide ReconnectLoop;
    var s1 := Tell(s.(reconnecting := true, attempts := 0), [Dropped]);
    QuietLoop(s1, w.tries, w);
    LoopKeeps(s1, w.tries, w);
  }

  /** Without a listener nothing is told. */
  lemma {:induction false} NobodyListens<Callback>(s: Client<Callback>, step: Step<Callback>)
    requires !s.settings.listening && !step.DoConnect? && !step.DoConnectByName?
    ensures Next(s, step).events == s.events
  {
    hide HandleDrop;
    match step
    case Lost(w) => QuietHandler(s.(connected := false, sent := [], buffered := []), w);
    case Garbled(w) => QuietHandler(s, w);
    case _ =>
  }
}
