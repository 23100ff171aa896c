/**
 `subscriber` as a state machine: subscription maps, send buffer, reconnect loop, and the agreement
 between the maps and what the server has been told on the present connection.
 */
module Subscriptions {
  import opened Common
  import opened Bytes
  import opened Resp
  import opened ReplyStream
  import opened Connection

  /** ASCII text as bytes. */
  function Ascii(s: string): (r: bytes)
    requires forall i :: 0 <= i < |s| ==> s[i] as int < 256
    ensures |r| == |s|
  {
    seq(|s|, i requires 0 <= i < |s| => s[i] as int)
  }

  const SUBSCRIBE: bytes := Ascii("SUBSCRIBE")
  const UNSUBSCRIBE: bytes := Ascii("UNSUBSCRIBE")
  const PSUBSCRIBE: bytes := Ascii("PSUBSCRIBE")
  const PUNSUBSCRIBE: bytes := Ascii("PUNSUBSCRIBE")
  const AUTH: bytes := Ascii("AUTH")
  const CLIENT: bytes := Ascii("CLIENT")
  const SETNAME: bytes := Ascii("SETNAME")

  // ---------- The server's view ----------

  /** What a server knows about one connection. */
  datatype Subs = Subs(channels: set<bytes>, patterns: set<bytes>)

  const NO_SUBS := Subs({}, {})

  /** The effect of one command on the subscriptions of the connection it arrives on. */
  function ApplyCommand(s: Subs, cmd: Command): Subs {
    if |cmd| != 2 then s
    else if cmd[0] == SUBSCRIBE then s.(channels := s.channels + {cmd[1]})
    else if cmd[0] == UNSUBSCRIBE then s.(channels := s.channels - {cmd[1]})
    else if cmd[0] == PSUBSCRIBE then s.(patterns := s.patterns + {cmd[1]})
    else if cmd[0] == PUNSUBSCRIBE then s.(patterns := s.patterns - {cmd[1]})
    else s
  }

  function Apply(s: Subs, cmds: seq<Command>): Subs
    decreases |cmds|
  {
    if cmds == [] then s else Apply(ApplyCommand(s, cmds[0]), cmds[1..])
  }

  lemma {:induction false} ApplyConcat(s: Subs, xs: seq<Command>, ys: seq<Command>)
    ensures Apply(s, xs + ys) == Apply(Apply(s, xs), ys)
    decreases |xs|
  {
    if xs == [] {
      assert xs + ys == ys;
    } else {
      assert (xs + ys)[1..] == xs[1..] + ys;
      ApplyConcat(ApplyCommand(s, xs[0]), xs[1..], ys);
    }
  }

  lemma {:induction false} ApplySnoc(s: Subs, cmds: seq<Command>, cmd: Command)
    ensures Apply(s, cmds + [cmd]) == ApplyCommand(Apply(s, cmds), cmd)
  {
    ApplyConcat(s, cmds, [cmd]);
    assert Apply(Apply(s, cmds), [cmd]) == Apply(ApplyCommand(Apply(s, cmds), cmd), [][..0]);
  }

  // ---------- The client ----------

  datatype ConnectState = Dropped | Sleeping | Starting | Connected | Failed | LookupFailed | Stopped

  /** What the user has configured. `sleeps`: a positive interval; `listening`: a connect callback is set. */
  datatype Settings = Settings(
    password: bytes,
    clientName: bytes,
    masterName: bytes,
    sentinels: nat,
    maxReconnects: int,
    sleeps: bool,
    listening: bool)

  /**
   State of a `subscriber`. `sent` holds the commands written on the present connection, `buffered`
   those in the send buffer, `events` the calls of the connect callback.
   */
  datatype Client<Callback> = Client(
    channels: map<bytes, Callback>,
    patterns: map<bytes, Callback>,
    settings: Settings,
    cancel: bool,
    reconnecting: bool,
    attempts: nat,
    connected: bool,
    buffered: seq<Command>,
    sent: seq<Command>,
    events: seq<ConnectState>)

  function Tell<Callback>(s: Client<Callback>, es: seq<ConnectState>): Client<Callback> {
    if s.settings.listening then s.(events := s.events + es) else s
  }

  function Push<Callback>(s: Client<Callback>, cmd: Command): Client<Callback> {
    s.(buffered := s.buffered + [cmd])
  }

  function Subscribe<Callback>(s: Client<Callback>, channel: bytes, callback: Callback): Client<Callback> {
    Push(s.(channels := s.channels[channel := callback]), [SUBSCRIBE, channel])
  }

  function PSubscribe<Callback>(s: Client<Callback>, pattern: bytes, callback: Callback): Client<Callback> {
    Push(s.(patterns := s.patterns[pattern := callback]), [PSUBSCRIBE, pattern])
  }

  /** Nothing is sent for a channel that is not subscribed. */
  function Unsubscribe<Callback>(s: Client<Callback>, channel: bytes): Client<Callback> {
    if channel !in s.channels then s
    else Push(s.(channels := s.channels - {channel}), [UNSUBSCRIBE, channel])
  }

  function PUnsubscribe<Callback>(s: Client<Callback>, pattern: bytes): Client<Callback> {
    if pattern !in s.patterns then s
    else Push(s.(patterns := s.patterns - {pattern}), [PUNSUBSCRIBE, pattern])
  }

  function Authenticate<Callback>(s: Client<Callback>, password: bytes): Client<Callback> {
    Push(s.(settings := s.settings.(password := password)), [AUTH, password])
  }

  function SetName<Callback>(s: Client<Callback>, name: bytes): Client<Callback> {
    Push(s.(settings := s.settings.(clientName := name)), [CLIENT, SETNAME, name])
  }

  /** `commit`: a write that fails loses the buffer. */
  function Commit<Callback>(s: Client<Callback>): Client<Callback> {
    s.(buffered := [], sent := if s.connected then s.sent + s.buffered else s.sent)
  }

  /** `disconnect` called by the user: the buffer is cleared and the handler does not run. */
  function Disconnect<Callback>(s: Client<Callback>): Client<Callback> {
    s.(connected := false, sent := [], buffered := [])
  }

  /** A state, and whether an exception escaped. */
  datatype Ended<Callback> = Ended(s: Client<Callback>, threw: bool)

  /** The parameters of `connect` that are kept for reconnecting. */
  datatype Options = Options(maxReconnects: int, sleeps: bool, listening: bool)

  function Configure(c: Settings, o: Options): Settings {
    c.(maxReconnects := o.maxReconnects, sleeps := o.sleeps, listening := o.listening)
  }

  /** `connect` to a host: the parameters are kept even if it then fails; a connected client is refused. */
  function Connect<Callback>(s: Client<Callback>, o: Options, accepts: bool): Ended<Callback> {
    var t := Tell(s.(settings := Configure(s.settings, o)), [Starting]);
    if s.connected || !accepts then Ended(t, true)
    else Ended(Tell(t.(connected := true, sent := []), [Connected]), false)
  }

  /** How the lookup of a master ends: `Broken` when the query cannot be sent. */
  datatype Lookup = Found | NotFound | Broken

  /** `connect` to a master: its name is kept before the lookup, which throws or finds nothing or a host. */
  function ConnectByName<Callback>(
    s: Client<Callback>, name: bytes, lookup: Lookup, o: Options, accepts: bool): Ended<Callback>
  {
    var t := s.(settings := s.settings.(masterName := name));
    if t.settings.sentinels == 0 || lookup != Found then Ended(t, true) else Connect(t, o, accepts)
  }

  function AddSentinel<Callback>(s: Client<Callback>): Client<Callback> {
    s.(settings := s.settings.(sentinels := s.settings.sentinels + 1))
  }

  function ClearSentinels<Callback>(s: Client<Callback>): Client<Callback> {
    s.(settings := s.settings.(sentinels := 0))
  }

  function CancelReconnect<Callback>(s: Client<Callback>): Client<Callback> { s.(cancel := true) }

  // ---------- Reconnection ----------

  /** What the network does during one reconnect attempt: how the lookup ends, whether the host accepts. */
  datatype Attempt = Attempt(lookup: Lookup, accepts: bool)

  /**
   Everything outside the program that the drop handler depends on: one entry per attempt until
   `cancel_reconnect` is called, and the order in which the two maps are iterated.
   */
  datatype World = World(tries: seq<Attempt>, channelOrder: seq<bytes>, patternOrder: seq<bytes>)

  ghost predicate Enumerates(order: seq<bytes>, keys: set<bytes>) {
    && (forall k :: k in order <==> k in keys)
    && (forall i, j :: 0 <= i < j < |order| ==> order[i] != order[j])
  }

  ghost predicate Fits<Callback>(w: World, s: Client<Callback>) {
    Enumerates(w.channelOrder, s.channels.Keys) && Enumerates(w.patternOrder, s.patterns.Keys)
  }

  function Each(verb: bytes, keys: seq<bytes>): (cmds: seq<Command>)
    ensures |cmds| == |keys| && forall i :: 0 <= i < |keys| ==> cmds[i] == [verb, keys[i]]
  {
    seq(|keys|, i requires 0 <= i < |keys| => [verb, keys[i]])
  }

  function AuthPart(s: Settings): seq<Command> {
    if s.password == [] then [] else [[AUTH, s.password]]
  }

  function NamePart(s: Settings): seq<Command> {
    if s.clientName == [] then [] else [[CLIENT, SETNAME, s.clientName]]
  }

  /** The commands that bring a new connection up to date, in the order they are sent. */
  function Greeting<Callback>(s: Client<Callback>, w: World): seq<Command> {
    AuthPart(s.settings) + NamePart(s.settings) + Each(SUBSCRIBE, w.channelOrder) + Each(PSUBSCRIBE, w.patternOrder)
  }

  /** Whether an attempt is allowed after `n` others. */
  predicate Allowed(c: Settings, n: nat) { c.maxReconnects == -1 || n < c.maxReconnects }

  /** `should_reconnect`. */
  predicate ShouldReconnect<Callback>(s: Client<Callback>) {
    !s.connected && !s.cancel && Allowed(s.settings, s.attempts)
  }

  /** An attempt whose lookup throws: there is no sentinel to ask, or the query cannot be sent. */
  predicate Throws(c: Settings, a: Attempt) { c.masterName != [] && (c.sentinels == 0 || a.lookup == Broken) }

  /** An attempt that fails without an exception. */
  predicate Misses(c: Settings, a: Attempt) {
    !Throws(c, a) && ((c.masterName != [] && a.lookup == NotFound) || !a.accepts)
  }

  /** After `n` attempts, the `k`-th of these is still allowed, reached, and throws. */
  predicate ThrowsAt(c: Settings, tries: seq<Attempt>, n: nat, k: nat) {
    && k < |tries| && Allowed(c, n + k) && Throws(c, tries[k])
    && forall j :: 0 <= j < k ==> Misses(c, tries[j])
  }

  ghost predicate SomeThrows(c: Settings, tries: seq<Attempt>, n: nat) { exists k: nat :: ThrowsAt(c, tries, n, k) }

  /** A drop that leads to such a lookup, possibly after some attempts that only fail. */
  ghost predicate DropThrows<Callback>(s: Client<Callback>, w: World) {
    !s.cancel && SomeThrows(s.settings, w.tries, 0)
  }

  /** `sleep_before_next_reconnect_attempt` and the counter of `reconnect`. */
  function BeginAttempt<Callback>(s: Client<Callback>): Client<Callback> {
    Tell(s, if s.settings.sleeps then [Sleeping] else []).(attempts := s.attempts + 1)
  }

  /** A new connection: it is announced twice, and brought up to date. */
  function GoOnline<Callback>(s: Client<Callback>, w: World): Client<Callback> {
    Tell(s, [Starting, Connected, Connected])
      .(connected := true, sent := s.buffered + Greeting(s, w), buffered := [])
  }

  /** One turn of the reconnect loop, when the lookup does not throw. */
  function Reconnect<Callback>(s: Client<Callback>, a: Attempt, w: World): Client<Callback> {
    if s.settings.masterName != [] && a.lookup == NotFound then Tell(BeginAttempt(s), [LookupFailed])
    else if !a.accepts then Tell(BeginAttempt(s), [Starting, Failed])
    else GoOnline(BeginAttempt(s), w)
  }

  function ReconnectLoop<Callback>(s: Client<Callback>, tries: seq<Attempt>, w: World): Ended<Callback>
    decreases |tries|
  {
    if !ShouldReconnect(s) then Ended(s, false)
    else if tries == [] then Ended(s.(cancel := true), false)
    else if Throws(s.settings, tries[0]) then Ended(BeginAttempt(s), true)
    else ReconnectLoop(Reconnect(s, tries[0], w), tries[1..], w)
  }

  /** `connection_disconnection_handler`. */
  function HandleDrop<Callback>(s: Client<Callback>, w: World): Ended<Callback> {
    if s.reconnecting then Ended(s, false)
    else
      var r := ReconnectLoop(Tell(s.(reconnecting := true, attempts := 0), [Dropped]), w.tries, w);
      if r.threw then r
      else if r.s.connected then Ended(r.s.(reconnecting := false), false)
      else Ended(Tell(r.s.(channels := map[], patterns := map[]), [Stopped]).(reconnecting := false), false)
  }

  /** The connection is lost: the buffer is cleared, then the handler runs. */
  function Drop<Callback>(s: Client<Callback>, w: World): Ended<Callback> {
    HandleDrop(s.(connected := false, sent := [], buffered := []), w)
  }

  // ---------- Outcome of a drop ----------

  lemma LoopStops<Callback>(s: Client<Callback>, tries: seq<Attempt>, w: World)
    requires !ShouldReconnect(s)
    ensures ReconnectLoop(s, tries, w) == Ended(s, false)
  {
  }

  lemma LoopTurns<Callback>(s: Client<Callback>, tries: seq<Attempt>, w: World)
    requires ShouldReconnect(s)
    ensures tries == [] ==> ReconnectLoop(s, tries, w) == Ended(s.(cancel := true), false)
    ensures tries != [] && Throws(s.settings, tries[0]) ==> ReconnectLoop(s, tries, w) == Ended(BeginAttempt(s), true)
    ensures tries != [] && !Throws(s.settings, tries[0]) ==>
              ReconnectLoop(s, tries, w) == ReconnectLoop(Reconnect(s, tries[0], w), tries[1..], w)
  {
  }

  lemma TellOnly<Callback>(s: Client<Callback>, es: seq<ConnectState>)
    ensures var t := Tell(s, es); s.events <= t.events && t == s.(events := t.events)
  {
  }

  lemma {:induction false} ReconnectFits<Callback>(s: Client<Callback>, a: Attempt, w: World)
    requires Fits(w, s)
    ensures Fits(w, Reconnect(s, a, w))
  {
    hide Greeting, Tell;
    TellOnly(s, if s.settings.sleeps then [Sleeping] else []);
    TellOnly(BeginAttempt(s), [LookupFailed]);
    TellOnly(BeginAttempt(s), [Starting, Failed]);
    TellOnly(BeginAttempt(s), [Starting, Connected, Connected]);
  }

  /** A state inside the loop: only the counter, the events and the cancel flag have moved. */
  ghost predicate StillTrying<Callback>(s: Client<Callback>, t: Client<Callback>) {
    && !t.connected && s.attempts <= t.attempts && s.events <= t.events
    && t == s.(attempts := t.attempts, events := t.events, cancel := t.cancel)
  }

  ghost predicate CameBack<Callback>(s: Client<Callback>, t: Client<Callback>, w: World) {
    && t.connected && s.attempts <= t.attempts && s.events <= t.events
    && t == s.(attempts := t.attempts, events := t.events, connected := true, sent := Greeting(s, w), buffered := [])
  }

  /** Whether a loop throws, by its first attempt. */
  lemma {:induction false} ThrowsUnfolds(c: Settings, tries: seq<Attempt>, n: nat)
    ensures SomeThrows(c, tries, n)
            <==> && Allowed(c, n) && tries != []
                 && (Throws(c, tries[0]) || (Misses(c, tries[0]) && SomeThrows(c, tries[1..], n + 1)))
  {
    hide Throws, Misses;
    if SomeThrows(c, tries, n) {
      var k: nat :| ThrowsAt(c, tries, n, k);
      if k > 0 {
        assert tries[1..][k - 1] == tries[k] && n + k == n + 1 + (k - 1);
        assert ThrowsAt(c, tries[1..], n + 1, k - 1);
      }
    }
    if Allowed(c, n) && tries != [] && Throws(c, tries[0]) {
      assert ThrowsAt(c, tries, n, 0);
    } else if tries != [] && Misses(c, tries[0]) && SomeThrows(c, tries[1..], n + 1) {
      var k: nat :| ThrowsAt(c, tries[1..], n + 1, k);
      assert tries[k + 1] == tries[1..][k] && n + 1 + k == n + (k + 1);
      forall j | 0 <= j < k + 1 ensures Misses(c, tries[j]) {
        if j > 0 { assert tries[j] == tries[1..][j - 1]; }
      }
      assert ThrowsAt(c, tries, n, k + 1);
    }
  }

  lemma GreetingSame<Callback>(s: Client<Callback>, t: Client<Callback>, w: World)
    requires s.settings == t.settings
    ensures Greeting(s, w) == Greeting(t, w)
  {
  }

  lemma {:induction false} AttemptOutcome<Callback>(s: Client<Callback>, a: Attempt, w: World)
    requires !s.connected && s.buffered == [] && s.sent == []
    ensures var t := Reconnect(s, a, w);
            && t.attempts == s.attempts + 1 && t.cancel == s.cancel && (StillTrying(s, t) || CameBack(s, t, w))
            && (!Throws(s.settings, a) ==> (t.connected <==> !Misses(s.settings, a)))
  {
    hide Greeting, Tell;
    var s1 := BeginAttempt(s);
    TellOnly(s, if s.settings.sleeps then [Sleeping] else []);
    TellOnly(s1, [LookupFailed]);
    TellOnly(s1, [Starting, Failed]);
    TellOnly(s1, [Starting, Connected, Connected]);
    GreetingSame(s, s1, w);
    assert [] + Greeting(s, w) == Greeting(s, w);
  }

  lemma {:induction false} LoopOutcome<Callback>(s: Client<Callback>, tries: seq<Attempt>, w: World)
    requires !s.connected && s.buffered == [] && s.sent == []
    ensures var r := ReconnectLoop(s, tries, w);
            && r.threw == (!s.cancel && SomeThrows(s.settings, tries, s.attempts))
            && (!r.threw ==> StillTrying(s, r.s) || CameBack(s, r.s, w))
            && (r.threw ==> StillTrying(s, r.s) && s.attempts < r.s.attempts)
            && (s.settings.maxReconnects >= 0 ==> r.s.attempts <= s.attempts || r.s.attempts <= s.settings.maxReconnects)
            && r.s.attempts <= s.attempts + |tries|
    decreases |tries|
  {
    hide Greeting, Reconnect, SomeThrows, Throws, Misses;
    ThrowsUnfolds(s.settings, tries, s.attempts);
    if ShouldReconnect(s) && tries != [] && Throws(s.settings, tries[0]) {
      TellOnly(s, if s.settings.sleeps then [Sleeping] else []);
    } else if ShouldReconnect(s) && tries != [] {
      var t := Reconnect(s, tries[0], w);
      AttemptOutcome(s, tries[0], w);
      if !t.connected {
        LoopOutcome(t, tries[1..], w);
        GreetingSame(s, t, w);
      }
    }
  }

  lemma TellTwice<Callback>(s: Client<Callback>, es: seq<ConnectState>, fs: seq<ConnectState>)
    ensures Tell(Tell(s, es), fs) == Tell(s, es + fs)
  {
  }

  lemma LastTold<Callback>(s: Client<Callback>, e: ConnectState)
    ensures var t := Tell(s, [e]);
            && t == s.(events := t.events)
            && (s.settings.listening ==> t.events != [] && t.events[|t.events| - 1] == e)
  {
  }

  /**
   The outcome of a drop. The handler throws exactly when an attempt is reached whose lookup throws.
   Otherwise it makes at most `maxReconnects` attempts (if that is not negative)
   and ends either connected, with both maps unchanged and exactly the greeting sent, or disconnected,
   with both maps empty and `Stopped` as the last event.
   */
  lemma {:induction false} DropOutcome<Callback>(s: Client<Callback>, w: World)
    requires !s.reconnecting
    ensures var r := Drop(s, w);
            && r.threw == DropThrows(s, w)
            && r.s.buffered == []
            && r.s.attempts <= |w.tries|
            && (s.settings.maxReconnects >= 0 ==> r.s.attempts <= s.settings.maxReconnects)
            && (r.threw ==> r.s.reconnecting && r.s.sent == [] && !r.s.connected
                            && r.s.channels == s.channels && r.s.patterns == s.patterns)
            && (!r.threw ==> !r.s.reconnecting)
            && (!r.threw && r.s.connected ==>
                  r.s.channels == s.channels && r.s.patterns == s.patterns && r.s.sent == Greeting(s, w))
            && (!r.threw && !r.s.connected ==>
                  && r.s.channels == map[] && r.s.patterns == map[] && r.s.sent == []
                  && (s.settings.listening ==> r.s.events != [] && r.s.events[|r.s.events| - 1] == Stopped))
  {
    hide Greeting, ReconnectLoop, Tell, SomeThrows;
    var s0 := s.(connected := false, sent := [], buffered := [], reconnecting := true, attempts := 0);
    var s1 := Tell(s0, [Dropped]);
    TellOnly(s0, [Dropped]);
    LoopOutcome(s1, w.tries, w);
    GreetingSame(s, s1, w);
    var r := ReconnectLoop(s1, w.tries, w);
    if !r.threw && !r.s.connected {
      LastTold(r.s.(channels := map[], patterns := map[]), Stopped);
    }
  }

  // ---------- Agreement ----------

  function Keys<Callback>(s: Client<Callback>): Subs { Subs(s.channels.Keys, s.patterns.Keys) }

  /** Applying what was sent on this connection and what is buffered to an empty server gives the maps. */
  ghost predicate Agree<Callback>(s: Client<Callback>) {
    && Apply(NO_SUBS, s.sent + s.buffered) == Keys(s)
    && (!s.connected ==> s.sent == [])
  }

  predicate NothingSubscribed<Callback>(s: Client<Callback>) { s.channels == map[] && s.patterns == map[] }

  lemma {:induction false} PushApplies<Callback>(s: Client<Callback>, cmd: Command)
    ensures Apply(NO_SUBS, Push(s, cmd).sent + Push(s, cmd).buffered)
            == ApplyCommand(Apply(NO_SUBS, s.sent + s.buffered), cmd)
  {
    assert s.sent + (s.buffered + [cmd]) == s.sent + s.buffered + [cmd];
    ApplySnoc(NO_SUBS, s.sent + s.buffered, cmd);
  }

  lemma {:induction false} SubscribeAgrees<Callback>(s: Client<Callback>, key: bytes, callback: Callback)
    requires Agree(s)
    ensures Agree(Subscribe(s, key, callback)) && Agree(PSubscribe(s, key, callback))
  {
    PushApplies(s, [SUBSCRIBE, key]);
    PushApplies(s, [PSUBSCRIBE, key]);
    assert s.channels[key := callback].Keys == s.channels.Keys + {key};
    assert s.patterns[key := callback].Keys == s.patterns.Keys + {key};
  }

  lemma {:induction false} UnsubscribeAgrees<Callback>(s: Client<Callback>, key: bytes)
    requires Agree(s)
    ensures Agree(Unsubscribe(s, key)) && Agree(PUnsubscribe(s, key))
  {
    PushApplies(s, [UNSUBSCRIBE, key]);
    PushApplies(s, [PUNSUBSCRIBE, key]);
    assert (s.channels - {key}).Keys == s.channels.Keys - {key};
    assert (s.patterns - {key}).Keys == s.patterns.Keys - {key};
  }

  lemma {:induction false} SettingsAgree<Callback>(s: Client<Callback>, text: bytes)
    requires Agree(s)
    ensures Agree(Authenticate(s, text)) && Agree(SetName(s, text))
  {
    PushApplies(s, [AUTH, text]);
    PushApplies(s, [CLIENT, SETNAME, text]);
  }

  /** A commit keeps the agreement exactly when it is made while connected or there is nothing to lose. */
  lemma {:induction false} CommitAgrees<Callback>(s: Client<Callback>)
    requires Agree(s)
    ensures Agree(Commit(s)) <==> s.connected || NothingSubscribed(s)
  {
    var t := Commit(s);
    if s.connected {
      assert t.sent + t.buffered == s.sent + s.buffered;
    } else {
      assert t.sent + t.buffered == [];
      assert Apply(NO_SUBS, []) == NO_SUBS;
      assert s.channels == map[] <==> s.channels.Keys == {};
      assert s.patterns == map[] <==> s.patterns.Keys == {};
    }
  }

  /** An explicit disconnect keeps the maps, so it keeps the agreement only when they are empty. */
  lemma {:induction false} DisconnectAgrees<Callback>(s: Client<Callback>)
    ensures Agree(Disconnect(s)) <==> NothingSubscribed(s)
  {
    var t := Disconnect(s);
    assert t.sent + t.buffered == [];
    assert s.channels == map[] <==> s.channels.Keys == {};
    assert s.patterns == map[] <==> s.patterns.Keys == {};
  }

  function SetOf(keys: seq<bytes>): set<bytes> { set k | k in keys }

  lemma {:induction false} ApplyEach(s: Subs, keys: seq<bytes>)
    ensures Apply(s, Each(SUBSCRIBE, keys)) == s.(channels := s.channels + SetOf(keys))
    ensures Apply(s, Each(PSUBSCRIBE, keys)) == s.(patterns := s.patterns + SetOf(keys))
    decreases |keys|
  {
    if keys != [] {
      var t, u := ApplyCommand(s, [SUBSCRIBE, keys[0]]), ApplyCommand(s, [PSUBSCRIBE, keys[0]]);
      assert Each(SUBSCRIBE, keys)[1..] == Each(SUBSCRIBE, keys[1..]);
      assert Each(PSUBSCRIBE, keys)[1..] == Each(PSUBSCRIBE, keys[1..]);
      ApplyEach(t, keys[1..]);
      ApplyEach(u, keys[1..]);
      assert SetOf(keys) == {keys[0]} + SetOf(keys[1..]);
    }
  }

  lemma SettingsApply(text: bytes)
    ensures Apply(NO_SUBS, [[AUTH, text]]) == NO_SUBS
    ensures Apply(NO_SUBS, [[CLIENT, SETNAME, text]]) == NO_SUBS
  {
    assert ApplyCommand(NO_SUBS, [AUTH, text]) == NO_SUBS;
    assert ApplyCommand(NO_SUBS, [CLIENT, SETNAME, text]) == NO_SUBS;
  }

  /** The greeting tells a fresh server exactly the subscriptions in the maps. */
  lemma {:induction false} GreetingApplies<Callback>(s: Client<Callback>, w: World)
    requires Fits(w, s)
    ensures Apply(NO_SUBS, Greeting(s, w)) == Keys(s)
  {
    var a, n := AuthPart(s.settings), NamePart(s.settings);
    var cs, ps := Each(SUBSCRIBE, w.channelOrder), Each(PSUBSCRIBE, w.patternOrder);
    ApplyConcat(NO_SUBS, a + n + cs, ps);
    ApplyConcat(NO_SUBS, a + n, cs);
    ApplyConcat(NO_SUBS, a, n);
    SettingsApply(s.settings.password);
    SettingsApply(s.settings.clientName);
    assert Apply(NO_SUBS, []) == NO_SUBS;
    ApplyEach(NO_SUBS, w.channelOrder);
    assert SetOf(w.channelOrder) == s.channels.Keys && SetOf(w.patternOrder) == s.patterns.Keys;
    ApplyEach(Subs(s.channels.Keys, {}), w.patternOrder);
    assert Greeting(s, w) == a + n + cs + ps;
    assert NO_SUBS.(channels := {} + s.channels.Keys) == Subs(s.channels.Keys, {});
  }

  /** A drop keeps the agreement exactly when the lookup does not throw or there was nothing subscribed. */
  lemma {:induction false} DropAgrees<Callback>(s: Client<Callback>, w: World)
    requires Fits(w, s) && !s.reconnecting
    ensures Agree(Drop(s, w).s) <==> !DropThrows(s, w) || NothingSubscribed(s)
  {
    hide Drop, Greeting, SomeThrows;
    DropOutcome(s, w);
    GreetingApplies(s, w);
    var t := Drop(s, w).s;
    assert t.sent + [] == t.sent;
    assert Apply(NO_SUBS, []) == NO_SUBS;
    assert s.channels == map[] <==> s.channels.Keys == {};
    assert s.patterns == map[] <==> s.patterns.Keys == {};
  }

  // ---------- Runs ----------

  datatype Step<Callback> =
    | DoSubscribe(key: bytes, callback: Callback)
    | DoPSubscribe(key: bytes, callback: Callback)
    | DoUnsubscribe(key: bytes)
    | DoPUnsubscribe(key: bytes)
    | DoAuth(text: bytes)
    | DoSetName(text: bytes)
    | DoCommit
    | DoConnect(options: Options, accepts: bool)
    | DoConnectByName(name: bytes, lookup: Lookup, options: Options, accepts: bool)
    | DoAddSentinel
    | DoClearSentinels
    | DoCancelReconnect
    | DoDisconnect
    | Lost(world: World)
    | Garbled(world: World)

  /**
   Which steps a run may take: texts the protocol can carry, commits and disconnects that lose nothing,
   and no drop that throws. `Lost` is a broken connection, `Garbled` a reply that could not be parsed
   (the handler is then called although the connection still stands).
   */
  ghost predicate Enabled<Callback>(s: Client<Callback>, step: Step<Callback>) {
    match step
    case DoSubscribe(key, _) => |key| <= MAX_BULK
    case DoPSubscribe(key, _) => |key| <= MAX_BULK
    case DoUnsubscribe(key) => |key| <= MAX_BULK
    case DoPUnsubscribe(key) => |key| <= MAX_BULK
    case DoAuth(text) => |text| <= MAX_BULK
    case DoSetName(text) => |text| <= MAX_BULK
    case DoCommit => s.connected || NothingSubscribed(s)
    case DoDisconnect => NothingSubscribed(s)
    case Lost(w) => s.connected && Fits(w, s) && !DropThrows(s, w)
    case Garbled(_) => s.connected
    case _ => true
  }

  function Next<Callback>(s: Client<Callback>, step: Step<Callback>): Client<Callback> {
    match step
    case DoSubscribe(key, callback) => Subscribe(s, key, callback)
    case DoPSubscribe(key, callback) => PSubscribe(s, key, callback)
    case DoUnsubscribe(key) => Unsubscribe(s, key)
    case DoPUnsubscribe(key) => PUnsubscribe(s, key)
    case DoAuth(text) => Authenticate(s, text)
    case DoSetName(text) => SetName(s, text)
    case DoCommit => Commit(s)
    case DoConnect(o, accepts) => Connect(s, o, accepts).s
    case DoConnectByName(name, lookup, o, accepts) => ConnectByName(s, name, lookup, o, accepts).s
    case DoAddSentinel => AddSentinel(s)
    case DoClearSentinels => ClearSentinels(s)
    case DoCancelReconnect => CancelReconnect(s)
    case DoDisconnect => Disconnect(s)
    case Lost(w) => Drop(s, w).s
    case Garbled(w) => HandleDrop(s, w).s
  }

  ghost predicate ShortKeys<Callback>(m: map<bytes, Callback>) {
    forall k :: k in m ==> |k| <= MAX_BULK
  }

  predicate AllSendable(cmds: seq<Command>) {
    forall i :: 0 <= i < |cmds| ==> Sendable(cmds[i])
  }

  /** Everything the client holds can be carried by the protocol. */
  ghost predicate Carried<Callback>(s: Client<Callback>) {
    && ShortKeys(s.channels) && ShortKeys(s.patterns)
    && |s.settings.password| <= MAX_BULK && |s.settings.clientName| <= MAX_BULK
    && AllSendable(s.sent) && AllSendable(s.buffered)
  }

  ghost predicate Inv<Callback>(s: Client<Callback>) {
    Agree(s) && Carried(s) && !s.reconnecting
  }

  lemma {:induction false} GreetingCarried<Callback>(s: Client<Callback>, w: World)
    requires Carried(s) && Fits(w, s)
    ensures AllSendable(Greeting(s, w))
  {
    forall i | 0 <= i < |w.channelOrder| ensures Sendable([SUBSCRIBE, w.channelOrder[i]]) {
      assert w.channelOrder[i] in s.channels;
    }
    forall i | 0 <= i < |w.patternOrder| ensures Sendable([PSUBSCRIBE, w.patternOrder[i]]) {
      assert w.patternOrder[i] in s.patterns;
    }
    assert Sendable([AUTH, s.settings.password]) && Sendable([CLIENT, SETNAME, s.settings.clientName]);
  }

  lemma {:induction false} DropKeepsSettings<Callback>(s: Client<Callback>, w: World)
    requires !s.reconnecting
    ensures Drop(s, w).s.settings.password == s.settings.password && Drop(s, w).s.settings.clientName == s.settings.clientName
  {
    hide Greeting, ReconnectLoop, Tell, SomeThrows;
    var s0 := s.(connected := false, sent := [], buffered := [], reconnecting := true, attempts := 0);
    TellOnly(s0, [Dropped]);
    LoopOutcome(Tell(s0, [Dropped]), w.tries, w);
    var r := ReconnectLoop(Tell(s0, [Dropped]), w.tries, w);
    TellOnly(r.s.(channels := map[], patterns := map[]), [Stopped]);
  }

  lemma {:induction false} LostKeeps<Callback>(s: Client<Callback>, w: World)
    requires Inv(s) && Enabled(s, Lost(w))
    ensures Inv(Drop(s, w).s)
  {
    hide Drop, Greeting, Agree, SomeThrows;
    DropOutcome(s, w);
    DropAgrees(s, w);
    GreetingCarried(s, w);
    DropKeepsSettings(s, w);
  }

  lemma {:induction false} GarbledKeeps<Callback>(s: Client<Callback>, w: World)
    requires Inv(s) && s.connected
    ensures var t := HandleDrop(s, w).s; Inv(t) && t == s.(events := t.events, attempts := 0)
  {
    assert ReconnectLoop(Tell(s.(reconnecting := true, attempts := 0), [Dropped]), w.tries, w).s
           == Tell(s.(reconnecting := true, attempts := 0), [Dropped]);
  }

  /** What the user configures, apart from password and name, does not matter to the invariant. */
  lemma SettingsKeep<Callback>(s: Client<Callback>, t: Client<Callback>)
    requires Inv(s) && t == s.(settings := t.settings, cancel := t.cancel, events := t.events)
    requires t.settings.password == s.settings.password && t.settings.clientName == s.settings.clientName
    ensures Inv(t)
  {
  }

  lemma OpenKeeps<Callback>(s: Client<Callback>)
    requires Inv(s) && !s.connected
    ensures Inv(s.(connected := true, sent := []))
  {
  }

  /** A new connection starts with nothing sent, like the state it starts from. */
  lemma {:induction false} ConnectKeeps<Callback>(s: Client<Callback>, o: Options, accepts: bool)
    requires Inv(s)
    ensures Inv(Connect(s, o, accepts).s)
  {
    hide Tell, Inv;
    var s0 := s.(settings := Configure(s.settings, o));
    var t := Tell(s0, [Starting]);
    TellOnly(s0, [Starting]);
    SettingsKeep(s, t);
    if !s.connected && accepts {
      var u := t.(connected := true, sent := []);
      OpenKeeps(t);
      TellOnly(u, [Connected]);
      SettingsKeep(u, Tell(u, [Connected]));
    }
  }

  lemma {:induction false} ConnectByNameKeeps<Callback>(
    s: Client<Callback>, name: bytes, lookup: Lookup, o: Options, accepts: bool)
    requires Inv(s)
    ensures Inv(ConnectByName(s, name, lookup, o, accepts).s)
  {
    hide Inv, Connect;
    var t := s.(settings := s.settings.(masterName := name));
    SettingsKeep(s, t);
    ConnectKeeps(t, o, accepts);
  }

  /** The steps that put a command into the buffer, or take it out. */
  predicate IsCommand<Callback>(step: Step<Callback>) {
    || step.DoSubscribe? || step.DoPSubscribe? || step.DoUnsubscribe? || step.DoPUnsubscribe?
    || step.DoAuth? || step.DoSetName? || step.DoCommit? || step.DoDisconnect?
  }

  lemma {:induction false} CommandCarried<Callback>(s: Client<Callback>, step: Step<Callback>)
    requires Carried(s) && Enabled(s, step) && IsCommand(step)
    ensures Carried(Next(s, step))
  {
  }

  lemma {:induction false} CommandKeeps<Callback>(s: Client<Callback>, step: Step<Callback>)
    requires Inv(s) && Enabled(s, step) && IsCommand(step)
    ensures Inv(Next(s, step))
  {
    hide Agree, Carried;
    CommandCarried(s, step);
    match step
    case DoSubscribe(key, callback) => SubscribeAgrees(s, key, callback);
    case DoPSubscribe(key, callback) => SubscribeAgrees(s, key, callback);
    case DoUnsubscribe(key) => UnsubscribeAgrees(s, key);
    case DoPUnsubscribe(key) => UnsubscribeAgrees(s, key);
    case DoAuth(text) => SettingsAgree(s, text);
    case DoSetName(text) => SettingsAgree(s, text);
    case DoCommit => CommitAgrees(s);
    case DoDisconnect => DisconnectAgrees(s);
  }

  lemma {:induction false} StepKeeps<Callback>(s: Client<Callback>, step: Step<Callback>)
    requires Inv(s) && Enabled(s, step)
    ensures Inv(Next(s, step))
  {
    hide Drop, HandleDrop, Inv, Connect, ConnectByName;
    match step
    case DoConnect(o, accepts) => ConnectKeeps(s, o, accepts);
    case DoConnectByName(name, lookup, o, accepts) => ConnectByNameKeeps(s, name, lookup, o, accepts);
    case DoAddSentinel => SettingsKeep(s, AddSentinel(s));
    case DoClearSentinels => SettingsKeep(s, ClearSentinels(s));
    case DoCancelReconnect => SettingsKeep(s, CancelReconnect(s));
    case Lost(w) => LostKeeps(s, w);
    case Garbled(w) => GarbledKeeps(s, w);
    case _ => CommandKeeps(s, step);
  }

  ghost predicate Run<Callback(!new)>(s: Client<Callback>, steps: seq<Step<Callback>>, t: Client<Callback>)
    decreases |steps|
  {
    if steps == [] then s == t else Enabled(s, steps[0]) && Run(Next(s, steps[0]), steps[1..], t)
  }

  lemma {:induction false} RunKeeps<Callback(!new)>(s: Client<Callback>, steps: seq<Step<Callback>>, t: Client<Callback>)
    requires Inv(s) && Run(s, steps, t)
    ensures Inv(t)
    decreases |steps|
  {
    hide Inv, Next, Enabled;
    if steps != [] {
      StepKeeps(s, steps[0]);
      RunKeeps(Next(s, steps[0]), steps[1..], t);
    }
  }

  /** A subscriber that has not subscribed, sent or connected yet, however it is configured. */
  ghost predicate Unused<Callback>(s: Client<Callback>) {
    && s.channels == map[] && s.patterns == map[] && s.sent == [] && s.buffered == []
    && !s.connected && !s.reconnecting && |s.settings.password| <= MAX_BULK && |s.settings.clientName| <= MAX_BULK
  }

  lemma UnusedInv<Callback>(s: Client<Callback>)
    requires Unused(s)
    ensures Inv(s)
  {
    assert s.sent + s.buffered == [];
    assert Keys(s) == NO_SUBS;
  }

  lemma {:induction false} WireConcat(xs: seq<Command>, ys: seq<Command>)
    ensures Wire(xs + ys) == Wire(xs) + Wire(ys)
  {
    EncodeAllConcat(CommandReplies(xs), CommandReplies(ys));
    assert CommandReplies(xs + ys) == CommandReplies(xs) + CommandReplies(ys);
  }

  /**
   Subscription agreement, over every run: a server that reads the bytes written on this connection
   followed by those in the send buffer, however they are cut into chunks, reads exactly the commands
   sent and is left with exactly the key sets of the two maps.
   */
  lemma {:induction false} ServerAgrees<Callback(!new)>(
    s: Client<Callback>, steps: seq<Step<Callback>>, t: Client<Callback>, chunks: seq<bytes>)
    requires Unused(s) && Run(s, steps, t)
    requires Concat(chunks) == Wire(t.sent) + Wire(t.buffered)
    ensures var cmds := t.sent + t.buffered;
            && FeedAll(EMPTY, chunks) == Fedp(Parser([], None, CommandReplies(cmds)), Fine)
            && Apply(NO_SUBS, cmds) == Keys(t)
  {
    UnusedInv(s);
    hide Run, Next, FeedAll, Concat, EncodeAll, Sendable;
    RunKeeps(s, steps, t);
    WireConcat(t.sent, t.buffered);
    SendBufferDecodes(t.sent + t.buffered, chunks);
  }

  // ---------- What the excluded steps lose ----------

  /** Where any steps lead, whether or not a run may take them. */
  function After<Callback>(s: Client<Callback>, steps: seq<Step<Callback>>): Client<Callback>
    decreases |steps|
  {
    if steps == [] then s else After(Next(s, steps[0]), steps[1..])
  }

  lemma {:induction false} StepStaysStuck<Callback>(s: Client<Callback>, step: Step<Callback>)
    requires s.reconnecting
    ensures Next(s, step).reconnecting
  {
    hide ReconnectLoop;
  }

  lemma {:induction false} StaysStuck<Callback>(s: Client<Callback>, steps: seq<Step<Callback>>)
    requires s.reconnecting
    ensures After(s, steps).reconnecting
    decreases |steps|
  {
    hide Next;
    if steps != [] {
      StepStaysStuck(s, steps[0]);
      StaysStuck(Next(s, steps[0]), steps[1..]);
    }
  }

  /**
   A drop that throws leaves the object unable to reconnect for good: after any further steps, a new
   connection included, the handler does nothing, a drop only clears the connection, and it keeps the
   agreement exactly when nothing is subscribed.
   */
  lemma {:induction false} StuckAfterThrow<Callback>(s: Client<Callback>, w: World, steps: seq<Step<Callback>>, w': World)
    requires !s.reconnecting && DropThrows(s, w)
    ensures var t := After(Drop(s, w).s, steps);
            && t.reconnecting && HandleDrop(t, w') == Ended(t, false)
            && Drop(t, w') == Ended(Disconnect(t), false)
            && (Agree(Drop(t, w').s) <==> NothingSubscribed(t))
  {
    hide After, ReconnectLoop, Greeting, SomeThrows, Agree;
    DropOutcome(s, w);
    StaysStuck(Drop(s, w).s, steps);
    DisconnectAgrees(After(Drop(s, w).s, steps));
  }

  lemma InvParts<Callback>(s: Client<Callback>)
    requires Inv(s)
    ensures Agree(s) && !s.reconnecting
  {
  }

  lemma Connects<Callback>(s: Client<Callback>, o: Options)
    requires !s.connected
    ensures var c := Connect(s, o, true).s;
            && c == s.(connected := true, sent := [], settings := c.settings, events := c.events)
            && c.settings == Configure(s.settings, o)
  {
  }

  lemma CommitFrame<Callback>(s: Client<Callback>)
    ensures var t := Commit(s); t == s.(buffered := [], sent := t.sent)
  {
  }

  /** A subscription made before connecting is lost by a commit, and one that was sent by `disconnect`. */
  lemma {:induction false} LostSubscription<Callback>(s: Client<Callback>, callback: Callback)
    requires Unused(s)
    ensures var t := Subscribe(s, [99], callback); Inv(t) && !Agree(Commit(t))
    ensures var t := Commit(Subscribe(Connect(s, Options(1, false, false), true).s, [99], callback));
            Inv(t) && t.connected && !Agree(Disconnect(t))
  {
    hide Commit, Disconnect, Connect, Inv;
    UnusedInv(s);
    var o := Options(1, false, false);
    var t := Subscribe(s, [99], callback);
    StepKeeps(s, DoSubscribe([99], callback));
    assert [99] in t.channels;
    InvParts(t);
    CommitAgrees(t);
    var c := Connect(s, o, true).s;
    ConnectKeeps(s, o, true);
    Connects(s, o);
    var u := Subscribe(c, [99], callback);
    StepKeeps(c, DoSubscribe([99], callback));
    StepKeeps(u, DoCommit);
    assert [99] in u.channels;
    CommitFrame(u);
    DisconnectAgrees(Commit(u));
  }

  lemma FourSteps<Callback(!new)>(
    s: Client<Callback>, a: Step<Callback>, s1: Client<Callback>, b: Step<Callback>, s2: Client<Callback>,
    c: Step<Callback>, s3: Client<Callback>, d: Step<Callback>, s4: Client<Callback>)
    requires Enabled(s, a) && Enabled(s1, b) && Enabled(s2, c) && Enabled(s3, d)
    requires s1 == Next(s, a) && s2 == Next(s1, b) && s3 == Next(s2, c) && s4 == Next(s3, d)
    ensures Run(s, [a, b, c, d], s4)
  {
    hide Enabled, Next;
    assert [a, b, c, d][1..] == [b, c, d] && [b, c, d][1..] == [c, d] && [c, d][1..] == [d] && [d][1..] == [];
    assert Run(s4, [], s4) && Run(s3, [d], s4) && Run(s2, [c, d], s4) && Run(s1, [b, c, d], s4);
  }

  /**
   A run to a drop that throws: a subscriber connects, subscribes, commits, and then asks for a master by
   name without having added a sentinel. That call throws, but the name is kept; the next drop throws
   too, and leaves the subscription in the map and on no server.
   */
  lemma {:induction false} LostByDrop<Callback(!new)>(s: Client<Callback>, callback: Callback) returns (t: Client<Callback>)
    requires Unused(s) && !s.cancel && s.settings.sentinels == 0
    ensures var o := Options(1, false, false);
            Run(s, [DoConnect(o, true), DoSubscribe([99], callback), DoCommit, DoConnectByName([109], NotFound, o, true)], t)
    ensures var w := World([Attempt(Found, true)], [[99]], []);
            t.connected && Fits(w, t) && DropThrows(t, w) && !Agree(Drop(t, w).s)
  {
    hide Commit, Connect, Drop;
    var o := Options(1, false, false);
    var w := World([Attempt(Found, true)], [[99]], []);
    var c := Connect(s, o, true).s;
    Connects(s, o);
    var u := Subscribe(c, [99], callback);
    var v := Commit(u);
    CommitFrame(u);
    t := ConnectByName(v, [109], NotFound, o, true).s;
    FourSteps(s, DoConnect(o, true), c, DoSubscribe([99], callback), u, DoCommit, v,
              DoConnectByName([109], NotFound, o, true), t);
    assert [99] in t.channels && [99] in w.channelOrder;
    assert ThrowsAt(t.settings, w.tries, 0, 0);
    DropAgrees(t, w);
  }
}
