/** The `subscriber` object over a `redis_connection`; its methods compute the steps of `Subscriptions`. */
module Subscribers {
  import opened Common
  import opened Bytes
  import opened Resp
  import opened ReplyStream
  import opened Connection
  import opened Subscriptions

  lemma EmptyWire()
    ensures Wire([]) == []
  {
    assert CommandReplies([]) == [];
  }

  lemma TellFrame<Callback>(s: Client<Callback>)
    ensures Tell(s.(connected := true, sent := []), [Connected, Connected])
            == Tell(s, [Connected, Connected]).(connected := true, sent := [])
  {
  }

  lemma OneMoreKey(verb: bytes, order: seq<bytes>, k: nat)
    requires k < |order|
    ensures Each(verb, order[..k + 1]) == Each(verb, order[..k]) + [[verb, order[k]]]
    ensures SetOf(order[..k + 1]) == SetOf(order[..k]) + {order[k]}
  {
    assert order[..k + 1] == order[..k] + [order[k]];
  }

  lemma NoKeys(verb: bytes)
    ensures Each(verb, []) == [] && SetOf([]) == {}
  {
  }

  lemma AllKeys(order: seq<bytes>, keys: set<bytes>)
    requires Enumerates(order, keys)
    ensures SetOf(order) == keys && forall k :: k in order ==> k in keys
  {
  }

  class Subscriber<Callback(0)> {
    const client: RedisConnection
    var channels: map<bytes, Callback>
    var patterns: map<bytes, Callback>
    var settings: Settings
    var cancel: bool
    var reconnecting: bool
    var attempts: nat
    var connected: bool
    var events: seq<ConnectState>
    /** The bytes written to the present connection. */
    var written: bytes
    ghost var buffered: seq<Command>
    ghost var sent: seq<Command>

    ghost predicate Valid()
      reads this, client, client.builder, client.builder.Repr
    {
      && client.Valid() && this !in client.builder.Repr
      && client.buffer == Wire(buffered)
      && written == Wire(sent)
    }

    ghost function View(): Client<Callback>
      reads this
    {
      Client(channels, patterns, settings, cancel, reconnecting, attempts, connected, buffered, sent, events)
    }

    constructor ()
      ensures Valid() && Unused(View()) && fresh(client) && fresh(client.builder) && fresh(client.builder.Repr)
    {
      client := new RedisConnection();
      channels, patterns := map[], map[];
      settings := Settings([], [], [], 0, 0, false, false);
      cancel, reconnecting, attempts, connected, events := false, false, 0, false, [];
      written, buffered, sent := [], [], [];
    }

    method Tell(e: ConnectState)
      requires Valid()
      modifies this
      ensures Valid() && View() == Subscriptions.Tell(old(View()), [e])
    {
      if settings.listening { events := events + [e]; }
    }

    /** `sleep_before_next_reconnect_attempt`, and the counter of `reconnect`. */
    method BeginAttempt()
      requires Valid()
      modifies this
      ensures Valid() && View() == Subscriptions.BeginAttempt(old(View()))
    {
      hide Wire;
      if settings.sleeps { Tell(Sleeping); }
      attempts := attempts + 1;
    }

    method Push(cmd: Command)
      requires Valid()
      modifies this, client
      ensures Valid() && View() == Subscriptions.Push(old(View()), cmd)
    {
      hide Wire;
      WireAppend(buffered, cmd);
      client.Send(cmd);
      buffered := buffered + [cmd];
    }

    method Subscribe(channel: bytes, callback: Callback)
      requires Valid()
      modifies this, client
      ensures Valid() && View() == Subscriptions.Subscribe(old(View()), channel, callback)
    {
      channels := channels[channel := callback];
      Push([SUBSCRIBE, channel]);
    }

    method PSubscribe(pattern: bytes, callback: Callback)
      requires Valid()
      modifies this, client
      ensures Valid() && View() == Subscriptions.PSubscribe(old(View()), pattern, callback)
    {
      patterns := patterns[pattern := callback];
      Push([PSUBSCRIBE, pattern]);
    }

    method Unsubscribe(channel: bytes)
      requires Valid()
      modifies this, client
      ensures Valid() && View() == Subscriptions.Unsubscribe(old(View()), channel)
    {
      if channel !in channels { return; }
      Push([UNSUBSCRIBE, channel]);
      channels := channels - {channel};
    }

    method PUnsubscribe(pattern: bytes)
      requires Valid()
      modifies this, client
      ensures Valid() && View() == Subscriptions.PUnsubscribe(old(View()), pattern)
    {
      if pattern !in patterns { return; }
      Push([PUNSUBSCRIBE, pattern]);
      patterns := patterns - {pattern};
    }

    method Authenticate(text: bytes)
      requires Valid()
      modifies this, client
      ensures Valid() && View() == Subscriptions.Authenticate(old(View()), text)
    {
      settings := settings.(password := text);
      Push([AUTH, text]);
    }

    method SetName(text: bytes)
      requires Valid()
      modifies this, client
      ensures Valid() && View() == Subscriptions.SetName(old(View()), text)
    {
      settings := settings.(clientName := text);
      Push([CLIENT, SETNAME, text]);
    }

    method Commit() returns (threw: bool)
      requires Valid()
      modifies this, client
      ensures Valid() && View() == Subscriptions.Commit(old(View())) && threw == !old(connected)
    {
      hide Wire;
      WireConcat(sent, buffered);
      EmptyWire();
      var out;
      out, threw := client.Commit(connected);
      if connected {
        written := written + out;
        sent := sent + buffered;
      }
      buffered := [];
    }

    /** `disconnect`: the disconnection handler is not called. */
    method Disconnect()
      requires Valid()
      modifies this, client, client.builder, client.builder.buffer
      ensures Valid() && View() == Subscriptions.Disconnect(old(View()))
    {
      hide Wire;
      connected := false;
      client.Disconnected();
      EmptyWire();
      written, sent, buffered := [], [], [];
    }

    method Open()
      requires Valid()
      modifies this
      ensures Valid() && View() == old(View()).(connected := true, sent := [])
    {
      EmptyWire();
      connected := true;
      written, sent := [], [];
    }

    /** `connect` to a host; `threw` when it does not accept or the client is connected already. */
    method Connect(o: Options, accepts: bool) returns (threw: bool)
      requires Valid()
      modifies this
      ensures Valid() && Ended(View(), threw) == Subscriptions.Connect(old(View()), o, accepts)
    {
      hide Wire, Subscriptions.Tell;
      settings := settings.(maxReconnects := o.maxReconnects, sleeps := o.sleeps, listening := o.listening);
      TellOnly(View(), [Starting]);
      Tell(Starting);
      if connected || !accepts { return true; }
      Open();
      Tell(Connected);
      threw := false;
    }

    /** `connect` to a master: a lookup without sentinels throws, and so does one that finds no host. */
    method ConnectByName(name: bytes, lookup: Lookup, o: Options, accepts: bool) returns (threw: bool)
      requires Valid()
      modifies this
      ensures Valid() && Ended(View(), threw) == Subscriptions.ConnectByName(old(View()), name, lookup, o, accepts)
    {
      hide Wire, Subscriptions.Connect;
      settings := settings.(masterName := name);
      if settings.sentinels == 0 || lookup != Found { return true; }
      threw := Connect(o, accepts);
    }

    method AddSentinel()
      requires Valid()
      modifies this
      ensures Valid() && View() == Subscriptions.AddSentinel(old(View()))
    {
      settings := settings.(sentinels := settings.sentinels + 1);
    }

    method ClearSentinels()
      requires Valid()
      modifies this
      ensures Valid() && View() == Subscriptions.ClearSentinels(old(View()))
    {
      settings := settings.(sentinels := 0);
    }

    method CancelReconnect()
      requires Valid()
      modifies this
      ensures Valid() && View() == Subscriptions.CancelReconnect(old(View()))
    {
      cancel := true;
    }

    method ReSubscribeChannels(order: seq<bytes>)
      requires Valid() && Enumerates(order, channels.Keys)
      modifies this, client
      ensures Valid() && View() == old(View()).(buffered := old(buffered) + Each(SUBSCRIBE, order))
    {
      hide Wire, Each, SetOf, Enumerates;
      NoKeys(SUBSCRIBE);
      AllKeys(order, channels.Keys);
      var moved := channels;
      channels := map[];
      for k := 0 to |order|
        invariant Valid() && channels.Keys == SetOf(order[..k])
        invariant forall c :: c in channels ==> c in moved && channels[c] == moved[c]
        invariant View() == old(View()).(channels := channels, buffered := old(buffered) + Each(SUBSCRIBE, order[..k]))
      {
        assert order[k] in order;
        OneMoreKey(SUBSCRIBE, order, k);
        ghost var before := Each(SUBSCRIBE, order[..k]);
        Subscribe(order[k], moved[order[k]]);
        assert old(buffered) + before + [[SUBSCRIBE, order[k]]] == old(buffered) + (before + [[SUBSCRIBE, order[k]]]);
      }
      assert order[..|order|] == order;
      assert channels == moved;
    }

    method ReSubscribePatterns(order: seq<bytes>)
      requires Valid() && Enumerates(order, patterns.Keys)
      modifies this, client
      ensures Valid() && View() == old(View()).(buffered := old(buffered) + Each(PSUBSCRIBE, order))
    {
      hide Wire, Each, SetOf, Enumerates;
      NoKeys(PSUBSCRIBE);
      AllKeys(order, patterns.Keys);
      var moved := patterns;
      patterns := map[];
      for k := 0 to |order|
        invariant Valid() && patterns.Keys == SetOf(order[..k])
        invariant forall c :: c in patterns ==> c in moved && patterns[c] == moved[c]
        invariant View() == old(View()).(patterns := patterns, buffered := old(buffered) + Each(PSUBSCRIBE, order[..k]))
      {
        assert order[k] in order;
        OneMoreKey(PSUBSCRIBE, order, k);
        ghost var before := Each(PSUBSCRIBE, order[..k]);
        PSubscribe(order[k], moved[order[k]]);
        assert old(buffered) + before + [[PSUBSCRIBE, order[k]]] == old(buffered) + (before + [[PSUBSCRIBE, order[k]]]);
      }
      assert order[..|order|] == order;
      assert patterns == moved;
    }

    /** `re_subscribe`: both maps are moved out and entered again one by one. */
    method ReSubscribe(w: World)
      requires Valid() && Fits(w, View())
      modifies this, client
      ensures Valid()
      ensures View() == old(View()).(buffered := old(buffered) + Each(SUBSCRIBE, w.channelOrder)
                                                              + Each(PSUBSCRIBE, w.patternOrder))
    {
      hide Wire, Enumerates;
      ReSubscribeChannels(w.channelOrder);
      ReSubscribePatterns(w.patternOrder);
    }

    method ReAuth()
      requires Valid()
      modifies this, client
      ensures Valid() && View() == old(View()).(buffered := old(buffered) + AuthPart(settings))
    {
      hide Wire;
      if settings.password != [] { Authenticate(settings.password); }
    }

    method ReSetName()
      requires Valid()
      modifies this, client
      ensures Valid() && View() == old(View()).(buffered := old(buffered) + NamePart(settings))
    {
      hide Wire;
      if settings.clientName != [] { SetName(settings.clientName); }
    }

    /** The end of `reconnect`, on the new connection. */
    method Greet(w: World)
      requires Valid() && connected && Fits(w, View()) && sent == []
      modifies this, client
      ensures Valid()
      ensures View() == old(View()).(sent := old(buffered) + Greeting(old(View()), w), buffered := [])
    {
      hide Wire, Enumerates, Valid, AuthPart, NamePart, Each;
      ghost var s := View();
      ReAuth();
      ReSetName();
      ReSubscribe(w);
      assert buffered == old(buffered) + Greeting(s, w);
      var _ := Commit();
      assert [] + (old(buffered) + Greeting(s, w)) == old(buffered) + Greeting(s, w);
    }

    /** The connection is accepted. */
    method GoOnline(w: World)
      requires Valid() && Fits(w, View())
      modifies this, client
      ensures Valid()
      ensures View() == Subscriptions.Tell(old(View()), [Connected, Connected])
                          .(connected := true, sent := old(buffered) + Greeting(old(View()), w), buffered := [])
    {
      hide Enumerates, Subscriptions.Tell, Greeting, Wire;
      ghost var s := View();
      Open();
      TellOnly(View(), [Connected]);
      TellTwice(View(), [Connected], [Connected]);
      assert [Connected] + [Connected] == [Connected, Connected];
      Tell(Connected);
      TellOnly(View(), [Connected]);
      Tell(Connected);
      GreetingSame(s, View(), w);
      Greet(w);
      TellFrame(s);
    }

    /** `sleep_before_next_reconnect_attempt` followed by `reconnect`; `threw` is the escaping exception. */
    method Reconnect(a: Attempt, w: World) returns (threw: bool)
      requires Valid() && !connected && Fits(w, View())
      modifies this, client
      ensures Valid()
      ensures threw == Throws(old(settings), a)
      ensures View() == if threw then Subscriptions.BeginAttempt(old(View()))
                        else Subscriptions.Reconnect(old(View()), a, w)
    {
      hide Wire, Enumerates, Subscriptions.Tell, Greeting;
      TellOnly(View(), if settings.sleeps then [Sleeping] else []);
      BeginAttempt();
      ghost var s := View();
      if settings.masterName != [] {
        if settings.sentinels == 0 || a.lookup == Broken { return true; }
        if a.lookup == NotFound {
          Tell(LookupFailed);
          return false;
        }
      }
      threw := false;
      TellOnly(s, [Starting]);
      Tell(Starting);
      if a.accepts {
        GoOnline(w);
        TellTwice(s, [Starting], [Connected, Connected]);
        assert [Starting] + [Connected, Connected] == [Starting, Connected, Connected];
        GreetingSame(s, Subscriptions.Tell(s, [Starting]), w);
      } else {
        Tell(Failed);
        TellTwice(s, [Starting], [Failed]);
        assert [Starting] + [Failed] == [Starting, Failed];
      }
    }

    method StartReconnecting()
      requires Valid()
      modifies this
      ensures Valid() && View() == old(View()).(reconnecting := true, attempts := 0)
    {
      reconnecting := true;
      attempts := 0;
    }

    /** `clear_subscriptions`, and the last event. */
    method GiveUp()
      requires Valid()
      modifies this
      ensures Valid() && View() == Subscriptions.Tell(old(View()).(channels := map[], patterns := map[]), [Stopped])
    {
      channels, patterns := map[], map[];
      Tell(Stopped);
    }

    /** The loop `while (should_reconnect())`. */
    method RunLoop(w: World) returns (threw: bool)
      requires Valid() && Fits(w, View())
      modifies this, client
      ensures Valid() && Ended(View(), threw) == ReconnectLoop(old(View()), w.tries, w)
    {
      hide Enumerates, Subscriptions.Reconnect, Greeting, ReconnectLoop, Subscriptions.BeginAttempt, Wire, Throws;
      ghost var s := View();
      var i := 0;
      assert w.tries[0..] == w.tries;
      while !connected && !cancel && (settings.maxReconnects == -1 || attempts < settings.maxReconnects)
        invariant Valid() && 0 <= i <= |w.tries| && Fits(w, View())
        invariant ReconnectLoop(View(), w.tries[i..], w) == ReconnectLoop(s, w.tries, w)
        decreases |w.tries| - i, !cancel
      {
        LoopTurns(View(), w.tries[i..], w);
        if i == |w.tries| {
          cancel := true;
          LoopStops(View(), w.tries[i..], w);
        } else {
          ReconnectFits(View(), w.tries[i], w);
          threw := Reconnect(w.tries[i], w);
          if threw { return; }
          assert w.tries[i..][1..] == w.tries[i + 1..];
          i := i + 1;
        }
      }
      LoopStops(View(), w.tries[i..], w);
      threw := false;
    }

    /** `connection_disconnection_handler`: the reconnect loop and what follows it. */
    method HandleDrop(w: World) returns (threw: bool)
      requires Valid() && Fits(w, View())
      modifies this, client
      ensures Valid() && Ended(View(), threw) == Subscriptions.HandleDrop(old(View()), w)
    {
      hide Enumerates, Subscriptions.Reconnect, Greeting, ReconnectLoop, Subscriptions.Tell, Wire;
      if reconnecting { return false; }
      StartReconnecting();
      TellOnly(View(), [Dropped]);
      Tell(Dropped);
      ghost var s := View();
      threw := RunLoop(w);
      if threw { return; }
      if !connected { GiveUp(); }
      reconnecting := false;
    }

    /** The connection breaks: `tcp_client_disconnection_handler` clears the connection, then calls the handler. */
    method Lose(w: World) returns (threw: bool)
      requires Valid() && Fits(w, View())
      modifies this, client, client.builder, client.builder.buffer
      ensures Valid() && Ended(View(), threw) == Drop(old(View()), w)
    {
      hide Subscriptions.HandleDrop, Enumerates;
      connected := false;
      client.Disconnected();
      EmptyWire();
      written, sent, buffered := [], [], [];
      threw := HandleDrop(w);
    }
  }
}
