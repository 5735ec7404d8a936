/** One event bus instance (src/EventBus.ts:3-88): its stored name and prefix,
    its two backend clients, the subscriptions registered by `on` and the
    channels its subscribe client has asked the backend for. */
module EventBus {
  import opened Wrappers
  import opened ChannelNames
  import opened Payloads
  import opened Dispatch

  /** The namespace root the factory puts in front of a bus name. */
  const NamespaceRoot: string := "node-redis-eventbus:"

  /** The options a caller passes to `create`; only `prefix` matters here,
      the other client options go to the backend library. */
  datatype ClientOpts = ClientOpts(prefix: Option<string>)

  /** Connection state of one backend client as the client library reports
      it; `Ready` is what its `connected` flag reads as true. */
  datatype ClientState = Connecting | Ready | Closed

  /** Errors the bus itself raises. */
  datatype BusError = UndefinedInstance | NotFound(name: string)

  /** A bus instance. `name` is `None` while the `_name` field is unassigned;
      `channels` is the set of channels the subscribe client is subscribed
      to at the backend. */
  datatype Bus = Bus(
    name: Option<string>,
    prefix: string,
    pub: Option<ClientState>,
    sub: Option<ClientState>,
    subs: seq<Subscription>,
    channels: set<string>)

  /** The prefix the constructor stores: the caller's `prefix` when it is
      present and non-empty, otherwise the empty string. */
  function EffectivePrefix(opts: Option<ClientOpts>): (prefix: string)
    ensures opts.Some? && opts.value.prefix.Some? ==> prefix == opts.value.prefix.value
    ensures opts.None? || opts.value.prefix.None? ==> prefix == ""
  {
    if opts.Some? && opts.value.prefix.Some? && |opts.value.prefix.value| > 0
    then opts.value.prefix.value
    else ""
  }

  /** The options `create` builds before constructing a bus: the caller's
      prefix (or nothing) followed by the namespace root and the bus name.
      The constructor is handed the caller's options instead, so this value
      never reaches a bus. */
  function NamespacedOpts(name: string, opts: Option<ClientOpts>): (r: ClientOpts)
    ensures r.prefix.Some?
    ensures |r.prefix.value| == |EffectivePrefix(opts)| + |NamespaceRoot| + |name|
    ensures r.prefix.value[..|EffectivePrefix(opts)|] == EffectivePrefix(opts)
    ensures r.prefix.value[|EffectivePrefix(opts)|..|EffectivePrefix(opts)| + |NamespaceRoot|] == NamespaceRoot
    ensures r.prefix.value[|r.prefix.value| - |name|..] == name
  {
    var caller := if opts.Some? && opts.value.prefix.Some? then opts.value.prefix.value else "";
    ClientOpts(Some(caller + NamespaceRoot + name))
  }

  /** The private constructor as written: both clients are created (and start
      connecting), the prefix is taken from the options it is given, and
      `_name` is left unassigned. */
  function Construct(opts: Option<ClientOpts>): (b: Bus)
    ensures b.name.None?
    ensures b.prefix == EffectivePrefix(opts)
    ensures b.pub == Some(Connecting) && b.sub == Some(Connecting)
    ensures b.subs == [] && b.channels == {}
  {
    Bus(None, EffectivePrefix(opts), Some(Connecting), Some(Connecting), [], {})
  }

  /** The constructor as evidently intended: identical, except that the bus
      records its own name. */
  function ConstructNamed(name: string, opts: Option<ClientOpts>): (b: Bus)
    ensures b.name == Some(name)
    ensures b == Construct(opts).(name := Some(name))
  {
    Construct(opts).(name := Some(name))
  }

  /** The prefix `create` computes is never the one the bus stores: it is
      strictly longer than the caller's prefix, whatever the name. */
  lemma NamespacedPrefixDiscarded(name: string, opts: Option<ClientOpts>)
    ensures Construct(opts).prefix != NamespacedOpts(name, opts).prefix.value
  {
  }

  /** Buses created without a caller prefix share the empty prefix whatever
      their names, so they use the same channel for the same event. */
  lemma DefaultPrefixShared(opts1: Option<ClientOpts>, opts2: Option<ClientOpts>, event: string)
    requires opts1.None? || opts1.value.prefix.None?
    requires opts2.None? || opts2.value.prefix.None?
    ensures ToChannel(Construct(opts1).prefix, event) == ToChannel(Construct(opts2).prefix, event) == event
  {
  }

  /** The client library reporting that a client has finished connecting. */
  function ClientReady(state: ClientState): (r: ClientState)
    ensures state == Connecting ==> r == Ready
    ensures state != Connecting ==> r == state
  {
    if state == Connecting then Ready else state
  }

  /** The `connected` getter: true when both clients report connected, and an
      error when either client is missing. */
  function Connected(b: Bus): (r: Result<bool, BusError>)
    ensures r.Failure? <==> b.pub.None? || b.sub.None?
    ensures r.Failure? ==> r.error == UndefinedInstance
    ensures r.Success? ==> (r.value <==> b.pub == Some(Ready) && b.sub == Some(Ready))
  {
    if b.pub.Some? && b.sub.Some?
    then Success(b.pub.value == Ready && b.sub.value == Ready)
    else Failure(UndefinedInstance)
  }

  /** A freshly constructed bus never takes the getter's error path, and it
      reads as not connected until both clients report ready. */
  lemma ConstructedConnected(opts: Option<ClientOpts>)
    ensures Connected(Construct(opts)) == Success(false)
    ensures Connected(Construct(opts).(pub := Some(ClientReady(Connecting)),
                                       sub := Some(ClientReady(Connecting)))) == Success(true)
  {
  }

  /** Every channel the bus is subscribed to was built from its own prefix. */
  ghost predicate OwnChannels(b: Bus)
  {
    forall c :: c in b.channels ==> ToChannel(b.prefix, FromChannel(b.prefix, c)) == c
  }

  /** Every subscription's channel is subscribed at the backend. */
  ghost predicate Subscribed(b: Bus)
  {
    forall s :: s in b.subs ==> ToChannel(b.prefix, s.event) in b.channels
  }

  /** `on(event, callback)`: appends one subscription, leaves the earlier ones
      untouched, and subscribes the namespaced channel, which it returns. A
      subscribe client that has been quit subscribes nothing. */
  function On(b: Bus, event: string, callback: CallbackId): (r: (Bus, string))
    ensures r.0.subs == b.subs + [Subscription(event, callback)]
    ensures r.1 == ToChannel(b.prefix, event)
    ensures r.0.channels == (if b.sub == Some(Closed) then b.channels else b.channels + {r.1})
    ensures r.0 == b.(subs := r.0.subs, channels := r.0.channels)
    ensures OwnChannels(b) ==> OwnChannels(r.0)
    ensures Subscribed(b) && b.sub != Some(Closed) ==> Subscribed(r.0)
  {
    var channel := ToChannel(b.prefix, event);
    RoundTrip(b.prefix, event);
    var channels := if b.sub == Some(Closed) then b.channels else b.channels + {channel};
    (b.(subs := b.subs + [Subscription(event, callback)], channels := channels), channel)
  }

  /** A message published to the backend. */
  datatype Publication = Publication(channel: string, message: string)

  /** `emit(event, payload)`: publishes the encoded payload on the namespaced
      channel; the bus itself is unchanged. */
  function Emit<V>(b: Bus, event: string, payload: Payload<V>, serialize: V -> string): (p: Publication)
    ensures p.channel == ToChannel(b.prefix, event)
    ensures FromChannel(b.prefix, p.channel) == event
    ensures p.message == Encode(payload, serialize)
    ensures payload.Text? ==> p.message == payload.text
  {
    RoundTrip(b.prefix, event);
    Publication(ToChannel(b.prefix, event), Encode(payload, serialize))
  }

  /** What the bus's message listeners do with a message the backend delivers
      on `channel`: recover the event name and fire its subscriptions. The
      backend delivers only on subscribed channels. */
  function Receive(b: Bus, channel: string, message: string): (fired: seq<Invocation>)
    ensures channel !in b.channels ==> fired == []
    ensures forall k :: 0 <= k < |fired| ==>
      fired[k].payload == message && fired[k].sub in b.subs
      && fired[k].sub.event == FromChannel(b.prefix, channel)
  {
    if channel in b.channels then Fire(b.subs, FromChannel(b.prefix, channel), message) else []
  }

  /** The `on` call that registered `b.subs[i]` is completed by a subscribe
      acknowledgment on `channel`. */
  predicate AckCompletes(b: Bus, channel: string, i: nat)
  {
    Completes(b.subs, FromChannel(b.prefix, channel), i)
  }

  /** A subscribe acknowledgment on `channel`: the `on` calls it completes. */
  method Acknowledged(b: Bus, channel: string) returns (done: seq<nat>)
    ensures forall i: nat :: i in done <==> i < |b.subs| && b.subs[i].event == FromChannel(b.prefix, channel)
  {
    done := Acknowledge(b.subs, FromChannel(b.prefix, channel));
  }

  /** The acknowledgment for the channel an `on` call subscribed completes
      that call, and exactly the `on` calls registered for the same event. */
  lemma OnCompletedByOwnAck(b: Bus, event: string, callback: CallbackId)
    ensures AckCompletes(On(b, event, callback).0, On(b, event, callback).1, |b.subs|)
    ensures forall i: nat ::
      (AckCompletes(On(b, event, callback).0, On(b, event, callback).1, i)
       <==> i <= |b.subs| && On(b, event, callback).0.subs[i].event == event)
  {
    RoundTrip(b.prefix, event);
  }

  /** Emitting an event on a bus delivers the string payload, unchanged and
      exactly once per registration, to every subscription of that bus for
      the event, and to no subscription for another event. */
  lemma EmitThenReceive<V>(b: Bus, event: string, text: string, serialize: V -> string, s: Subscription)
    requires Subscribed(b)
    ensures var p := Emit(b, event, Text(text), serialize);
      && (s.event == event ==> multiset(Receive(b, p.channel, p.message))[Invocation(s, text)] == multiset(b.subs)[s])
      && (s.event != event ==> forall inv :: inv in Receive(b, p.channel, p.message) ==> inv.sub != s)
  {
    var p := Emit(b, event, Text(text), serialize);
    RoundTrip(b.prefix, event);
    if s.event == event {
      if s in b.subs {
        assert p.channel in b.channels;
      }
      FireExactlyOnce(b.subs, event, text, s);
    }
  }

  /** Isolation between buses: when two buses have different prefixes, an
      emit of `event` on the first never fires a subscription for `event` on
      the second, even though stripping alone would map the channel back to
      `event` whenever the prefixes have the same length. Only the same event
      is excluded: because the separator may occur inside event names, an
      emit of `b:c` under prefix `a` does fire a subscription for `c` under
      prefix `a:b` (see `ChannelNames.SeparatorAmbiguity`). */
  lemma NoCrossDelivery<V>(a: Bus, b: Bus, event: string, payload: Payload<V>, serialize: V -> string)
    requires a.prefix != b.prefix
    requires OwnChannels(b)
    ensures var p := Emit(a, event, payload, serialize);
      forall inv :: inv in Receive(b, p.channel, p.message) ==> inv.sub.event != event
  {
    var p := Emit(a, event, payload, serialize);
    if p.channel in b.channels && FromChannel(b.prefix, p.channel) == event {
      Isolation(a.prefix, b.prefix, event);
      assert false;
    }
  }

  /** Two buses built without a caller prefix receive each other's emits: a
      subscription for `event` on the second is fired by an emit of `event`
      on the first, whatever names the buses were created under. */
  lemma DefaultPrefixCrossDelivery<V>(opts1: Option<ClientOpts>, opts2: Option<ClientOpts>,
                                      event: string, callback: CallbackId, text: string, serialize: V -> string)
    requires opts1.None? || opts1.value.prefix.None?
    requires opts2.None? || opts2.value.prefix.None?
    ensures var b := On(Construct(opts2), event, callback).0;
      var p := Emit(Construct(opts1), event, Text(text), serialize);
      Receive(b, p.channel, p.message) == [Invocation(Subscription(event, callback), text)]
  {
  }

  /** `destory` on the instance itself: unsubscribe from every channel and
      quit both clients. */
  function Close(b: Bus): (r: Bus)
    ensures r.channels == {}
    ensures r.pub == (if b.pub.Some? then Some(Closed) else None)
    ensures r.sub == (if b.sub.Some? then Some(Closed) else None)
    ensures Connected(r) == (if b.pub.Some? && b.sub.Some? then Success(false) else Failure(UndefinedInstance))
    ensures r.name == b.name && r.prefix == b.prefix && r.subs == b.subs
  {
    b.(pub := if b.pub.Some? then Some(Closed) else None,
       sub := if b.sub.Some? then Some(Closed) else None,
       channels := {})
  }

  /** After `destory` a bus receives nothing, whatever is published, and a
      later `on` does not change that: the quit subscribe client subscribes
      no channel. */
  lemma ClosedReceivesNothing(b: Bus, channel: string, message: string, event: string, callback: CallbackId)
    requires b.sub.Some?
    ensures Receive(Close(b), channel, message) == []
    ensures Receive(On(Close(b), event, callback).0, channel, message) == []
  {
  }
}
