/** The process-wide instance registry and the factory methods around it
    (src/EventBus.ts:5, 56-66, 90-139). A `World` holds the lazily
    initialised registry, which maps bus names to instance identities, and
    the instances themselves; instance identity stands for object identity in
    the source. */
module Registry {
  import opened Wrappers
  import opened ChannelNames
  import opened Payloads
  import opened Dispatch
  import opened EventBus

  type InstanceId = nat

  /** `instances` is `None` until the first `create` or `getByName`;
      `nextId` is the identity the next constructed instance receives. */
  datatype World = World(instances: Option<map<string, InstanceId>>, heap: map<InstanceId, Bus>, nextId: InstanceId)

  /** The world of a process that has not touched the registry yet. */
  const Initial: World := World(None, map[], 0)

  /** The registry's entries, reading an uninitialised registry as empty. */
  function Entries(w: World): map<string, InstanceId>
  {
    w.instances.GetOr(map[])
  }

  /** The lazy initialisation both factory methods start with. */
  function Init(w: World): (r: World)
    ensures r.instances.Some?
    ensures Entries(r) == Entries(w) && r.heap == w.heap && r.nextId == w.nextId
  {
    if w.instances.None? then w.(instances := Some(map[])) else w
  }

  /** A live bus is one whose subscribe client has not been quit. */
  predicate Live(b: Bus)
  {
    b.sub != Some(Closed)
  }

  /** Invariants every reachable world keeps: instances exist only once the
      registry is initialised, registered identities denote instances,
      identities are allocated fresh, every instance has both clients, and
      the backend subscriptions of every instance match its prefix and (while
      live) its `on` registrations. */
  ghost predicate Valid(w: World)
  {
    && (w.instances.None? ==> w.heap == map[])
    && (forall n :: n in Entries(w) ==> Entries(w)[n] in w.heap)
    && (forall id :: id in w.heap ==> id < w.nextId)
    && (forall id :: id in w.heap ==>
          && w.heap[id].pub.Some? && w.heap[id].sub.Some?
          && OwnChannels(w.heap[id])
          && (Live(w.heap[id]) ==> Subscribed(w.heap[id])))
  }

  lemma InitialValid()
    ensures Valid(Initial)
  {
  }

  /** Result of `create`: the world afterwards and the instance returned. */
  datatype Created = Created(world: World, id: InstanceId)

  /** Get-or-create by name, given the instance to store when `name` is not
      registered. */
  function GetOrCreate(w: World, name: string, created: Bus): (r: Created)
    requires Valid(w)
    requires created.pub.Some? && created.sub.Some? && created.subs == [] && created.channels == {}
    ensures Valid(r.world) && r.world.instances.Some?
    ensures name in Entries(r.world) && Entries(r.world)[name] == r.id && r.id in r.world.heap
    ensures name in Entries(w) ==> r.id == Entries(w)[name] && r.world == Init(w)
    ensures name !in Entries(w) ==>
      && r.id !in w.heap
      && Entries(r.world) == Entries(w)[name := r.id]
      && r.world.heap == w.heap[r.id := created]
  {
    var w0 := Init(w);
    var m := Entries(w0);
    if name in m then Created(w0, m[name])
    else Created(World(Some(m[name := w.nextId]), w.heap[w.nextId := created], w.nextId + 1), w.nextId)
  }

  /** `create(name, clientOpts)` as written: the instance stored under a new
      name is built from the caller's options and has no name of its own. */
  function Create(w: World, name: string, opts: Option<ClientOpts>): (r: Created)
    requires Valid(w)
    ensures Valid(r.world)
    ensures name in Entries(w) ==> r.id == Entries(w)[name] && Entries(r.world) == Entries(w) && r.world.heap == w.heap
    ensures name !in Entries(w) ==>
      && r.id !in w.heap
      && Entries(r.world) == Entries(w)[name := r.id]
      && r.world.heap == w.heap[r.id := Construct(opts)]
    ensures r.id in r.world.heap
  {
    GetOrCreate(w, name, Construct(opts))
  }

  /** `create` with the constructor recording the instance's name. */
  function CreateFixed(w: World, name: string, opts: Option<ClientOpts>): (r: Created)
    requires Valid(w)
    ensures Valid(r.world)
    ensures name in Entries(w) ==> r.id == Entries(w)[name] && Entries(r.world) == Entries(w) && r.world.heap == w.heap
    ensures name !in Entries(w) ==>
      && r.id !in w.heap
      && Entries(r.world) == Entries(w)[name := r.id]
      && r.world.heap == w.heap[r.id := ConstructNamed(name, opts)]
    ensures r.id in r.world.heap
  {
    GetOrCreate(w, name, ConstructNamed(name, opts))
  }

  /** Two consecutive `create` calls for one name return the same instance,
      and the second changes nothing, whatever options it is given. */
  lemma CreateIdempotent(w: World, name: string, opts1: Option<ClientOpts>, opts2: Option<ClientOpts>)
    requires Valid(w)
    ensures var c1 := Create(w, name, opts1);
      var c2 := Create(c1.world, name, opts2);
      c2.id == c1.id && c2.world == c1.world
  {
  }

  /** An instance created under a new name stores the caller's prefix, or the
      empty one, never the namespaced prefix `create` computes. */
  lemma CreatedPrefix(w: World, name: string, opts: Option<ClientOpts>)
    requires Valid(w) && name !in Entries(w)
    ensures var c := Create(w, name, opts);
      && c.world.heap[c.id].prefix == EffectivePrefix(opts)
      && c.world.heap[c.id].prefix != NamespacedOpts(name, opts).prefix.value
  {
    NamespacedPrefixDiscarded(name, opts);
  }

  /** Result of `getByName`: the world afterwards and the instance or error. */
  datatype Lookup = Lookup(world: World, result: Result<InstanceId, BusError>)

  /** `getByName(name)`: the registered instance, or `NotFound`; it never
      adds an entry, only initialises an empty registry. */
  function GetByName(w: World, name: string): (r: Lookup)
    ensures r.world.instances.Some?
    ensures Entries(r.world) == Entries(w) && r.world.heap == w.heap && r.world.nextId == w.nextId
    ensures r.result.Success? <==> name in Entries(w)
    ensures r.result.Success? ==> r.result.value == Entries(w)[name]
    ensures r.result.Failure? ==> r.result.error == NotFound(name)
  {
    var w0 := Init(w);
    var m := Entries(w0);
    if name in m then Lookup(w0, Success(m[name])) else Lookup(w0, Failure(NotFound(name)))
  }

  /** `getByName` finds what `create` stored. */
  lemma CreateThenGetByName(w: World, name: string, opts: Option<ClientOpts>)
    requires Valid(w)
    ensures var c := Create(w, name, opts);
      GetByName(c.world, name).result == Success(c.id)
  {
  }

  /** `destory()`: the instance unsubscribes and quits both clients, then the
      registry key equal to its stored name is deleted if present; no other
      entry is touched. */
  function Destroy(w: World, id: InstanceId): (r: World)
    requires Valid(w) && id in w.heap
    ensures Valid(r)
    ensures r.heap.Keys == w.heap.Keys && r.nextId == w.nextId
    ensures r.heap[id] == Close(w.heap[id])
    ensures r.heap[id].channels == {} && Connected(r.heap[id]) == Success(false)
    ensures forall other :: other in w.heap && other != id ==> r.heap[other] == w.heap[other]
    ensures Entries(r).Keys <= Entries(w).Keys
    ensures forall n :: n in Entries(w) && Some(n) != w.heap[id].name ==>
      n in Entries(r) && Entries(r)[n] == Entries(w)[n]
    ensures w.heap[id].name.Some? ==> w.heap[id].name.value !in Entries(r)
  {
    var b := w.heap[id];
    var m := Entries(w);
    var m' := if b.name.Some? && b.name.value in m then m - {b.name.value} else m;
    World(Some(m'), w.heap[id := Close(b)], w.nextId)
  }

  /** Every instance of the world has its `_name` unassigned, as every
      instance built by `create` has. */
  ghost predicate AllUnnamed(w: World)
  {
    forall id :: id in w.heap ==> w.heap[id].name.None?
  }

  /** Because `_name` is never assigned, `destory` leaves the registry as it
      was. */
  lemma DestroyKeepsRegistry(w: World, id: InstanceId)
    requires Valid(w) && id in w.heap && AllUnnamed(w)
    ensures Entries(Destroy(w, id)) == Entries(w)
  {
  }

  /** `create` keeps every instance unnamed. */
  lemma CreateKeepsUnnamed(w: World, name: string, opts: Option<ClientOpts>)
    requires Valid(w) && AllUnnamed(w)
    ensures AllUnnamed(Create(w, name, opts).world)
  {
  }

  /** As written: destroying an instance and creating its name again hands
      back the destroyed instance, with its clients quit and its
      subscriptions gone. */
  lemma RecreateAfterDestroyIsStale(w: World, name: string, opts1: Option<ClientOpts>, opts2: Option<ClientOpts>)
    requires Valid(w) && AllUnnamed(w)
    ensures var c1 := Create(w, name, opts1);
      var c3 := Create(Destroy(c1.world, c1.id), name, opts2);
      && c3.id == c1.id
      && Connected(c3.world.heap[c3.id]) == Success(false)
      && c3.world.heap[c3.id].channels == {}
  {
    var c1 := Create(w, name, opts1);
    CreateKeepsUnnamed(w, name, opts1);
    DestroyKeepsRegistry(c1.world, c1.id);
  }

  /** Each registered instance records the name it is registered under. */
  ghost predicate NamesMatch(w: World)
  {
    forall n :: n in Entries(w) ==> Entries(w)[n] in w.heap && w.heap[Entries(w)[n]].name == Some(n)
  }

  /** Corrected: with the name recorded, destroying an instance and creating
      its name again yields a brand-new instance that is not yet connected,
      not the destroyed one. */
  lemma RecreateAfterDestroyIsFresh(w: World, name: string, opts1: Option<ClientOpts>, opts2: Option<ClientOpts>)
    requires Valid(w) && NamesMatch(w)
    ensures var c1 := CreateFixed(w, name, opts1);
      var c3 := CreateFixed(Destroy(c1.world, c1.id), name, opts2);
      && c3.id != c1.id
      && c3.id !in c1.world.heap
      && c3.world.heap[c3.id] == ConstructNamed(name, opts2)
  {
    var c1 := CreateFixed(w, name, opts1);
    assert c1.world.heap[c1.id].name == Some(name);
    var w2 := Destroy(c1.world, c1.id);
    assert name !in Entries(w2);
  }

  /** The untouched world trivially records every registered name. */
  lemma NamesMatchInitial()
    ensures NamesMatch(Initial)
  {
  }

  /** The corrected `create` keeps every registered instance recording the
      name it is registered under. */
  lemma CreateFixedKeepsNamesMatch(w: World, name: string, opts: Option<ClientOpts>)
    requires Valid(w) && NamesMatch(w)
    ensures NamesMatch(CreateFixed(w, name, opts).world)
  {
    var c := CreateFixed(w, name, opts);
    if name !in Entries(w) {
      forall n | n in Entries(c.world)
        ensures Entries(c.world)[n] in c.world.heap && c.world.heap[Entries(c.world)[n]].name == Some(n)
      {
        if n != name {
          assert Entries(w)[n] in w.heap;
          assert Entries(w)[n] != c.id;
        }
      }
    }
  }

  /** `on` keeps every registered instance recording its name. */
  lemma OnInstanceKeepsNamesMatch(w: World, id: InstanceId, event: string, callback: CallbackId)
    requires Valid(w) && NamesMatch(w) && id in w.heap
    ensures NamesMatch(OnInstance(w, id, event, callback).0)
  {
  }

  /** `destory` keeps every remaining registered instance recording its
      name, so `RecreateAfterDestroyIsFresh` applies to every world reached
      from `Initial` with the corrected constructor. */
  lemma DestroyKeepsNamesMatch(w: World, id: InstanceId)
    requires Valid(w) && NamesMatch(w) && id in w.heap
    ensures NamesMatch(Destroy(w, id))
  {
    var r := Destroy(w, id);
    forall n | n in Entries(r)
      ensures Entries(r)[n] in r.heap && r.heap[Entries(r)[n]].name == Some(n)
    {
      assert n in Entries(w) && Entries(r)[n] == Entries(w)[n];
    }
  }

  /** `on` called on instance `id`: that instance gains one subscription and,
      unless it has been destroyed, one subscribed channel; every other instance and the registry stay as
      they were. */
  function OnInstance(w: World, id: InstanceId, event: string, callback: CallbackId): (r: (World, string))
    requires Valid(w) && id in w.heap
    ensures Valid(r.0)
    ensures r.0.instances == w.instances && r.0.nextId == w.nextId && r.0.heap.Keys == w.heap.Keys
    ensures r.0.heap[id] == On(w.heap[id], event, callback).0
    ensures r.0.heap[id].subs == w.heap[id].subs + [Subscription(event, callback)]
    ensures r.0.heap[id].channels == (if Live(w.heap[id]) then w.heap[id].channels + {r.1} else w.heap[id].channels)
    ensures r.1 == ToChannel(w.heap[id].prefix, event)
    ensures forall other :: other in w.heap && other != id ==> r.0.heap[other] == w.heap[other]
  {
    var (b, channel) := On(w.heap[id], event, callback);
    var w' := w.(heap := w.heap[id := b]);
    assert Entries(w') == Entries(w);
    (w', channel)
  }

  /** `on` and `destory` keep every instance unnamed as well, so in any world
      reached from `Initial` through the source's operations `destory` never
      removes a registry entry. */
  lemma OnAndDestroyKeepUnnamed(w: World, id: InstanceId, event: string, callback: CallbackId)
    requires Valid(w) && id in w.heap && AllUnnamed(w)
    ensures AllUnnamed(OnInstance(w, id, event, callback).0)
    ensures AllUnnamed(Destroy(w, id))
  {
  }

  /** `emit` on instance `from`: what every instance's message listeners fire
      when the backend delivers the published message. A publish client that
      has been quit publishes nothing, so then nothing fires anywhere. */
  function Publish<V>(w: World, from: InstanceId, event: string, payload: Payload<V>, serialize: V -> string)
    : (deliveries: map<InstanceId, seq<Invocation>>)
    requires from in w.heap
    ensures deliveries.Keys == w.heap.Keys
    ensures w.heap[from].pub == Some(Closed) ==> forall id :: id in deliveries ==> deliveries[id] == []
    ensures w.heap[from].pub != Some(Closed) ==> forall id :: id in deliveries ==>
      deliveries[id] == Receive(w.heap[id], ToChannel(w.heap[from].prefix, event), Encode(payload, serialize))
    ensures forall id :: id in deliveries ==>
      forall k :: 0 <= k < |deliveries[id]| ==>
        deliveries[id][k].sub in w.heap[id].subs && deliveries[id][k].payload == Encode(payload, serialize)
  {
    var p := Emit(w.heap[from], event, payload, serialize);
    if w.heap[from].pub == Some(Closed) then map id | id in w.heap :: []
    else map id | id in w.heap :: Receive(w.heap[id], p.channel, p.message)
  }

  /** An emit reaches every subscription its own instance holds for the
      event, with a string payload unchanged. `Subscribed` holds of every live
      instance of a valid world. */
  lemma PublishReachesOwnSubscribers<V>(w: World, id: InstanceId, event: string, text: string,
                                       serialize: V -> string, s: Subscription)
    requires id in w.heap && Subscribed(w.heap[id]) && w.heap[id].pub != Some(Closed)
    requires s in w.heap[id].subs && s.event == event
    ensures Invocation(s, text) in Publish(w, id, event, Text(text), serialize)[id]
  {
    var b := w.heap[id];
    EmitThenReceive(b, event, text, serialize, s);
    var p := Emit(b, event, Text(text), serialize);
    assert multiset(b.subs)[s] > 0;
    assert multiset(Receive(b, p.channel, p.message))[Invocation(s, text)] > 0;
  }

  /** An emit on one instance never fires a subscription for the same event
      on an instance with a different prefix. */
  lemma PublishIsolated<V>(w: World, from: InstanceId, to: InstanceId, event: string,
                           payload: Payload<V>, serialize: V -> string)
    requires Valid(w) && from in w.heap && to in w.heap
    requires w.heap[from].prefix != w.heap[to].prefix
    ensures forall inv :: inv in Publish(w, from, event, payload, serialize)[to] ==> inv.sub.event != event
  {
    NoCrossDelivery(w.heap[from], w.heap[to], event, payload, serialize);
  }

  /** `connected` never takes its error path on an instance of a valid
      world, and reads false once the instance is destroyed. */
  lemma ConnectedDefined(w: World, id: InstanceId)
    requires Valid(w) && id in w.heap
    ensures Connected(w.heap[id]).Success?
    ensures Connected(Destroy(w, id).heap[id]) == Success(false)
  {
  }

  /** A destroyed instance is dead for messaging: after `destory`, even a
      later `on` on it, its emits reach no instance, and no emit from any
      instance fires one of its callbacks. */
  lemma DestroyedInstanceIsDeaf<V>(w: World, id: InstanceId, from: InstanceId, event: string,
                                  callback: CallbackId, payload: Payload<V>, serialize: V -> string)
    requires Valid(w) && id in w.heap && from in w.heap
    ensures var w' := OnInstance(Destroy(w, id), id, event, callback).0;
      && Publish(w', from, event, payload, serialize)[id] == []
      && (forall other :: other in w'.heap ==> Publish(w', id, event, payload, serialize)[other] == [])
  {
  }
}
