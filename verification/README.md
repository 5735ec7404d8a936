# node-redis-eventbus in Dafny

A model of the `EventBus` class of node-redis-eventbus (`src/EventBus.ts`).
An event bus is a named façade over two Redis clients, one for publishing and
one for subscribing. Callers register callbacks with `on(event, callback)`
and publish with `emit(event, payload)`. A static factory `create(name, opts)`
keeps one instance per name in a process-wide map, and `getByName(name)`
looks an instance up.

The model is functional. Each piece of state is an immutable datatype, each
operation is a pure function (or a method with a loop), and lemmas relate them:

- `ChannelNames`: `getPrefixedChannelName` and
  `removePrefixFromChannelName`. The second is modelled with JavaScript's
  `substr` clamping written out.
- `Payloads`: the payload encoding done by `emit`.
- `Dispatch`: subscriptions as a `seq<Subscription>`. A message fires the
  subscriptions that match it, in order. A subscribe acknowledgment completes
  the matching `on` calls.
- `EventBus`: one bus instance, made of its stored name (an `Option`, because
  the constructor never assigns `_name`), its effective prefix, the state of
  its two clients, its subscriptions and its subscribed channels. The module
  also holds `on`, `emit`, message receipt, the `connected` getter and the
  instance half of `destory`.
- `Registry`: a `World` made of three parts. The first is the lazily
  initialised registry `map<string, InstanceId>`. The second is a heap that
  maps instance identities (standing for object identity) to buses. The third
  is a counter that allocates fresh identities. The module holds `create`,
  `getByName`, `destory`, and `on`/`emit` called on instances held in the world.

The Redis backend appears only through what the bus relies on. A message
published on a channel reaches a bus exactly when that bus's subscribe
client has subscribed the channel. `unsubscribe` and `quit` clear the
subscribed channels and close the clients. `JSON.stringify` is a function parameter
that is not interpreted. Callbacks are identified by a `CallbackId`, and a
callback invocation is recorded as an `Invocation` value. Strings are
`seq<char>`, and a `char` stands for one unit of what JavaScript's `length`
and `substr` count.

Two behaviours of the code differ from what its own comments suggest, and
the model follows the code:

- `create` builds options whose prefix is the caller's prefix followed by
  `node-redis-eventbus:<name>`, with the comment "Preserve prefix if exists to
  avoid collisions" (src/EventBus.ts:106-110). It then passes the caller's
  original options to the constructor (src/EventBus.ts:116). The stored prefix
  is therefore the caller's `prefix`, or `''` (`EventBus.EffectivePrefix`,
  `EventBus.NamespacedPrefixDiscarded`). Two buses with different names and no
  caller prefix share every channel. The test at `src/EventBus.test.ts:82-167`
  relies on this: each bus there expects the other bus's messages. This is
  therefore not listed as a finding.
- `destory` deletes the registry key equal to `_name` (src/EventBus.ts:63-65),
  evidently to remove the instance's own entry. The constructor never assigns
  `_name`, so nothing is removed. See Findings.

## Model

| member | source | states |
|---|---|---|
| `ChannelNames.Substr` | src/EventBus.ts:80 | JavaScript `substr(start, length)` for a non-negative start: a contiguous slice from `start`, empty past the end or for a non-positive length, clamped to the end of the string |
| `ChannelNames.ToChannel` | src/EventBus.ts:86-88 | with an empty prefix the channel is the event itself; otherwise it is the prefix, then `:`, then the event, character by character |
| `ChannelNames.FromChannel` | src/EventBus.ts:78-84 | with a non-empty prefix, the result is everything after the first `len(prefix)+1` characters, or empty when the channel is shorter; with an empty prefix the channel is returned unchanged |
| `ChannelNames.RoundTrip` | src/EventBus.ts:78-88 | stripping the prefix recovers the event from the channel built for it, for every prefix, empty or not |
| `ChannelNames.EmptyPrefixIdentity` | src/EventBus.ts:78-88 | with the empty prefix both namespacing directions are the identity |
| `ChannelNames.Isolation` | src/EventBus.ts:86-88 | for a fixed event, distinct prefixes (including empty versus non-empty) give distinct channels |
| `ChannelNames.EventInjective` | src/EventBus.ts:86-88 | for a fixed prefix, distinct events give distinct channels |
| `ChannelNames.StripIgnoresPrefixContent` | src/EventBus.ts:78-84 | stripping checks only the prefix's length, so a channel built under another prefix of the same length strips to the same event |
| `ChannelNames.SeparatorAmbiguity` | src/EventBus.ts:86-88 | the separator may occur inside event names, so prefix `a` with event `b:c` and prefix `a:b` with event `c` give the same channel |
| `Payloads.Encode` | src/EventBus.ts:52-54 | a string payload goes on the wire unchanged; any other value goes through the serializer |
| `Payloads.WireFormForgetsKind` | src/EventBus.ts:38-53 | the wire form does not record which branch produced it: a serialized value arrives as the same string as the text of its serialization, so the callback at line 42 receives a string either way |
| `Dispatch.Fire` | src/EventBus.ts:37-44 | every invocation a message causes carries the message unchanged and belongs to a registered subscription for the message's event; there are no more invocations than subscriptions |
| `Dispatch.FireExactlyOnce` | src/EventBus.ts:37-44 | each subscription for the event is invoked exactly as many times as it was registered (fan-out), and a subscription for another event is never invoked |
| `Dispatch.FireComplete` | src/EventBus.ts:37-44 | every registered subscription for the event fires |
| `Dispatch.FireAppend` | src/EventBus.ts:26-44 | registering one more subscription leaves the earlier invocations in place and in order, and appends the new one's invocation when it matches |
| `Dispatch.Acknowledge` | src/EventBus.ts:28-35 | an acknowledgment for an event completes exactly the `on` calls registered for that event, listed in increasing registration order |
| `EventBus.EffectivePrefix` | src/EventBus.ts:17-22 | the stored prefix is the caller's `prefix` when one is given, and the empty string otherwise |
| `EventBus.NamespacedOpts` | src/EventBus.ts:99-110 | the options built in `create` carry a prefix of the caller's prefix, the namespace root and the name, in that order and ending with the name |
| `EventBus.Construct` | src/EventBus.ts:13-23 | a new instance has both clients created and connecting, the effective prefix, no subscriptions, and no name |
| `EventBus.ConstructNamed` | src/EventBus.ts:13-23 | the corrected constructor is the same as the written one, except that it records the instance name |
| `EventBus.NamespacedPrefixDiscarded` | src/EventBus.ts:99-116 | the prefix an instance stores is never the namespaced prefix computed in `create` |
| `EventBus.DefaultPrefixShared` | src/EventBus.ts:18-22 | instances created without a caller prefix all use the bare event name as the channel, whatever their names |
| `EventBus.Connected` | src/EventBus.ts:69-75 | `connected` fails with an error exactly when a client is missing; otherwise it is true exactly when both clients are ready |
| `EventBus.ConstructedConnected` | src/EventBus.ts:69-75 | a constructed instance never takes the error path: it reads false while connecting and true once both clients are ready |
| `EventBus.On` | src/EventBus.ts:26-48 | `on` appends exactly one subscription, keeps the earlier ones, and subscribes the namespaced channel unless the subscribe client has been quit; it keeps the channel-prefix invariant, and the subscribed-channel invariant while the client is not quit |
| `EventBus.Emit` | src/EventBus.ts:52-54 | `emit` publishes on the channel `getPrefixedChannelName` builds for the event, which strips back to the event, and the message is the encoded payload, a string payload unchanged |
| `EventBus.Receive` | src/EventBus.ts:37-44 | a message on a channel the bus has not subscribed fires nothing; every invocation carries the message and belongs to a subscription for the stripped event |
| `EventBus.Acknowledged` | src/EventBus.ts:28-35 | an acknowledgment on a channel completes exactly the `on` calls whose event equals the stripped channel |
| `EventBus.OnCompletedByOwnAck` | src/EventBus.ts:26-48 | the acknowledgment for the channel an `on` subscribed completes that call, and completes exactly the calls for the same event |
| `EventBus.EmitThenReceive` | src/EventBus.ts:26-54 | an emit on a bus fires each of its subscriptions for the event with the string payload unchanged, once per registration, and never fires a subscription for another event |
| `EventBus.NoCrossDelivery` | src/EventBus.ts:37-47 | an emit on a bus never fires a subscription for the same event on a bus with a different prefix, because that bus only subscribes channels built from its own prefix |
| `EventBus.DefaultPrefixCrossDelivery` | src/EventBus.test.ts:82-167 | buses without a caller prefix receive each other's emits: an emit on one fires the other's subscription for the event, exactly once |
| `EventBus.Close` | src/EventBus.ts:57-61 | `destory` on the instance quits both clients and leaves no subscribed channel, so `connected` reads false; it keeps the name, prefix and subscriptions |
| `EventBus.ClosedReceivesNothing` | src/EventBus.ts:26-61 | a destroyed instance fires no callback, whatever is published, also after a later `on`, because the quit subscribe client subscribes nothing |
| `Registry.Init` | src/EventBus.ts:92-95 | lazy initialisation creates an empty map and changes nothing else |
| `Registry.InitialValid` | src/EventBus.ts:5 | a process that has not used the registry satisfies the world invariants |
| `Registry.GetOrCreate` | src/EventBus.ts:91-123 | get-or-create keeps the world invariants; a registered name returns its instance with the map unchanged; otherwise exactly one fresh instance is inserted under the name and returned |
| `Registry.Create` | src/EventBus.ts:91-123 | `create` returns the stored instance when the name is registered; otherwise it inserts exactly one new instance, built from the caller's options, under the name |
| `Registry.CreateFixed` | src/EventBus.ts:112-122 | with the corrected constructor, `create` has the same get-or-create behaviour, and the new instance records its name |
| `Registry.CreateIdempotent` | src/EventBus.ts:97-122 | two consecutive `create(name)` calls return the same instance, and the second changes nothing, whatever options it is given |
| `Registry.CreatedPrefix` | src/EventBus.ts:100-116 | an instance created under a new name stores the caller's prefix or `''`, never the namespaced prefix |
| `Registry.GetByName` | src/EventBus.ts:125-139 | `getByName` succeeds exactly when the name is registered, returns that instance, fails with `NotFound` otherwise, and never adds an entry |
| `Registry.CreateThenGetByName` | src/EventBus.ts:112-139 | `getByName` finds the instance `create` returned |
| `Registry.Destroy` | src/EventBus.ts:57-66 | `destory` closes the instance (no subscribed channels, both clients quit, name, prefix and subscriptions kept), deletes only the registry key equal to its stored name, keeps every other entry and every other instance, and keeps the invariants |
| `Registry.DestroyKeepsRegistry` | src/EventBus.ts:63-65 | when no instance has a name, as is the case for every instance `create` builds, `destory` leaves the registry unchanged |
| `Registry.CreateKeepsUnnamed` | src/EventBus.ts:13-23 | `create` builds only unnamed instances |
| `Registry.OnAndDestroyKeepUnnamed` | src/EventBus.ts:13-23 | `on` and `destory` keep every instance unnamed |
| `Registry.RecreateAfterDestroyIsStale` | src/EventBus.ts:63-65 | as written, `create(name)` after `destory` returns the destroyed instance, with its clients quit and no subscribed channels |
| `Registry.RecreateAfterDestroyIsFresh` | src/EventBus.ts:63-65 | with the name recorded, `create(name)` after `destory` returns a brand-new instance |
| `Registry.NamesMatchInitial` | src/EventBus.ts:5 | the untouched registry records every registered name trivially |
| `Registry.CreateFixedKeepsNamesMatch` | src/EventBus.ts:112-122 | with the name recorded, `create` keeps every registered instance recording the name it is registered under |
| `Registry.OnInstanceKeepsNamesMatch` | src/EventBus.ts:26-48 | `on` keeps every registered instance recording its name |
| `Registry.DestroyKeepsNamesMatch` | src/EventBus.ts:56-66 | with the name recorded, `destory` keeps every remaining registered instance recording its name |
| `Registry.OnInstance` | src/EventBus.ts:26-48 | `on` on an instance in the world turns that instance into exactly what the instance-level `on` gives, so it gains one subscription and, unless it has been destroyed, exactly its namespaced channel, and keeps everything else; every other instance and the registry are unchanged |
| `Registry.Publish` | src/EventBus.ts:52-54 | an emit from an instance whose publish client is not quit delivers to every instance in the world what its message listeners make of the encoded payload on the emitter's namespaced channel; an emit through a quit client delivers nothing; every invocation belongs to a subscription that instance holds and carries the encoded payload |
| `Registry.DestroyedInstanceIsDeaf` | src/EventBus.ts:47-61 | after `destory`, and even after a later `on`, no emit fires a callback of the destroyed instance and its own emits reach no instance |
| `Registry.PublishReachesOwnSubscribers` | src/EventBus.test.ts:10-27 | an emit on an instance whose subscriptions are all subscribed at the backend (every live instance of a valid world) and whose publish client is not quit fires each of its own subscriptions for the event with the string payload unchanged |
| `Registry.PublishIsolated` | src/EventBus.test.ts:188-217 | an emit on one instance never fires a subscription for the same event on an instance with a different prefix |
| `Registry.ConnectedDefined` | src/EventBus.ts:69-75 | `connected` never errors on an instance in a valid world, and reads false after `destory` |

## Findings

| source | as written | input that shows it | evidently intended | confidence | as-written member | corrected member |
|---|---|---|---|---|---|---|
| src/EventBus.ts:13-23 | the constructor never assigns `_name`, so the check at src/EventBus.ts:63-65 looks up an undefined key and `destory` never removes the registry entry | `create("bus")`, then `destory()` on it, then `create("bus")` returns the destroyed instance, whose clients are quit, so it neither receives nor publishes (`Registry.DestroyedInstanceIsDeaf`) | the constructor stores its `name`, so `destory` removes the entry and a later `create` builds a new instance | high (not executed) | `Registry.RecreateAfterDestroyIsStale` | `Registry.RecreateAfterDestroyIsFresh` |

The main model keeps the code as written (`Registry.Create`, `EventBus.Construct`).
The corrected constructor `EventBus.ConstructNamed` and `Registry.CreateFixed`
differ from the written versions only in the recorded name.

## Left out

- Redis client creation, connection establishment, `publish`, `subscribe`, `unsubscribe` and `quit` are backend I/O. Only their effect on the subscribed-channel set and the client states is modelled.
- `JSON.stringify` is a serializer parameter that is not interpreted. Only the string pass-through branch of `emit` is specified.
- Promises, event-emitter listener accumulation and timing are not modelled. The acknowledgment is modelled as the set of `on` calls it completes. A promise resolves once, so later matching acknowledgments have no further effect.
- Backend delivery order and message loss are not modelled. `Registry.Publish` gives the invocations that one delivered message causes.
- Client options other than `prefix` are passed to the Redis library and are not modelled. So is any use that library makes of its own `prefix` option.
- `on` and `emit` on a destroyed instance are modelled as subscribing and publishing nothing, because their clients are quit. The errors the client library would then raise are not part of the model. A second `destory` leaves the instance and the registry as they are; the errors the library would raise for quitting a quit client are not modelled either.
- `EventBus.ClosedReceivesNothing`: requires the instance to have its subscribe client. The constructor always creates it (src/EventBus.ts:15).
- Strings containing characters outside the Basic Multilingual Plane are not represented faithfully. JavaScript counts such a character as two UTF-16 code units, while a Dafny `char` is a whole Unicode scalar value, and a lone surrogate code unit cannot be written at all. The lemmas hold for any characters.
- `EventBus.Receive`: the backend is assumed to deliver a message only on channels the bus has subscribed. No pattern subscriptions are modelled.
