/** Subscription dispatch of one bus instance (src/EventBus.ts:26-48).
    Every `on` call adds one subscription; an incoming message fires every
    subscription whose event equals the event name recovered from the
    channel, and a subscribe acknowledgment completes every `on` call whose
    event equals it. */
module Dispatch {

  /** Identity of a callback passed to `on`; callbacks themselves are opaque. */
  type CallbackId = nat

  /** One `on(event, callback)` registration. */
  datatype Subscription = Subscription(event: string, callback: CallbackId)

  /** One call of a subscription's callback with a payload. */
  datatype Invocation = Invocation(sub: Subscription, payload: string)

  /** The callbacks a message for `event` fires, in registration order: one
      invocation per matching subscription, with the message unchanged. */
  function Fire(subs: seq<Subscription>, event: string, message: string): (fired: seq<Invocation>)
    ensures |fired| <= |subs|
    ensures forall k :: 0 <= k < |fired| ==>
      fired[k].payload == message && fired[k].sub.event == event && fired[k].sub in subs
  {
    if |subs| == 0 then []
    else
      var rest := Fire(subs[1..], event, message);
      if subs[0].event == event then [Invocation(subs[0], message)] + rest else rest
  }

  /** Fan-out, exactly once: each subscription registered for `event` is
      invoked with the message as many times as it was registered, and a
      subscription for another event is never invoked. */
  lemma {:induction false} FireExactlyOnce(subs: seq<Subscription>, event: string, message: string, s: Subscription)
    ensures s.event == event ==>
      multiset(Fire(subs, event, message))[Invocation(s, message)] == multiset(subs)[s]
    ensures s.event != event ==> Invocation(s, message) !in Fire(subs, event, message)
  {
    if |subs| > 0 {
      FireExactlyOnce(subs[1..], event, message, s);
      assert subs == [subs[0]] + subs[1..];
    }
  }

  /** Every subscription registered for `event` fires on a message for it. */
  lemma FireComplete(subs: seq<Subscription>, event: string, message: string, s: Subscription)
    requires s in subs && s.event == event
    ensures Invocation(s, message) in Fire(subs, event, message)
  {
    FireExactlyOnce(subs, event, message, s);
    assert multiset(subs)[s] > 0;
  }

  /** Registering one more subscription leaves the invocations of the earlier
      ones as they were and appends the new one's, if it matches. */
  lemma {:induction false} FireAppend(subs: seq<Subscription>, s: Subscription, event: string, message: string)
    ensures Fire(subs + [s], event, message)
         == Fire(subs, event, message) + (if s.event == event then [Invocation(s, message)] else [])
  {
    var tail := if s.event == event then [Invocation(s, message)] else [];
    if |subs| == 0 {
      assert subs + [s] == [s];
      assert Fire([s], event, message) == tail + Fire([], event, message);
    } else {
      var xs := subs + [s];
      assert xs[0] == subs[0];
      assert xs[1..] == subs[1..] + [s];
      FireAppend(subs[1..], s, event, message);
      var head := if subs[0].event == event then [Invocation(subs[0], message)] else [];
      assert Fire(xs, event, message) == head + Fire(xs[1..], event, message);
      assert Fire(subs, event, message) == head + Fire(subs[1..], event, message);
      assert head + (Fire(subs[1..], event, message) + tail) == (head + Fire(subs[1..], event, message)) + tail;
    }
  }

  /** Whether the `on` call that registered `subs[i]` is completed by a
      subscribe acknowledgment for `event`. */
  predicate Completes(subs: seq<Subscription>, event: string, i: nat)
  {
    i < |subs| && subs[i].event == event
  }

  /** The `on` calls, by registration index and in increasing order, that a
      subscribe acknowledgment for `event` completes. */
  method Acknowledge(subs: seq<Subscription>, event: string) returns (done: seq<nat>)
    ensures forall i: nat :: i in done <==> Completes(subs, event, i)
    ensures forall j, k :: 0 <= j < k < |done| ==> done[j] < done[k]
  {
    done := [];
    var i := 0;
    while i < |subs|
      invariant 0 <= i <= |subs|
      invariant forall n: nat :: n in done <==> n < i && Completes(subs, event, n)
      invariant forall j, k :: 0 <= j < k < |done| ==> done[j] < done[k]
      invariant forall j :: 0 <= j < |done| ==> done[j] < i
    {
      if subs[i].event == event {
        done := done + [i];
      }
      i := i + 1;
    }
  }
}
