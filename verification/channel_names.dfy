/** Channel namespacing of an event bus: the mapping between the event names
    callers use and the channel names sent to the backend, given the bus's
    prefix (src/EventBus.ts:78-88). */
module ChannelNames {

  /** Separator placed between a non-empty prefix and the event name. */
  const Separator: char := ':'

  /** JavaScript's `String.prototype.substr(start, length)` for a
      non-negative `start`: at most `length` characters from `start`, clamped
      to the end of `s`, and empty when `start` is past the end or `length`
      is not positive. */
  function Substr(s: string, start: nat, length: int): (r: string)
    ensures start >= |s| || length <= 0 ==> r == []
    ensures start < |s| && length > 0 ==>
      |r| == (if length < |s| - start then length else |s| - start)
    ensures forall k :: 0 <= k < |r| ==> start + k < |s| && r[k] == s[start + k]
  {
    if start >= |s| || length <= 0 then []
    else if start + length < |s| then s[start .. start + length]
    else s[start..]
  }

  /** `getPrefixedChannelName`: the backend channel for `event` on a bus whose
      prefix is `prefix`. */
  function ToChannel(prefix: string, event: string): (channel: string)
    ensures |prefix| == 0 ==> channel == event
    ensures |prefix| > 0 ==>
      && |channel| == |prefix| + 1 + |event|
      && channel[..|prefix|] == prefix
      && channel[|prefix|] == Separator
      && channel[|prefix| + 1..] == event
  {
    if |prefix| > 0 then prefix + [Separator] + event else event
  }

  /** `removePrefixFromChannelName`: the event name recovered from a channel.
      With a non-empty prefix it drops `|prefix| + 1` leading characters
      whatever they are; it does not check that they spell the prefix. */
  function FromChannel(prefix: string, channel: string): (event: string)
    ensures |prefix| == 0 ==> event == channel
    ensures |prefix| > 0 && |prefix| + 1 <= |channel| ==> event == channel[|prefix| + 1..]
    ensures |prefix| > 0 && |prefix| + 1 > |channel| ==> event == []
  {
    if |prefix| > 0 then Substr(channel, |prefix| + 1, |channel| - |prefix|) else channel
  }

  /** Stripping the prefix undoes adding it, for every prefix (empty or not)
      and every event name. */
  lemma RoundTrip(prefix: string, event: string)
    ensures FromChannel(prefix, ToChannel(prefix, event)) == event
  {
  }

  /** With the empty prefix both directions are the identity. */
  lemma EmptyPrefixIdentity(s: string)
    ensures ToChannel([], s) == s
    ensures FromChannel([], s) == s
  {
  }

  /** For a fixed event name, distinct prefixes (including empty versus
      non-empty) never produce the same channel. */
  lemma Isolation(p1: string, p2: string, event: string)
    requires p1 != p2
    ensures ToChannel(p1, event) != ToChannel(p2, event)
  {
  }

  /** For a fixed prefix, distinct event names never produce the same
      channel. */
  lemma EventInjective(prefix: string, e1: string, e2: string)
    requires e1 != e2
    ensures ToChannel(prefix, e1) != ToChannel(prefix, e2)
  {
    RoundTrip(prefix, e1);
    RoundTrip(prefix, e2);
  }

  /** Stripping looks only at the prefix's length: a channel built under a
      different prefix of the same length yields the same event name, so the
      stripping step alone does not keep buses apart. */
  lemma StripIgnoresPrefixContent(p1: string, p2: string, event: string)
    requires |p1| == |p2| > 0
    ensures FromChannel(p2, ToChannel(p1, event)) == event
  {
  }

  /** The separator may also appear inside event names, so across different
      events and prefixes the mapping is not injective. */
  lemma SeparatorAmbiguity()
    ensures ToChannel("a", "b:c") == ToChannel("a:b", "c")
  {
  }
}
