/**
 Who listens on what, kept twice over: each client has its own list of channels,
 and the server has a tally of the clients on each. The two are proved to agree
 at every moment of every run, so the count `PUBLISH` returns equals the copies delivered.
 */
module PubSub {
  import opened Base
  import opened Search

  type Channel = Bytes

  /** A client as long as its connection lasts, and then while its channels are being given up one by one. */
  datatype Client = Connected(on: seq<Channel>) | Closing(left: seq<Channel>)

  type Tally = map<Channel, seq<nat>>

  datatype State = State(tally: Tally, clients: map<nat, Client>, inboxes: map<nat, seq<Bytes>>)

  const NOBODY := State(map[], map[], map[])

  // ----- The tally -----

  function Listeners(tally: Tally, channel: Channel): seq<nat> {
    if channel in tally then tally[channel] else []
  }

  /** Tally update that never stores an empty list. */
  function WithListeners(tally: Tally, channel: Channel, listeners: seq<nat>): Tally {
    if listeners == [] then tally - {channel} else tally[channel := listeners]
  }

  function Joined(tally: Tally, channel: Channel, listener: nat): Tally {
    tally[channel := Listeners(tally, channel) + [listener]]
  }

  function Others(listeners: seq<nat>, listener: nat): seq<nat> {
    Filter(listeners, (other: nat) => other != listener)
  }

  function LeftTally(tally: Tally, channel: Channel, listener: nat): Tally {
    if channel in tally then WithListeners(tally, channel, Others(tally[channel], listener)) else tally
  }

  predicate Open(s: State, c: nat) {
    c in s.clients && s.clients[c].Connected?
  }

  function OpenOf(s: State, listeners: seq<nat>): seq<nat> {
    Filter(listeners, (c: nat) => Open(s, c))
  }

  function Inbox(inboxes: map<nat, seq<Bytes>>, c: nat): seq<Bytes> {
    if c in inboxes then inboxes[c] else []
  }

  /** A copy to each listener, in the order they are listed. */
  function Delivered(inboxes: map<nat, seq<Bytes>>, listeners: seq<nat>, delivery: Bytes): map<nat, seq<Bytes>>
    decreases |listeners|
  {
    if listeners == [] then inboxes
    else Delivered(inboxes[listeners[0] := Inbox(inboxes, listeners[0]) + [delivery]], listeners[1..], delivery)
  }

  // ----- Steps -----

  datatype Event =
    | Connect(c: nat)
    | Subscribe(c: nat, channel: Channel)
    | Unsubscribe(c: nat, channel: Channel)
    | Publish(channel: Channel, delivery: Bytes)
    | HangUp(c: nat)       // the receiving end goes first
    | GiveUpNext(c: nat)   // then each channel is given up in turn

  predicate Possible(s: State, event: Event) {
    match event
    case Connect(c) => c !in s.clients
    case Subscribe(c, _) => Open(s, c)
    case Unsubscribe(c, _) => Open(s, c)
    case Publish(_, _) => true
    case HangUp(c) => Open(s, c)
    case GiveUpNext(c) => c in s.clients && s.clients[c].Closing? && s.clients[c].left != []
  }

  function Without(on: seq<Channel>, channel: Channel): seq<Channel> {
    Filter(on, (other: Channel) => other != channel)
  }

  function Happened(s: State, event: Event): State
    requires Possible(s, event)
  {
    match event
    case Connect(c) => s.(clients := s.clients[c := Connected([])])
    case Subscribe(c, channel) =>
      var on := s.clients[c].on;
      if channel in on then s
      else s.(clients := s.clients[c := Connected(on + [channel])], tally := Joined(s.tally, channel, c))
    case Unsubscribe(c, channel) =>
      var on := s.clients[c].on;
      if channel !in on then s
      else s.(clients := s.clients[c := Connected(Without(on, channel))], tally := LeftTally(s.tally, channel, c))
    case Publish(channel, delivery) =>
      if channel !in s.tally then s
      else
        var reached := OpenOf(s, s.tally[channel]);
        s.(tally := WithListeners(s.tally, channel, reached), inboxes := Delivered(s.inboxes, reached, delivery))
    case HangUp(c) => s.(clients := s.clients[c := Closing(s.clients[c].on)])
    case GiveUpNext(c) =>
      var left := s.clients[c].left;
      s.(clients := s.clients[c := Closing(left[1..])], tally := LeftTally(s.tally, left[0], c))
  }

  /** The count `PUBLISH` returns. */
  function Told(s: State, channel: Channel): nat {
    |OpenOf(s, Listeners(s.tally, channel))|
  }

  // ----- Agreement -----

  predicate OnList(client: Client, channel: Channel) {
    match client
    case Connected(on) => channel in on
    case Closing(left) => channel in left
  }

  predicate Listed(tally: Tally, channel: Channel, c: nat) {
    channel in tally && c in tally[channel]
  }

  ghost predicate Tidy(tally: Tally) {
    forall ch :: ch in tally ==> tally[ch] != [] && Distinct(tally[ch])
  }

  /**
   No channel is kept empty and nobody is on it twice. Whoever is listed names
   the channel on a list of their own, and a client still connected is listed
   wherever its own list says.
   */
  ghost predicate Agreed(s: State) {
    && Tidy(s.tally)
    && (forall c :: c in s.clients && s.clients[c].Connected? ==> Distinct(s.clients[c].on))
    && (forall ch, c :: Listed(s.tally, ch, c) ==> c in s.clients && OnList(s.clients[c], ch))
    && (forall ch, c :: Open(s, c) && OnList(s.clients[c], ch) ==> Listed(s.tally, ch, c))
  }

  lemma {:induction false} FilterIs<T(!new)>(s: seq<T>, test: T -> bool)
    ensures forall x :: x in Filter(s, test) <==> x in s && test(x)
  {
    if s != [] {
      FilterIs(s[1..], test);
      assert s == [s[0]] + s[1..];
    }
  }

  lemma {:induction false} FilterDistinct<T(!new)>(s: seq<T>, test: T -> bool)
    requires Distinct(s)
    ensures Distinct(Filter(s, test))
  {
    if s != [] {
      var rest := s[1..];
      assert s[0] !in rest && Distinct(rest);
      FilterDistinct(rest, test);
      FilterIs(rest, test);
      DistinctCons(s[0], Filter(rest, test));
    }
  }

  lemma DistinctCons<T>(x: T, rest: seq<T>)
    requires Distinct(rest) && x !in rest
    ensures Distinct([x] + rest) && Distinct([] + rest)
  {
    assert [] + rest == rest;
  }

  lemma SubscribeKeepsAgreed(s: State, c: nat, channel: Channel)
    requires Agreed(s) && Open(s, c)
    ensures Agreed(Happened(s, Subscribe(c, channel)))
  {
    var s' := Happened(s, Subscribe(c, channel));
    if channel !in s.clients[c].on {
      assert !Listed(s.tally, channel, c);
      assert c !in Listeners(s.tally, channel);
      DistinctSnoc(Listeners(s.tally, channel), c);
      DistinctSnoc(s.clients[c].on, channel);
      forall ch, d
        ensures Listed(s'.tally, ch, d) <==> Listed(s.tally, ch, d) || (ch == channel && d == c)
      {
      }
    }
  }

  lemma DistinctSnoc<T>(s: seq<T>, x: T)
    requires Distinct(s) && x !in s
    ensures Distinct(s + [x])
  {
  }

  lemma LeftIs(tally: Tally, channel: Channel, c: nat)
    requires Tidy(tally)
    ensures var less := LeftTally(tally, channel, c);
            && Tidy(less)
            && (forall ch, d :: Listed(less, ch, d) <==> Listed(tally, ch, d) && !(ch == channel && d == c))
  {
    hide Filter;
    if channel in tally {
      FilterIs(tally[channel], (other: nat) => other != c);
      FilterDistinct(tally[channel], (other: nat) => other != c);
      assert forall d :: d in Others(tally[channel], c) <==> d in tally[channel] && d != c;
      var less := LeftTally(tally, channel, c);
      forall ch, d
        ensures Listed(less, ch, d) <==> Listed(tally, ch, d) && !(ch == channel && d == c)
      {
        assert d in Others(tally[channel], c) <==> d in tally[channel] && d != c;
      }
    }
  }

  lemma UnsubscribeKeepsAgreed(s: State, c: nat, channel: Channel)
    requires Agreed(s) && Open(s, c)
    ensures Agreed(Happened(s, Unsubscribe(c, channel)))
  {
    hide LeftTally, Filter;
    var on := s.clients[c].on;
    LeftIs(s.tally, channel, c);
    FilterIs(on, (other: Channel) => other != channel);
    FilterDistinct(on, (other: Channel) => other != channel);
    assert forall ch :: ch in Without(on, channel) <==> ch in on && ch != channel;
  }

  lemma GiveUpKeepsAgreed(s: State, c: nat)
    requires Agreed(s) && Possible(s, GiveUpNext(c))
    ensures Agreed(Happened(s, GiveUpNext(c)))
  {
    hide LeftTally;
    var left := s.clients[c].left;
    LeftIs(s.tally, left[0], c);
    assert left == [left[0]] + left[1..];
  }

  lemma PublishKeepsAgreed(s: State, channel: Channel, delivery: Bytes)
    requires Agreed(s)
    ensures Agreed(Happened(s, Publish(channel, delivery)))
  {
    hide Filter, Delivered;
    var s' := Happened(s, Publish(channel, delivery));
    if channel in s.tally {
      FilterIs(s.tally[channel], (c: nat) => Open(s, c));
      FilterDistinct(s.tally[channel], (c: nat) => Open(s, c));
      forall ch, c
        ensures Listed(s'.tally, ch, c) <==> Listed(s.tally, ch, c) && (ch == channel ==> Open(s, c))
      {
        assert c in OpenOf(s, s.tally[channel]) <==> c in s.tally[channel] && Open(s, c);
      }
    }
  }

  lemma HappenedKeepsAgreed(s: State, event: Event)
    requires Agreed(s) && Possible(s, event)
    ensures Agreed(Happened(s, event))
  {
    match event {
      case Connect(c) => ConnectKeepsAgreed(s, c);
      case Subscribe(c, channel) => SubscribeKeepsAgreed(s, c, channel);
      case Unsubscribe(c, channel) => UnsubscribeKeepsAgreed(s, c, channel);
      case Publish(channel, delivery) => PublishKeepsAgreed(s, channel, delivery);
      case HangUp(c) => HangUpKeepsAgreed(s, c);
      case GiveUpNext(c) => GiveUpKeepsAgreed(s, c);
    }
  }

  lemma ConnectKeepsAgreed(s: State, c: nat)
    requires Agreed(s) && c !in s.clients
    ensures Agreed(Happened(s, Connect(c)))
  {
  }

  lemma HangUpKeepsAgreed(s: State, c: nat)
    requires Agreed(s) && Open(s, c)
    ensures Agreed(Happened(s, HangUp(c)))
  {
  }

  // ----- What a message reaches -----

  /** Everyone connected whose own list names a channel. */
  ghost function Audience(s: State, channel: Channel): set<nat> {
    set c | c in s.clients && s.clients[c].Connected? && channel in s.clients[c].on
  }

  ghost function Among(s: seq<nat>): set<nat> {
    set x | x in s
  }

  lemma {:induction false} DistinctSize(s: seq<nat>)
    requires Distinct(s)
    ensures |Among(s)| == |s|
  {
    if s != [] {
      var rest, last := s[..|s| - 1], s[|s| - 1];
      DistinctSize(rest);
      assert s == rest + [last];
      assert Among(s) == Among(rest) + {last};
      assert last !in Among(rest);
    }
  }

  lemma {:induction false} DeliveredIs(inboxes: map<nat, seq<Bytes>>, listeners: seq<nat>, delivery: Bytes, c: nat)
    requires Distinct(listeners)
    ensures Inbox(Delivered(inboxes, listeners, delivery), c)
            == Inbox(inboxes, c) + if c in listeners then [delivery] else []
    decreases |listeners|
  {
    if listeners != [] {
      var next := inboxes[listeners[0] := Inbox(inboxes, listeners[0]) + [delivery]];
      DeliveredIs(next, listeners[1..], delivery, c);
      assert listeners == [listeners[0]] + listeners[1..];
      assert listeners[0] !in listeners[1..] by {
        assert forall i :: 0 <= i < |listeners[1..]| ==> listeners[1..][i] == listeners[i + 1];
      }
    }
  }

  /**
   A message goes once to each connected client whose own list names the
   channel, appended to its inbox, and to nobody else; the returned count is the
   size of that audience.
   */
  lemma PublishReachesAudience(s: State, channel: Channel, delivery: Bytes, c: nat)
    requires Agreed(s)
    ensures Told(s, channel) == |Audience(s, channel)|
    ensures Inbox(Happened(s, Publish(channel, delivery)).inboxes, c)
            == Inbox(s.inboxes, c) + if c in Audience(s, channel) then [delivery] else []
  {
    hide Filter, Delivered;
    var listeners := Listeners(s.tally, channel);
    var reached := OpenOf(s, listeners);
    FilterIs(listeners, (c: nat) => Open(s, c));
    FilterDistinct(listeners, (c: nat) => Open(s, c));
    DistinctSize(reached);
    forall d
      ensures d in reached <==> d in Audience(s, channel)
    {
      assert d in reached <==> d in listeners && Open(s, d);
      assert Open(s, d) && channel in s.clients[d].on ==> Listed(s.tally, channel, d);
      assert d in listeners ==> Listed(s.tally, channel, d);
    }
    assert Among(reached) == Audience(s, channel);
    if channel in s.tally {
      DeliveredIs(s.inboxes, reached, delivery, c);
    } else {
      NoneReached(s);
    }
  }

  lemma NoneReached(s: State)
    ensures OpenOf(s, []) == []
  {
  }

  // ----- Whole runs -----

  ghost predicate IsRun(states: seq<State>, events: seq<Event>) {
    && |states| == |events| + 1 && states[0] == NOBODY
    && forall i :: 0 <= i < |events| ==> Possible(states[i], events[i]) && states[i + 1] == Happened(states[i], events[i])
  }

  /** What a client should have heard by a given moment, going by its own list alone. */
  ghost function Heard(states: seq<State>, events: seq<Event>, c: nat, i: nat): seq<Bytes>
    requires i < |states| == |events| + 1
    decreases i
  {
    if i == 0 then []
    else
      var event := events[i - 1];
      Heard(states, events, c, i - 1) +
      if event.Publish? && c in Audience(states[i - 1], event.channel) then [event.delivery] else []
  }

  /** At every moment of every run the two lists agree, and each client has been sent exactly what its own list called for, in order. */
  lemma {:induction false} ListsAgree(states: seq<State>, events: seq<Event>, c: nat, i: nat)
    requires IsRun(states, events) && i < |states|
    ensures Agreed(states[i])
    ensures Inbox(states[i].inboxes, c) == Heard(states, events, c, i)
    decreases i
  {
    hide Agreed, Happened, Audience;
    if i == 0 {
      NobodyAgrees();
    } else {
      var before, event := states[i - 1], events[i - 1];
      ListsAgree(states, events, c, i - 1);
      HappenedKeepsAgreed(before, event);
      if event.Publish? {
        PublishReachesAudience(before, event.channel, event.delivery, c);
      } else {
        OnlyPublishSends(before, event);
      }
    }
  }

  lemma NobodyAgrees()
    ensures Agreed(NOBODY)
  {
  }

  lemma OnlyPublishSends(s: State, event: Event)
    requires Possible(s, event) && !event.Publish?
    ensures Happened(s, event).inboxes == s.inboxes
  {
  }

  // ----- As it is written -----

  /** The server's tally, and the queues its listeners lead to. `closed` are those whose receiving end is gone. */
  class Channels {
    var tally: Tally
    var inboxes: map<nat, seq<Bytes>>
    var closed: set<nat>

    constructor ()
      ensures tally == map[] && inboxes == map[] && closed == {}
    {
      tally, inboxes, closed := map[], map[], {};
    }

    method Join(channel: Channel, listener: nat)
      modifies this`tally
      ensures tally == Joined(old(tally), channel, listener)
    {
      if channel !in tally {
        tally := tally[channel := []];
      }
      tally := tally[channel := tally[channel] + [listener]];
    }

    method Leave(channel: Channel, listener: nat)
      modifies this`tally
      ensures tally == LeftTally(old(tally), channel, listener)
    {
      if channel !in tally {
        return;
      }
      var kept := Others(tally[channel], listener);
      tally := tally[channel := kept];
      if kept == [] {
        tally := tally - {channel};
        assert tally == old(tally) - {channel};
      }
    }

    /** Appends to the inbox of each open listener; closed ones are pruned and excluded from the count. */
    method Send(channel: Channel, delivery: Bytes) returns (reached: nat)
      modifies this`tally, this`inboxes
      ensures var open := StillOpen(Listeners(old(tally), channel), closed);
              && reached == |open|
              && inboxes == Delivered(old(inboxes), open, delivery)
              && tally == if channel in old(tally) then WithListeners(old(tally), channel, open) else old(tally)
    {
      if channel !in tally {
        return 0;
      }
      var listeners := tally[channel];
      var kept: seq<nat> := [];
      ghost var all := StillOpen(listeners, closed);
      ghost var left := all;
      assert listeners[0..] == listeners && [] + all == all;
      for i := 0 to |listeners|
        invariant tally == old(tally)
        invariant left == StillOpen(listeners[i..], closed)
        invariant all == kept + left
        invariant Delivered(inboxes, left, delivery) == Delivered(old(inboxes), all, delivery)
      {
        assert listeners[i..][0] == listeners[i] && listeners[i..][1..] == listeners[i + 1..];
        left := StillOpen(listeners[i + 1..], closed);
        if listeners[i] !in closed {
          assert ([listeners[i]] + left)[1..] == left;
          assert kept + ([listeners[i]] + left) == kept + [listeners[i]] + left;
          inboxes := inboxes[listeners[i] := Inbox(inboxes, listeners[i]) + [delivery]];
          kept := kept + [listeners[i]];
        }
      }
      assert kept + [] == kept;
      tally := tally[channel := kept];
      reached := |kept|;
      if reached == 0 {
        tally := tally - {channel};
        assert tally == old(tally) - {channel};
      }
    }
  }

  /** The listeners whose receiving end is still there, in the order they are listed. */
  function StillOpen(listeners: seq<nat>, closed: set<nat>): seq<nat> {
    if listeners == [] then []
    else if listeners[0] in closed then StillOpen(listeners[1..], closed)
    else [listeners[0]] + StillOpen(listeners[1..], closed)
  }

  /** What a publish reaches in the object is what it reaches in the run, whenever `closed` are the clients not connected. */
  lemma {:induction false} ReachesTheSame(s: State, listeners: seq<nat>, closed: set<nat>)
    requires forall c :: c in listeners ==> (c in closed <==> !Open(s, c))
    ensures StillOpen(listeners, closed) == OpenOf(s, listeners)
  {
    if listeners != [] {
      assert listeners == [listeners[0]] + listeners[1..];
      ReachesTheSame(s, listeners[1..], closed);
      assert [] + OpenOf(s, listeners[1..]) == OpenOf(s, listeners[1..]);
    }
  }

  /** One client's own list, which keeps the server's up to date as it changes. */
  class Subscriptions {
    var on: seq<Channel>
    const channels: Channels
    const listener: nat

    constructor (channels: Channels, listener: nat)
      ensures on == [] && this.channels == channels && this.listener == listener
    {
      on, this.channels, this.listener := [], channels, listener;
    }

    /** Subscribing twice leaves a client listening once. */
    method Add(channel: Channel) returns (count: nat)
      modifies this`on, channels`tally
      ensures on == if channel in old(on) then old(on) else old(on) + [channel]
      ensures channels.tally == if channel in old(on) then old(channels.tally) else Joined(old(channels.tally), channel, listener)
      ensures count == |on|
    {
      if channel !in on {
        on := on + [channel];
        channels.Join(channel, listener);
      }
      count := |on|;
    }

    method Remove(channel: Channel) returns (count: nat)
      requires Distinct(on)
      modifies this`on, channels`tally
      ensures Distinct(on) && on == Without(old(on), channel)
      ensures channels.tally == if channel in old(on) then LeftTally(old(channels.tally), channel, listener) else old(channels.tally)
      ensures count == |on|
    {
      var at := 0;
      while at < |on| && on[at] != channel
        invariant 0 <= at <= |on|
        invariant forall i :: 0 <= i < at ==> on[i] != channel
      {
        at := at + 1;
      }
      FilterDistinct(on, (other: Channel) => other != channel);
      OneGone(on, channel, at);
      if at < |on| {
        on := on[..at] + on[at + 1..];
        channels.Leave(channel, listener);
      }
      count := |on|;
    }

    /** The destructor: leaves each subscribed channel in turn. */
    method Drop()
      modifies channels`tally
      ensures channels.tally == LeftAll(old(channels.tally), on, listener)
    {
      hide LeftTally;
      assert on[0..] == on;
      for i := 0 to |on|
        invariant LeftAll(channels.tally, on[i..], listener) == LeftAll(old(channels.tally), on, listener)
      {
        assert on[i..][0] == on[i] && on[i..][1..] == on[i + 1..];
        channels.Leave(on[i], listener);
      }
    }
  }

  function LeftAll(tally: Tally, on: seq<Channel>, listener: nat): Tally
    decreases |on|
  {
    if on == [] then tally else LeftAll(LeftTally(tally, on[0], listener), on[1..], listener)
  }

  lemma OneGone(on: seq<Channel>, channel: Channel, at: nat)
    requires Distinct(on) && at <= |on|
    requires forall i :: 0 <= i < at ==> on[i] != channel
    requires at < |on| ==> on[at] == channel
    ensures Without(on, channel) == if at < |on| then on[..at] + on[at + 1..] else on
    ensures channel in on <==> at < |on|
  {
    hide Filter;
    if at < |on| {
      var front, back := on[..at], on[at + 1..];
      assert on == front + ([channel] + back);
      FilterAppends(front, [channel] + back, (other: Channel) => other != channel);
      NoneOf(front, channel);
      NoneOf(back, channel);
      FirstGone(channel, back);
    } else {
      NoneOf(on, channel);
    }
  }

  lemma FirstGone(channel: Channel, back: seq<Channel>)
    ensures Without([channel] + back, channel) == Without(back, channel)
  {
    assert ([channel] + back)[1..] == back;
    assert [] + Without(back, channel) == Without(back, channel);
  }

  lemma {:induction false} NoneOf(on: seq<Channel>, channel: Channel)
    requires forall i :: 0 <= i < |on| ==> on[i] != channel
    ensures Without(on, channel) == on
  {
    if on != [] {
      NoneOf(on[1..], channel);
      assert on == [on[0]] + on[1..];
    }
  }

  /** Giving up every channel leaves a client listed nowhere its own list named. */
  lemma {:induction false} DroppedIsGone(tally: Tally, on: seq<Channel>, listener: nat)
    requires Tidy(tally)
    ensures var less := LeftAll(tally, on, listener);
            && Tidy(less)
            && (forall ch, d :: Listed(less, ch, d) <==> Listed(tally, ch, d) && !(d == listener && ch in on))
    decreases |on|
  {
    hide LeftTally, Tidy;
    if on != [] {
      LeftIs(tally, on[0], listener);
      DroppedIsGone(LeftTally(tally, on[0], listener), on[1..], listener);
      assert on == [on[0]] + on[1..];
    }
  }
}
