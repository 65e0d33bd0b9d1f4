/**
 The store as it is written: one object whose fields every method changes in
 place. Each method is proved to take exactly the step it stands for, and to
 keep what every reachable state keeps.
 */
module StoreObject {
  import opened Base
  import opened StoreState
  import opened StoreSteps
  import opened Lists
  import opened Versions
  import Decimal
  import SortedSets
  import Streams

  class Store {
    var entries: Entries
    var waiters: map<Key, seq<nat>>
    var watchers: map<Key, seq<nat>>
    var changes: nat
    var channels: nat
    var gone: set<nat>
    var sent: seq<Delivery>
    var wakers: nat
    var held: set<nat>
    var permits: set<nat>

    ghost function View(): State
      reads this
    {
      State(entries, waiters, watchers, changes, channels, gone, sent, wakers, held, permits)
    }

    ghost predicate Valid()
      reads this
    {
      Inv(View())
    }

    constructor ()
      ensures Valid() && View() == EMPTY
    {
      entries, waiters, watchers, changes := map[], map[], map[], 0;
      channels, gone, sent, wakers, held, permits := 0, {}, [], 0, {}, {};
    }

    method NextVersion() returns (version: nat)
      modifies this`changes
      ensures version == changes == old(changes) + 1
    {
      changes := changes + 1;
      version := changes;
    }

    method DropIfExpired(key: Key, now: nat)
      modifies this`entries
      ensures entries == Live(old(entries), key, now)
    {
      if key in entries && Expired(entries[key], now) {
        entries := entries - {key};
      }
    }

    // ----- Strings -----

    method SetKey(key: Key, value: Bytes, expiresIn: Option<nat>, now: nat)
      requires Valid()
      modifies this
      ensures Valid() && View() == Set(old(View()), key, value, expiresIn, now).0
    {
      SetKeepsInv(View(), key, value, expiresIn, now);
      var deadline := if expiresIn.Some? then Some(now + expiresIn.value) else None;
      var version := NextVersion();
      entries := entries[key := Entry(Text(value), deadline, version)];
    }

    method IncrementKey(key: Key, now: nat) returns (reply: Reply)
      requires Valid()
      modifies this
      ensures Valid() && (View(), reply) == Increment(old(View()), key, now)
    {
      hide Inv, Decimal.AsNumber, Decimal.Print;
      IncrementKeepsInv(View(), key, now);
      DropIfExpired(key, now);
      var version := NextVersion();
      var entry := if key in entries then entries[key] else Entry(Text([48]), None, version);
      if !entry.data.Text? {
        return WrongType;
      }
      var number := Decimal.AsNumber(entry.data.value);
      if number.None? {
        ZeroIsANumber();
        return NotAnInteger;
      }
      if number.value == Decimal.I64_MAX {
        ZeroIsANumber();
        return Overflow;
      }
      entries := entries[key := Entry(Text(Decimal.Print(number.value + 1)), entry.expiresAt, version)];
      reply := Number(number.value + 1);
    }

    // ----- Lists -----

    method PushOnto(key: Key, elements: seq<Bytes>, side: Side, now: nat) returns (reply: Reply)
      requires Valid() && elements != []
      modifies this
      ensures Valid() && (View(), reply) == Push(old(View()), key, elements, side, now)
    {
      hide Serve, Inv, Pushed, WithQueue, WithList, Push, Live;
      PushIs(View(), key, elements, side, now);
      PushKeepsInv(View(), key, elements, side, now);
      LiveListHasNoDeadline(View(), key, now);
      QueueIsNotEmpty(View(), key);
      DropIfExpired(key, now);
      ghost var live := entries;
      var version := NextVersion();
      var entry := if key in entries then entries[key] else Entry(List([]), None, version);
      if !entry.data.List? {
        return WrongType;
      }
      var list := Extended(entry.data.elements, elements, side);
      var length := |list|;
      entries := entries[key := entry.(data := List(list), version := version)];
      AsWithList(live, key, list, version);
      WakeWaiters(key, version);
      WithListTwice(live, key, list, Serve(list, QueueOf(old(waiters), key), gone).list, version);
      reply := Count(length);
    }

    /** The serving loop, whose effect on list, queue and deliveries is `Serve`. */
    method WakeWaiters(key: Key, version: nat)
      requires key in entries && entries[key].data.List? && entries[key].data.elements != []
      requires entries[key].expiresAt == None && entries[key].version == version
      requires key in waiters ==> waiters[key] != []
      modifies this`entries, this`waiters, this`sent
      ensures var handed := Serve(old(entries)[key].data.elements, QueueOf(old(waiters), key), gone);
              && entries == WithList(old(entries), key, handed.list, version)
              && waiters == WithQueue(old(waiters), key, handed.queue)
              && sent == old(sent) + handed.sent
    {
      var list := entries[key].data.elements;
      if key !in waiters {
        assert entries == WithList(entries, key, list, version);
        assert waiters == waiters - {key};
        return;
      }
      var queue := waiters[key];
      ghost var base, handed := entries, Serve(list, queue, gone);
      ghost var left := handed;
      assert [] + left.sent == left.sent;
      while queue != []
        invariant entries == WithList(base, key, list, version)
        invariant waiters == old(waiters)
        invariant left == Serve(list, queue, gone)
        invariant handed.list == left.list && handed.queue == left.queue
        invariant old(sent) + handed.sent == sent + left.sent
        decreases |queue|
      {
        var waiter := queue[0];
        ghost var rest := queue[1..];
        queue := queue[1..];
        var element := PopFirst(key, version);
        if element.None? {
          queue := [waiter] + queue;
          break;
        }
        WithListTwice(base, key, list, list[1..], version);
        if waiter in gone {
          PushFirst(key, element.value, version);
          WithListTwice(base, key, list[1..], list, version);
          assert [element.value] + list[1..] == list;
          left := Serve(list, queue, gone);
        } else {
          ghost var later := Serve(list[1..], queue, gone);
          assert left.sent == [Delivery(waiter, element.value)] + later.sent;
          assert sent + left.sent == sent + [Delivery(waiter, element.value)] + later.sent;
          sent := sent + [Delivery(waiter, element.value)];
          list := list[1..];
          left := later;
        }
      }
      assert left == Handed(list, queue, []);
      assert sent + [] == sent;
      if queue == [] {
        waiters := waiters - {key};
      } else {
        waiters := waiters[key := queue];
      }
    }

    method PopFirst(key: Key, version: nat) returns (element: Option<Bytes>)
      requires key in entries && entries[key].data.List? ==> entries[key].expiresAt == None
      modifies this`entries
      ensures if key in old(entries) && old(entries)[key].data.List? && old(entries)[key].data.elements != []
              then var list := old(entries)[key].data.elements;
                   element == Some(list[0]) && entries == WithList(old(entries), key, list[1..], version)
              else element == None && entries == old(entries)
    {
      if key !in entries || !entries[key].data.List? || entries[key].data.elements == [] {
        return None;
      }
      var list := entries[key].data.elements;
      element := Some(list[0]);
      if list[1..] == [] {
        entries := entries - {key};
      } else {
        entries := entries[key := Entry(List(list[1..]), entries[key].expiresAt, version)];
      }
    }

    method PushFirst(key: Key, element: Bytes, version: nat)
      requires key in entries ==> entries[key].data.List? && entries[key].expiresAt == None
      modifies this`entries
      ensures entries == WithList(old(entries), key,
                                  [element] + (if key in old(entries) then old(entries)[key].data.elements else []), version)
    {
      if key !in entries {
        entries := entries[key := Entry(List([]), None, version)];
      }
      entries := entries[key := Entry(List([element] + entries[key].data.elements), entries[key].expiresAt, version)];
    }

    method PopFrom(key: Key, count: nat, now: nat) returns (reply: Reply)
      requires Valid()
      modifies this
      ensures Valid() && (View(), reply) == LPop(old(View()), key, count, now)
    {
      hide Inv;
      LPopKeepsInv(View(), key, count, now);
      ListHasNoDeadline(View(), key);
      DropIfExpired(key, now);
      ghost var live := entries;
      var version := NextVersion();
      if key !in entries {
        return Elements([]);
      }
      if !entries[key].data.List? {
        return WrongType;
      }
      var list := entries[key].data.elements;
      var n := Min(count, |list|);
      var removed, rest := list[..n], list[n..];
      if removed != [] {
        entries := entries[key := entries[key].(data := List(rest), version := version)];
      }
      if rest == [] {
        entries := entries - {key};
        assert entries == live - {key};
      }
      reply := Elements(removed);
    }

    method PopOrWait(key: Key, now: nat) returns (reply: Reply)
      requires Valid()
      modifies this
      ensures Valid() && (View(), reply) == BLPop(old(View()), key, now) && !reply.Panics?
    {
      hide Open, Inv;
      BLPopKeepsInv(View(), key, now);
      BLPopNeverPanics(View(), key, now);
      ListHasNoDeadline(View(), key);
      DropIfExpired(key, now);
      if key !in entries {
        var channel := channels;
        channels := channels + 1;
        var queue := if key in waiters then waiters[key] else [];
        queue := Open(queue, gone);
        waiters := waiters[key := queue + [channel]];
        return Waiting(channel);
      }
      if !entries[key].data.List? {
        return WrongType;
      }
      var version := NextVersion();
      var element := PopFirst(key, version);
      reply := if element.Some? then Ready(element.value) else Panics;
    }

    // ----- Sorted sets -----

    method AddMembers(key: Key, more: seq<Member>, now: nat) returns (reply: Reply)
      requires Valid() && more != []
      modifies this
      ensures Valid() && (View(), reply) == ZAdd(old(View()), key, more, now)
    {
      hide Inv, SortedSets.AddedAll, SortedSets.Scores, SortedSets.Ordered;
      ZAddKeepsInv(View(), key, more, now);
      SetIsOrdered(View(), key);
      DropIfExpired(key, now);
      var version := NextVersion();
      var entry := if key in entries then entries[key] else Entry(SortedSet([]), None, version);
      if !entry.data.SortedSet? {
        return WrongType;
      }
      EmptyIsOrdered();
      var all, added := AddAll(entry.data.members, more);
      entries := entries[key := entry.(data := SortedSet(all), version := version)];
      reply := Count(added);
    }

    method RemoveMembers(key: Key, names: seq<Bytes>, now: nat) returns (reply: Reply)
      requires Valid()
      modifies this
      ensures Valid() && (View(), reply) == ZRem(old(View()), key, names, now)
    {
      hide Inv, SortedSets.WithoutAll, SortedSets.Scores, SortedSets.Ordered;
      ZRemKeepsInv(View(), key, names, now);
      SetIsOrdered(View(), key);
      DropIfExpired(key, now);
      ghost var live := entries;
      var version := NextVersion();
      if key !in entries {
        return Count(0);
      }
      if !entries[key].data.SortedSet? {
        return WrongType;
      }
      var left, removed := RemoveAll(entries[key].data.members, names);
      if removed > 0 {
        entries := entries[key := entries[key].(data := SortedSet(left), version := version)];
      }
      if left == [] {
        entries := entries - {key};
        assert entries == live - {key};
      }
      reply := Count(removed);
    }

    // ----- Streams -----

    method AppendEntry(key: Key, requested: Streams.RequestedId, fields: seq<(Bytes, Bytes)>, now: nat, clock: u64)
      returns (reply: Reply)
      requires Valid()
      modifies this
      ensures Valid() && (View(), reply) == XAdd(old(View()), key, requested, fields, now, clock)
    {
      hide Inv, Streams.NextId;
      XAddKeepsInv(View(), key, requested, fields, now, clock);
      if !Streams.AboveZero(requested) {
        return BadId(Streams.NotAboveZero);
      }
      DropIfExpired(key, now);
      var version := NextVersion();
      var entry := if key in entries then entries[key] else Entry(Stream([]), None, version);
      if !entry.data.Stream? {
        return WrongType;
      }
      var log := entry.data.log;
      var id := Streams.NextId(requested, Streams.Top(log), clock);
      if id.Err? {
        return BadId(id.error);
      }
      entries := entries[key := entry.(data := Stream(log + [StreamEntry(id.value, fields)]), version := version)];
      WakeWatchers(key);
      reply := Stored(id.value);
    }

    /** Moves all wakers of a key into `permits`. */
    method WakeWatchers(key: Key)
      modifies this`watchers, this`permits
      ensures watchers == old(watchers) - {key}
      ensures permits == old(permits) + set w | w in QueueOf(old(watchers), key)
    {
      var woken := QueueOf(watchers, key);
      watchers := watchers - {key};
      for i := 0 to |woken|
        invariant watchers == old(watchers) - {key}
        invariant permits == old(permits) + set w | w in woken[..i]
      {
        assert woken[..i + 1] == woken[..i] + [woken[i]];
        permits := permits + {woken[i]};
      }
      assert woken[..|woken|] == woken;
    }

    method ReadNow(wanted: seq<(Key, EntryId)>, now: nat) returns (found: Option<seq<(Key, seq<StreamEntry>)>>)
      requires Valid()
      modifies this`entries
      ensures (entries, found) == ReadStreams(old(entries), wanted, now)
    {
      hide Streams.ReadAfter, Inv, ReadStreams, OnlyDropped;
      var streams: seq<(Key, seq<StreamEntry>)> := [];
      ghost var all := ReadStreams(entries, wanted, now);
      ghost var left := all;
      assert wanted[0..] == wanted;
      PutNothingBefore(left);
      NothingDropped(entries, now);
      for i := 0 to |wanted|
        invariant left == ReadStreams(entries, wanted[i..], now)
        invariant all == PutBefore(streams, left)
        invariant OnlyDropped(old(entries), entries, now)
      {
        var (key, after) := wanted[i];
        ReadFirst(entries, wanted, i, now);
        DroppedFurther(old(entries), entries, key, now);
        DropIfExpired(key, now);
        left := ReadStreams(entries, wanted[i + 1..], now);
        var here: seq<(Key, seq<StreamEntry>)> := [];
        if key in entries {
          if !entries[key].data.Stream? {
            return None;
          }
          StillIncreasing(old(View()), entries, key, now);
          var read := Streams.ReadAfterByHalving(entries[key].data.log, after);
          here := if read == [] then [] else [(key, read)];
        }
        PutBeforeTwice(streams, here, left);
        streams := streams + here;
      }
      assert wanted[|wanted|..] == [];
      ReadNone(entries, now);
      assert streams + [] == streams;
      found := Some(streams);
    }

    method ReadOrWatch(wanted: seq<(Key, EntryId)>, now: nat) returns (reply: Reply)
      requires Valid()
      modifies this
      ensures Valid() && (View(), reply) == XReadOrWatch(old(View()), wanted, now)
    {
      hide Inv, ReadStreams, Registered;
      StepKeepsInv(View(), DoXReadOrWatch(wanted), now);
      var found := ReadNow(wanted, now);
      if found.None? {
        return WrongType;
      }
      if found.value != [] {
        return Read(found.value);
      }
      var waker := wakers;
      wakers := wakers + 1;
      held := held + {waker};
      Register(wanted, waker);
      reply := Watching(waker);
    }

    method Register(wanted: seq<(Key, EntryId)>, waker: nat)
      modifies this`watchers
      ensures watchers == Registered(old(watchers), held, wanted, waker)
    {
      hide Pruned;
      assert wanted[0..] == wanted;
      for i := 0 to |wanted|
        invariant Registered(watchers, held, wanted[i..], waker) == Registered(old(watchers), held, wanted, waker)
      {
        assert wanted[i..][0] == wanted[i] && wanted[i..][1..] == wanted[i + 1..];
        var key := wanted[i].0;
        var kept := if key in watchers then Pruned(watchers, held, key, 0) else [];
        watchers := watchers[key := kept + [waker]];
      }
    }

    // ----- Watching for changes -----

    /** The versions keys hold now, read under the one lock. */
    method CurrentVersions(keys: seq<Key>, now: nat) returns (versions: seq<Option<nat>>)
      modifies this`entries
      ensures |versions| == |keys|
      ensures forall i :: 0 <= i < |keys| ==> versions[i] == VersionOf(old(View()), keys[i], now)
      ensures entries == LookedAt(old(entries), keys, now)
      ensures OnlyDropped(old(entries), entries, now)
    {
      versions := [];
      for i := 0 to |keys|
        invariant |versions| == i
        invariant forall j :: 0 <= j < i ==> versions[j] == VersionOf(old(View()), keys[j], now)
        invariant OnlyDropped(old(entries), entries, now)
        invariant LookedAt(entries, keys[i..], now) == LookedAt(old(entries), keys, now)
      {
        assert keys[i..][1..] == keys[i + 1..];
        DropIfExpired(keys[i], now);
        versions := versions + [if keys[i] in entries then Some(entries[keys[i]].version) else None];
      }
    }

    /** Short-circuit comparison of versions; the iteration order is immaterial. */
    method AllUnchanged(watched: seq<(Key, Option<nat>)>, now: nat) returns (same: bool)
      modifies this`entries
      ensures same <==> forall i :: 0 <= i < |watched| ==> VersionOf(old(View()), watched[i].0, now) == watched[i].1
      ensures entries == Checked(old(entries), watched, now)
      ensures OnlyDropped(old(entries), entries, now)
    {
      for i := 0 to |watched|
        invariant forall j :: 0 <= j < i ==> VersionOf(old(View()), watched[j].0, now) == watched[j].1
        invariant OnlyDropped(old(entries), entries, now)
        invariant Checked(entries, watched[i..], now) == Checked(old(entries), watched, now)
      {
        var (key, version) := watched[i];
        assert watched[i..][1..] == watched[i + 1..];
        DropIfExpired(key, now);
        if (if key in entries then Some(entries[key].version) else None) != version {
          return false;
        }
      }
      same := true;
    }
  }

  // ----- What the methods lean on -----

  type Reading = (Entries, Option<seq<(Key, seq<StreamEntry>)>>)

  function PutBefore(streams: seq<(Key, seq<StreamEntry>)>, later: Reading): Reading {
    (later.0, if later.1.None? then None else Some(streams + later.1.value))
  }

  lemma PutNothingBefore(later: Reading)
    ensures PutBefore([], later) == later
  {
    if later.1.Some? {
      assert [] + later.1.value == later.1.value;
    }
  }

  lemma PutBeforeTwice(a: seq<(Key, seq<StreamEntry>)>, b: seq<(Key, seq<StreamEntry>)>, later: Reading)
    ensures PutBefore(a, PutBefore(b, later)) == PutBefore(a + b, later)
  {
    if later.1.Some? {
      Reassociate(a, b, later.1.value);
    }
  }

  /** One round of the read: what is found at a key goes before what is found at the rest. */
  lemma ReadFirst(entries: Entries, wanted: seq<(Key, EntryId)>, i: nat, now: nat)
    requires i < |wanted|
    ensures var (key, after) := wanted[i];
            var live := Live(entries, key, now);
            ReadStreams(entries, wanted[i..], now) ==
            if key in live && !live[key].data.Stream? then (live, None)
            else
              var found := if key in live then Streams.ReadAfter(live[key].data.log, after) else [];
              PutBefore(if found == [] then [] else [(key, found)], ReadStreams(live, wanted[i + 1..], now))
  {
    hide Streams.ReadAfter;
    assert wanted[i..][0] == wanted[i] && wanted[i..][1..] == wanted[i + 1..];
  }

  lemma ReadNone(entries: Entries, now: nat)
    ensures ReadStreams(entries, [], now) == (entries, Some([]))
  {
  }

  lemma NothingDropped(entries: Entries, now: nat)
    ensures OnlyDropped(entries, entries, now)
  {
  }

  lemma DroppedFurther(before: Entries, entries: Entries, key: Key, now: nat)
    requires OnlyDropped(before, entries, now)
    ensures OnlyDropped(before, Live(entries, key, now), now)
  {
  }

  lemma StillIncreasing(s: State, entries: Entries, key: Key, now: nat)
    requires Inv(s) && OnlyDropped(s.entries, entries, now) && key in entries && entries[key].data.Stream?
    ensures Streams.Increasing(entries[key].data.log)
  {
    LogIncreases(s, key);
  }

  /** A push by its two outcomes. */
  lemma PushIs(s: State, key: Key, elements: seq<Bytes>, side: Side, now: nat)
    requires elements != []
    ensures var live, version := Live(s.entries, key, now), s.changes + 1;
            var looked := s.(entries := live, changes := version);
            Push(s, key, elements, side, now) ==
            if key in live && !live[key].data.List? then (looked, WrongType)
            else
              var list := Pushed(if key in live then live[key].data.elements else [], elements, side);
              var handed := Serve(list, QueueOf(s.waiters, key), s.gone);
              (looked.(entries := WithList(live, key, handed.list, version),
                       waiters := WithQueue(s.waiters, key, handed.queue),
                       sent := s.sent + handed.sent),
               Count(|list|))
  {
    hide Serve, Pushed, WithQueue, WithList, Live;
  }

  method Extended(before: seq<Bytes>, elements: seq<Bytes>, side: Side) returns (list: seq<Bytes>)
    ensures list == Pushed(before, elements, side)
  {
    if side == Right {
      list := before + elements;
    } else {
      list := PushedOnFront(before, elements);
    }
  }

  /** The left-push loop. */
  method PushedOnFront(before: seq<Bytes>, elements: seq<Bytes>) returns (list: seq<Bytes>)
    ensures list == Reversed(elements) + before
  {
    list := before;
    assert [] + list == list;
    for i := 0 to |elements|
      invariant list == Reversed(elements[..i]) + before
    {
      PushedOneAtATime(before, elements, i);
      list := [elements[i]] + list;
    }
    assert elements[..|elements|] == elements;
  }

  lemma QueueIsNotEmpty(s: State, key: Key)
    requires Inv(s)
    ensures key in s.waiters ==> s.waiters[key] != []
  {
  }

  lemma ZeroIsANumber()
    ensures Decimal.AsNumber([48]) == Some(0)
  {
    assert Decimal.Print(0) == [48];
    Decimal.NumbersHaveOneSpelling([48], 0);
  }

  lemma ListHasNoDeadline(s: State, key: Key)
    requires Inv(s)
    ensures key in s.entries && s.entries[key].data.List? ==>
              s.entries[key].expiresAt == None && s.entries[key].data.elements != [] && key !in s.waiters
  {
    assert key in s.entries ==> Sound(s.entries[key], s.changes);
  }

  lemma SetIsOrdered(s: State, key: Key)
    requires Inv(s)
    ensures key in s.entries && s.entries[key].data.SortedSet? ==>
              SortedSets.Ordered(s.entries[key].data.members) && s.entries[key].data.members != []
  {
    assert key in s.entries ==> Sound(s.entries[key], s.changes);
  }

  lemma LogIncreases(s: State, key: Key)
    requires Inv(s)
    ensures key in s.entries && s.entries[key].data.Stream? ==> Streams.Increasing(s.entries[key].data.log)
  {
    assert key in s.entries ==> Sound(s.entries[key], s.changes);
  }

  lemma EmptyIsOrdered()
    ensures SortedSets.Ordered([])
  {
  }

  lemma AsWithList(base: Entries, key: Key, list: seq<Bytes>, version: nat)
    requires list != []
    ensures base[key := Entry(List(list), None, version)] == WithList(base, key, list, version)
  {
  }

  lemma LiveListHasNoDeadline(s: State, key: Key, now: nat)
    requires Inv(s)
    ensures var live := Live(s.entries, key, now);
            key in live && live[key].data.List? ==> live[key].expiresAt == None
  {
    ListHasNoDeadline(s, key);
  }

  lemma WithListTwice(base: Entries, key: Key, first: seq<Bytes>, second: seq<Bytes>, version: nat)
    ensures WithList(WithList(base, key, first, version), key, second, version) == WithList(base, key, second, version)
  {
  }

  /** The loop of `zadd` over the members given. */
  method AddAll(members: seq<Member>, more: seq<Member>) returns (all: seq<Member>, added: nat)
    requires SortedSets.Ordered(members)
    ensures all == SortedSets.AddedAll(members, more)
    ensures added == |SortedSets.Scores(all)| - |SortedSets.Scores(members)|
  {
    hide SortedSets.Added, SortedSets.Scores, SortedSets.Ordered;
    var vector := new SortedSets.Vector(members);
    added := 0;
    assert more[0..] == more;
    for i := 0 to |more|
      invariant SortedSets.Ordered(vector.members)
      invariant SortedSets.AddedAll(vector.members, more[i..]) == SortedSets.AddedAll(members, more)
      invariant added == |SortedSets.Scores(vector.members)| - |SortedSets.Scores(members)|
    {
      assert more[i..][0] == more[i] && more[i..][1..] == more[i + 1..];
      SortedSets.AddedIs(vector.members, more[i]);
      ghost var scores := SortedSets.Scores(vector.members);
      var unknown := vector.Add(more[i].score, more[i].name);
      SizeWith(scores, more[i].name, more[i].score);
      if unknown {
        added := added + 1;
      }
    }
    all := vector.members;
  }

  lemma SizeWith(scores: map<Bytes, Score>, name: Bytes, score: Score)
    ensures |scores[name := score]| == |scores| + (if name in scores then 0 else 1)
  {
    var more := scores[name := score];
    assert more.Keys == scores.Keys + {name};
  }

  /** The loop of `zrem` over the names given. */
  method RemoveAll(members: seq<Member>, names: seq<Bytes>) returns (left: seq<Member>, removed: nat)
    requires SortedSets.Ordered(members)
    ensures left == SortedSets.WithoutAll(members, names)
    ensures removed == |members| - |left|
    ensures removed == 0 ==> left == members
  {
    hide SortedSets.Without, SortedSets.Scores, SortedSets.Ordered;
    var vector := new SortedSets.Vector(members);
    removed := 0;
    assert names[0..] == names;
    for i := 0 to |names|
      invariant SortedSets.Ordered(vector.members)
      invariant SortedSets.WithoutAll(vector.members, names[i..]) == SortedSets.WithoutAll(members, names)
      invariant removed == |members| - |vector.members|
      invariant removed == 0 ==> vector.members == members
    {
      assert names[i..][0] == names[i] && names[i..][1..] == names[i + 1..];
      SortedSets.WithoutIs(vector.members, names[i]);
      TakenCount(vector.members, names[i]);
      var known := vector.Take(names[i]);
      if known {
        removed := removed + 1;
      }
    }
    left := vector.members;
  }

  lemma TakenCount(members: seq<Member>, name: Bytes)
    ensures |SortedSets.Without(members, name)| == |members| - (if name in SortedSets.Scores(members) then 1 else 0)
    ensures name !in SortedSets.Scores(members) ==> SortedSets.Without(members, name) == members
  {
    SortedSets.Found(members, name);
    SortedSets.WithoutAt(members, name);
  }
}
