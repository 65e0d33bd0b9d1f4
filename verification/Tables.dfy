/**
 The store seen as nothing but a table from keys to values: no versions, no
 deadlines, nobody blocked. Steps that do not ask the clock come to plain changes
 of the table, whatever else the store is keeping.
 */
module Tables {
  import opened Base
  import opened StoreState
  import opened StoreSteps
  import opened Lists
  import Decimal
  import SortedSets
  import Streams

  type Table = map<Key, Data>

  function TableOf(entries: Entries): Table {
    map k | k in entries :: entries[k].data
  }

  ghost predicate NoDeadlines(entries: Entries) {
    forall k :: k in entries ==> entries[k].expiresAt == None
  }

  /** Writes that come out the same whenever they are done. */
  predicate ClockFree(op: Op) {
    match op
    case DoSet(_, _, expiresIn) => expiresIn.None?
    case DoXAdd(_, requested, _, _) => !requested.Auto?
    case _ => true
  }

  /** The writes a record is made of. */
  predicate Recordable(op: Op) {
    && Asked(op) && ClockFree(op)
    && (op.DoSet? || op.DoIncrement? || op.DoPush? || op.DoLPop? || op.DoZAdd? || op.DoZRem? || op.DoXAdd?)
  }

  function WithElements(t: Table, key: Key, list: seq<Bytes>): Table {
    if list == [] then t - {key} else t[key := List(list)]
  }

  /** A table once a write has been done to it, and whether it was accepted. */
  function Effect(t: Table, op: Op): (Table, bool)
    requires Recordable(op)
  {
    match op
    case DoSet(key, value, _) => (t[key := Text(value)], true)
    case DoIncrement(key) =>
      if key in t && !t[key].Text? then (t, false)
      else
        var number := Decimal.AsNumber(if key in t then t[key].value else [48]);
        if number.None? || number.value == Decimal.I64_MAX then (t, false)
        else (t[key := Text(Decimal.Print(number.value + 1))], true)
    case DoPush(key, elements, side) =>
      if key in t && !t[key].List? then (t, false)
      else (t[key := List(Pushed(if key in t then t[key].elements else [], elements, side))], true)
    case DoLPop(key, count) =>
      if key !in t then (t, true)
      else if !t[key].List? then (t, false)
      else
        var list := t[key].elements;
        (if Min(count, |list|) == 0 then t else WithElements(t, key, list[Min(count, |list|)..]), true)
    case DoZAdd(key, more) =>
      if key in t && !t[key].SortedSet? then (t, false)
      else (t[key := SortedSet(SortedSets.AddedAll(if key in t then t[key].members else [], more))], true)
    case DoZRem(key, names) =>
      if key !in t then (t, true)
      else if !t[key].SortedSet? then (t, false)
      else
        var left := SortedSets.WithoutAll(t[key].members, names);
        (if |left| >= |t[key].members| then t
         else if left == [] then t - {key}
         else t[key := SortedSet(left)], true)
    case DoXAdd(key, requested, fields, clock) =>
      if !Streams.AboveZero(requested) || (key in t && !t[key].Stream?) then (t, false)
      else
        var log := if key in t then t[key].log else [];
        var id := Streams.NextId(requested, Streams.Top(log), clock);
        if id.Err? then (t, false)
        else (t[key := Stream(log + [StreamEntry(id.value, fields)])], true)
  }

  // ----- The store and its table -----

  lemma NothingExpires(entries: Entries, key: Key, now: nat)
    requires NoDeadlines(entries)
    ensures Live(entries, key, now) == entries
  {
  }

  lemma TableWith(entries: Entries, key: Key, entry: Entry)
    ensures TableOf(entries[key := entry]) == TableOf(entries)[key := entry.data]
  {
  }

  lemma TableWithout(entries: Entries, key: Key)
    ensures TableOf(entries - {key}) == TableOf(entries) - {key}
  {
  }

  lemma TableWithList(entries: Entries, key: Key, list: seq<Bytes>, version: nat)
    requires NoDeadlines(entries)
    ensures TableOf(WithList(entries, key, list, version)) == WithElements(TableOf(entries), key, list)
    ensures NoDeadlines(WithList(entries, key, list, version))
  {
    TableWith(entries, key, Entry(List(list), None, version));
    TableWithout(entries, key);
  }

  /** A step did to the store's table what a write does to a table, and left the queues alone. */
  ghost predicate Did(s: State, outcome: (State, Reply), op: Op)
    requires Recordable(op)
  {
    var (s', reply) := outcome;
    && NoDeadlines(s'.entries)
    && TableOf(s'.entries) == Effect(TableOf(s.entries), op).0
    && (Refused(reply) <==> !Effect(TableOf(s.entries), op).1)
    && s'.waiters == s.waiters && s'.gone == s.gone && s'.channels == s.channels && s'.sent == s.sent
    && !reply.Waiting?
  }

  lemma SetDid(s: State, key: Key, value: Bytes, now: nat)
    requires NoDeadlines(s.entries)
    ensures Did(s, Set(s, key, value, None, now), DoSet(key, value, None))
  {
    TableWith(s.entries, key, Entry(Text(value), None, s.changes + 1));
  }

  lemma IncrementDid(s: State, key: Key, now: nat)
    requires NoDeadlines(s.entries)
    ensures Did(s, Increment(s, key, now), DoIncrement(key))
  {
    hide TableOf, Decimal.AsNumber, Decimal.Print;
    TableKeys(s.entries, key);
    NothingExpires(s.entries, key, now);
    var (s', reply) := Increment(s, key, now);
    if reply.Number? {
      TableWith(s.entries, key, s'.entries[key]);
    }
  }

  lemma LPopDid(s: State, key: Key, count: nat, now: nat)
    requires NoDeadlines(s.entries)
    ensures Did(s, LPop(s, key, count, now), DoLPop(key, count))
  {
    hide TableOf;
    TableKeys(s.entries, key);
    NothingExpires(s.entries, key, now);
    if key in s.entries && s.entries[key].data.List? {
      var list := s.entries[key].data.elements;
      TableWithList(s.entries, key, list[Min(count, |list|)..], s.changes + 1);
    }
  }

  lemma ZAddDid(s: State, key: Key, more: seq<Member>, now: nat)
    requires NoDeadlines(s.entries) && more != []
    ensures Did(s, ZAdd(s, key, more, now), DoZAdd(key, more))
  {
    hide TableOf, SortedSets.AddedAll, SortedSets.Scores;
    TableKeys(s.entries, key);
    NothingExpires(s.entries, key, now);
    var (s', reply) := ZAdd(s, key, more, now);
    if reply.Count? {
      TableWith(s.entries, key, s'.entries[key]);
    }
  }

  lemma ZRemDid(s: State, key: Key, names: seq<Bytes>, now: nat)
    requires NoDeadlines(s.entries)
    ensures Did(s, ZRem(s, key, names, now), DoZRem(key, names))
  {
    hide TableOf, SortedSets.WithoutAll;
    TableKeys(s.entries, key);
    NothingExpires(s.entries, key, now);
    var (s', reply) := ZRem(s, key, names, now);
    TableWithout(s.entries, key);
    if key in s'.entries {
      TableWith(s.entries, key, s'.entries[key]);
    }
  }

  lemma XAddDid(s: State, key: Key, requested: Streams.RequestedId, fields: seq<(Bytes, Bytes)>, now: nat, clock: u64)
    requires NoDeadlines(s.entries) && !requested.Auto?
    ensures Did(s, XAdd(s, key, requested, fields, now, clock), DoXAdd(key, requested, fields, clock))
  {
    hide TableOf, Streams.NextId;
    TableKeys(s.entries, key);
    NothingExpires(s.entries, key, now);
    var (s', reply) := XAdd(s, key, requested, fields, now, clock);
    if reply.Stored? {
      TableWith(s.entries, key, s'.entries[key]);
    }
  }

  /** Every write but a push, which may find clients waiting, does to the store's table just what it does to a table. */
  lemma StepDid(s: State, op: Op, now: nat)
    requires NoDeadlines(s.entries) && Recordable(op) && !op.DoPush?
    ensures Did(s, Step(s, op, now), op)
  {
    hide Did, Set, Increment, LPop, ZAdd, ZRem, XAdd, Effect;
    match op {
      case DoSet(key, value, _) => SetDid(s, key, value, now);
      case DoIncrement(key) => IncrementDid(s, key, now);
      case DoLPop(key, count) => LPopDid(s, key, count, now);
      case DoZAdd(key, members) => ZAddDid(s, key, members, now);
      case DoZRem(key, names) => ZRemDid(s, key, names, now);
      case DoXAdd(key, requested, fields, clock) => XAddDid(s, key, requested, fields, now, clock);
    }
  }

  lemma TableKeys(entries: Entries, key: Key)
    ensures key in TableOf(entries) <==> key in entries
    ensures key in entries ==> TableOf(entries)[key] == entries[key].data
  {
  }

  /** `times` successive single pops. */
  function Popped(t: Table, key: Key, times: nat): Table
    decreases times
  {
    if times == 0 then t else Popped(Effect(t, DoLPop(key, 1)).0, key, times - 1)
  }

  lemma {:induction false} PoppedIs(t: Table, key: Key, list: seq<Bytes>, times: nat)
    requires key in t && t[key] == List(list) && list != [] && times <= |list|
    ensures Popped(t, key, times) == WithElements(t, key, list[times..])
    decreases times
  {
    if times == 0 {
      assert list[0..] == list;
      assert t[key := List(list)] == t;
    } else {
      var next := Effect(t, DoLPop(key, 1)).0;
      assert next == WithElements(t, key, list[1..]);
      if list[1..] == [] {
        assert times == 1 && list[times..] == [];
      } else {
        PoppedIs(next, key, list[1..], times - 1);
        assert list[1..][times - 1..] == list[times..];
        assert t[key := List(list[1..])] - {key} == t - {key};
      }
    }
  }

  /** A push did what a push does to a table, and then a pop for each client it served. */
  ghost predicate DidPush(s: State, outcome: (State, Reply), key: Key, elements: seq<Bytes>, side: Side)
    requires elements != []
  {
    var (s', reply) := outcome;
    var (t, accepted) := Effect(TableOf(s.entries), DoPush(key, elements, side));
    && NoDeadlines(s'.entries)
    && (Refused(reply) <==> !accepted) && !reply.Waiting?
    && s.sent <= s'.sent && (Refused(reply) ==> s'.sent == s.sent)
    && TableOf(s'.entries) == Popped(t, key, |s'.sent| - |s.sent|)
    && s'.gone == s.gone && s'.channels == s.channels
  }

  lemma ServedIsPopped(entries: Entries, key: Key, list: seq<Bytes>, served: nat, version: nat)
    requires NoDeadlines(entries) && list != [] && served <= |list|
    ensures var after := WithList(entries, key, list[served..], version);
            && NoDeadlines(after)
            && TableOf(after) == Popped(TableOf(entries)[key := List(list)], key, served)
  {
    hide TableOf, Popped;
    TableWithList(entries, key, list[served..], version);
    PoppedIs(TableOf(entries)[key := List(list)], key, list, served);
    WithElementsAgain(TableOf(entries), key, list, list[served..]);
  }

  lemma PushRefused(s: State, key: Key, elements: seq<Bytes>, side: Side, now: nat)
    requires NoDeadlines(s.entries) && elements != [] && key in s.entries && !s.entries[key].data.List?
    ensures DidPush(s, Push(s, key, elements, side, now), key, elements, side)
  {
    hide Serve, TableOf, Pushed, Popped, WithElements;
    TableKeys(s.entries, key);
    NothingExpires(s.entries, key, now);
    PoppedNone(TableOf(s.entries), key);
  }

  /** What an accepted push makes of the store. */
  lemma PushAccepted(s: State, key: Key, elements: seq<Bytes>, side: Side, now: nat)
    requires NoDeadlines(s.entries) && elements != [] && (key in s.entries ==> s.entries[key].data.List?)
    ensures var list := Pushed(if key in s.entries then s.entries[key].data.elements else [], elements, side);
            var handed := Serve(list, QueueOf(s.waiters, key), s.gone);
            var (s', reply) := Push(s, key, elements, side, now);
            && s'.entries == WithList(s.entries, key, handed.list, s.changes + 1)
            && s'.sent == s.sent + handed.sent && s'.gone == s.gone && s'.channels == s.channels
            && !Refused(reply) && !reply.Waiting?
  {
    hide Serve, Pushed, WithList;
    NothingExpires(s.entries, key, now);
  }

  lemma EffectOfPush(entries: Entries, key: Key, elements: seq<Bytes>, side: Side)
    requires elements != [] && (key in entries ==> entries[key].data.List?)
    ensures var list := Pushed(if key in entries then entries[key].data.elements else [], elements, side);
            Effect(TableOf(entries), DoPush(key, elements, side)) == (TableOf(entries)[key := List(list)], true)
  {
    hide Pushed;
  }

  lemma PushDid(s: State, key: Key, elements: seq<Bytes>, side: Side, now: nat)
    requires NoDeadlines(s.entries) && elements != []
    ensures DidPush(s, Push(s, key, elements, side, now), key, elements, side)
  {
    hide Serve, TableOf, Pushed, Popped, WithElements, Push, WithList, Refused, Effect, NoDeadlines, QueueOf;
    if key in s.entries && !s.entries[key].data.List? {
      PushRefused(s, key, elements, side, now);
    } else {
      var list := Pushed(if key in s.entries then s.entries[key].data.elements else [], elements, side);
      var queue := QueueOf(s.waiters, key);
      EffectOfPush(s.entries, key, elements, side);
      PushAccepted(s, key, elements, side, now);
      ServedInOrder(list, queue, s.gone);
      ServedIsPopped(s.entries, key, list, |Serve(list, queue, s.gone).sent|, s.changes + 1);
    }
  }

  /** Those a push serves were waiting on its key, and it adds nobody to any queue. */
  lemma PushServesItsQueue(s: State, key: Key, elements: seq<Bytes>, side: Side, now: nat)
    requires elements != []
    ensures var s' := Push(s, key, elements, side, now).0;
            && s.sent <= s'.sent
            && (forall i :: |s.sent| <= i < |s'.sent| ==>
                  s'.sent[i].channel in QueueOf(s.waiters, key) && s'.sent[i].channel !in s.gone)
            && (forall k, c :: k in s'.waiters && c in s'.waiters[k] ==> k in s.waiters && c in s.waiters[k])
  {
    hide Serve, Pushed;
    var (s', reply) := Push(s, key, elements, side, now);
    if reply.Count? {
      var live, queue := Live(s.entries, key, now), QueueOf(s.waiters, key);
      var list := Pushed(if key in live then live[key].data.elements else [], elements, side);
      var handed := Serve(list, queue, s.gone);
      var taken := ServedFromQueue(list, queue, s.gone);
      forall i | |s.sent| <= i < |s'.sent|
        ensures s'.sent[i].channel in queue && s'.sent[i].channel !in s.gone
      {
        assert s'.sent[i] == handed.sent[i - |s.sent|];
        assert handed.sent[i - |s.sent|] in handed.sent;
        assert s'.sent[i].channel in queue[..taken];
      }
    }
  }

  lemma PoppedNone(t: Table, key: Key)
    ensures Popped(t, key, 0) == t
  {
  }

  lemma WithElementsAgain(t: Table, key: Key, first: seq<Bytes>, second: seq<Bytes>)
    ensures WithElements(t[key := List(first)], key, second) == WithElements(t, key, second)
  {
    assert t[key := List(first)] - {key} == t - {key};
  }

  /** A blocking pop that finds something comes to a pop. */
  lemma BlockingPopIsPop(s: State, key: Key, now: nat)
    requires NoDeadlines(s.entries) && BLPop(s, key, now).1.Ready?
    ensures var s' := BLPop(s, key, now).0;
            && NoDeadlines(s'.entries)
            && TableOf(s'.entries) == Effect(TableOf(s.entries), DoLPop(key, 1)).0
            && s'.waiters == s.waiters && s'.gone == s.gone && s'.channels == s.channels
  {
    hide Open, TableOf;
    TableKeys(s.entries, key);
    NothingExpires(s.entries, key, now);
    var list := s.entries[key].data.elements;
    TableWithList(s.entries, key, list[1..], s.changes + 1);
  }

  /** Asking at another time makes no difference. */
  lemma ClockMakesNoDifference(t: Table, key: Key, requested: Streams.RequestedId, fields: seq<(Bytes, Bytes)>, a: u64, b: u64)
    requires !requested.Auto?
    ensures Effect(t, DoXAdd(key, requested, fields, a)) == Effect(t, DoXAdd(key, requested, fields, b))
  {
  }
}
