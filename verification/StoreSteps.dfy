/**
 Every method of the store as one step, since each runs under one lock: what it
 leaves behind and what it answers. `now` is what the clock said at the time.
 */
module StoreSteps {
  import opened Base
  import opened StoreState
  import opened Lists
  import Decimal
  import SortedSets
  import Streams

  datatype Reply =
    | Fine
    | WrongType
    | NotAnInteger
    | Overflow
    | BadId(error: Streams.XaddError)
    | Count(count: nat)
    | Number(number: int)
    | Elements(elements: seq<Bytes>)
    | Ready(element: Bytes)
    | Waiting(channel: nat)
    | Stored(id: EntryId)
    | Read(found: seq<(Key, seq<StreamEntry>)>)
    | Watching(waker: nat)
    | Panics

  predicate Refused(reply: Reply) {
    reply.WrongType? || reply.NotAnInteger? || reply.Overflow? || reply.BadId?
  }

  // ----- Strings -----

  function Set(s: State, key: Key, value: Bytes, expiresIn: Option<nat>, now: nat): (State, Reply) {
    var deadline := if expiresIn.Some? then Some(now + expiresIn.value) else None;
    var entry := Entry(Text(value), deadline, s.changes + 1);
    (s.(entries := s.entries[key := entry], changes := s.changes + 1), Fine)
  }

  function Increment(s: State, key: Key, now: nat): (State, Reply) {
    var live, version := Live(s.entries, key, now), s.changes + 1;
    var looked := s.(entries := live, changes := version);
    if key in live && !live[key].data.Text? then (looked, WrongType)
    else
      var value := if key in live then live[key].data.value else [48];
      var number := Decimal.AsNumber(value);
      if number.None? then (looked, NotAnInteger)
      else if number.value == Decimal.I64_MAX then (looked, Overflow)
      else
        var deadline := if key in live then live[key].expiresAt else None;
        var entry := Entry(Text(Decimal.Print(number.value + 1)), deadline, version);
        (looked.(entries := live[key := entry]), Number(number.value + 1))
  }

  // ----- Lists -----

  /** An entry holding a list, or no entry where the list is empty. */
  function WithList(entries: Entries, key: Key, list: seq<Bytes>, version: nat): Entries {
    if list == [] then entries - {key} else entries[key := Entry(List(list), None, version)]
  }

  function WithQueue(waiters: map<Key, seq<nat>>, key: Key, queue: seq<nat>): map<Key, seq<nat>> {
    if queue == [] then waiters - {key} else waiters[key := queue]
  }

  function QueueOf(waiters: map<Key, seq<nat>>, key: Key): seq<nat> {
    if key in waiters then waiters[key] else []
  }

  function Push(s: State, key: Key, elements: seq<Bytes>, side: Side, now: nat): (State, Reply)
    requires elements != []
  {
    var live, version := Live(s.entries, key, now), s.changes + 1;
    var looked := s.(entries := live, changes := version);
    if key in live && !live[key].data.List? then (looked, WrongType)
    else
      var list := Pushed(if key in live then live[key].data.elements else [], elements, side);
      var handed := Serve(list, QueueOf(s.waiters, key), s.gone);
      (looked.(entries := WithList(live, key, handed.list, version),
               waiters := WithQueue(s.waiters, key, handed.queue),
               sent := s.sent + handed.sent),
       Count(|list|))
  }

  function LPop(s: State, key: Key, count: nat, now: nat): (State, Reply) {
    var live, version := Live(s.entries, key, now), s.changes + 1;
    var looked := s.(entries := live, changes := version);
    if key !in live then (looked, Elements([]))
    else if !live[key].data.List? then (looked, WrongType)
    else
      var list := live[key].data.elements;
      var n := Min(count, |list|);
      if n == 0 then (looked, Elements([]))
      else (looked.(entries := WithList(live, key, list[n..], version)), Elements(list[..n]))
  }

  function BLPop(s: State, key: Key, now: nat): (State, Reply) {
    var live := Live(s.entries, key, now);
    if key !in live then
      var queue := Open(QueueOf(s.waiters, key), s.gone) + [s.channels];
      (s.(entries := live, waiters := s.waiters[key := queue], channels := s.channels + 1), Waiting(s.channels))
    else if !live[key].data.List? then (s.(entries := live), WrongType)
    else if live[key].data.elements == [] then (s.(entries := live, changes := s.changes + 1), Panics)
    else
      var list, version := live[key].data.elements, s.changes + 1;
      (s.(entries := WithList(live, key, list[1..], version), changes := version), Ready(list[0]))
  }

  // ----- Sorted sets -----

  function ZAdd(s: State, key: Key, more: seq<Member>, now: nat): (State, Reply)
    requires more != []
  {
    var live, version := Live(s.entries, key, now), s.changes + 1;
    var looked := s.(entries := live, changes := version);
    if key in live && !live[key].data.SortedSet? then (looked, WrongType)
    else
      var members := if key in live then live[key].data.members else [];
      var deadline := if key in live then live[key].expiresAt else None;
      var all := SortedSets.AddedAll(members, more);
      var added := |SortedSets.Scores(all)| - |SortedSets.Scores(members)|;
      (looked.(entries := live[key := Entry(SortedSet(all), deadline, version)]), Count(if added < 0 then 0 else added))
  }

  function ZRem(s: State, key: Key, names: seq<Bytes>, now: nat): (State, Reply) {
    var live, version := Live(s.entries, key, now), s.changes + 1;
    var looked := s.(entries := live, changes := version);
    if key !in live then (looked, Count(0))
    else if !live[key].data.SortedSet? then (looked, WrongType)
    else
      var members := live[key].data.members;
      var left := SortedSets.WithoutAll(members, names);
      var removed := |members| - |left|;
      if removed <= 0 then (looked, Count(0))
      else if left == [] then (looked.(entries := live - {key}), Count(removed))
      else (looked.(entries := live[key := live[key].(data := SortedSet(left), version := version)]), Count(removed))
  }

  // ----- Streams -----

  function XAdd(s: State, key: Key, requested: Streams.RequestedId, fields: seq<(Bytes, Bytes)>, now: nat, clock: u64)
    : (State, Reply)
  {
    if !Streams.AboveZero(requested) then (s, BadId(Streams.NotAboveZero))
    else
      var live, version := Live(s.entries, key, now), s.changes + 1;
      var looked := s.(entries := live, changes := version);
      if key in live && !live[key].data.Stream? then (looked, WrongType)
      else
        var log := if key in live then live[key].data.log else [];
        var deadline := if key in live then live[key].expiresAt else None;
        var id := Streams.NextId(requested, Streams.Top(log), clock);
        if id.Err? then (looked, BadId(id.error))
        else
          var entry := Entry(Stream(log + [StreamEntry(id.value, fields)]), deadline, version);
          (looked.(entries := live[key := entry],
                   watchers := s.watchers - {key},
                   permits := s.permits + set w | w in QueueOf(s.watchers, key)),
           Stored(id.value))
  }

  /** Reads each stream named after the id given, leaving out those with nothing new. */
  function ReadStreams(entries: Entries, wanted: seq<(Key, EntryId)>, now: nat)
    : (Entries, Option<seq<(Key, seq<StreamEntry>)>>)
    decreases |wanted|
  {
    if wanted == [] then (entries, Some([]))
    else
      var (key, after) := wanted[0];
      var live := Live(entries, key, now);
      if key in live && !live[key].data.Stream? then (live, None)
      else
        var found := if key in live then Streams.ReadAfter(live[key].data.log, after) else [];
        var (rest, more) := ReadStreams(live, wanted[1..], now);
        (rest, if more.None? then None else Some((if found == [] then [] else [(key, found)]) + more.value))
  }

  /** Whether a waker listed at one place is listed at another, or held by its client. */
  predicate StillWanted(watchers: map<Key, seq<nat>>, held: set<nat>, key: Key, i: nat)
    requires key in watchers && i < |watchers[key]|
  {
    watchers[key][i] in held ||
    exists k, j :: k in watchers && 0 <= j < |watchers[k]| && (k, j) != (key, i) && watchers[k][j] == watchers[key][i]
  }

  /** The wakers at a key from place `i` on, without those nothing else refers to. */
  function Pruned(watchers: map<Key, seq<nat>>, held: set<nat>, key: Key, i: nat): (r: seq<nat>)
    requires key in watchers && i <= |watchers[key]|
    decreases |watchers[key]| - i
  {
    if i == |watchers[key]| then []
    else (if StillWanted(watchers, held, key, i) then [watchers[key][i]] else []) + Pruned(watchers, held, key, i + 1)
  }

  /** Leaves a waker under every key named. */
  function Registered(watchers: map<Key, seq<nat>>, held: set<nat>, wanted: seq<(Key, EntryId)>, waker: nat)
    : map<Key, seq<nat>>
    decreases |wanted|
  {
    if wanted == [] then watchers
    else
      var key := wanted[0].0;
      var kept := if key in watchers then Pruned(watchers, held, key, 0) else [];
      Registered(watchers[key := kept + [waker]], held, wanted[1..], waker)
  }

  function XReadOrWatch(s: State, wanted: seq<(Key, EntryId)>, now: nat): (State, Reply) {
    var (entries, found) := ReadStreams(s.entries, wanted, now);
    var looked := s.(entries := entries);
    if found.None? then (looked, WrongType)
    else if found.value != [] then (looked, Read(found.value))
    else
      var waker, held := s.wakers, s.held + {s.wakers};
      (looked.(watchers := Registered(s.watchers, held, wanted, waker), wakers := waker + 1, held := held),
       Watching(waker))
  }

  // ----- Any step -----

  datatype Op =
    | DoSet(key: Key, value: Bytes, expiresIn: Option<nat>)
    | DoIncrement(key: Key)
    | DoPush(key: Key, elements: seq<Bytes>, side: Side)
    | DoLPop(key: Key, count: nat)
    | DoBLPop(key: Key)
    | DoZAdd(key: Key, members: seq<Member>)
    | DoZRem(key: Key, names: seq<Bytes>)
    | DoXAdd(key: Key, requested: Streams.RequestedId, fields: seq<(Bytes, Bytes)>, clock: u64)
    | DoXReadOrWatch(wanted: seq<(Key, EntryId)>)
    | Look(key: Key)          // every command that only reads a key looks at it first
    | Sweep                   // `KEYS` looks at every key there is
    | GiveUp(channel: nat)    // a client blocked on a list times out
    | LetGo(waker: nat)       // a client blocked on streams goes on or times out

  /** What the dispatchers make sure of before they call the store. */
  predicate Asked(op: Op) {
    (op.DoPush? ==> op.elements != []) && (op.DoZAdd? ==> op.members != [])
  }

  function Step(s: State, op: Op, now: nat): (State, Reply)
    requires Asked(op)
  {
    match op
    case DoSet(key, value, expiresIn) => Set(s, key, value, expiresIn, now)
    case DoIncrement(key) => Increment(s, key, now)
    case DoPush(key, elements, side) => Push(s, key, elements, side, now)
    case DoLPop(key, count) => LPop(s, key, count, now)
    case DoBLPop(key) => BLPop(s, key, now)
    case DoZAdd(key, members) => ZAdd(s, key, members, now)
    case DoZRem(key, names) => ZRem(s, key, names, now)
    case DoXAdd(key, requested, fields, clock) => XAdd(s, key, requested, fields, now, clock)
    case DoXReadOrWatch(wanted) => XReadOrWatch(s, wanted, now)
    case Look(key) => (s.(entries := Live(s.entries, key, now)), Fine)
    case Sweep => (s.(entries := map k | k in s.entries && !Expired(s.entries[k], now) :: s.entries[k]), Fine)
    case GiveUp(channel) => (s.(gone := s.gone + {channel}), Fine)
    case LetGo(waker) => (s.(held := s.held - {waker}, permits := s.permits - {waker}), Fine)
  }

  // ----- What every reachable state keeps -----

  ghost predicate Sound(entry: Entry, changes: nat) {
    && entry.version <= changes
    && (entry.expiresAt.Some? ==> entry.data.Text?)
    && match entry.data
       case Text(_) => true
       case List(elements) => elements != []
       case Stream(log) => log != [] && Streams.Increasing(log)
       case SortedSet(members) => members != [] && SortedSets.Ordered(members)
  }

  ghost predicate Inv(s: State) {
    && (forall k :: k in s.entries ==> Sound(s.entries[k], s.changes))
    && (forall k :: k in s.waiters ==> s.waiters[k] != [])
    && (forall k :: k in s.waiters && k in s.entries ==> !s.entries[k].data.List?)
  }

  /** A step that changed one key at most, and that key to something sound. */
  lemma OneKeyKeepsInv(s: State, s': State, key: Key)
    requires Inv(s) && s.changes <= s'.changes
    requires forall k :: k in s'.entries && k != key ==> k in s.entries && s'.entries[k] == s.entries[k]
    requires forall k :: k != key ==> (k in s'.waiters <==> k in s.waiters) && (k in s.waiters ==> s'.waiters[k] == s.waiters[k])
    requires key in s'.entries ==> Sound(s'.entries[key], s'.changes)
    requires key in s'.waiters ==> s'.waiters[key] != [] && (key in s'.entries ==> !s'.entries[key].data.List?)
    ensures Inv(s')
  {
  }

  lemma PushKeepsInv(s: State, key: Key, elements: seq<Bytes>, side: Side, now: nat)
    requires Inv(s) && elements != []
    ensures Inv(Push(s, key, elements, side, now).0)
  {
    hide Serve, Pushed, Open, Inv;
    var s' := Push(s, key, elements, side, now).0;
    var live := Live(s.entries, key, now);
    if key in live && !live[key].data.List? {
      LookedKeepsInv(s, s', key, now);
    } else {
      var list := Pushed(if key in live then live[key].data.elements else [], elements, side);
      ServedInOrder(list, QueueOf(s.waiters, key), s.gone);
      OneKeyKeepsInv(s, s', key);
    }
  }

  lemma LPopKeepsInv(s: State, key: Key, count: nat, now: nat)
    requires Inv(s)
    ensures Inv(LPop(s, key, count, now).0)
  {
    OneKeyKeepsInv(s, LPop(s, key, count, now).0, key);
  }

  lemma BLPopKeepsInv(s: State, key: Key, now: nat)
    requires Inv(s)
    ensures Inv(BLPop(s, key, now).0)
  {
    hide Open;
    OneKeyKeepsInv(s, BLPop(s, key, now).0, key);
  }

  /** The `expect` in `blpop` is justified by `Inv`. */
  lemma BLPopNeverPanics(s: State, key: Key, now: nat)
    requires Inv(s)
    ensures !BLPop(s, key, now).1.Panics?
  {
    hide Open;
    assert key in s.entries ==> Sound(s.entries[key], s.changes);
  }

  lemma ZAddKeepsInv(s: State, key: Key, more: seq<Member>, now: nat)
    requires Inv(s) && more != []
    ensures Inv(ZAdd(s, key, more, now).0)
  {
    hide SortedSets.Scores, SortedSets.AddedAll;
    var live := Live(s.entries, key, now);
    if !(key in live && !live[key].data.SortedSet?) {
      var members := if key in live then live[key].data.members else [];
      NotEmptied(members, more);
    }
    OneKeyKeepsInv(s, ZAdd(s, key, more, now).0, key);
  }

  lemma NotEmptied(members: seq<Member>, more: seq<Member>)
    requires SortedSets.Ordered(members) && more != []
    ensures SortedSets.Ordered(SortedSets.AddedAll(members, more)) && SortedSets.AddedAll(members, more) != []
  {
    hide SortedSets.AddedAll, SortedSets.ScoresWith;
    SortedSets.AddedAllIs(members, more);
    assert more[0].name in SortedSets.Scores(SortedSets.AddedAll(members, more));
  }

  lemma ZRemKeepsInv(s: State, key: Key, names: seq<Bytes>, now: nat)
    requires Inv(s)
    ensures Inv(ZRem(s, key, names, now).0)
  {
    hide SortedSets.WithoutAll;
    var live := Live(s.entries, key, now);
    if key in live && live[key].data.SortedSet? {
      SortedSets.WithoutAllIs(live[key].data.members, names);
    }
    OneKeyKeepsInv(s, ZRem(s, key, names, now).0, key);
  }

  lemma XAddKeepsInv(s: State, key: Key, requested: Streams.RequestedId, fields: seq<(Bytes, Bytes)>, now: nat, clock: u64)
    requires Inv(s)
    ensures Inv(XAdd(s, key, requested, fields, now, clock).0)
  {
    hide Streams.NextId, Inv, Sound, Live;
    var live := Live(s.entries, key, now);
    var (s', reply) := XAdd(s, key, requested, fields, now, clock);
    if reply.Stored? {
      LiveIsSound(s, key, now);
      var log := if key in live then live[key].data.log else [];
      AppendedIsSound(log, requested, fields, clock, s'.entries[key], s'.changes);
      StoredKeepsInv(s, s', key, now);
    } else if Streams.AboveZero(requested) {
      LookedKeepsInv(s, s', key, now);
    }
  }

  lemma AppendedIsSound(
    log: seq<StreamEntry>, requested: Streams.RequestedId, fields: seq<(Bytes, Bytes)>, clock: u64, entry: Entry, changes: nat)
    requires Streams.Increasing(log) && Streams.AboveZero(requested)
    requires Streams.NextId(requested, Streams.Top(log), clock).Ok?
    requires entry.data == Stream(log + [StreamEntry(Streams.NextId(requested, Streams.Top(log), clock).value, fields)])
    requires entry.expiresAt == None && entry.version <= changes
    ensures Sound(entry, changes)
  {
    hide Streams.NextId;
    Streams.AppendKeepsIncreasing(log, requested, fields, clock);
  }

  /** What is left at a key once an expired entry is out of the way. */
  lemma LiveIsSound(s: State, key: Key, now: nat)
    requires Inv(s)
    ensures var live := Live(s.entries, key, now);
            key in live ==>
              && key in s.entries && live[key] == s.entries[key] && Sound(live[key], s.changes)
              && (live[key].data.Stream? ==> live[key].expiresAt == None && Streams.Increasing(live[key].data.log))
    ensures Streams.Increasing([])
  {
  }

  lemma LookedKeepsInv(s: State, s': State, key: Key, now: nat)
    requires Inv(s) && s'.entries == Live(s.entries, key, now) && s.changes <= s'.changes && s'.waiters == s.waiters
    ensures Inv(s')
  {
  }

  /** One key given an entry that is no list. */
  lemma StoredKeepsInv(s: State, s': State, key: Key, now: nat)
    requires Inv(s) && s.changes <= s'.changes && s'.waiters == s.waiters && key in s'.entries
    requires s'.entries == Live(s.entries, key, now)[key := s'.entries[key]]
    requires Sound(s'.entries[key], s'.changes) && !s'.entries[key].data.List?
    ensures Inv(s')
  {
  }

  /** Looking drops entries and changes none. */
  ghost predicate OnlyDropped(before: Entries, after: Entries, now: nat) {
    && (forall k :: k in after ==> k in before && after[k] == before[k])
    && (forall k :: k in before && k !in after ==> Expired(before[k], now))
  }

  lemma {:induction false} ReadStreamsOnlyDrops(entries: Entries, wanted: seq<(Key, EntryId)>, now: nat)
    ensures OnlyDropped(entries, ReadStreams(entries, wanted, now).0, now)
    decreases |wanted|
  {
    if wanted != [] {
      ReadStreamsOnlyDrops(Live(entries, wanted[0].0, now), wanted[1..], now);
    }
  }

  lemma StepKeepsInv(s: State, op: Op, now: nat)
    requires Inv(s) && Asked(op)
    ensures Inv(Step(s, op, now).0)
  {
    hide Push, LPop, BLPop, ZAdd, ZRem, XAdd, ReadStreams, Registered, Sound, Decimal.AsNumber, Decimal.Print;
    match op {
      case DoSet(key, value, expiresIn) => SetKeepsInv(s, key, value, expiresIn, now);
      case DoIncrement(key) => IncrementKeepsInv(s, key, now);
      case DoPush(key, elements, side) => PushKeepsInv(s, key, elements, side, now);
      case DoLPop(key, count) => LPopKeepsInv(s, key, count, now);
      case DoBLPop(key) => BLPopKeepsInv(s, key, now);
      case DoZAdd(key, members) => ZAddKeepsInv(s, key, members, now);
      case DoZRem(key, names) => ZRemKeepsInv(s, key, names, now);
      case DoXAdd(key, requested, fields, clock) => XAddKeepsInv(s, key, requested, fields, now, clock);
      case DoXReadOrWatch(wanted) => ReadStreamsOnlyDrops(s.entries, wanted, now);
      case _ =>
    }
  }

  lemma SetKeepsInv(s: State, key: Key, value: Bytes, expiresIn: Option<nat>, now: nat)
    requires Inv(s)
    ensures Inv(Set(s, key, value, expiresIn, now).0)
  {
    OneKeyKeepsInv(s, Set(s, key, value, expiresIn, now).0, key);
  }

  lemma IncrementKeepsInv(s: State, key: Key, now: nat)
    requires Inv(s)
    ensures Inv(Increment(s, key, now).0)
  {
    hide Decimal.AsNumber, Decimal.Print, Inv, Live;
    var (s', reply) := Increment(s, key, now);
    if reply.Number? {
      StoredKeepsInv(s, s', key, now);
    } else {
      LookedKeepsInv(s, s', key, now);
    }
  }
}
