/**
 Clients blocked on streams. One that found nothing leaves a waker under every
 key it reads and waits for it; every step of every other client may fall in
 between. No client is left waiting while there is something for it to read.
 */
module Wakeups {
  import opened Base
  import opened StoreState
  import opened StoreSteps
  import opened Search
  import Decimal
  import Lists
  import SortedSets
  import Streams

  /** The store, and what each client that is waiting on a waker wants to read. */
  datatype System = System(store: State, parked: map<nat, seq<(Key, EntryId)>>)

  datatype Action =
    | Other(op: Op, now: nat)                        // anything else a client may ask of the store
    | Block(wanted: seq<(Key, EntryId)>, now: nat)   // one turn of the loop: read, or register and wait
    | Resume(waker: nat)                             // the waker was notified, so its client goes round again
    | Leave(waker: nat)                              // the client's time is up

  predicate Possible(sys: System, action: Action) {
    match action
    case Other(op, _) => Asked(op) && !op.DoXReadOrWatch? && !op.LetGo?
    case Block(_, _) => true
    case Resume(waker) => waker in sys.parked && waker in sys.store.permits
    case Leave(waker) => waker in sys.parked
  }

  function Acted(sys: System, action: Action): System
    requires Possible(sys, action)
  {
    match action
    case Other(op, now) => sys.(store := Step(sys.store, op, now).0)
    case Block(wanted, now) =>
      var (store, reply) := XReadOrWatch(sys.store, wanted, now);
      System(store, if reply.Watching? then sys.parked[reply.waker := wanted] else sys.parked)
    case Resume(waker) => Gone(sys, waker)
    case Leave(waker) => Gone(sys, waker)
  }

  function Gone(sys: System, waker: nat): System {
    System(Step(sys.store, LetGo(waker), 0).0, sys.parked - {waker})
  }

  /** Nothing to read at a key after an id. */
  ghost predicate NothingAbove(entries: Entries, key: Key, after: EntryId) {
    key in entries && entries[key].data.Stream? ==>
      forall i :: 0 <= i < |entries[key].data.log| ==> Streams.IdAtMost(entries[key].data.log[i].id, after)
  }

  /** A client is where a growing stream will find it, and has missed nothing so far. */
  ghost predicate Covered(s: State, waker: nat, wanted: seq<(Key, EntryId)>) {
    forall i :: 0 <= i < |wanted| ==>
      waker in QueueOf(s.watchers, wanted[i].0) && NothingAbove(s.entries, wanted[i].0, wanted[i].1)
  }

  ghost predicate WereMade(watchers: map<Key, seq<nat>>, wakers: nat) {
    forall k, w :: k in watchers && w in watchers[k] ==> w < wakers
  }

  ghost predicate Attended(sys: System) {
    && (forall w :: w in sys.parked ==> w in sys.store.held && w < sys.store.wakers)
    && WereMade(sys.store.watchers, sys.store.wakers)
    && (forall w :: w in sys.parked && w !in sys.store.permits ==> Covered(sys.store, w, sys.parked[w]))
  }

  // ----- Only XADD makes a stream grow, and it wakes everyone listed -----

  /** What a step may do to a stream, to those watching and to those woken. */
  ghost predicate OnlyGrown(s: State, op: Op, outcome: (State, Reply), k: Key) {
    var (s', reply) := outcome;
    k in s'.entries && s'.entries[k].data.Stream? ==>
      || (k in s.entries && s'.entries[k].data == s.entries[k].data)
      || (op.DoXAdd? && op.key == k && reply.Stored?)
  }

  ghost predicate OnlyWoken(s: State, op: Op, outcome: (State, Reply)) {
    var (s', reply) := outcome;
    && s'.held == s.held && s'.wakers == s.wakers
    && if op.DoXAdd? && reply.Stored?
       then s'.watchers == s.watchers - {op.key}
            && s'.permits == s.permits + (set w | w in QueueOf(s.watchers, op.key))
       else s'.watchers == s.watchers && s'.permits == s.permits
  }

  lemma ListStepsLeaveStreams(s: State, op: Op, now: nat, k: Key)
    requires Asked(op) && (op.DoPush? || op.DoLPop? || op.DoBLPop?)
    ensures OnlyGrown(s, op, Step(s, op, now), k) && OnlyWoken(s, op, Step(s, op, now))
  {
    hide Lists.Serve, Lists.Open, Lists.Pushed, Set, Increment, ZAdd, ZRem, XAdd, XReadOrWatch;
  }

  lemma SetStepsLeaveStreams(s: State, op: Op, now: nat, k: Key)
    requires Asked(op) && (op.DoZAdd? || op.DoZRem? || op.DoSet? || op.DoIncrement?)
    ensures OnlyGrown(s, op, Step(s, op, now), k) && OnlyWoken(s, op, Step(s, op, now))
  {
    hide SortedSets.AddedAll, SortedSets.WithoutAll, SortedSets.Scores, Decimal.AsNumber, Decimal.Print,
         Push, LPop, BLPop, XAdd, XReadOrWatch;
  }

  lemma XAddGrowsItsStream(s: State, op: Op, now: nat, k: Key)
    requires op.DoXAdd?
    ensures OnlyGrown(s, op, Step(s, op, now), k) && OnlyWoken(s, op, Step(s, op, now))
  {
    hide Streams.NextId, Set, Increment, Push, LPop, BLPop, ZAdd, ZRem, XReadOrWatch;
  }

  lemma OnlyXAddGrowsStreams(s: State, op: Op, now: nat, k: Key)
    requires Asked(op)
    ensures OnlyGrown(s, op, Step(s, op, now), k)
  {
    hide Set, Increment, Push, LPop, BLPop, ZAdd, ZRem, XAdd, ReadStreams, Registered;
    match op {
      case DoXAdd(_, _, _, _) => XAddGrowsItsStream(s, op, now, k);
      case DoPush(_, _, _) => ListStepsLeaveStreams(s, op, now, k);
      case DoLPop(_, _) => ListStepsLeaveStreams(s, op, now, k);
      case DoBLPop(_) => ListStepsLeaveStreams(s, op, now, k);
      case DoXReadOrWatch(wanted) => ReadStreamsOnlyDrops(s.entries, wanted, now);
      case DoZAdd(_, _) => SetStepsLeaveStreams(s, op, now, k);
      case DoZRem(_, _) => SetStepsLeaveStreams(s, op, now, k);
      case DoSet(_, _, _) => SetStepsLeaveStreams(s, op, now, k);
      case DoIncrement(_) => SetStepsLeaveStreams(s, op, now, k);
      case _ =>
    }
  }

  lemma OnlyXAddWakes(s: State, op: Op, now: nat)
    requires Asked(op) && !op.DoXReadOrWatch? && !op.LetGo?
    ensures OnlyWoken(s, op, Step(s, op, now))
  {
    hide Set, Increment, Push, LPop, BLPop, ZAdd, ZRem, XAdd, OnlyGrown;
    match op {
      case DoXAdd(_, _, _, _) => XAddGrowsItsStream(s, op, now, []);
      case DoPush(_, _, _) => ListStepsLeaveStreams(s, op, now, []);
      case DoLPop(_, _) => ListStepsLeaveStreams(s, op, now, []);
      case DoBLPop(_) => ListStepsLeaveStreams(s, op, now, []);
      case DoZAdd(_, _) => SetStepsLeaveStreams(s, op, now, []);
      case DoZRem(_, _) => SetStepsLeaveStreams(s, op, now, []);
      case DoSet(_, _, _) => SetStepsLeaveStreams(s, op, now, []);
      case DoIncrement(_) => SetStepsLeaveStreams(s, op, now, []);
      case _ =>
    }
  }

  lemma OtherKeepsAttended(sys: System, op: Op, now: nat)
    requires Attended(sys) && Asked(op) && !op.DoXReadOrWatch? && !op.LetGo?
    ensures Attended(sys.(store := Step(sys.store, op, now).0))
  {
    hide Step, QueueOf, NothingAbove;
    var s := sys.store;
    var (s', reply) := Step(s, op, now);
    OnlyXAddWakes(s, op, now);
    forall w | w in sys.parked && w !in s'.permits
      ensures Covered(s', w, sys.parked[w])
    {
      var wanted := sys.parked[w];
      assert w !in s.permits;
      forall i | 0 <= i < |wanted|
        ensures w in QueueOf(s'.watchers, wanted[i].0) && NothingAbove(s'.entries, wanted[i].0, wanted[i].1)
      {
        assert Covered(s, w, wanted);
        OnlyXAddGrowsStreams(s, op, now, wanted[i].0);
        StillCovered(s, s', w, wanted[i].0, wanted[i].1, op, reply);
      }
    }
  }

  lemma StillCovered(s: State, s': State, w: nat, key: Key, after: EntryId, op: Op, reply: Reply)
    requires w in QueueOf(s.watchers, key) && NothingAbove(s.entries, key, after)
    requires OnlyGrown(s, op, (s', reply), key) && OnlyWoken(s, op, (s', reply))
    requires w !in s'.permits
    ensures w in QueueOf(s'.watchers, key) && NothingAbove(s'.entries, key, after)
  {
  }

  // ----- Registering -----

  lemma {:induction false} PrunedKeepsHeld(watchers: map<Key, seq<nat>>, held: set<nat>, key: Key, i: nat)
    requires key in watchers && i <= |watchers[key]|
    ensures forall w :: w in Pruned(watchers, held, key, i) ==> w in watchers[key]
    ensures forall j :: i <= j < |watchers[key]| && watchers[key][j] in held ==>
              watchers[key][j] in Pruned(watchers, held, key, i)
    decreases |watchers[key]| - i
  {
    hide Pruned, StillWanted;
    PrunedNone(watchers, held, key);
    if i < |watchers[key]| {
      PrunedKeepsHeld(watchers, held, key, i + 1);
      PrunedFrom(watchers, held, key, i);
    }
  }

  lemma PrunedNone(watchers: map<Key, seq<nat>>, held: set<nat>, key: Key)
    requires key in watchers
    ensures Pruned(watchers, held, key, |watchers[key]|) == []
  {
  }

  /** One round of the pruning. */
  lemma PrunedFrom(watchers: map<Key, seq<nat>>, held: set<nat>, key: Key, i: nat)
    requires key in watchers && i < |watchers[key]|
    ensures var here, all, rest := watchers[key][i], Pruned(watchers, held, key, i), Pruned(watchers, held, key, i + 1);
            && (forall w :: w in all ==> w == here || w in rest)
            && (forall w :: w in rest ==> w in all)
            && (here in held ==> here in all)
  {
    hide StillWanted;
    StillHeld(watchers, held, key, i);
  }

  lemma StillHeld(watchers: map<Key, seq<nat>>, held: set<nat>, key: Key, i: nat)
    requires key in watchers && i < |watchers[key]|
    ensures watchers[key][i] in held ==> StillWanted(watchers, held, key, i)
  {
  }

  /** A waker whose client still holds it is never cleared away, and the new one ends up under every key named. */
  lemma {:induction false} RegisteredKeepsHeld(watchers: map<Key, seq<nat>>, held: set<nat>, wanted: seq<(Key, EntryId)>, waker: nat)
    requires waker in held
    ensures var r := Registered(watchers, held, wanted, waker);
            && (forall k, w :: w in held && w in QueueOf(watchers, k) ==> w in QueueOf(r, k))
            && (forall k, w :: k in r && w in r[k] ==> w == waker || (k in watchers && w in watchers[k]))
            && (forall i :: 0 <= i < |wanted| ==> waker in QueueOf(r, wanted[i].0))
    decreases |wanted|
  {
    hide Pruned;
    if wanted != [] {
      var key := wanted[0].0;
      var kept := if key in watchers then Pruned(watchers, held, key, 0) else [];
      if key in watchers {
        PrunedKeepsHeld(watchers, held, key, 0);
      }
      var next := watchers[key := kept + [waker]];
      assert waker in QueueOf(next, key);
      RegisteredKeepsHeld(next, held, wanted[1..], waker);
      assert forall i :: 0 < i < |wanted| ==> wanted[i] == wanted[1..][i - 1];
    }
  }

  lemma ReadNothing(log: seq<StreamEntry>, after: EntryId)
    requires Streams.ReadAfter(log, after) == []
    ensures forall i :: 0 <= i < |log| ==> Streams.IdAtMost(log[i].id, after)
  {
    var test := (entry: StreamEntry) => Streams.IdAtMost(entry.id, after);
    assert Leading(log, test) == |log|;
    forall i | 0 <= i < |log|
      ensures Streams.IdAtMost(log[i].id, after)
    {
      assert test(log[i]);
    }
  }

  lemma {:induction false} FoundNothing(entries: Entries, wanted: seq<(Key, EntryId)>, now: nat)
    requires ReadStreams(entries, wanted, now).1 == Some([])
    ensures forall i :: 0 <= i < |wanted| ==>
              NothingAbove(ReadStreams(entries, wanted, now).0, wanted[i].0, wanted[i].1)
    decreases |wanted|
  {
    hide Streams.ReadAfter;
    if wanted != [] {
      var (key, after) := wanted[0];
      var live := Live(entries, key, now);
      FoundNothing(live, wanted[1..], now);
      ReadStreamsOnlyDrops(live, wanted[1..], now);
      if key in live && live[key].data.Stream? {
        ReadNothing(live[key].data.log, after);
      }
      assert forall i :: 0 < i < |wanted| ==> wanted[i] == wanted[1..][i - 1];
    }
  }

  lemma DroppingKeepsNothingAbove(before: Entries, after: Entries, now: nat, key: Key, id: EntryId)
    requires OnlyDropped(before, after, now) && NothingAbove(before, key, id)
    ensures NothingAbove(after, key, id)
  {
  }

  lemma RegisteredWereMade(watchers: map<Key, seq<nat>>, held: set<nat>, wanted: seq<(Key, EntryId)>, waker: nat)
    requires waker in held
    requires WereMade(watchers, waker)
    ensures WereMade(Registered(watchers, held, wanted, waker), waker + 1)
  {
    hide Registered;
    RegisteredKeepsHeld(watchers, held, wanted, waker);
  }

  lemma BlockKeepsAttended(sys: System, wanted: seq<(Key, EntryId)>, now: nat)
    requires Attended(sys)
    ensures Attended(Acted(sys, Block(wanted, now)))
  {
    hide ReadStreams, Registered, NothingAbove;
    var s, sys' := sys.store, Acted(sys, Block(wanted, now));
    var s' := sys'.store;
    ReadStreamsOnlyDrops(s.entries, wanted, now);
    var registered := XReadOrWatch(s, wanted, now).1.Watching?;
    if registered {
      RegisteredKeepsHeld(s.watchers, s.held + {s.wakers}, wanted, s.wakers);
      assert s'.watchers == Registered(s.watchers, s.held + {s.wakers}, wanted, s.wakers);
      RegisteredWereMade(s.watchers, s.held + {s.wakers}, wanted, s.wakers);
      FoundNothing(s.entries, wanted, now);
    } else {
      assert s'.watchers == s.watchers;
    }
    forall w | w in sys'.parked && w !in s'.permits
      ensures Covered(s', w, sys'.parked[w])
    {
      if registered && w == s.wakers {
        assert sys'.parked[w] == wanted;
      } else {
        assert w in sys.parked && sys'.parked[w] == sys.parked[w];
        StaysCovered(s, s', w, sys.parked[w], now);
      }
    }
  }

  lemma StaysCovered(s: State, s': State, w: nat, wanted: seq<(Key, EntryId)>, now: nat)
    requires Covered(s, w, wanted) && OnlyDropped(s.entries, s'.entries, now)
    requires forall k :: w in QueueOf(s.watchers, k) ==> w in QueueOf(s'.watchers, k)
    ensures Covered(s', w, wanted)
  {
    hide NothingAbove, QueueOf;
    forall i | 0 <= i < |wanted|
      ensures w in QueueOf(s'.watchers, wanted[i].0) && NothingAbove(s'.entries, wanted[i].0, wanted[i].1)
    {
      DroppingKeepsNothingAbove(s.entries, s'.entries, now, wanted[i].0, wanted[i].1);
    }
  }

  lemma GoneKeepsAttended(sys: System, waker: nat)
    requires Attended(sys)
    ensures Attended(Gone(sys, waker))
  {
    hide NothingAbove, QueueOf;
    var sys' := Gone(sys, waker);
    forall w | w in sys'.parked && w !in sys'.store.permits
      ensures Covered(sys'.store, w, sys'.parked[w])
    {
      assert Covered(sys.store, w, sys.parked[w]);
    }
  }

  lemma ActionKeepsAttended(sys: System, action: Action)
    requires Attended(sys) && Possible(sys, action)
    ensures Attended(Acted(sys, action))
  {
    hide Attended, Step, XReadOrWatch;
    match action {
      case Other(op, now) => OtherKeepsAttended(sys, op, now);
      case Block(wanted, now) => BlockKeepsAttended(sys, wanted, now);
      case Resume(waker) => GoneKeepsAttended(sys, waker);
      case Leave(waker) => GoneKeepsAttended(sys, waker);
    }
  }

  // ----- What a reader is given -----

  predicate HoldsAnother(entries: Entries, key: Key, now: nat) {
    key in entries && !Expired(entries[key], now) && !entries[key].data.Stream?
  }

  /** What the stream at a key holds above an id, while it has not expired. */
  ghost function NewAt(entries: Entries, key: Key, after: EntryId, now: nat): seq<StreamEntry> {
    if key in entries && !Expired(entries[key], now) && entries[key].data.Stream?
    then Filter(entries[key].data.log, (entry: StreamEntry) => Streams.IdLess(after, entry.id))
    else []
  }

  ghost predicate AllNewAt(found: seq<(Key, seq<StreamEntry>)>, places: seq<nat>,
                           entries: Entries, wanted: seq<(Key, EntryId)>, now: nat) {
    && |places| == |found|
    && forall j :: 0 <= j < |places| ==>
         && places[j] < |wanted|
         && found[j] == (wanted[places[j]].0, NewAt(entries, wanted[places[j]].0, wanted[places[j]].1, now))
         && found[j].1 != []
  }

  ghost predicate NoneMissed(places: seq<nat>, entries: Entries, wanted: seq<(Key, EntryId)>, now: nat) {
    forall i :: 0 <= i < |wanted| && NewAt(entries, wanted[i].0, wanted[i].1, now) != [] ==> i in places
  }

  predicate Ascending(places: seq<nat>) {
    forall j, k :: 0 <= j < k < |places| ==> places[j] < places[k]
  }

  /** An answer gives, in the order asked, all that is new at each place asked about that has anything new. */
  ghost predicate AnswersFrom(found: seq<(Key, seq<StreamEntry>)>, places: seq<nat>,
                              entries: Entries, wanted: seq<(Key, EntryId)>, now: nat) {
    && AllNewAt(found, places, entries, wanted, now)
    && Ascending(places)
    && NoneMissed(places, entries, wanted, now)
  }

  ghost predicate LogsIncrease(entries: Entries) {
    forall k :: k in entries && entries[k].data.Stream? ==> Streams.Increasing(entries[k].data.log)
  }

  lemma DroppedReadsTheSame(entries: Entries, gone: Key, key: Key, after: EntryId, now: nat)
    ensures NewAt(Live(entries, gone, now), key, after, now) == NewAt(entries, key, after, now)
    ensures HoldsAnother(Live(entries, gone, now), key, now) == HoldsAnother(entries, key, now)
  {
  }

  lemma ReadAtIsNew(entries: Entries, key: Key, after: EntryId, now: nat)
    requires LogsIncrease(entries) && !HoldsAnother(entries, key, now)
    ensures var live := Live(entries, key, now);
            NewAt(entries, key, after, now) == if key in live then Streams.ReadAfter(live[key].data.log, after) else []
  {
    hide Streams.ReadAfter;
    var live := Live(entries, key, now);
    if key in live {
      Streams.ReadAfterIsFilter(live[key].data.log, after);
    }
  }

  ghost predicate ReadAlike(entries: Entries, live: Entries, wanted: seq<(Key, EntryId)>, now: nat) {
    forall i :: 0 <= i < |wanted| ==>
      && NewAt(live, wanted[i].0, wanted[i].1, now) == NewAt(entries, wanted[i].0, wanted[i].1, now)
      && HoldsAnother(live, wanted[i].0, now) == HoldsAnother(entries, wanted[i].0, now)
  }

  function OneOn(places: seq<nat>): seq<nat> {
    seq(|places|, j requires 0 <= j < |places| => places[j] + 1)
  }

  lemma OneOnAllNew(more: seq<(Key, seq<StreamEntry>)>, places: seq<nat>,
                    entries: Entries, live: Entries, wanted: seq<(Key, EntryId)>, now: nat)
    requires wanted != [] && ReadAlike(entries, live, wanted[1..], now)
    requires AllNewAt(more, places, live, wanted[1..], now)
    ensures AllNewAt(more, OneOn(places), entries, wanted, now)
  {
    hide NewAt, HoldsAnother;
    var later, on := wanted[1..], OneOn(places);
    forall j | 0 <= j < |on|
      ensures on[j] < |wanted|
      ensures more[j] == (wanted[on[j]].0, NewAt(entries, wanted[on[j]].0, wanted[on[j]].1, now)) && more[j].1 != []
    {
      assert wanted[on[j]] == later[places[j]];
    }
  }

  lemma FirstAllNew(first: (Key, seq<StreamEntry>), more: seq<(Key, seq<StreamEntry>)>, on: seq<nat>,
                    entries: Entries, wanted: seq<(Key, EntryId)>, now: nat)
    requires wanted != [] && AllNewAt(more, on, entries, wanted, now)
    requires first == (wanted[0].0, NewAt(entries, wanted[0].0, wanted[0].1, now)) && first.1 != []
    ensures AllNewAt([first] + more, [0] + on, entries, wanted, now)
  {
    hide NewAt;
  }

  lemma OneOnMissesNone(places: seq<nat>, entries: Entries, live: Entries, wanted: seq<(Key, EntryId)>, now: nat)
    requires wanted != [] && ReadAlike(entries, live, wanted[1..], now)
    requires NoneMissed(places, live, wanted[1..], now)
    ensures NoneMissed([0] + OneOn(places), entries, wanted, now)
    ensures NewAt(entries, wanted[0].0, wanted[0].1, now) == [] ==> NoneMissed(OneOn(places), entries, wanted, now)
  {
    hide NewAt, HoldsAnother;
    var later, on := wanted[1..], OneOn(places);
    forall i | 0 < i < |wanted| && NewAt(entries, wanted[i].0, wanted[i].1, now) != []
      ensures i in on
    {
      assert wanted[i] == later[i - 1];
      var j :| 0 <= j < |places| && places[j] == i - 1;
      assert on[j] == i;
    }
  }

  lemma MoreIsFound(more: seq<(Key, seq<StreamEntry>)>, places: seq<nat>,
                    entries: Entries, live: Entries, wanted: seq<(Key, EntryId)>, now: nat)
    requires wanted != [] && ReadAlike(entries, live, wanted[1..], now)
    requires AnswersFrom(more, places, live, wanted[1..], now)
    ensures var above := NewAt(entries, wanted[0].0, wanted[0].1, now);
            if above == [] then AnswersFrom(more, OneOn(places), entries, wanted, now)
            else AnswersFrom([(wanted[0].0, above)] + more, [0] + OneOn(places), entries, wanted, now)
  {
    hide NewAt, AllNewAt, NoneMissed, ReadAlike;
    var above := NewAt(entries, wanted[0].0, wanted[0].1, now);
    OneOnAllNew(more, places, entries, live, wanted, now);
    OneOnMissesNone(places, entries, live, wanted, now);
    if above != [] {
      FirstAllNew((wanted[0].0, above), more, OneOn(places), entries, wanted, now);
    }
  }

  lemma NothingAsked(entries: Entries, now: nat)
    ensures AnswersFrom([], [], entries, [], now)
  {
  }

  lemma LooksAlike(entries: Entries, wanted: seq<(Key, EntryId)>, now: nat)
    requires wanted != []
    ensures ReadAlike(entries, Live(entries, wanted[0].0, now), wanted[1..], now)
  {
    hide NewAt;
    forall i | 0 <= i < |wanted[1..]| {
      DroppedReadsTheSame(entries, wanted[0].0, wanted[1..][i].0, wanted[1..][i].1, now);
    }
  }

  lemma HeldLater(entries: Entries, live: Entries, wanted: seq<(Key, EntryId)>, now: nat)
    requires wanted != [] && ReadAlike(entries, live, wanted[1..], now) && !HoldsAnother(entries, wanted[0].0, now)
    ensures (exists i :: 0 <= i < |wanted| && HoldsAnother(entries, wanted[i].0, now))
            <==> exists i :: 0 <= i < |wanted[1..]| && HoldsAnother(live, wanted[1..][i].0, now)
  {
    hide HoldsAnother, NewAt;
    var later := wanted[1..];
    assert forall i :: 0 < i < |wanted| ==> wanted[i] == later[i - 1];
    if i :| 0 <= i < |wanted| && HoldsAnother(entries, wanted[i].0, now) {
      assert HoldsAnother(live, later[i - 1].0, now);
    }
    if i :| 0 <= i < |later| && HoldsAnother(live, later[i].0, now) {
      assert HoldsAnother(entries, wanted[i + 1].0, now);
    }
  }

  lemma {:induction false} ReadFindsNew(entries: Entries, wanted: seq<(Key, EntryId)>, now: nat) returns (places: seq<nat>)
    requires LogsIncrease(entries)
    ensures var found := ReadStreams(entries, wanted, now).1;
            && (found.None? <==> exists i :: 0 <= i < |wanted| && HoldsAnother(entries, wanted[i].0, now))
            && (found.Some? ==> AnswersFrom(found.value, places, entries, wanted, now))
    decreases |wanted|
  {
    hide Streams.ReadAfter, NewAt, Streams.Increasing, AnswersFrom;
    places := [];
    if wanted == [] {
      NothingAsked(entries, now);
    } else if !HoldsAnother(entries, wanted[0].0, now) {
      var (key, after) := wanted[0];
      var live, later := Live(entries, key, now), wanted[1..];
      ReadAtIsNew(entries, key, after, now);
      LooksAlike(entries, wanted, now);
      var rest := ReadFindsNew(live, later, now);
      HeldLater(entries, live, wanted, now);
      if ReadStreams(live, later, now).1.Some? {
        MoreIsFound(ReadStreams(live, later, now).1.value, rest, entries, live, wanted, now);
        assert [] + ReadStreams(live, later, now).1.value == ReadStreams(live, later, now).1.value;
        places := if NewAt(entries, key, after, now) == [] then OneOn(rest) else [0] + OneOn(rest);
      }
    }
  }

  /** Whatever is read by `XREAD` is all that was new under each key, in the order the keys were asked about. */
  lemma XReadGivesNew(s: State, wanted: seq<(Key, EntryId)>, now: nat) returns (places: seq<nat>)
    requires Inv(s)
    ensures var reply := XReadOrWatch(s, wanted, now).1;
            && (reply == WrongType <==> exists i :: 0 <= i < |wanted| && HoldsAnother(s.entries, wanted[i].0, now))
            && (reply.Read? ==> reply.found != [] && AnswersFrom(reply.found, places, s.entries, wanted, now))
            && (reply.Watching? <==>
                  forall i :: 0 <= i < |wanted| ==> !HoldsAnother(s.entries, wanted[i].0, now)
                                                    && NewAt(s.entries, wanted[i].0, wanted[i].1, now) == [])
            && (reply == WrongType || reply.Read? || reply.Watching?)
  {
    hide ReadStreams, NewAt, Registered, HoldsAnother;
    assert LogsIncrease(s.entries) by {
      assert forall k :: k in s.entries ==> Sound(s.entries[k], s.changes);
    }
    places := ReadFindsNew(s.entries, wanted, now);
    var found := ReadStreams(s.entries, wanted, now).1;
    if found.Some? && found.value != [] {
      var i := places[0];
      assert NewAt(s.entries, wanted[i].0, wanted[i].1, now) != [];
    }
  }

  // ----- Whole runs -----

  /** The states a run goes through, from an empty store with nobody waiting. */
  ghost predicate IsRun(states: seq<System>, actions: seq<Action>) {
    && |states| == |actions| + 1
    && states[0] == System(EMPTY, map[])
    && forall i :: 0 <= i < |actions| ==> Possible(states[i], actions[i]) && states[i + 1] == Acted(states[i], actions[i])
  }

  /**
   No wake-up is lost: in every state a run can reach, a client still waiting
   without having been notified is listed under every key it reads, and none of
   those streams holds anything for it.
   */
  lemma {:induction false} NoLostWakeUp(states: seq<System>, actions: seq<Action>, i: nat)
    requires IsRun(states, actions) && i < |states|
    ensures Attended(states[i])
    ensures forall w :: w in states[i].parked && w !in states[i].store.permits ==>
              Covered(states[i].store, w, states[i].parked[w])
  {
    hide Acted, Covered;
    if i > 0 {
      NoLostWakeUp(states, actions, i - 1);
      ActionKeepsAttended(states[i - 1], actions[i - 1]);
    }
  }
}
