/**
 Runs of the store, and what a version found unchanged is worth. Every step runs
 under the lock, so a run is a sequence of steps, by whichever clients and at
 whatever times.
 */
module Versions {
  import opened Base
  import opened StoreState
  import opened StoreSteps
  import Decimal
  import Lists
  import SortedSets
  import Streams

  datatype Event = Event(op: Op, now: nat)

  predicate Askable(run: seq<Event>) {
    forall i :: 0 <= i < |run| ==> Asked(run[i].op)
  }

  function After(s: State, run: seq<Event>): State
    requires Askable(run)
  {
    if run == [] then s
    else
      var before := After(s, run[..|run| - 1]);
      Step(before, run[|run| - 1].op, run[|run| - 1].now).0
  }

  /** Every state a run can reach keeps what the store relies on. */
  lemma {:induction false} ReachableIsSound(run: seq<Event>)
    requires Askable(run)
    ensures Inv(After(EMPTY, run))
  {
    hide Step, Sound;
    if run != [] {
      ReachableIsSound(run[..|run| - 1]);
      StepKeepsInv(After(EMPTY, run[..|run| - 1]), run[|run| - 1].op, run[|run| - 1].now);
    }
  }

  // ----- One step -----

  /** A key came through a step as it was, or was dropped, or was stamped with a number never used before. */
  predicate Stamped(s: State, s': State, k: Key) {
    && s.changes <= s'.changes
    && (k in s'.entries ==>
          || (k in s.entries && s'.entries[k] == s.entries[k])
          || s.changes < s'.entries[k].version <= s'.changes)
  }

  /** The answers that say nothing was changed. */
  predicate ChangedNothing(op: Op, reply: Reply) {
    match op
    case DoSet(_, _, _) => false
    case DoIncrement(_) => Refused(reply)
    case DoPush(_, _, _) => Refused(reply)
    case DoLPop(_, _) => Refused(reply) || reply == Elements([])
    case DoBLPop(_) => Refused(reply) || reply.Waiting?
    case DoZAdd(_, _) => Refused(reply)
    case DoZRem(_, _) => Refused(reply) || reply == Count(0)
    case DoXAdd(_, _, _, _) => Refused(reply)
    case _ => true
  }

  /** The two things every step is held to: its mark on what it changes, and no mark when it says it changed nothing. */
  ghost predicate Marks(s: State, op: Op, outcome: (State, Reply), now: nat, k: Key) {
    && Stamped(s, outcome.0, k)
    && (ChangedNothing(op, outcome.1) ==> OnlyDropped(s.entries, outcome.0.entries, now))
  }

  lemma SetMarks(s: State, key: Key, value: Bytes, expiresIn: Option<nat>, now: nat, k: Key)
    ensures Marks(s, DoSet(key, value, expiresIn), Set(s, key, value, expiresIn, now), now, k)
  {
  }

  lemma IncrementMarks(s: State, key: Key, now: nat, k: Key)
    ensures Marks(s, DoIncrement(key), Increment(s, key, now), now, k)
  {
    hide Decimal.AsNumber, Decimal.Print;
  }

  lemma PushMarks(s: State, key: Key, elements: seq<Bytes>, side: Lists.Side, now: nat, k: Key)
    requires elements != []
    ensures Marks(s, DoPush(key, elements, side), Push(s, key, elements, side, now), now, k)
  {
    hide Lists.Serve, Lists.Pushed;
  }

  lemma LPopMarks(s: State, key: Key, count: nat, now: nat, k: Key)
    ensures Marks(s, DoLPop(key, count), LPop(s, key, count, now), now, k)
  {
  }

  lemma BLPopMarks(s: State, key: Key, now: nat, k: Key)
    ensures Marks(s, DoBLPop(key), BLPop(s, key, now), now, k)
  {
    hide Lists.Open;
  }

  lemma ZAddMarks(s: State, key: Key, members: seq<Member>, now: nat, k: Key)
    requires members != []
    ensures Marks(s, DoZAdd(key, members), ZAdd(s, key, members, now), now, k)
  {
    hide SortedSets.AddedAll, SortedSets.Scores;
  }

  lemma ZRemMarks(s: State, key: Key, names: seq<Bytes>, now: nat, k: Key)
    ensures Marks(s, DoZRem(key, names), ZRem(s, key, names, now), now, k)
  {
    hide SortedSets.WithoutAll;
  }

  lemma XAddMarks(s: State, key: Key, requested: Streams.RequestedId, fields: seq<(Bytes, Bytes)>,
                  now: nat, clock: u64, k: Key)
    ensures Marks(s, DoXAdd(key, requested, fields, clock), XAdd(s, key, requested, fields, now, clock), now, k)
  {
    hide Streams.NextId;
  }

  lemma StepMarks(s: State, op: Op, now: nat, k: Key)
    requires Asked(op)
    ensures Marks(s, op, Step(s, op, now), now, k)
  {
    hide Set, Increment, Push, LPop, BLPop, ZAdd, ZRem, XAdd, ReadStreams, Registered;
    match op {
      case DoSet(key, value, expiresIn) => SetMarks(s, key, value, expiresIn, now, k);
      case DoIncrement(key) => IncrementMarks(s, key, now, k);
      case DoPush(key, elements, side) => PushMarks(s, key, elements, side, now, k);
      case DoLPop(key, count) => LPopMarks(s, key, count, now, k);
      case DoBLPop(key) => BLPopMarks(s, key, now, k);
      case DoZAdd(key, members) => ZAddMarks(s, key, members, now, k);
      case DoZRem(key, names) => ZRemMarks(s, key, names, now, k);
      case DoXAdd(key, requested, fields, clock) => XAddMarks(s, key, requested, fields, now, clock, k);
      case DoXReadOrWatch(wanted) => ReadStreamsOnlyDrops(s.entries, wanted, now);
      case _ =>
    }
  }

  lemma StepStamps(s: State, op: Op, now: nat, k: Key)
    requires Asked(op)
    ensures Stamped(s, Step(s, op, now).0, k)
  {
    hide Step, Stamped, ChangedNothing;
    StepMarks(s, op, now, k);
  }

  /** Reads, refusals, and pops or removals that took nothing leave every entry as it was, save the expired. */
  lemma QuietStepsChangeNothing(s: State, op: Op, now: nat)
    requires Asked(op) && ChangedNothing(op, Step(s, op, now).1)
    ensures OnlyDropped(s.entries, Step(s, op, now).0.entries, now)
  {
    hide Step, Stamped, ChangedNothing;
    StepMarks(s, op, now, []);
  }

  // ----- Optimistic locking -----

  /** `Store::versions`: the version a key holds at a given time, if it is there at all. */
  function VersionOf(s: State, key: Key, now: nat): Option<nat> {
    var live := Live(s.entries, key, now);
    if key in live then Some(live[key].version) else None
  }

  /** The predicate `EXEC` evaluates over the watch map. */
  predicate Unchanged(s: State, watched: map<Key, Option<nat>>, now: nat) {
    forall key :: key in watched ==> VersionOf(s, key, now) == watched[key]
  }

  /** The entries once each key named has been looked up in turn. */
  function LookedAt(entries: Entries, keys: seq<Key>, now: nat): Entries
    decreases |keys|
  {
    if keys == [] then entries else LookedAt(Live(entries, keys[0], now), keys[1..], now)
  }

  /** The entries once a watch list has been gone through as far as the first mismatch. */
  function Checked(entries: Entries, listed: seq<(Key, Option<nat>)>, now: nat): Entries
    decreases |listed|
  {
    if listed == [] then entries
    else
      var (key, version) := listed[0];
      var live := Live(entries, key, now);
      if (if key in live then Some(live[key].version) else None) != version then live
      else Checked(live, listed[1..], now)
  }

  /** A version is out of use: it was handed out, and the key does not wear it. */
  predicate Spent(s: State, key: Key, version: nat) {
    version <= s.changes && (key in s.entries ==> s.entries[key].version != version)
  }

  lemma SpentForGood(s: State, op: Op, now: nat, key: Key, version: nat)
    requires Asked(op) && Spent(s, key, version)
    ensures Spent(Step(s, op, now).0, key, version)
  {
    hide Step;
    StepStamps(s, op, now, key);
  }

  lemma {:induction false} SpentThroughout(s: State, run: seq<Event>, key: Key, version: nat)
    requires Askable(run) && Spent(s, key, version)
    ensures Spent(After(s, run), key, version)
  {
    hide Step;
    if run != [] {
      SpentThroughout(s, run[..|run| - 1], key, version);
      SpentForGood(After(s, run[..|run| - 1]), run[|run| - 1].op, run[|run| - 1].now, key, version);
    }
  }

  /** Running the first part of a run, then the rest of it. */
  lemma {:induction false} AfterInParts(s: State, run: seq<Event>, i: nat)
    requires Askable(run) && i <= |run|
    ensures After(s, run) == After(After(s, run[..i]), run[i..])
    decreases |run|
  {
    hide Step;
    if i < |run| {
      AfterInParts(s, run[..|run| - 1], i);
      assert run[..|run| - 1][..i] == run[..i];
      assert run[i..][..|run| - i - 1] == run[..|run| - 1][i..];
    } else {
      assert run[..i] == run;
    }
  }

  /**
   A key found wearing the version it was watched at wore it all along: at every
   moment in between it held the same data under the same deadline. No number is
   ever used twice, so not even deleting the key and making it again goes unseen.
   */
  lemma {:induction false} UnchangedMeansUntouched(s: State, run: seq<Event>, key: Key, i: nat)
    requires Askable(run) && i <= |run| && Inv(s) && key in s.entries
    requires key in After(s, run).entries && After(s, run).entries[key].version == s.entries[key].version
    ensures key in After(s, run[..i]).entries && After(s, run[..i]).entries[key] == s.entries[key]
    decreases i
  {
    hide Step, Sound;
    var version := s.entries[key].version;
    if i > 0 {
      UnchangedMeansUntouched(s, run, key, i - 1);
      var before, event := After(s, run[..i - 1]), run[i - 1];
      assert run[..i][..i - 1] == run[..i - 1] && run[..i][i - 1] == event;
      var after := After(s, run[..i]);
      StepStamps(before, event.op, event.now, key);
      NeverAhead(s, run[..i - 1]);
      assert Sound(s.entries[key], s.changes);
      SoundVersion(s, key);
      if key !in after.entries || after.entries[key] != s.entries[key] {
        assert Spent(after, key, version);
        AfterInParts(s, run, i);
        SpentThroughout(after, run[i..], key, version);
        assert false;
      }
    }
  }

  lemma SoundVersion(s: State, key: Key)
    requires Inv(s) && key in s.entries
    ensures s.entries[key].version <= s.changes
  {
    assert Sound(s.entries[key], s.changes);
  }

  lemma {:induction false} NeverAhead(s: State, run: seq<Event>)
    requires Askable(run)
    ensures s.changes <= After(s, run).changes
  {
    hide Step;
    if run != [] {
      NeverAhead(s, run[..|run| - 1]);
      StepStamps(After(s, run[..|run| - 1]), run[|run| - 1].op, run[|run| - 1].now, []);
    }
  }

  lemma {:induction false} RunKeepsInv(s: State, run: seq<Event>)
    requires Askable(run) && Inv(s)
    ensures Inv(After(s, run))
  {
    hide Step, Sound, Inv;
    if run != [] {
      RunKeepsInv(s, run[..|run| - 1]);
      StepKeepsInv(After(s, run[..|run| - 1]), run[|run| - 1].op, run[|run| - 1].now);
    }
  }

  /** When a key was watched: how far into the run, and at what time. */
  datatype Moment = Moment(index: nat, now: nat)

  /**
   What acceptance is worth, each key having been watched at a moment of its own:
   a key present then has held one and the same entry in every state since, and a
   key absent then is absent at the check.
   */
  lemma AcceptedWatch(s: State, run: seq<Event>, watched: map<Key, Option<nat>>, moments: map<Key, Moment>, now: nat)
    requires Askable(run) && Inv(s) && watched.Keys == moments.Keys
    requires forall k :: k in watched ==> moments[k].index <= |run|
    requires forall k :: k in watched ==> watched[k] == VersionOf(After(s, run[..moments[k].index]), k, moments[k].now)
    requires Unchanged(After(s, run), watched, now)
    ensures forall k, i :: k in watched && watched[k].Some? && moments[k].index <= i <= |run| ==>
              var was := After(s, run[..moments[k].index]);
              k in was.entries && Held(After(s, run[..i]), k) == Held(was, k)
    ensures forall k :: k in watched && watched[k].None? ==> k !in Live(After(s, run).entries, k, now)
  {
    hide After, Inv;
    forall k, i | k in watched && watched[k].Some? && moments[k].index <= i <= |run|
      ensures var was := After(s, run[..moments[k].index]);
              k in was.entries && Held(After(s, run[..i]), k) == Held(was, k)
    {
      assert VersionOf(After(s, run), k, now) == watched[k];
      HeldSince(s, run, k, moments[k].index, i);
    }
    forall k | k in watched && watched[k].None?
      ensures k !in Live(After(s, run).entries, k, now)
    {
      assert VersionOf(After(s, run), k, now) == None;
    }
  }

  function Held(s: State, key: Key): Option<Entry> {
    if key in s.entries then Some(s.entries[key]) else None
  }

  lemma HeldSince(s: State, run: seq<Event>, key: Key, from: nat, i: nat)
    requires Askable(run) && Inv(s) && from <= i <= |run|
    requires var was := After(s, run[..from]);
             && key in was.entries && key in After(s, run).entries
             && After(s, run).entries[key].version == was.entries[key].version
    ensures Held(After(s, run[..i]), key) == Held(After(s, run[..from]), key)
  {
    hide After, Inv;
    var was := After(s, run[..from]);
    RunKeepsInv(s, run[..from]);
    AfterInParts(s, run, from);
    UnchangedMeansUntouched(was, run[from..], key, i - from);
    assert run[from..][..i - from] == run[..i][from..] && run[..i][..from] == run[..from];
    AfterInParts(s, run[..i], from);
  }

  // ----- Exactly which keys a watch protects -----

  predicate Untouched(s: State, run: seq<Event>, key: Key)
    requires Askable(run)
  {
    forall i :: 0 <= i <= |run| ==> Held(After(s, run[..i]), key) == Held(s, key)
  }

  /** Watching the key at `now` catches every change: no run that touches it is accepted, whenever it is checked. */
  ghost predicate Protected(s: State, key: Key, now: nat) {
    forall run, later: nat ::
      Askable(run) && Unchanged(After(s, run), map[key := VersionOf(s, key, now)], later) ==> Untouched(s, run, key)
  }

  /** A push one longer than the queue of open waiters, then a pop of what they leave. */
  function Flicker(s: State, key: Key, now: nat): (run: seq<Event>)
    ensures Askable(run) && |run| == 2
  {
    var n := |Lists.Open(QueueOf(s.waiters, key), s.gone)| + 1;
    [Event(DoPush(key, seq(n, _ => []), Lists.Right), now), Event(DoLPop(key, n), now)]
  }

  lemma AfterTwo(s: State, run: seq<Event>)
    requires Askable(run) && |run| == 2
    ensures var one := Step(s, run[0].op, run[0].now).0;
            After(s, run[..1]) == one && After(s, run) == Step(one, run[1].op, run[1].now).0
  {
    hide Step;
    assert run[..1][..0] == [] && After(s, []) == s;
  }

  /** Every absent key, in every state, can come and go unseen, with an element to spare after serving the queue. */
  lemma AbsentKeyCanFlicker(s: State, key: Key, now: nat)
    requires VersionOf(s, key, now) == None
    ensures var run := Flicker(s, key, now);
            && key in After(s, run[..1]).entries
            && After(s, run[..1]).entries[key].version == s.changes + 1
            && Unchanged(After(s, run), map[key := None], now)
  {
    hide Lists.Serve, Lists.Open, After, Lists.Reversed, Set, Increment, BLPop, ZAdd, ZRem, XAdd, XReadOrWatch;
    var run, queue := Flicker(s, key, now), QueueOf(s.waiters, key);
    var elements := run[0].op.elements;
    AfterTwo(s, run);
    assert [] + elements == elements;
    Lists.ServedInOrder(elements, queue, s.gone);
    var handed := Lists.Serve(elements, queue, s.gone);
    assert |handed.list| == 1;
    assert handed.list[1..] == [];
  }

  /** Presence at the moment of the `WATCH` is exactly what a watch needs. */
  lemma WatchProtectsThePresent(s: State, key: Key, now: nat)
    requires Inv(s)
    ensures Protected(s, key, now) <==> VersionOf(s, key, now).Some?
  {
    hide After, Inv, Flicker;
    var version := VersionOf(s, key, now);
    if version.Some? {
      forall run, later: nat | Askable(run) && Unchanged(After(s, run), map[key := version], later)
        ensures Untouched(s, run, key)
      {
        PresentIsUntouched(s, run, key, now, later);
      }
    } else {
      AbsentKeyCanFlicker(s, key, now);
      var run := Flicker(s, key, now);
      if key in s.entries {
        SoundVersion(s, key);
      }
      assert Held(After(s, run[..1]), key) != Held(s, key);
      assert !Untouched(s, run, key);
    }
  }

  lemma PresentIsUntouched(s: State, run: seq<Event>, key: Key, now: nat, later: nat)
    requires Inv(s) && Askable(run) && VersionOf(s, key, now).Some?
    requires Unchanged(After(s, run), map[key := VersionOf(s, key, now)], later)
    ensures Untouched(s, run, key)
  {
    hide After, Inv;
    assert VersionOf(After(s, run), key, later) == VersionOf(s, key, now);
    forall i | 0 <= i <= |run|
      ensures Held(After(s, run[..i]), key) == Held(s, key)
    {
      UnchangedMeansUntouched(s, run, key, i);
    }
  }

  // ----- Looking keys up is a run of its own -----

  function Looks(keys: seq<Key>, now: nat): (run: seq<Event>)
    ensures |run| == |keys| && Askable(run)
  {
    seq(|keys|, i requires 0 <= i < |keys| => Event(Look(keys[i]), now))
  }

  lemma {:induction false} LooksLookUp(s: State, keys: seq<Key>, now: nat)
    ensures After(s, Looks(keys, now)) == s.(entries := LookedAt(s.entries, keys, now))
    decreases |keys|
  {
    hide After, Step;
    var run := Looks(keys, now);
    if keys == [] {
      AfterNothing(s);
      assert run == [];
    } else {
      var one := s.(entries := Live(s.entries, keys[0], now));
      AfterInParts(s, run, 1);
      AfterLook(s, keys[0], now);
      assert run[..1] == [Event(Look(keys[0]), now)] && run[1..] == Looks(keys[1..], now);
      LooksLookUp(one, keys[1..], now);
    }
  }

  lemma AfterNothing(s: State)
    ensures After(s, []) == s
  {
  }

  lemma AfterLook(s: State, key: Key, now: nat)
    ensures After(s, [Event(Look(key), now)]) == s.(entries := Live(s.entries, key, now))
  {
    AfterNothing(s);
    var run := [Event(Look(key), now)];
    assert run[..0] == [];
  }

  /** A check looks up some first part of its list: all of it when it accepts. */
  lemma {:induction false} CheckedLooksUp(entries: Entries, listed: seq<(Key, Option<nat>)>, now: nat)
    returns (keys: seq<Key>)
    ensures Checked(entries, listed, now) == LookedAt(entries, keys, now)
    ensures |keys| <= |listed| && forall i :: 0 <= i < |keys| ==> keys[i] == listed[i].0
    decreases |listed|
  {
    keys := [];
    if listed != [] {
      var (key, version) := listed[0];
      var live := Live(entries, key, now);
      if (if key in live then Some(live[key].version) else None) != version {
        keys := [key];
      } else {
        var rest := CheckedLooksUp(live, listed[1..], now);
        keys := [key] + rest;
        assert keys[1..] == rest;
      }
    }
  }

  lemma {:induction false} LookedAtOnlyDrops(entries: Entries, keys: seq<Key>, now: nat)
    ensures OnlyDropped(entries, LookedAt(entries, keys, now), now)
    ensures forall k :: k in keys && k in LookedAt(entries, keys, now) ==> !Expired(entries[k], now)
    decreases |keys|
  {
    if keys != [] {
      LookedAtOnlyDrops(Live(entries, keys[0], now), keys[1..], now);
    }
  }
}
