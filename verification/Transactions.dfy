/**
 Transactions and watches. A connection queues commands between `MULTI` and
 `EXEC`, and the queue runs only if every watched version still matches. Other
 clients' steps may fall anywhere in between, including between the queued
 commands once they are running.
 */
module Transactions {
  import opened Base
  import opened StoreState
  import opened StoreSteps
  import opened Commands
  import opened Versions
  import opened StoreObject

  const MULTI: Bytes := [77, 85, 76, 84, 73]
  const EXEC: Bytes := [69, 88, 69, 67]
  const DISCARD: Bytes := [68, 73, 83, 67, 65, 82, 68]
  const WATCH: Bytes := [87, 65, 84, 67, 72]
  const UNWATCH: Bytes := [85, 78, 87, 65, 84, 67, 72]
  const SUBSCRIBE: Bytes := [83, 85, 66, 83, 67, 82, 73, 66, 69]
  const UNSUBSCRIBE: Bytes := [85, 78, 83, 85, 66, 83, 67, 82, 73, 66, 69]
  const PSUBSCRIBE: Bytes := [80, 83, 85, 66, 83, 67, 82, 73, 66, 69]
  const PUNSUBSCRIBE: Bytes := [80, 85, 78, 83, 85, 66, 83, 67, 82, 73, 66, 69]
  const PING: Bytes := [80, 73, 78, 71]
  const QUIT: Bytes := [81, 85, 73, 84]
  const RESET: Bytes := [82, 69, 83, 69, 84]

  lemma WordsAreSpelled()
    ensures MULTI == Ascii("MULTI") && EXEC == Ascii("EXEC") && DISCARD == Ascii("DISCARD") && WATCH == Ascii("WATCH")
    ensures UNWATCH == Ascii("UNWATCH") && SUBSCRIBE == Ascii("SUBSCRIBE") && UNSUBSCRIBE == Ascii("UNSUBSCRIBE")
    ensures PSUBSCRIBE == Ascii("PSUBSCRIBE") && PUNSUBSCRIBE == Ascii("PUNSUBSCRIBE") && PING == Ascii("PING")
    ensures QUIT == Ascii("QUIT") && RESET == Ascii("RESET")
  {
  }

  /** `queued` is `Some` between `MULTI` and `EXEC`; `watched` maps keys to recorded versions. */
  datatype Tx = Tx(queued: Option<seq<Command>>, watched: map<Key, Option<nat>>)

  datatype Outcome = NotSteering | Fine | Failed | Aborted | Execute(queued: seq<Command>)

  predicate Steers(c: Command) {
    c.uppercased in {MULTI, EXEC, DISCARD, WATCH}
  }

  predicate AllowedWhileListening(c: Command) {
    c.uppercased in {SUBSCRIBE, UNSUBSCRIBE, PSUBSCRIBE, PUNSUBSCRIBE, PING, QUIT, RESET}
  }

  /** `or_insert` semantics: existing keys are not overwritten. */
  function WatchedToo(watched: map<Key, Option<nat>>, keys: seq<Key>, s: State, now: nat): map<Key, Option<nat>> {
    watched + (map k | k in keys && k !in watched :: VersionOf(s, k, now))
  }

  /** `steer`: the commands a transaction never queues. */
  function Steered(tx: Tx, c: Command, s: State, now: nat): (Tx, Outcome) {
    if c.uppercased == MULTI then
      if c.args != [] || tx.queued.Some? then (tx, Failed) else (tx.(queued := Some([])), Outcome.Fine)
    else if c.uppercased == EXEC then
      if c.args != [] || tx.queued.None? then (tx, Failed)
      else if Unchanged(s, tx.watched, now) then (Tx(None, map[]), Execute(tx.queued.value))
      else (Tx(None, map[]), Aborted)
    else if c.uppercased == WATCH then
      if c.args == [] || tx.queued.Some? then (tx, Failed)
      else (tx.(watched := WatchedToo(tx.watched, c.args, s, now)), Outcome.Fine)
    else if c.uppercased == DISCARD then
      if c.args != [] || tx.queued.None? then (tx, Failed) else (Tx(None, map[]), Outcome.Fine)
    else (tx, NotSteering)
  }

  /** A hash map's items in the order it happens to yield them. */
  predicate GoesThrough(listed: seq<(Key, Option<nat>)>, watched: map<Key, Option<nat>>) {
    && (forall i :: 0 <= i < |listed| ==> listed[i].0 in watched && watched[listed[i].0] == listed[i].1)
    && (forall k :: k in watched ==> (k, watched[k]) in listed)
  }

  /** The lookups steering makes, which drop the expired entries among the keys they get to. */
  function SteeredEntries(tx: Tx, c: Command, entries: Entries, listed: seq<(Key, Option<nat>)>, now: nat): Entries {
    if c.uppercased == EXEC && c.args == [] && tx.queued.Some? then Checked(entries, listed, now)
    else if c.uppercased == WATCH && c.args != [] && tx.queued.None? then LookedAt(entries, c.args, now)
    else entries
  }

  /** The same as it is written, changing the connection's own state and looking at the store's. */
  class Transaction {
    var queued: Option<seq<Command>>
    var watched: map<Key, Option<nat>>

    ghost function View(): Tx
      reads this
    {
      Tx(queued, watched)
    }

    constructor ()
      ensures View() == Tx(None, map[])
    {
      queued, watched := None, map[];
    }

    /** The `EXEC` of an open queue. */
    method Close(store: Store, now: nat) returns (outcome: Outcome, ghost listed: seq<(Key, Option<nat>)>)
      requires queued.Some?
      modifies this, store`entries
      ensures View() == Tx(None, map[])
      ensures outcome == if Unchanged(old(store.View()), old(watched), now) then Execute(old(queued).value) else Aborted
      ensures GoesThrough(listed, old(watched)) && store.entries == Checked(old(store.entries), listed, now)
      ensures OnlyDropped(old(store.entries), store.entries, now)
    {
      hide VersionOf, Checked, OnlyDropped;
      var taken, watches := queued.value, watched;
      queued, watched := None, map[];
      var items := Listed(watches);
      var same := store.AllUnchanged(items, now);
      listed := items;
      assert same <==> Unchanged(old(store.View()), watches, now);
      outcome := if same then Execute(taken) else Aborted;
    }

    /** The `WATCH` of a connection with no queue open. */
    method TakeOn(keys: seq<Key>, store: Store, now: nat)
      modifies this`watched, store`entries
      ensures watched == WatchedToo(old(watched), keys, old(store.View()), now)
      ensures store.entries == LookedAt(old(store.entries), keys, now)
      ensures OnlyDropped(old(store.entries), store.entries, now)
    {
      hide VersionOf, LookedAt, OnlyDropped;
      var versions := store.CurrentVersions(keys, now);
      watched := OrInsert(watched, keys, versions);
    }

    method Steer(c: Command, store: Store, now: nat)
      returns (outcome: Outcome, ghost listed: seq<(Key, Option<nat>)>)
      modifies this, store`entries
      ensures (View(), outcome) == Steered(old(View()), c, old(store.View()), now)
      ensures outcome.Execute? || outcome.Aborted? ==> GoesThrough(listed, old(watched))
      ensures store.entries == SteeredEntries(old(View()), c, old(store.entries), listed, now)
      ensures OnlyDropped(old(store.entries), store.entries, now)
    {
      hide Checked, LookedAt, OnlyDropped, Unchanged, WatchedToo, GoesThrough;
      listed := [];
      NothingDropped(store.entries, now);
      if c.uppercased == MULTI {
        if c.args != [] || queued.Some? {
          outcome := Failed;
          return;
        }
        queued := Some([]);
        outcome := Outcome.Fine;
        return;
      }
      if c.uppercased == EXEC {
        if c.args != [] || queued.None? {
          outcome := Failed;
          return;
        }
        outcome, listed := Close(store, now);
        return;
      }
      if c.uppercased == WATCH {
        if c.args == [] || queued.Some? {
          outcome := Failed;
          return;
        }
        TakeOn(c.args, store, now);
        outcome := Outcome.Fine;
        return;
      }
      if c.uppercased == DISCARD {
        if c.args != [] || queued.None? {
          outcome := Failed;
          return;
        }
        queued, watched := None, map[];
        outcome := Outcome.Fine;
        return;
      }
      outcome := NotSteering;
    }
  }

  /** Enumerates a map's items; the order is unspecified. */
  method Listed(watched: map<Key, Option<nat>>) returns (listed: seq<(Key, Option<nat>)>)
    ensures GoesThrough(listed, watched)
  {
    listed := [];
    var left := watched.Keys;
    while left != {}
      invariant left <= watched.Keys
      invariant forall i :: 0 <= i < |listed| ==> listed[i].0 in watched && watched[listed[i].0] == listed[i].1
      invariant forall k :: k in watched && k !in left ==> (k, watched[k]) in listed
      decreases left
    {
      var k :| k in left;
      listed := listed + [(k, watched[k])];
      left := left - {k};
    }
  }

  method OrInsert(before: map<Key, Option<nat>>, keys: seq<Key>, versions: seq<Option<nat>>)
    returns (watched: map<Key, Option<nat>>)
    requires |versions| == |keys|
    requires forall i, j :: 0 <= i < j < |keys| && keys[i] == keys[j] ==> versions[i] == versions[j]
    ensures watched.Keys == before.Keys + (set k | k in keys)
    ensures forall k :: k in before ==> watched[k] == before[k]
    ensures forall i :: 0 <= i < |keys| && keys[i] !in before ==> watched[keys[i]] == versions[i]
  {
    watched := before;
    for i := 0 to |keys|
      invariant watched.Keys == before.Keys + (set k | k in keys[..i])
      invariant forall k :: k in before ==> watched[k] == before[k]
      invariant forall j :: 0 <= j < i && keys[j] !in before ==> watched[keys[j]] == versions[j]
    {
      assert keys[..i + 1] == keys[..i] + [keys[i]];
      if keys[i] !in watched {
        watched := watched[keys[i] := versions[i]];
      }
    }
    assert keys[..|keys|] == keys;
  }

  // ----- One connection among others -----

  /**
   One connection. `running` holds the commands released by `EXEC` and still to be
   dispatched, `done` those already dispatched.
   */
  datatype Connection = Connection(tx: Tx, on: seq<Bytes>, running: seq<Command>, done: seq<Command>)

  datatype System = System(conn: Connection, store: State)

  datatype Event =
    | Mine(c: Command, now: nat, clock: u64,             // a command this client sent, the lookups it makes
           looks: seq<Op>,                               // if it only reads, and the order in which the
           listed: seq<(Key, Option<nat>)>)              // watch map would be gone through
    | Next(now: nat, clock: u64, looks: seq<Op>)         // the next of the commands `EXEC` set running
    | Others(op: Op, now: nat)                           // a step of some other client

  /** The steps of a command that only reads. */
  predicate OnlyLooks(looks: seq<Op>) {
    forall i :: 0 <= i < |looks| ==> looks[i].Look? || looks[i].Sweep? || looks[i].DoXReadOrWatch? || looks[i].LetGo?
  }

  function Reads(looks: seq<Op>, now: nat): (run: seq<Versions.Event>)
    requires OnlyLooks(looks)
    ensures Askable(run)
  {
    seq(|looks|, i requires 0 <= i < |looks| => Versions.Event(looks[i], now))
  }

  /** Nothing more is read off a connection while `EXEC` is running, and only then is there a next command. */
  predicate Possible(sys: System, event: Event) {
    match event
    case Mine(_, _, _, looks, listed) =>
      sys.conn.running == [] && OnlyLooks(looks) && GoesThrough(listed, sys.conn.tx.watched)
    case Next(_, _, looks) => sys.conn.running != [] && OnlyLooks(looks)
    case Others(op, _) => Asked(op)
  }

  function Joined(on: seq<Bytes>, channels: seq<Bytes>): (r: seq<Bytes>)
    decreases |channels|
  {
    if channels == [] then on
    else Joined(if channels[0] in on then on else on + [channels[0]], channels[1..])
  }

  function Left(on: seq<Bytes>, channels: seq<Bytes>): seq<Bytes>
    decreases |channels|
  {
    if channels == [] then on else Left(Dropped(on, channels[0]), channels[1..])
  }

  function Dropped(on: seq<Bytes>, channel: Bytes): seq<Bytes> {
    if on == [] then []
    else if on[0] == channel then on[1..]
    else [on[0]] + Dropped(on[1..], channel)
  }

  /** `dispatch`, as far as the connection and the store are concerned. */
  function Dispatch(sys: System, c: Command, readers: Readers, now: nat, clock: u64, looks: seq<Op>): System
    requires OnlyLooks(looks)
  {
    var done := sys.conn.(done := sys.conn.done + [c]);
    if c.uppercased == UNWATCH then
      sys.(conn := if c.args == [] then done.(tx := done.tx.(watched := map[])) else done)
    else if c.uppercased == SUBSCRIBE then
      sys.(conn := done.(on := Joined(done.on, c.args)))
    else if c.uppercased == UNSUBSCRIBE then
      sys.(conn := done.(on := if c.args == [] then [] else Left(done.on, c.args)))
    else
      var meaning := Interpret(c, readers, clock);
      System(done, if meaning.Ask? then Step(sys.store, meaning.op, now).0 else After(sys.store, Reads(looks, now)))
  }

  /** `run`: what becomes of one command a client sent. */
  function Ran(sys: System, c: Command, readers: Readers, now: nat, clock: u64, looks: seq<Op>,
               listed: seq<(Key, Option<nat>)>): System
    requires OnlyLooks(looks)
  {
    var conn := sys.conn;
    if conn.on != [] && !AllowedWhileListening(c) then sys
    else if !Steers(c) && conn.tx.queued.Some? then
      sys.(conn := conn.(tx := conn.tx.(queued := Some(conn.tx.queued.value + [c]))))
    else
      var (tx, outcome) := Steered(conn.tx, c, sys.store, now);
      var store := sys.store.(entries := SteeredEntries(conn.tx, c, sys.store.entries, listed, now));
      match outcome
      case NotSteering => Dispatch(sys, c, readers, now, clock, looks)
      case Execute(queued) => System(conn.(tx := tx, running := queued), store)
      case _ => System(conn.(tx := tx), store)
  }

  function Happened(sys: System, event: Event, readers: Readers): System
    requires Possible(sys, event)
  {
    match event
    case Mine(c, now, clock, looks, listed) => Ran(sys, c, readers, now, clock, looks, listed)
    case Next(now, clock, looks) =>
      var conn := sys.conn;
      Dispatch(sys.(conn := conn.(running := conn.running[1..])), conn.running[0], readers, now, clock, looks)
    case Others(op, now) => sys.(store := Step(sys.store, op, now).0)
  }

  /** The states a run goes through. */
  ghost predicate IsRun(states: seq<System>, events: seq<Event>, readers: Readers) {
    && |states| == |events| + 1
    && forall i :: 0 <= i < |events| ==>
         Possible(states[i], events[i]) && states[i + 1] == Happened(states[i], events[i], readers)
  }

  // ----- What holds in every state -----

  predicate NoneSteers(commands: seq<Command>) {
    forall i :: 0 <= i < |commands| ==> !Steers(commands[i])
  }

  /** Never inside a transaction and listening or running one at once, and nothing that steers is ever queued. */
  predicate Orderly(conn: Connection) {
    && (conn.tx.queued.Some? ==> conn.on == [] && conn.running == [])
    && (conn.running != [] ==> conn.tx == Tx(None, map[]))
    && NoneSteers(conn.running)
    && (conn.tx.queued.Some? ==> NoneSteers(conn.tx.queued.value))
  }

  lemma HappenedKeepsOrderly(sys: System, event: Event, readers: Readers)
    requires Orderly(sys.conn) && Possible(sys, event)
    ensures Orderly(Happened(sys, event, readers).conn)
  {
    hide Interpret, Step, Unchanged, WatchedToo, Joined, Left;
    if event.Next? {
      assert forall i :: 0 <= i < |sys.conn.running[1..]| ==> sys.conn.running[1..][i] == sys.conn.running[i + 1];
    }
  }

  lemma {:induction false} RunIsOrderly(states: seq<System>, events: seq<Event>, readers: Readers, i: nat)
    requires IsRun(states, events, readers) && i < |states| && Orderly(states[0].conn)
    ensures Orderly(states[i].conn)
  {
    hide Happened, Orderly;
    if i > 0 {
      RunIsOrderly(states, events, readers, i - 1);
      HappenedKeepsOrderly(states[i - 1], events[i - 1], readers);
    }
  }

  // ----- While the queue is open -----

  /** The two commands that close a queue. */
  predicate Closes(c: Command) {
    c.uppercased in {EXEC, DISCARD} && c.args == []
  }

  predicate LeavesOpen(event: Event) {
    event.Mine? ==> !Closes(event.c)
  }

  /** The commands sent in a stretch of a run that are not ones that steer. */
  function TakenDown(events: seq<Event>): seq<Command> {
    if events == [] then []
    else
      var last := events[|events| - 1];
      TakenDown(events[..|events| - 1]) + if last.Mine? && !Steers(last.c) then [last.c] else []
  }

  /** What the store would be had this connection sent nothing at all. */
  function WithoutMe(s: State, events: seq<Event>): State
    requires forall i :: 0 <= i < |events| ==> (events[i].Others? ==> Asked(events[i].op))
  {
    if events == [] then s
    else
      var before, last := WithoutMe(s, events[..|events| - 1]), events[|events| - 1];
      if last.Others? then Step(before, last.op, last.now).0 else before
  }

  lemma OpenStep(sys: System, event: Event, readers: Readers)
    requires Orderly(sys.conn) && sys.conn.tx.queued.Some? && Possible(sys, event) && LeavesOpen(event)
    ensures var conn, after := sys.conn, Happened(sys, event, readers);
            && after.conn == conn.(tx := conn.tx.(queued :=
                 Some(conn.tx.queued.value + if event.Mine? && !Steers(event.c) then [event.c] else [])))
            && after.store == (if event.Others? then Step(sys.store, event.op, event.now).0 else sys.store)
  {
    hide Interpret, Step, Unchanged, WatchedToo, Joined, Left;
    var q := sys.conn.tx.queued.value;
    assert q + [] == q;
  }

  /**
   While a queue is open, whatever is sent and whatever others do: the queue
   holds exactly the commands sent since that do not steer, in order; the watches
   stay as they were; nothing is dispatched; and the store is what it would have
   been had this connection been silent.
   */
  lemma {:induction false} QueueHoldsWhatWasSent(states: seq<System>, events: seq<Event>, readers: Readers, i: nat)
    requires IsRun(states, events, readers) && i < |states|
    requires Orderly(states[0].conn) && states[0].conn.tx.queued == Some([])
    requires forall j :: 0 <= j < i ==> LeavesOpen(events[j])
    ensures forall j :: 0 <= j < i ==> (events[j].Others? ==> Asked(events[j].op))
    ensures states[i].conn == states[0].conn.(tx := states[0].conn.tx.(queued := Some(TakenDown(events[..i]))))
    ensures states[i].store == WithoutMe(states[0].store, events[..i])
    decreases i
  {
    hide Step, Happened;
    assert forall j :: 0 <= j < i && events[j].Others? ==> Possible(states[j], events[j]);
    if i > 0 {
      QueueHoldsWhatWasSent(states, events, readers, i - 1);
      RunIsOrderly(states, events, readers, i - 1);
      OpenStep(states[i - 1], events[i - 1], readers);
      assert events[..i][..i - 1] == events[..i - 1];
    }
  }

  // ----- What each steering command does, and when it is refused -----

  /** `MULTI` opens an empty queue and touches nothing else. */
  lemma MultiOpens(sys: System, c: Command, readers: Readers, now: nat, clock: u64, looks: seq<Op>,
                   listed: seq<(Key, Option<nat>)>)
    requires OnlyLooks(looks)
    requires sys.conn.on == [] && sys.conn.tx.queued.None? && c.uppercased == MULTI && c.args == []
    ensures Ran(sys, c, readers, now, clock, looks, listed)
            == sys.(conn := sys.conn.(tx := sys.conn.tx.(queued := Some([]))))
    ensures Steered(sys.conn.tx, c, sys.store, now).1 == Outcome.Fine
  {
  }

  /** The steering commands that are out of place: badly worded, or with a queue open or shut when it should not be. */
  predicate OutOfPlace(tx: Tx, c: Command) {
    || (c.uppercased == MULTI && (c.args != [] || tx.queued.Some?))
    || (c.uppercased in {EXEC, DISCARD} && (c.args != [] || tx.queued.None?))
    || (c.uppercased == WATCH && (c.args == [] || tx.queued.Some?))
  }

  /** Those change nothing, and are the only ones to fail. */
  lemma OutOfPlaceChangesNothing(sys: System, c: Command, readers: Readers, now: nat, clock: u64, looks: seq<Op>,
                                 listed: seq<(Key, Option<nat>)>)
    requires OnlyLooks(looks) && Steers(c)
    ensures Steered(sys.conn.tx, c, sys.store, now).1.Failed? <==> OutOfPlace(sys.conn.tx, c)
    ensures OutOfPlace(sys.conn.tx, c) || sys.conn.on != [] ==> Ran(sys, c, readers, now, clock, looks, listed) == sys
  {
    hide Unchanged, WatchedToo, Checked, LookedAt;
    assert !AllowedWhileListening(c);
  }

  /** A client that listens is refused everything but what goes with listening. */
  lemma ListeningRefuses(sys: System, c: Command, readers: Readers, now: nat, clock: u64, looks: seq<Op>,
                         listed: seq<(Key, Option<nat>)>)
    requires OnlyLooks(looks) && sys.conn.on != []
    requires c.uppercased !in {SUBSCRIBE, UNSUBSCRIBE, PSUBSCRIBE, PUNSUBSCRIBE, PING, QUIT, RESET}
    ensures Ran(sys, c, readers, now, clock, looks, listed) == sys
  {
  }

  /** `WATCH` takes down the versions of keys not watched yet, keeps those that were, and leaves the rest alone. */
  lemma WatchRecords(sys: System, c: Command, readers: Readers, now: nat, clock: u64, looks: seq<Op>,
                     listed: seq<(Key, Option<nat>)>)
    requires OnlyLooks(looks) && sys.conn.on == [] && sys.conn.tx.queued.None?
    requires c.uppercased == WATCH && c.args != []
    ensures var after := Ran(sys, c, readers, now, clock, looks, listed);
            && after.conn == sys.conn.(tx := sys.conn.tx.(watched := after.conn.tx.watched))
            && after.conn.tx.watched.Keys == sys.conn.tx.watched.Keys + (set k | k in c.args)
            && (forall k :: k in sys.conn.tx.watched ==> after.conn.tx.watched[k] == sys.conn.tx.watched[k])
            && (forall k :: k in c.args && k !in sys.conn.tx.watched ==>
                  after.conn.tx.watched[k] == VersionOf(sys.store, k, now))
            && OnlyDropped(sys.store.entries, after.store.entries, now)
            && after.store == sys.store.(entries := after.store.entries)
  {
    hide VersionOf, LookedAt, OnlyDropped;
    LookedAtOnlyDrops(sys.store.entries, c.args, now);
  }

  /** `UNWATCH` forgets every watch and touches nothing else but the list of what was done. */
  lemma UnwatchForgets(sys: System, c: Command, readers: Readers, now: nat, clock: u64, looks: seq<Op>,
                       listed: seq<(Key, Option<nat>)>)
    requires OnlyLooks(looks) && sys.conn.on == [] && sys.conn.tx.queued.None? && c.uppercased == UNWATCH
    ensures var conn := sys.conn.(done := sys.conn.done + [c]);
            Ran(sys, c, readers, now, clock, looks, listed)
            == sys.(conn := if c.args == [] then conn.(tx := Tx(None, map[])) else conn)
  {
  }

  lemma {:induction false} JoinedIs(on: seq<Bytes>, channels: seq<Bytes>)
    requires Distinct(on)
    ensures var all := Joined(on, channels);
            && on <= all && Distinct(all) && forall ch :: ch in all <==> ch in on || ch in channels
    decreases |channels|
  {
    if channels != [] {
      JoinedIs(if channels[0] in on then on else on + [channels[0]], channels[1..]);
    }
  }

  lemma {:induction false} DroppedIs(on: seq<Bytes>, channel: Bytes)
    requires Distinct(on)
    ensures var left := Dropped(on, channel);
            && Distinct(left) && (forall ch :: ch in left <==> ch in on && ch != channel)
    decreases |on|
  {
    if on != [] {
      DroppedIs(on[1..], channel);
      assert on == [on[0]] + on[1..];
      assert on[0] !in on[1..];
    }
  }

  lemma {:induction false} LeftIs(on: seq<Bytes>, channels: seq<Bytes>)
    requires Distinct(on)
    ensures var left := Left(on, channels);
            && Distinct(left) && (forall ch :: ch in left <==> ch in on && ch !in channels)
    decreases |channels|
  {
    if channels != [] {
      DroppedIs(on, channels[0]);
      LeftIs(Dropped(on, channels[0]), channels[1..]);
      assert channels == [channels[0]] + channels[1..];
    }
  }

  /** `SUBSCRIBE` and `UNSUBSCRIBE` change which channels are listened on, and nothing else. */
  lemma ListeningIs(sys: System, c: Command, readers: Readers, now: nat, clock: u64, looks: seq<Op>,
                    listed: seq<(Key, Option<nat>)>)
    requires OnlyLooks(looks) && sys.conn.tx.queued.None? && Distinct(sys.conn.on)
    requires c.uppercased == SUBSCRIBE || c.uppercased == UNSUBSCRIBE
    ensures var after := Ran(sys, c, readers, now, clock, looks, listed);
            && after == sys.(conn := sys.conn.(on := after.conn.on, done := sys.conn.done + [c]))
            && Distinct(after.conn.on)
            && (c.uppercased == SUBSCRIBE ==>
                  forall ch :: ch in after.conn.on <==> ch in sys.conn.on || ch in c.args)
            && (c.uppercased == UNSUBSCRIBE ==>
                  forall ch :: ch in after.conn.on <==> ch in sys.conn.on && ch !in c.args && c.args != [])
  {
    hide Joined, Left;
    JoinedIs(sys.conn.on, c.args);
    LeftIs(sys.conn.on, c.args);
  }

  // ----- Closing it -----

  /** `EXEC` settles it there and then: the queue is set running if no watched key has moved, and dropped if one has. */
  lemma ExecDecides(sys: System, c: Command, readers: Readers, now: nat, clock: u64, looks: seq<Op>,
                    listed: seq<(Key, Option<nat>)>)
    requires OnlyLooks(looks)
    requires Orderly(sys.conn) && sys.conn.tx.queued.Some? && c.uppercased == EXEC && c.args == []
    ensures var conn, after := sys.conn, Ran(sys, c, readers, now, clock, looks, listed);
            && after.store == sys.store.(entries := Checked(sys.store.entries, listed, now))
            && OnlyDropped(sys.store.entries, after.store.entries, now)
            && after.conn.done == conn.done && after.conn.tx == Tx(None, map[])
            && after.conn.running == if Unchanged(sys.store, conn.tx.watched, now) then conn.tx.queued.value else []
  {
    hide Checked, Unchanged;
    var keys := CheckedLooksUp(sys.store.entries, listed, now);
    LookedAtOnlyDrops(sys.store.entries, keys, now);
  }

  lemma DiscardDrops(sys: System, c: Command, readers: Readers, now: nat, clock: u64, looks: seq<Op>,
                     listed: seq<(Key, Option<nat>)>)
    requires OnlyLooks(looks)
    requires Orderly(sys.conn) && sys.conn.tx.queued.Some? && c.uppercased == DISCARD && c.args == []
    ensures Ran(sys, c, readers, now, clock, looks, listed) == sys.(conn := sys.conn.(tx := Tx(None, map[])))
  {
  }

  lemma NextDispatches(sys: System, event: Event, readers: Readers)
    requires Orderly(sys.conn) && sys.conn.running != [] && Possible(sys, event)
    ensures var conn, after := sys.conn, Happened(sys, event, readers);
            && after.conn.tx == Tx(None, map[])
            && after.conn.done + after.conn.running == conn.done + conn.running
            && |after.conn.running| == |conn.running| - (if event.Next? then 1 else 0)
  {
    hide Interpret, Step, Joined, Left;
    var conn := sys.conn;
    assert conn.done + [conn.running[0]] + conn.running[1..] == conn.done + conn.running;
  }

  /** While `running` is non-empty, `done + running` is constant. */
  lemma {:induction false} RunningInOrder(states: seq<System>, events: seq<Event>, readers: Readers, i: nat)
    requires IsRun(states, events, readers) && i < |states| && Orderly(states[0].conn)
    requires forall j :: 0 <= j < i ==> states[j].conn.running != []
    requires states[0].conn.tx == Tx(None, map[])
    ensures states[i].conn.done + states[i].conn.running == states[0].conn.done + states[0].conn.running
    ensures states[i].conn.tx == Tx(None, map[])
    decreases i
  {
    hide Happened, Orderly;
    if i > 0 {
      RunningInOrder(states, events, readers, i - 1);
      RunIsOrderly(states, events, readers, i - 1);
      NextDispatches(states[i - 1], events[i - 1], readers);
    }
  }

  /**
   From an empty open queue to the last of its commands: closed by `EXEC` at
   `exec`, done at `end`.
   */
  lemma QueueRunsToItsEnd(states: seq<System>, events: seq<Event>, readers: Readers, exec: nat, end: nat)
    requires IsRun(states, events, readers) && exec < end < |states|
    requires Orderly(states[0].conn) && states[0].conn.tx.queued == Some([])
    requires forall j :: 0 <= j < exec ==> LeavesOpen(events[j])
    requires events[exec].Mine? && events[exec].c.uppercased == EXEC && events[exec].c.args == []
    requires forall j :: exec < j < end ==> states[j].conn.running != []
    requires states[end].conn.running == []
    ensures var accepted := Unchanged(states[exec].store, states[0].conn.tx.watched, events[exec].now);
            states[end].conn.done == states[0].conn.done + if accepted then TakenDown(events[..exec]) else []
    ensures states[end].conn.tx == Tx(None, map[])
  {
    hide Happened, Possible, Orderly, Unchanged, TakenDown;
    ExecStarts(states, events, readers, exec);
    RunIsOrderly(states, events, readers, exec + 1);
    RunningToTheEnd(states, events, readers, exec + 1, end);
    var done := states[end].conn.done;
    assert done + [] == done;
  }

  lemma ExecStarts(states: seq<System>, events: seq<Event>, readers: Readers, exec: nat)
    requires IsRun(states, events, readers) && exec < |events|
    requires Orderly(states[0].conn) && states[0].conn.tx.queued == Some([])
    requires forall j :: 0 <= j < exec ==> LeavesOpen(events[j])
    requires events[exec].Mine? && events[exec].c.uppercased == EXEC && events[exec].c.args == []
    ensures var accepted := Unchanged(states[exec].store, states[0].conn.tx.watched, events[exec].now);
            && states[exec + 1].conn.tx == Tx(None, map[]) && states[exec + 1].conn.done == states[0].conn.done
            && states[exec + 1].conn.running == if accepted then TakenDown(events[..exec]) else []
  {
    hide Happened, Orderly, Unchanged, TakenDown, Steered, Ran;
    QueueHoldsWhatWasSent(states, events, readers, exec);
    RunIsOrderly(states, events, readers, exec);
    var event := events[exec];
    ExecDecides(states[exec], event.c, readers, event.now, event.clock, event.looks, event.listed);
    MineRuns(states[exec], event, readers);
  }

  lemma RunningToTheEnd(states: seq<System>, events: seq<Event>, readers: Readers, from: nat, to: nat)
    requires IsRun(states, events, readers) && from <= to < |states| && Orderly(states[from].conn)
    requires forall j :: from <= j < to ==> states[j].conn.running != []
    requires states[from].conn.tx == Tx(None, map[])
    ensures states[to].conn.done + states[to].conn.running == states[from].conn.done + states[from].conn.running
    ensures states[to].conn.tx == Tx(None, map[])
  {
    hide Happened, Possible, Orderly;
    RestOfRun(states, events, readers, from);
    var later := states[from..];
    assert forall j :: 0 <= j < |later| ==> later[j] == states[from + j];
    RunningInOrder(later, events[from..], readers, to - from);
  }

  /**
   A whole transaction: opened by the `MULTI` that is the first event of a run,
   closed by `EXEC` at `exec`, its last command done at `end`. It dispatched
   exactly the commands sent in between that do not steer, in sending order, if
   the watch was accepted, and none of them otherwise.
   */
  lemma TransactionRunsWhatWasQueued(states: seq<System>, events: seq<Event>, readers: Readers, exec: nat, end: nat)
    requires IsRun(states, events, readers) && 0 < exec < end < |states|
    requires Orderly(states[0].conn) && states[0].conn.on == [] && states[0].conn.tx.queued.None?
    requires events[0].Mine? && events[0].c.uppercased == MULTI && events[0].c.args == []
    requires forall j :: 0 < j < exec ==> LeavesOpen(events[j])
    requires events[exec].Mine? && events[exec].c.uppercased == EXEC && events[exec].c.args == []
    requires forall j :: exec < j < end ==> states[j].conn.running != []
    requires states[end].conn.running == []
    ensures var accepted := Unchanged(states[exec].store, states[0].conn.tx.watched, events[exec].now);
            states[end].conn.done == states[0].conn.done + if accepted then TakenDown(events[1..exec]) else []
    ensures states[end].conn.tx == Tx(None, map[])
  {
    hide Happened, Orderly, Unchanged, TakenDown, Steered;
    var event := events[0];
    assert Possible(states[0], event) && states[1] == Happened(states[0], event, readers);
    MultiOpens(states[0], event.c, readers, event.now, event.clock, event.looks, event.listed);
    MineRuns(states[0], event, readers);
    RunIsOrderly(states, events, readers, 1);
    RestOfRun(states, events, readers, 1);
    var later, after := states[1..], events[1..];
    assert forall j :: 0 <= j < |later| ==> later[j] == states[1 + j];
    assert forall j :: 0 <= j < |after| ==> after[j] == events[1 + j];
    assert after[..exec - 1] == events[1..exec];
    QueueRunsToItsEnd(later, after, readers, exec - 1, end - 1);
  }

  lemma MineRuns(sys: System, event: Event, readers: Readers)
    requires Possible(sys, event) && event.Mine?
    ensures Happened(sys, event, readers) == Ran(sys, event.c, readers, event.now, event.clock, event.looks, event.listed)
  {
  }

  lemma RestOfRun(states: seq<System>, events: seq<Event>, readers: Readers, i: nat)
    requires IsRun(states, events, readers) && i < |states|
    ensures IsRun(states[i..], events[i..], readers)
  {
    hide Happened;
    var later, after := states[i..], events[i..];
    forall j | 0 <= j < |after|
      ensures Possible(later[j], after[j]) && later[j + 1] == Happened(later[j], after[j], readers)
    {
      assert later[j] == states[i + j] && after[j] == events[i + j] && later[j + 1] == states[i + j + 1];
    }
  }

  // ----- What an accepted watch was worth -----

  /** Every event moves the store by some run of its own steps. */
  lemma EventIsRun(sys: System, event: Event, readers: Readers) returns (run: seq<Versions.Event>)
    requires Possible(sys, event)
    ensures Askable(run) && After(sys.store, run) == Happened(sys, event, readers).store
  {
    hide Step, Interpret, Checked, LookedAt, After, Joined, Left;
    run := [];
    AfterNothing(sys.store);
    match event {
      case Others(op, now) =>
        run := [Versions.Event(op, now)];
        AfterOne(sys.store, op, now);
      case Next(now, clock, looks) =>
        var rest := sys.(conn := sys.conn.(running := sys.conn.running[1..]));
        run := DispatchIsRun(rest, sys.conn.running[0], readers, now, clock, looks);
      case Mine(c, now, clock, looks, listed) =>
        run := SentIsRun(sys, c, readers, now, clock, looks, listed);
    }
  }

  lemma AfterOne(s: State, op: Op, now: nat)
    requires Asked(op)
    ensures After(s, [Versions.Event(op, now)]) == Step(s, op, now).0
  {
    hide Step;
    AfterNothing(s);
    assert [Versions.Event(op, now)][..0] == [];
  }

  lemma DispatchIsRun(sys: System, c: Command, readers: Readers, now: nat, clock: u64, looks: seq<Op>)
    returns (run: seq<Versions.Event>)
    requires OnlyLooks(looks)
    ensures Askable(run) && After(sys.store, run) == Dispatch(sys, c, readers, now, clock, looks).store
  {
    hide Step, Interpret, After, Joined, Left;
    run := [];
    AfterNothing(sys.store);
    var meaning := Interpret(c, readers, clock);
    if c.uppercased !in {UNWATCH, SUBSCRIBE, UNSUBSCRIBE} {
      if meaning.Ask? {
        run := [Versions.Event(meaning.op, now)];
        AfterOne(sys.store, meaning.op, now);
      } else {
        run := Reads(looks, now);
      }
    }
  }

  lemma SentIsRun(sys: System, c: Command, readers: Readers, now: nat, clock: u64, looks: seq<Op>,
                  listed: seq<(Key, Option<nat>)>) returns (run: seq<Versions.Event>)
    requires OnlyLooks(looks)
    ensures Askable(run) && After(sys.store, run) == Ran(sys, c, readers, now, clock, looks, listed).store
  {
    hide Dispatch, Unchanged, WatchedToo, Checked, LookedAt, After;
    var conn := sys.conn;
    run := [];
    AfterNothing(sys.store);
    if !(conn.on != [] && !AllowedWhileListening(c)) && !(!Steers(c) && conn.tx.queued.Some?) {
      if !Steers(c) {
        run := DispatchIsRun(sys, c, readers, now, clock, looks);
      } else if c.uppercased == EXEC && c.args == [] && conn.tx.queued.Some? {
        var keys := CheckedLooksUp(sys.store.entries, listed, now);
        run := Looks(keys, now);
        LooksLookUp(sys.store, keys, now);
      } else if c.uppercased == WATCH && c.args != [] && conn.tx.queued.None? {
        run := Looks(c.args, now);
        LooksLookUp(sys.store, c.args, now);
      }
    }
  }

  lemma {:induction false} StretchIsRun(states: seq<System>, events: seq<Event>, readers: Readers, i: nat, j: nat)
    returns (run: seq<Versions.Event>)
    requires IsRun(states, events, readers) && i <= j < |states|
    ensures Askable(run) && After(states[i].store, run) == states[j].store
    decreases j
  {
    hide After, Happened;
    if i == j {
      run := [];
      AfterNothing(states[i].store);
    } else {
      var before := StretchIsRun(states, events, readers, i, j - 1);
      var last := EventIsRun(states[j - 1], events[j - 1], readers);
      run := before + last;
      assert run[..|before|] == before && run[|before|..] == last;
      AfterInParts(states[i].store, run, |before|);
    }
  }

  /** A key still watched after an event, and watched before it, is watched at the same version. */
  lemma WatchStays(sys: System, event: Event, readers: Readers, key: Key)
    requires Possible(sys, event)
    requires key in sys.conn.tx.watched && key in Happened(sys, event, readers).conn.tx.watched
    ensures Happened(sys, event, readers).conn.tx.watched[key] == sys.conn.tx.watched[key]
  {
    hide Step, Interpret, Checked, LookedAt, Joined, Left, VersionOf, Unchanged;
  }

  lemma {:induction false} WatchStaysThroughout(
    states: seq<System>, events: seq<Event>, readers: Readers, key: Key, i: nat, j: nat)
    requires IsRun(states, events, readers) && i <= j < |states|
    requires forall k :: i <= k <= j ==> key in states[k].conn.tx.watched
    ensures states[j].conn.tx.watched[key] == states[i].conn.tx.watched[key]
    decreases j
  {
    hide Happened;
    if i < j {
      WatchStaysThroughout(states, events, readers, key, i, j - 1);
      assert states[j] == Happened(states[j - 1], events[j - 1], readers);
      assert key in states[j].conn.tx.watched;
      WatchStays(states[j - 1], events[j - 1], readers, key);
    }
  }

  /** This event is the `WATCH` that took the key on. */
  predicate StartsWatching(sys: System, event: Event, key: Key) {
    && event.Mine? && event.c.uppercased == WATCH && key in event.c.args
    && sys.conn.on == [] && sys.conn.tx.queued.None? && key !in sys.conn.tx.watched
  }

  /**
   A key on the store when this connection watched it, still watched when `EXEC`
   was accepted, held the same entry in every state between, whatever this
   connection and the others did meanwhile.
   */
  lemma AcceptedExecSawNoChange(
    states: seq<System>, events: seq<Event>, readers: Readers, key: Key, watch: nat, exec: nat, i: nat)
    requires IsRun(states, events, readers) && watch < i <= exec < |events| && Inv(states[0].store)
    requires StartsWatching(states[watch], events[watch], key)
    requires VersionOf(states[watch].store, key, events[watch].now).Some?
    requires forall j :: watch < j <= exec ==> key in states[j].conn.tx.watched
    requires Unchanged(states[exec].store, states[exec].conn.tx.watched, events[exec].now)
    ensures Held(states[i].store, key) == Held(states[watch].store, key)
  {
    hide After, Happened, Inv;
    var sys, event := states[watch], events[watch];
    var sofar := StretchIsRun(states, events, readers, 0, watch);
    RunKeepsInv(states[0].store, sofar);
    WatchTakesOn(sys, event, readers, key);
    WatchStaysThroughout(states, events, readers, key, watch + 1, exec);
    var before := StretchIsRun(states, events, readers, watch, i);
    var after := StretchIsRun(states, events, readers, i, exec);
    var run := before + after;
    assert run[..|before|] == before && run[|before|..] == after;
    AfterInParts(sys.store, run, |before|);
    assert VersionOf(states[exec].store, key, events[exec].now) == VersionOf(sys.store, key, event.now);
    UnchangedMeansUntouched(sys.store, run, key, |before|);
  }

  lemma WatchTakesOn(sys: System, event: Event, readers: Readers, key: Key)
    requires Possible(sys, event) && StartsWatching(sys, event, key)
    ensures var after := Happened(sys, event, readers).conn.tx.watched;
            key in after && after[key] == VersionOf(sys.store, key, event.now)
  {
    hide VersionOf, LookedAt;
  }
}
