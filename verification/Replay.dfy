/**
 The record of writes and what playing it back comes to. Commands are dispatched
 one after another; each that changed the store is written down as words, with a
 blocked pop written down as the pop it became, directly after the push that
 served it. A server that plays the file back ends up with the same table.
 */
module Replay {
  import opened Base
  import opened Resp
  import opened StoreState
  import opened StoreSteps
  import opened Commands
  import opened Tables
  import Framing
  import Decimal
  import Lists
  import SortedSets
  import Streams
  import Utf8

  /** What a server hands to `send`, once it is up and if it is a master: after the log as it found it, what it passed on. */
  datatype Link = Silent | Passing(earlier: seq<Value>, passed: seq<Value>)

  /**
   `armed` once the record is taken up; `blocked` are the commands waiting on a
   list; `origin` is the store as the snapshot left it, before the file was played back.
   */
  datatype Server = Server(
    store: State, file: Bytes, armed: bool, blocked: map<nat, Command>, link: Link, origin: State)

  // ----- Dispatching -----

  /** The one value goes to the file and then to the replicas. */
  function Recorded(server: Server, v: Value): Server {
    server.(file := if server.armed then server.file + Encode(v) else server.file,
            link := if server.link.Passing? then server.link.(passed := server.link.passed + [v]) else server.link)
  }

  /** What is done once a command has its reply: nothing after an error, else whatever is to be written down. */
  function Answered(server: Server, c: Command, reply: Reply): Server {
    if Told(c, reply).Error? then server
    else
      match WrittenDown(c, Told(c, reply))
      case None => server
      case Some(v) => Recorded(server, v)
  }

  /** The blocked pops that have just been served, each answered in turn. */
  function AnsweredAll(server: Server, deliveries: seq<Delivery>): (r: Server)
    decreases |deliveries|
  {
    if deliveries == [] then server
    else
      var d := deliveries[0];
      var next := if d.channel in server.blocked
                  then Answered(server, server.blocked[d.channel], Ready(d.element))
                  else server;
      AnsweredAll(next, deliveries[1..])
  }

  function Dispatched(server: Server, c: Command, readers: Readers, now: nat, clock: u64): Server {
    var meaning := Interpret(c, readers, clock);
    if !meaning.Ask? then server
    else
      var (store, reply) := Step(server.store, meaning.op, now);
      var changed := server.(store := store);
      if reply.Waiting? then changed.(blocked := server.blocked[reply.channel := c])
      else AnsweredAll(Answered(changed, c, reply), NewlySent(server.store, store))
  }

  function NewlySent(before: State, after: State): seq<Delivery> {
    if |before.sent| <= |after.sent| then after.sent[|before.sent|..] else []
  }

  function Ran(server: Server, v: Value, readers: Readers, now: nat, clock: u64): Server {
    match CommandOf(v)
    case None => server
    case Some(c) => Dispatched(server, c, readers, now, clock)
  }

  // ----- Playing back -----

  /** When each recorded command happens to be done again. */
  datatype Moment = Moment(now: nat, clock: u64)

  function Replayed(server: Server, log: seq<Value>, readers: Readers, moments: seq<Moment>): Server
    requires |moments| == |log|
  {
    if log == [] then server
    else
      var last := |log| - 1;
      Ran(Replayed(server, log[..last], readers, moments[..last]), log[last], readers, moments[last].now, moments[last].clock)
  }

  method PlayBack(started: Server, log: seq<Value>, readers: Readers, moments: seq<Moment>) returns (server: Server)
    requires |moments| == |log|
    ensures server == Replayed(started, log, readers, moments)
  {
    hide Ran;
    server := started;
    for i := 0 to |log|
      invariant server == Replayed(started, log[..i], readers, moments[..i])
    {
      server := Ran(server, log[i], readers, moments[i].now, moments[i].clock);
      assert log[..i + 1][..i] == log[..i] && moments[..i + 1][..i] == moments[..i];
    }
    assert log[..|log|] == log && moments[..|moments|] == moments;
  }

  // ----- What a log says about a table -----

  function OpOf(v: Value, readers: Readers): Option<Op> {
    match CommandOf(v)
    case None => None
    case Some(c) =>
      match Interpret(c, readers, 0)
      case Ask(op) => Some(op)
      case _ => None
  }

  /** A value fit to be in a log: it can be read back, and it is a write that does not ask the clock. */
  ghost predicate Logged(v: Value, readers: Readers) {
    && Readable(v, MAX_DEPTH)
    && OpOf(v, readers).Some?
    && Recordable(OpOf(v, readers).value)
  }

  ghost predicate AllLogged(log: seq<Value>, readers: Readers) {
    forall i :: 0 <= i < |log| ==> Logged(log[i], readers)
  }

  /** The table a log makes of the one it starts from. */
  ghost function TableAfter(base: Table, log: seq<Value>, readers: Readers): Table
    requires AllLogged(log, readers)
  {
    if log == [] then base
    else Effect(TableAfter(base, log[..|log| - 1], readers), OpOf(log[|log| - 1], readers).value).0
  }

  // ----- Words and what they ask for -----

  /** Which commands ask for which steps. */
  lemma Kinds(c: Command, readers: Readers, clock: u64)
    requires Interpret(c, readers, clock).Ask?
    ensures var op := Interpret(c, readers, clock).op;
            if c.uppercased == BLPOP
            then op == DoBLPop(c.args[0]) && |c.args| == 2
            else c.uppercased in {SET, INCR, RPUSH, LPUSH, LPOP, XADD, ZADD, ZREM, GEOADD}
                 && (ClockFree(op) ==> Recordable(op))
  {
    hide Expiry, Requested, Scored, Located, Pairs, Decimal.ParseI64, Decimal.ParseUnsigned;
  }

  /** At another time a command asks for the same step, but for the reading of the clock. */
  lemma SameAtAnyTime(c: Command, readers: Readers, a: u64, b: u64)
    ensures var x, y := Interpret(c, readers, a), Interpret(c, readers, b);
            && (x.Ask? <==> y.Ask?)
            && (x.Ask? ==> if x.op.DoXAdd? then y.op == x.op.(clock := b) else y.op == x.op)
  {
    hide Expiry, Requested, Scored, Located, Pairs, Decimal.ParseI64, Decimal.ParseUnsigned;
  }

  lemma SameEffectAtAnyTime(v: Value, c: Command, readers: Readers, clock: u64, t: Table)
    requires CommandOf(v) == Some(c) && Interpret(c, readers, clock).Ask?
    requires Recordable(Interpret(c, readers, clock).op)
    ensures OpOf(v, readers).Some? && Recordable(OpOf(v, readers).value)
    ensures Effect(t, OpOf(v, readers).value) == Effect(t, Interpret(c, readers, clock).op)
  {
    hide Interpret, Effect, CommandOf;
    SameAtAnyTime(c, readers, clock, 0);
    var op := Interpret(c, readers, clock).op;
    if op.DoXAdd? {
      ClockMakesNoDifference(t, op.key, op.requested, op.fields, op.clock, 0);
    }
  }

  function PopWords(key: Key): Value {
    Array(Bulks([LPOP, key]))
  }

  lemma PopWordsAsk(key: Key, readers: Readers, clock: u64)
    ensures CommandOf(PopWords(key)) == Some(Command(LPOP, LPOP, [key]))
    ensures Interpret(Command(LPOP, LPOP, [key]), readers, clock) == Ask(DoLPop(key, 1))
    ensures OpOf(PopWords(key), readers) == Some(DoLPop(key, 1))
  {
    var parts := Bulks([LPOP, key]);
    assert Words(parts) == [LPOP, key];
    assert Utf8.IsText(LPOP) by {
      assert LPOP[1..][1..][1..] == [80];
      assert Utf8.IsText([80][1..]);
    }
    assert Uppercased(LPOP) == LPOP;
    assert [LPOP, key][1..] == [key];
  }

  lemma PopWordsLogged(key: Key, readers: Readers)
    requires |key| <= MAX_BULK_LENGTH
    ensures Logged(PopWords(key), readers)
  {
    hide Interpret, CommandOf;
    PopWordsAsk(key, readers, 0);
    var parts := Bulks([LPOP, key]);
    assert parts[0] == BulkString(LPOP) && parts[1] == BulkString(key);
    assert Readable(parts[0], MAX_DEPTH - 1) && Readable(parts[1], MAX_DEPTH - 1);
    assert Readable(PopWords(key), MAX_DEPTH);
    PopIsRecordable(key);
  }

  lemma ReadableWords(v: Value)
    requires Readable(v, MAX_DEPTH) && CommandOf(v).Some?
    ensures forall i :: 0 <= i < |CommandOf(v).value.args| ==> |CommandOf(v).value.args[i]| <= MAX_BULK_LENGTH
  {
    var c := CommandOf(v).value;
    forall i | 0 <= i < |c.args|
      ensures |c.args[i]| <= MAX_BULK_LENGTH
    {
      assert c.args[i] == Words(v.values)[i + 1] == v.values[i + 1].bytes;
      assert Readable(v.values[i + 1], MAX_DEPTH - 1);
    }
  }

  // ----- The file stays in step with the table -----

  /** The file can be read through, what it says comes to the table `t`, and it is what was found and what was passed on. */
  ghost predicate InStep(server: Server, t: Table, readers: Readers) {
    && server.armed
    && Framing.Replayable(server.file).Ok?
    && var log := Framing.Replayable(server.file).value;
       && EncodeAll(log) == server.file && AllLogged(log, readers)
       && TableAfter(TableOf(server.origin.entries), log, readers) == t
       && (server.link.Passing? ==> log == server.link.earlier + server.link.passed)
  }

  lemma RecordKeepsInStep(server: Server, t: Table, v: Value, readers: Readers)
    requires InStep(server, t, readers) && Logged(v, readers)
    ensures InStep(Recorded(server, v), Effect(t, OpOf(v, readers).value).0, readers)
  {
    hide Encode, EncodeAll, Effect, Logged, TableAfter, Framing.Replayable, TableOf;
    var log := Framing.Replayable(server.file).value;
    EncodeAllAppends(log, [v]);
    EncodeAllOne(v);
    LogExtends(TableOf(server.origin.entries), log, v, readers);
    Framing.WholeLog(log + [v]);
    if server.link.Passing? {
      Reassociate(server.link.earlier, server.link.passed, [v]);
    }
  }

  lemma LogExtends(base: Table, log: seq<Value>, v: Value, readers: Readers)
    requires AllLogged(log, readers) && Logged(v, readers)
    ensures AllLogged(log + [v], readers) && AllReadable(log + [v], MAX_DEPTH)
    ensures TableAfter(base, log + [v], readers) == Effect(TableAfter(base, log, readers), OpOf(v, readers).value).0
  {
    hide Effect, OpOf, Readable;
    var more := log + [v];
    assert forall i :: 0 <= i < |more| ==> more[i] == (if i < |log| then log[i] else v);
    assert more[..|more| - 1] == log;
  }

  /** A command waiting on a key, as it came in. */
  predicate BlockedOn(c: Command, key: Key) {
    c.uppercased == BLPOP && |c.args| == 2 && c.args[0] == key && |key| <= MAX_BULK_LENGTH
  }

  lemma PoppedAnswer(server: Server, c: Command, key: Key, element: Bytes)
    requires BlockedOn(c, key)
    ensures Answered(server, c, Ready(element)) == Recorded(server, PopWords(key))
  {
    assert c.uppercased !in {SET, INCR, RPUSH, LPUSH, LPOP, XADD, ZADD, ZREM, GEOADD};
  }

  lemma {:induction false} ServedPopsKeepInStep(server: Server, deliveries: seq<Delivery>, key: Key, t: Table, readers: Readers)
    requires InStep(server, t, readers)
    requires forall i :: 0 <= i < |deliveries| ==>
               deliveries[i].channel in server.blocked && BlockedOn(server.blocked[deliveries[i].channel], key)
    ensures var after := AnsweredAll(server, deliveries);
            && InStep(after, Popped(t, key, |deliveries|), readers)
            && after.store == server.store && after.blocked == server.blocked && after.origin == server.origin
    decreases |deliveries|
  {
    hide InStep, Answered, Effect, BlockedOn;
    if deliveries != [] {
      var c := server.blocked[deliveries[0].channel];
      ServedPopKeepsInStep(server, c, key, deliveries[0].element, t, readers);
      var next := Answered(server, c, Ready(deliveries[0].element));
      ServedPopsKeepInStep(next, deliveries[1..], key, Effect(t, DoLPop(key, 1)).0, readers);
    }
  }

  lemma ServedPopKeepsInStep(server: Server, c: Command, key: Key, element: Bytes, t: Table, readers: Readers)
    requires InStep(server, t, readers) && BlockedOn(c, key)
    ensures var after := Answered(server, c, Ready(element));
            && InStep(after, Effect(t, DoLPop(key, 1)).0, readers)
            && after.store == server.store && after.blocked == server.blocked && after.origin == server.origin
  {
    hide InStep, Answered, Effect;
    PoppedAnswer(server, c, key, element);
    PopWordsLogged(key, readers);
    PopWordsAsk(key, readers, 0);
    RecordKeepsInStep(server, t, PopWords(key), readers);
  }

  lemma PopIsRecordable(key: Key)
    ensures Recordable(DoLPop(key, 1))
  {
  }

  // ----- Who is waiting on what -----

  predicate InQueue(waiters: map<Key, seq<nat>>, k: Key, ch: nat) {
    k in waiters && ch in waiters[k]
  }

  /** A channel that was made, and unless its client gave up, made for a command waiting on this key. */
  predicate Known(server: Server, k: Key, ch: nat) {
    && ch < server.store.channels
    && (ch !in server.store.gone ==> ch in server.blocked && BlockedOn(server.blocked[ch], k))
  }

  ghost predicate Queued(server: Server) {
    forall k, ch :: InQueue(server.store.waiters, k, ch) ==> Known(server, k, ch)
  }

  /** What a snapshot leaves: values that never expire, and nobody waiting. */
  ghost predicate Settled(origin: State) {
    NoDeadlines(origin.entries) && origin.waiters == map[]
  }

  /** The whole of what serial dispatch keeps. */
  ghost predicate Faithful(server: Server, readers: Readers) {
    && Settled(server.origin)
    && NoDeadlines(server.store.entries)
    && Queued(server)
    && InStep(server, TableOf(server.store.entries), readers)
  }

  lemma SameFile(server: Server, server': Server, t: Table, readers: Readers)
    requires InStep(server, t, readers) && server'.file == server.file && server'.armed == server.armed
    requires server'.link == server.link && server'.origin == server.origin
    ensures InStep(server', t, readers)
  {
  }

  /** Nobody joined a queue, nobody who had given up came back. */
  lemma QueuedStays(server: Server, server': Server)
    requires Queued(server) && server'.blocked == server.blocked
    requires server.store.channels <= server'.store.channels && server.store.gone <= server'.store.gone
    requires forall k, ch :: InQueue(server'.store.waiters, k, ch) ==> InQueue(server.store.waiters, k, ch)
    ensures Queued(server')
  {
    hide BlockedOn;
    forall k, ch | InQueue(server'.store.waiters, k, ch)
      ensures Known(server', k, ch)
    {
      assert Known(server, k, ch);
    }
  }

  lemma ToldRefusal(c: Command, reply: Reply, op: Op, s: State, now: nat)
    requires Recordable(op) && reply == Step(s, op, now).1
    ensures Told(c, reply).Error? <==> Refused(reply)
  {
    hide Lists.Serve, Lists.Pushed, SortedSets.AddedAll, SortedSets.WithoutAll, SortedSets.Scores,
         Streams.NextId, Decimal.AsNumber, Decimal.Print, Live, WithList, WithQueue, Bulks;
  }

  /** A write with a non-error reply is logged verbatim. */
  lemma WriteAnswer(server: Server, v: Value, c: Command, reply: Reply)
    requires CommandOf(v) == Some(c) && !Told(c, reply).Error?
    requires c.uppercased in {SET, INCR, RPUSH, LPUSH, LPOP, XADD, ZADD, ZREM, GEOADD}
    ensures Answered(server, c, reply) == Recorded(server, v)
  {
    SentAgain(v);
  }

  lemma WriteKeepsFaithful(server: Server, v: Value, c: Command, readers: Readers, now: nat, clock: u64)
    requires Faithful(server, readers) && Readable(v, MAX_DEPTH) && CommandOf(v) == Some(c)
    requires Interpret(c, readers, clock).Ask? && Recordable(Interpret(c, readers, clock).op)
    requires !Interpret(c, readers, clock).op.DoPush? && c.uppercased != BLPOP
    ensures Faithful(Dispatched(server, c, readers, now, clock), readers)
  {
    hide Interpret, Effect, InStep, Told, TableOf, Step, NoDeadlines, WrittenDown;
    var op := Interpret(c, readers, clock).op;
    var (store, reply) := Step(server.store, op, now);
    var t := TableOf(server.store.entries);
    StepDid(server.store, op, now);
    ToldRefusal(c, reply, op, server.store, now);
    Kinds(c, readers, clock);
    SameEffectAtAnyTime(v, c, readers, clock, t);
    var changed := server.(store := store);
    SameFile(server, changed, t, readers);
    assert NewlySent(server.store, store) == [];
    assert Did(server.store, (store, reply), op);
    if Refused(reply) {
      RefusedChangesNothing(t, op);
    } else {
      WriteAnswer(changed, v, c, reply);
      RecordKeepsInStep(changed, t, v, readers);
    }
    QueuedStays(server, Dispatched(server, c, readers, now, clock));
  }

  lemma RefusedChangesNothing(t: Table, op: Op)
    requires Recordable(op) && !Effect(t, op).1
    ensures Effect(t, op).0 == t
  {
    hide Decimal.AsNumber, Decimal.Print, Streams.NextId;
  }

  lemma PushKeepsFaithful(server: Server, v: Value, c: Command, readers: Readers, now: nat, clock: u64)
    requires Faithful(server, readers) && Readable(v, MAX_DEPTH) && CommandOf(v) == Some(c)
    requires Interpret(c, readers, clock).Ask? && Interpret(c, readers, clock).op.DoPush?
    ensures Faithful(Dispatched(server, c, readers, now, clock), readers)
  {
    hide Interpret, Effect, InStep, Told, TableOf, Push, NoDeadlines, WrittenDown, Popped, BlockedOn;
    var op := Interpret(c, readers, clock).op;
    var key := op.key;
    var (store, reply) := Step(server.store, op, now);
    var t := TableOf(server.store.entries);
    PushDid(server.store, key, op.elements, op.side, now);
    PushServesItsQueue(server.store, key, op.elements, op.side, now);
    ToldRefusal(c, reply, op, server.store, now);
    Kinds(c, readers, clock);
    SameEffectAtAnyTime(v, c, readers, clock, t);
    var changed := server.(store := store);
    SameFile(server, changed, t, readers);
    var deliveries := NewlySent(server.store, store);
    if Refused(reply) {
      RefusedChangesNothing(t, op);
      assert deliveries == [];
      PoppedNone(t, key);
    } else {
      WriteAnswer(changed, v, c, reply);
      RecordKeepsInStep(changed, t, v, readers);
      forall i | 0 <= i < |deliveries|
        ensures deliveries[i].channel in server.blocked && BlockedOn(server.blocked[deliveries[i].channel], key)
      {
        assert deliveries[i] == store.sent[|server.store.sent| + i];
        assert InQueue(server.store.waiters, key, deliveries[i].channel);
        assert Known(server, key, deliveries[i].channel);
      }
      ServedPopsKeepInStep(Recorded(changed, v), deliveries, key, Effect(t, op).0, readers);
    }
    QueuedStays(server, Dispatched(server, c, readers, now, clock));
  }

  lemma BlockingPopKeepsFaithful(server: Server, v: Value, c: Command, readers: Readers, now: nat, clock: u64)
    requires Faithful(server, readers) && Readable(v, MAX_DEPTH) && CommandOf(v) == Some(c)
    requires Interpret(c, readers, clock).Ask? && c.uppercased == BLPOP
    ensures Faithful(Dispatched(server, c, readers, now, clock), readers)
  {
    hide Interpret, Effect, InStep, TableOf, NoDeadlines, BLPop, Queued, Told, WrittenDown;
    Kinds(c, readers, clock);
    ReadableWords(v);
    var key := c.args[0];
    var (store, reply) := BLPop(server.store, key, now);
    var t := TableOf(server.store.entries);
    var changed := server.(store := store);
    SameFile(server, changed, t, readers);
    BlockingPopSendsNothing(server.store, key, now);
    match reply {
      case Waiting(channel) =>
        SameFile(server, changed.(blocked := server.blocked[channel := c]), t, readers);
        JoinKeepsQueued(server, c, key, now);
      case Ready(element) =>
        BlockingPopIsPop(server.store, key, now);
        PoppedAnswer(changed, c, key, element);
        PopWordsLogged(key, readers);
        PopWordsAsk(key, readers, 0);
        RecordKeepsInStep(changed, t, PopWords(key), readers);
        QueuedStays(server, Recorded(changed, PopWords(key)));
      case _ =>
        RefusedAnswer(changed, c, reply);
        QueuedStays(server, changed);
    }
  }

  lemma BlockingPopSendsNothing(s: State, key: Key, now: nat)
    requires NoDeadlines(s.entries)
    ensures var (s', reply) := BLPop(s, key, now);
            && NewlySent(s, s') == []
            && (reply.Waiting? || reply.Ready? || reply.WrongType? || reply.Panics?)
            && (!reply.Ready? ==> s'.entries == s.entries)
            && (!reply.Waiting? ==> s'.waiters == s.waiters && s'.channels == s.channels && s'.gone == s.gone)
  {
    hide Lists.Open;
    NothingExpires(s.entries, key, now);
  }

  lemma RefusedAnswer(server: Server, c: Command, reply: Reply)
    requires reply.WrongType? || reply.Panics?
    ensures Answered(server, c, reply) == server
  {
  }

  lemma JoinKeepsQueued(server: Server, c: Command, key: Key, now: nat)
    requires Queued(server) && BlockedOn(c, key) && BLPop(server.store, key, now).1.Waiting?
    ensures var (store, reply) := BLPop(server.store, key, now);
            Queued(server.(store := store, blocked := server.blocked[reply.channel := c]))
  {
    hide Lists.Open, BlockedOn;
    var (store, reply) := BLPop(server.store, key, now);
    var queue := QueueOf(server.store.waiters, key);
    OpenFromQueue(queue, server.store.gone);
    var server' := server.(store := store, blocked := server.blocked[reply.channel := c]);
    forall k, ch | InQueue(store.waiters, k, ch)
      ensures Known(server', k, ch)
    {
      assert k == key ==> ch in Lists.Open(queue, server.store.gone) || ch == server.store.channels;
      if k != key || ch in Lists.Open(queue, server.store.gone) {
        assert InQueue(server.store.waiters, k, ch);
        assert Known(server, k, ch);
      }
    }
  }

  lemma {:induction false} OpenFromQueue(queue: seq<nat>, gone: set<nat>)
    ensures forall c :: c in Lists.Open(queue, gone) ==> c in queue
  {
    if queue == [] {
      Lists.NobodyOpen(gone);
    } else {
      Lists.OpenStep(queue, gone);
      OpenFromQueue(queue[1..], gone);
      assert queue == [queue[0]] + queue[1..];
    }
  }

  // ----- Serial runs -----

  datatype Event =
    | Sent(v: Value, now: nat, clock: u64)   // a client's command, dispatched to the end
    | Looked(op: Op, now: nat)               // a command that only reads
    | GaveUp(channel: nat)                   // a blocked client's time runs out

  /** Commands as they come off the wire, asking nothing of the clock. */
  ghost predicate Serial(event: Event, readers: Readers) {
    match event
    case Sent(v, _, clock) =>
      && Readable(v, MAX_DEPTH)
      && (CommandOf(v).Some? && Interpret(CommandOf(v).value, readers, clock).Ask? ==>
            ClockFree(Interpret(CommandOf(v).value, readers, clock).op))
    case Looked(op, _) => op.Look? || op.Sweep? || op.DoXReadOrWatch? || op.LetGo?
    case GaveUp(_) => true
  }

  function Happened(server: Server, event: Event, readers: Readers): Server
    requires Serial(event, readers)
  {
    match event
    case Sent(v, now, clock) => Ran(server, v, readers, now, clock)
    case Looked(op, now) => server.(store := Step(server.store, op, now).0)
    case GaveUp(channel) => server.(store := Step(server.store, GiveUp(channel), 0).0)
  }

  lemma SentKeepsFaithful(server: Server, event: Event, readers: Readers)
    requires Faithful(server, readers) && Serial(event, readers) && event.Sent?
    ensures Faithful(Happened(server, event, readers), readers)
  {
    hide Faithful, Dispatched, Interpret, Readable, CommandOf;
    if CommandOf(event.v).Some? {
      var c := CommandOf(event.v).value;
      var meaning := Interpret(c, readers, event.clock);
      if !meaning.Ask? {
        MalformedDoesNothing(server, c, readers, event.now, event.clock);
      } else {
        Kinds(c, readers, event.clock);
        if c.uppercased == BLPOP {
          BlockingPopKeepsFaithful(server, event.v, c, readers, event.now, event.clock);
        } else if meaning.op.DoPush? {
          PushKeepsFaithful(server, event.v, c, readers, event.now, event.clock);
        } else {
          WriteKeepsFaithful(server, event.v, c, readers, event.now, event.clock);
        }
      }
    }
  }

  lemma MalformedDoesNothing(server: Server, c: Command, readers: Readers, now: nat, clock: u64)
    requires !Interpret(c, readers, clock).Ask?
    ensures Dispatched(server, c, readers, now, clock) == server
  {
  }

  lemma OtherKeepsFaithful(server: Server, event: Event, readers: Readers)
    requires Faithful(server, readers) && Serial(event, readers) && !event.Sent?
    ensures Faithful(Happened(server, event, readers), readers)
  {
    hide InStep, TableOf, ReadStreams, Registered, Queued, NoDeadlines;
    var server' := Happened(server, event, readers);
    match event {
      case Looked(op, now) =>
        LookingDropsNothing(server.store, op, now);
        SameFile(server, server', TableOf(server.store.entries), readers);
      case GaveUp(channel) =>
        SameFile(server, server', TableOf(server.store.entries), readers);
    }
    QueuedStays(server, server');
  }

  lemma LookingDropsNothing(s: State, op: Op, now: nat)
    requires NoDeadlines(s.entries) && (op.Look? || op.Sweep? || op.DoXReadOrWatch? || op.LetGo?)
    ensures var s' := Step(s, op, now).0;
            s'.entries == s.entries && s'.waiters == s.waiters && s'.gone == s.gone && s'.channels == s.channels
  {
    hide ReadStreams, Registered;
    match op {
      case Look(key) => NothingExpires(s.entries, key, now);
      case DoXReadOrWatch(wanted) => ReadStreamsOnlyDrops(s.entries, wanted, now);
      case _ =>
    }
  }

  ghost predicate AllSerial(events: seq<Event>, readers: Readers) {
    forall i :: 0 <= i < |events| ==> Serial(events[i], readers)
  }

  function HappenedAll(server: Server, events: seq<Event>, readers: Readers): Server
    requires AllSerial(events, readers)
  {
    if events == [] then server
    else Happened(HappenedAll(server, events[..|events| - 1], readers), events[|events| - 1], readers)
  }

  /** A master just started from a snapshot, with an empty file taken up. */
  function Started(origin: State): Server {
    Server(origin, [], true, map[], Passing([], []), origin)
  }

  /** The same before the file is taken up, which is how one is played back; a replica's store starts so too. */
  function Replaying(origin: State): Server {
    Server(origin, [], false, map[], Silent, origin)
  }

  lemma {:induction false} RunsStayFaithful(server: Server, events: seq<Event>, readers: Readers)
    requires Faithful(server, readers) && AllSerial(events, readers)
    ensures Faithful(HappenedAll(server, events, readers), readers)
    decreases |events|
  {
    hide Happened, Faithful;
    if events != [] {
      var before, last := HappenedAll(server, events[..|events| - 1], readers), events[|events| - 1];
      RunsStayFaithful(server, events[..|events| - 1], readers);
      if last.Sent? {
        SentKeepsFaithful(before, last, readers);
      } else {
        OtherKeepsFaithful(before, last, readers);
      }
    }
  }

  lemma RunsAreFaithful(origin: State, events: seq<Event>, readers: Readers)
    requires Settled(origin) && AllSerial(events, readers)
    ensures Faithful(HappenedAll(Started(origin), events, readers), readers)
  {
    hide Happened, HappenedAll, InStep;
    StartedInStep(origin, readers);
    RunsStayFaithful(Started(origin), events, readers);
  }

  lemma StartedInStep(origin: State, readers: Readers)
    ensures InStep(Started(origin), TableOf(origin.entries), readers)
  {
    Framing.WholeLog([]);
    assert EncodeAll([]) == [];
  }

  // ----- Playing a log back -----

  /** A server being played to: nobody waiting, nothing written. */
  ghost predicate Quiet(server: Server) {
    !server.armed && server.link.Silent? && server.store.waiters == map[] && NoDeadlines(server.store.entries)
  }

  lemma ReplayStep(server: Server, v: Value, readers: Readers, now: nat, clock: u64)
    requires Quiet(server) && Logged(v, readers)
    ensures var after := Ran(server, v, readers, now, clock);
            && Quiet(after) && after.file == server.file && after.origin == server.origin
            && TableOf(after.store.entries) == Effect(TableOf(server.store.entries), OpOf(v, readers).value).0
  {
    hide Interpret, Effect, TableOf, Step, Told, WrittenDown, NoDeadlines, Readable;
    var c := CommandOf(v).value;
    SameAtAnyTime(c, readers, 0, clock);
    var op := Interpret(c, readers, clock).op;
    SameEffectAtAnyTime(v, c, readers, clock, TableOf(server.store.entries));
    var (store, reply) := Step(server.store, op, now);
    if op.DoPush? {
      PushToNobody(server.store, op, now);
    } else {
      StepDid(server.store, op, now);
    }
    NotArmed(server.(store := store), c, reply, NewlySent(server.store, store));
  }

  lemma PushToNobody(s: State, op: Op, now: nat)
    requires op.DoPush? && Asked(op) && s.waiters == map[] && NoDeadlines(s.entries)
    ensures Did(s, Step(s, op, now), op)
  {
    hide Effect, TableOf, Lists.Pushed;
    PushDid(s, op.key, op.elements, op.side, now);
    var s' := Push(s, op.key, op.elements, op.side, now).0;
    PushServesItsQueue(s, op.key, op.elements, op.side, now);
    StillNobody(s, op, now);
    PoppedNone(Effect(TableOf(s.entries), op).0, op.key);
  }

  lemma StillNobody(s: State, op: Op, now: nat)
    requires op.DoPush? && Asked(op) && s.waiters == map[]
    ensures var s' := Push(s, op.key, op.elements, op.side, now).0;
            s'.waiters == map[] && s'.sent == s.sent
  {
    assert s.sent + [] == s.sent;
  }

  lemma {:induction false} NotArmed(server: Server, c: Command, reply: Reply, deliveries: seq<Delivery>)
    requires !server.armed && server.link.Silent?
    ensures AnsweredAll(Answered(server, c, reply), deliveries) == server
    decreases |deliveries|
  {
    hide Told, WrittenDown;
    if deliveries != [] {
      var d := deliveries[0];
      if d.channel in server.blocked {
        NotArmed(server, server.blocked[d.channel], Ready(d.element), deliveries[1..]);
      } else {
        NotArmed(server, c, reply, deliveries[1..]);
      }
    }
  }

  lemma {:induction false} ReplayFollowsLog(origin: State, log: seq<Value>, readers: Readers, moments: seq<Moment>)
    requires Settled(origin) && AllLogged(log, readers) && |moments| == |log|
    ensures var server := Replayed(Replaying(origin), log, readers, moments);
            && Quiet(server) && server.file == [] && server.origin == origin
            && TableOf(server.store.entries) == TableAfter(TableOf(origin.entries), log, readers)
    decreases |log|
  {
    hide Ran, Effect, Logged, OpOf, TableOf;
    if log != [] {
      var last := |log| - 1;
      ReplayFollowsLog(origin, log[..last], readers, moments[..last]);
      ReplayStep(Replayed(Replaying(origin), log[..last], readers, moments[..last]), log[last], readers, moments[last].now, moments[last].clock);
    }
  }

  /**
   Whatever commands were dispatched, one after another, the file they left can
   be read through, and playing it back at whatever times gives a store holding
   the same value under every key, and writes nothing more.
   */
  lemma PlayingBackRebuildsTheTable(origin: State, events: seq<Event>, readers: Readers, moments: seq<Moment>)
    requires Settled(origin) && AllSerial(events, readers)
    requires var log := Framing.Replayable(HappenedAll(Started(origin), events, readers).file);
             log.Ok? ==> |moments| == |log.value|
    ensures var server := HappenedAll(Started(origin), events, readers);
            var log := Framing.Replayable(server.file);
            && log.Ok?
            && var replayed := Replayed(Replaying(origin), log.value, readers, moments);
               && TableOf(replayed.store.entries) == TableOf(server.store.entries)
               && replayed.file == []
  {
    hide HappenedAll, Framing.Replayable, TableOf, TableAfter, AllLogged, Replayed;
    var server := HappenedAll(Started(origin), events, readers);
    RunsAreFaithful(origin, events, readers);
    OriginStays(Started(origin), events, readers);
    ReplayFollowsLog(origin, Framing.Replayable(server.file).value, readers, moments);
  }

  // ----- What no command touches -----

  /** Only the list of what was passed on grows; where the server started from stays. */
  predicate PassesOn(server: Server, after: Server) {
    && after.origin == server.origin
    && match server.link
       case Silent => after.link.Silent?
       case Passing(earlier, passed) =>
         after.link.Passing? && after.link.earlier == earlier && passed <= after.link.passed
  }

  lemma AnsweredPassesOn(server: Server, c: Command, reply: Reply)
    ensures PassesOn(server, Answered(server, c, reply))
  {
    hide Told, WrittenDown, Encode;
  }

  lemma {:induction false} AnsweredAllPassesOn(server: Server, deliveries: seq<Delivery>)
    ensures PassesOn(server, AnsweredAll(server, deliveries))
    decreases |deliveries|
  {
    hide Answered;
    if deliveries != [] {
      var d := deliveries[0];
      if d.channel in server.blocked {
        var next := Answered(server, server.blocked[d.channel], Ready(d.element));
        AnsweredPassesOn(server, server.blocked[d.channel], Ready(d.element));
        AnsweredAllPassesOn(next, deliveries[1..]);
      } else {
        AnsweredAllPassesOn(server, deliveries[1..]);
      }
    }
  }

  lemma HappenedPassesOn(server: Server, event: Event, readers: Readers)
    requires Serial(event, readers)
    ensures PassesOn(server, Happened(server, event, readers))
  {
    hide Step, Interpret, Answered, AnsweredAll, CommandOf, Serial;
    if event.Sent? && CommandOf(event.v).Some? {
      var c := CommandOf(event.v).value;
      var meaning := Interpret(c, readers, event.clock);
      if meaning.Ask? {
        var (store, reply) := Step(server.store, meaning.op, event.now);
        var changed := server.(store := store);
        AnsweredPassesOn(changed, c, reply);
        AnsweredAllPassesOn(Answered(changed, c, reply), NewlySent(server.store, store));
      }
    }
  }

  lemma {:induction false} OriginStays(server: Server, events: seq<Event>, readers: Readers)
    requires AllSerial(events, readers)
    ensures HappenedAll(server, events, readers).origin == server.origin
    decreases |events|
  {
    hide Happened;
    if events != [] {
      var before, last := HappenedAll(server, events[..|events| - 1], readers), events[|events| - 1];
      OriginStays(server, events[..|events| - 1], readers);
      HappenedPassesOn(before, last, readers);
    }
  }

  // ----- Starting again -----

  function Moments(count: nat, when: nat -> Moment): (moments: seq<Moment>)
    ensures |moments| == count
  {
    seq(count, when)
  }

  /** Plays the file back over the same snapshot, then takes the same file up to append to. */
  function Restarted(server: Server, readers: Readers, when: nat -> Moment): Server {
    match Framing.Replayable(server.file)
    case Err(_) => server
    case Ok(log) =>
      var replayed := Replayed(Replaying(server.origin), log, readers, Moments(|log|, when));
      replayed.(file := server.file, armed := true,
                link := if server.link.Passing? then Passing(log, []) else Silent)
  }

  lemma RestartIsFaithful(server: Server, readers: Readers, when: nat -> Moment)
    requires Faithful(server, readers)
    ensures var again := Restarted(server, readers, when);
            && Faithful(again, readers)
            && again.file == server.file && TableOf(again.store.entries) == TableOf(server.store.entries)
  {
    hide Replayed, EncodeAll, Framing.Replayable, AllLogged, TableAfter, TableOf, NoDeadlines;
    var log := Framing.Replayable(server.file).value;
    ReplayFollowsLog(server.origin, log, readers, Moments(|log|, when));
    assert log + [] == log;
  }

  /** What a server does between two starts, and when the start after it replays each command. */
  datatype Life = Life(events: seq<Event>, when: nat -> Moment)

  function Lived(server: Server, lives: seq<Life>, readers: Readers): Server
    requires forall i :: 0 <= i < |lives| ==> AllSerial(lives[i].events, readers)
    decreases |lives|
  {
    if lives == [] then server
    else Lived(Restarted(HappenedAll(server, lives[0].events, readers), readers, lives[0].when), lives[1..], readers)
  }

  /** Any number of runs with a restart after each leaves a server whose file still means its table. */
  lemma {:induction false} RestartsStayFaithful(server: Server, lives: seq<Life>, readers: Readers)
    requires Faithful(server, readers)
    requires forall i :: 0 <= i < |lives| ==> AllSerial(lives[i].events, readers)
    ensures Faithful(Lived(server, lives, readers), readers)
    decreases |lives|
  {
    hide Faithful, Restarted, HappenedAll, AllSerial;
    if lives != [] {
      var ended := HappenedAll(server, lives[0].events, readers);
      RunsStayFaithful(server, lives[0].events, readers);
      RestartIsFaithful(ended, readers, lives[0].when);
      RestartsStayFaithful(Restarted(ended, readers, lives[0].when), lives[1..], readers);
    }
  }

  /** A log cut at any byte replays to the table its complete commands mean. */
  lemma ReplayingTornLog(origin: State, log: seq<Value>, n: nat, readers: Readers, when: nat -> Moment)
    requires Settled(origin) && AllLogged(log, readers) && n <= |EncodeAll(log)|
    ensures var k := Framing.WholeWithin(log, n);
            && Framing.Replayable(EncodeAll(log)[..n]) == Ok(log[..k])
            && AllLogged(log[..k], readers)
            && var server := Replayed(Replaying(origin), log[..k], readers, Moments(k, when));
               && server.file == []
               && TableOf(server.store.entries) == TableAfter(TableOf(origin.entries), log[..k], readers)
  {
    hide Replayed, EncodeAll, Framing.Replayable, Framing.WholeWithin, TableAfter, TableOf, OpOf, Recordable;
    var k := Framing.WholeWithin(log, n);
    assert AllReadable(log, MAX_DEPTH);
    Framing.TornLog(log, n);
    ReplayFollowsLog(origin, log[..k], readers, Moments(k, when));
  }
}
