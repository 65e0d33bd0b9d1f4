/**
 What each write does, said of the words a client sends and of what is then found
 in the store and in the reply. The name of a command may be in any mix of cases.
 */
module Spoken {
  import opened Base
  import opened Decimal
  import opened Resp
  import opened StoreState
  import opened StoreSteps
  import opened Commands
  import opened Replay
  import Lists
  import SortedSets
  import Streams
  import Utf8

  /** A command as it comes off the wire. */
  function Said(name: Bytes, args: seq<Bytes>): Value {
    Array(Bulks([name] + args))
  }

  predicate Names(name: Bytes, word: string) {
    IsAscii(word) && Uppercased(name) == Ascii(word)
  }

  lemma {:induction false} WordsAreSpelled()
    ensures SET == Ascii("SET") && INCR == Ascii("INCR") && RPUSH == Ascii("RPUSH") && LPUSH == Ascii("LPUSH")
    ensures LPOP == Ascii("LPOP") && BLPOP == Ascii("BLPOP") && XADD == Ascii("XADD") && ZADD == Ascii("ZADD")
    ensures ZREM == Ascii("ZREM") && GEOADD == Ascii("GEOADD") && EX == Ascii("EX") && PX == Ascii("PX")
    ensures STAR == Ascii("*")
  {
  }

  /** The words are matched in any mix of cases, and no other words match. */
  lemma {:induction false} NamesInAnyCase(name: Bytes, word: string)
    requires forall i :: 0 <= i < |word| ==> 'A' <= word[i] <= 'Z'
    ensures Names(name, word) <==>
            && |name| == |word|
            && forall i :: 0 <= i < |word| ==> name[i] == word[i] as int || name[i] == word[i] as int + ('a' as int - 'A' as int)
  {
    if Names(name, word) {
      forall i | 0 <= i < |word|
        ensures name[i] == word[i] as int || name[i] == word[i] as int + 32
      {
        assert Uppercased(name)[i] == Upper(name[i]) == Ascii(word)[i];
      }
    }
    if |name| == |word| && forall i :: 0 <= i < |word| ==> name[i] == word[i] as int || name[i] == word[i] as int + 32 {
      assert Uppercased(name) == Ascii(word);
    }
  }

  lemma {:induction false} AsciiIsText(s: Bytes)
    requires forall i :: 0 <= i < |s| ==> s[i] < 128
    ensures Utf8.IsText(s)
    decreases |s|
  {
    if s != [] {
      AsciiIsText(s[1..]);
    }
  }

  lemma {:induction false} NameIsText(name: Bytes, word: string)
    requires Names(name, word)
    ensures Utf8.IsText(name)
  {
    forall i | 0 <= i < |name|
      ensures name[i] < 128
    {
      assert Uppercased(name)[i] == Upper(name[i]) == Ascii(word)[i];
    }
    AsciiIsText(name);
  }

  /** What the client is answered, where the command writes and does not have to wait. */
  function Replied(server: Server, v: Value, readers: Readers, now: nat, clock: u64): Option<Value> {
    match CommandOf(v)
    case None => Some(REFUSAL)
    case Some(c) =>
      match Interpret(c, readers, clock)
      case Malformed => Some(REFUSAL)
      case WritesNothing => None
      case Ask(op) =>
        var reply := Step(server.store, op, now).1;
        if reply.Waiting? then None else Some(Told(c, reply))
  }

  lemma {:induction false} CommandOfSaid(name: Bytes, args: seq<Bytes>)
    requires Utf8.IsText(name)
    ensures CommandOf(Said(name, args)) == Some(Command(Uppercased(name), name, args))
  {
    var words := [name] + args;
    assert Words(Bulks(words)) == words;
    assert words[1..] == args;
  }

  lemma {:induction false} AnsweredKeepsStore(server: Server, c: Command, reply: Reply)
    ensures Answered(server, c, reply).store == server.store && Answered(server, c, reply).blocked == server.blocked
  {
  }

  lemma {:induction false} AnsweredAllKeepsStore(server: Server, deliveries: seq<Delivery>)
    ensures AnsweredAll(server, deliveries).store == server.store
    decreases |deliveries|
  {
    hide Answered;
    if deliveries != [] {
      var d := deliveries[0];
      if d.channel in server.blocked {
        AnsweredKeepsStore(server, server.blocked[d.channel], Ready(d.element));
        AnsweredAllKeepsStore(Answered(server, server.blocked[d.channel], Ready(d.element)), deliveries[1..]);
      } else {
        AnsweredAllKeepsStore(server, deliveries[1..]);
      }
    }
  }

  /** The command asks for this step, so the store takes it and the client is told its reply. */
  ghost predicate Carried(server: Server, name: Bytes, args: seq<Bytes>, op: Op, readers: Readers, now: nat, clock: u64) {
    && Asked(op)
    && var (store, reply) := Step(server.store, op, now);
       && Ran(server, Said(name, args), readers, now, clock).store == store
       && Replied(server, Said(name, args), readers, now, clock)
          == if reply.Waiting? then None else Some(Told(Command(Uppercased(name), name, args), reply))
  }

  lemma {:induction false} CarriesOut(server: Server, name: Bytes, args: seq<Bytes>, op: Op, readers: Readers, now: nat, clock: u64)
    requires Utf8.IsText(name) && Interpret(Command(Uppercased(name), name, args), readers, clock) == Ask(op)
    ensures Carried(server, name, args, op, readers, now, clock)
  {
    hide Interpret, Step, Answered, AnsweredAll, CommandOf, Told;
    CommandOfSaid(name, args);
    var c := Command(Uppercased(name), name, args);
    var (store, reply) := Step(server.store, op, now);
    var changed := server.(store := store);
    AnsweredKeepsStore(changed, c, reply);
    AnsweredAllKeepsStore(Answered(changed, c, reply), NewlySent(server.store, store));
  }

  ghost predicate Refuses(server: Server, name: Bytes, args: seq<Bytes>, readers: Readers, now: nat, clock: u64) {
    && Ran(server, Said(name, args), readers, now, clock) == server
    && Replied(server, Said(name, args), readers, now, clock) == Some(REFUSAL)
  }

  lemma {:induction false} RefusesOutright(server: Server, name: Bytes, args: seq<Bytes>, readers: Readers, now: nat, clock: u64)
    requires Utf8.IsText(name) && Interpret(Command(Uppercased(name), name, args), readers, clock).Malformed?
    ensures Refuses(server, name, args, readers, now, clock)
  {
    hide Interpret, CommandOf;
    CommandOfSaid(name, args);
  }

  // ----- Strings -----

  /** `SET key value`: the key holds the value and never expires, whatever it held before. */
  lemma {:induction false} SetStores(server: Server, name: Bytes, key: Key, value: Bytes, readers: Readers, now: nat, clock: u64)
    requires Names(name, "SET")
    ensures var after := Ran(server, Said(name, [key, value]), readers, now, clock).store;
            after == server.store.(entries := server.store.entries[key := Entry(Text(value), None, server.store.changes + 1)],
                                   changes := server.store.changes + 1)
    ensures Replied(server, Said(name, [key, value]), readers, now, clock) == Some(SimpleString(Ascii("OK")))
  {
    hide Ran, Replied, Said;
    NameIsText(name, "SET");
    WordsAreSpelled();
    var args := [key, value];
    assert args[2..] == [];
    CarriesOut(server, name, args, DoSet(key, value, None), readers, now, clock);
    assert Ascii("OK") == [79, 75];
  }

  /** `EX` gives it that many seconds, `PX` that many milliseconds, and no more. */
  lemma {:induction false} SetExpires(server: Server, name: Bytes, key: Key, value: Bytes, unit: Bytes, amount: nat, readers: Readers,
                   now: nat, clock: u64)
    requires Names(name, "SET") && amount < U64_END && (Names(unit, "EX") || Names(unit, "PX"))
    ensures var after := Ran(server, Said(name, [key, value, unit, Print(amount)]), readers, now, clock).store.entries;
            && key in after && after - {key} == server.store.entries - {key}
            && after[key].data == Text(value)
            && forall t: nat :: Expired(after[key], t) <==> t >= now + if Names(unit, "EX") then 1000 * amount else amount
  {
    hide Ran, Replied, Said, Print, ParseUnsigned;
    NameIsText(name, "SET");
    WordsAreSpelled();
    var args := [key, value, unit, Print(amount)];
    assert args[2..] == [unit, Print(amount)];
    UnsignedReadBack(amount, U64_END);
    assert EX != PX;
    var left := if Names(unit, "EX") then 1000 * amount else amount;
    CarriesOut(server, name, args, DoSet(key, value, Some(left)), readers, now, clock);
  }

  /** Anything else after the value, and the whole command is refused. */
  lemma {:induction false} SetRefuses(server: Server, name: Bytes, args: seq<Bytes>, readers: Readers, now: nat, clock: u64)
    requires Names(name, "SET")
    requires || |args| < 2 || |args| == 3 || |args| > 4
             || (|args| == 4 && !Names(args[2], "EX") && !Names(args[2], "PX"))
             || (|args| == 4 && ParseUnsigned(args[3], U64_END).None?)
    ensures Refuses(server, name, args, readers, now, clock)
  {
    hide Ran, Replied, Said, ParseUnsigned, Refuses;
    NameIsText(name, "SET");
    WordsAreSpelled();
    if |args| >= 2 {
      var options := args[2..];
      assert |options| == 2 ==> options[0] == args[2] && options[1] == args[3];
    }
    RefusesOutright(server, name, args, readers, now, clock);
  }

  /** `INCR`: a number one higher under the same deadline, starting from nought; anything that is no number is left alone. */
  lemma {:induction false} IncrCounts(server: Server, name: Bytes, key: Key, readers: Readers, now: nat, clock: u64)
    requires Names(name, "INCR")
    ensures var live, after := Live(server.store.entries, key, now), Ran(server, Said(name, [key]), readers, now, clock).store;
            var reply := Replied(server, Said(name, [key]), readers, now, clock);
            && (key !in live ==>
                  && after.entries == live[key := Entry(Text(Ascii("1")), None, server.store.changes + 1)]
                  && reply == Some(Integer(1)))
            && (forall n :: I64_MIN <= n < I64_MAX && key in live && live[key].data == Text(Print(n)) ==>
                  && after.entries == live[key := live[key].(data := Text(Print(n + 1)), version := server.store.changes + 1)]
                  && reply == Some(Integer(n + 1)))
            && (key in live && (forall n :: I64_MIN <= n < I64_MAX ==> live[key].data != Text(Print(n))) ==>
                  after.entries == live && reply == Some(REFUSAL))
  {
    hide Ran, Replied, Said, Print, AsNumber, Live;
    NameIsText(name, "INCR");
    WordsAreSpelled();
    CarriesOut(server, name, [key], DoIncrement(key), readers, now, clock);
    var live := Live(server.store.entries, key, now);
    NumbersHaveOneSpelling([48], 0);
    PrintOfOne();
    if key in live && live[key].data.Text? {
      var value := live[key].data.value;
      forall n
        ensures AsNumber(value) == Some(n) <==> I64_MIN <= n <= I64_MAX && value == Print(n)
      {
        NumbersHaveOneSpelling(value, n);
      }
    }
  }

  lemma {:induction false} PrintOfOne()
    ensures Print(0) == [48] && Print(1) == Ascii("1")
  {
  }

  // ----- Lists -----

  /** What a key holds as a list: nothing where it is absent, and `None` where it is something else. */
  function ListAt(s: State, key: Key, now: nat): Option<seq<Bytes>> {
    var live := Live(s.entries, key, now);
    if key !in live then Some([]) else if live[key].data.List? then Some(live[key].data.elements) else None
  }

  /**
   A push leaves the whole list, old and new, less what goes to the clients
   waiting: the first of them gets its first element and so on.
   */
  ghost predicate PushedInto(s: State, key: Key, all: seq<Bytes>, now: nat, after: State) {
    var live, open := Live(s.entries, key, now), Lists.Open(QueueOf(s.waiters, key), s.gone);
    var n := Min(|open|, |all|);
    && (if n == |all| then after.entries == live - {key}
        else after.entries == live[key := Entry(List(all[n..]), None, s.changes + 1)])
    && Delivered(s.sent, open[..n], all[..n], after.sent)
  }

  /** Deliveries made after the earlier ones, one to each of some clients. */
  predicate Delivered(before: seq<Delivery>, clients: seq<nat>, elements: seq<Bytes>, after: seq<Delivery>)
    requires |clients| == |elements|
  {
    && |after| == |before| + |clients| && before <= after
    && forall i :: 0 <= i < |clients| ==> after[|before| + i] == Delivery(clients[i], elements[i])
  }

  lemma {:induction false} DeliveredAre(before: seq<Delivery>, clients: seq<nat>, elements: seq<Bytes>, sent: seq<Delivery>)
    requires |sent| <= |clients| && |sent| <= |elements|
    requires forall i :: 0 <= i < |sent| ==> sent[i] == Delivery(clients[i], elements[i])
    ensures Delivered(before, clients[..|sent|], elements[..|sent|], before + sent)
  {
  }

  /** And the reply counts what there was before any of it was handed out. */
  ghost predicate Pushes(server: Server, v: Value, key: Key, all: seq<Bytes>, readers: Readers, now: nat, clock: u64) {
    && PushedInto(server.store, key, all, now, Ran(server, v, readers, now, clock).store)
    && Replied(server, v, readers, now, clock) == Some(Integer(|all|))
  }

  lemma {:induction false} PushIntoStore(s: State, key: Key, elements: seq<Bytes>, side: Lists.Side, now: nat)
    requires elements != [] && ListAt(s, key, now).Some?
    ensures var all := Lists.Pushed(ListAt(s, key, now).value, elements, side);
            var (after, reply) := Push(s, key, elements, side, now);
            PushedInto(s, key, all, now, after) && reply == Count(|all|)
  {
    hide Lists.Serve, Lists.Open, Lists.Pushed, Live, WithQueue, QueueOf, Delivered;
    var all := Lists.Pushed(ListAt(s, key, now).value, elements, side);
    var queue := QueueOf(s.waiters, key);
    Lists.ServedInOrder(all, queue, s.gone);
    DeliveredAre(s.sent, Lists.Open(queue, s.gone), all, Lists.Serve(all, queue, s.gone).sent);
  }

  lemma {:induction false} PushedIs(server: Server, name: Bytes, args: seq<Bytes>, key: Key, elements: seq<Bytes>, side: Lists.Side,
                 readers: Readers, now: nat, clock: u64)
    requires elements != [] && ListAt(server.store, key, now).Some?
    requires Carried(server, name, args, DoPush(key, elements, side), readers, now, clock)
    ensures var all := Lists.Pushed(ListAt(server.store, key, now).value, elements, side);
            Pushes(server, Said(name, args), key, all, readers, now, clock)
  {
    hide Ran, Replied, Said, Lists.Pushed, Push, ListAt, PushedInto;
    PushIntoStore(server.store, key, elements, side, now);
  }

  /** `RPUSH` puts the elements after what was there, in the order they were given. */
  lemma {:induction false} RPushAppends(server: Server, name: Bytes, key: Key, elements: seq<Bytes>, readers: Readers, now: nat, clock: u64)
    requires Names(name, "RPUSH") && elements != [] && ListAt(server.store, key, now).Some?
    ensures Pushes(server, Said(name, [key] + elements), key, ListAt(server.store, key, now).value + elements, readers, now, clock)
  {
    hide Ran, Replied, Said, Pushes, ListAt, Carried;
    NameIsText(name, "RPUSH");
    WordsAreSpelled();
    var args := [key] + elements;
    assert args[1..] == elements;
    CarriesOut(server, name, args, DoPush(key, elements, Lists.Right), readers, now, clock);
    PushedIs(server, name, args, key, elements, Lists.Right, readers, now, clock);
  }

  /** `LPUSH` puts them before it, the last given first. */
  lemma {:induction false} LPushPrepends(server: Server, name: Bytes, key: Key, elements: seq<Bytes>, all: seq<Bytes>, readers: Readers,
                      now: nat, clock: u64)
    requires Names(name, "LPUSH") && elements != [] && ListAt(server.store, key, now).Some?
    requires |all| == |elements| + |ListAt(server.store, key, now).value|
    requires forall i :: 0 <= i < |elements| ==> all[i] == elements[|elements| - 1 - i]
    requires all[|elements|..] == ListAt(server.store, key, now).value
    ensures Pushes(server, Said(name, [key] + elements), key, all, readers, now, clock)
  {
    hide Ran, Replied, Said, Pushes, ListAt, Carried;
    NameIsText(name, "LPUSH");
    WordsAreSpelled();
    var args := [key] + elements;
    assert args[1..] == elements;
    CarriesOut(server, name, args, DoPush(key, elements, Lists.Left), readers, now, clock);
    PushedIs(server, name, args, key, elements, Lists.Left, readers, now, clock);
    forall i | 0 <= i < |elements|
      ensures Lists.Reversed(elements)[i] == all[i]
    {
      Lists.ReversedAt(elements, i);
    }
    assert all == all[..|elements|] + all[|elements|..];
    assert all[..|elements|] == Lists.Reversed(elements);
  }

  /** Pushing to something that is no list, or pushing nothing, is refused. */
  lemma {:induction false} PushRefuses(server: Server, name: Bytes, args: seq<Bytes>, readers: Readers, now: nat, clock: u64)
    requires Names(name, "RPUSH") || Names(name, "LPUSH")
    requires |args| < 2 || ListAt(server.store, args[0], now).None?
    ensures Replied(server, Said(name, args), readers, now, clock) == Some(REFUSAL)
    ensures OnlyDropped(server.store.entries, Ran(server, Said(name, args), readers, now, clock).store.entries, now)
  {
    hide Ran, Replied, Said, Refuses, Carried;
    WordsAreSpelled();
    if Names(name, "RPUSH") {
      NameIsText(name, "RPUSH");
    } else {
      NameIsText(name, "LPUSH");
    }
    if |args| < 2 {
      RefusesOutright(server, name, args, readers, now, clock);
      RefusesMeans(server, name, args, readers, now, clock);
    } else {
      var side := if Names(name, "RPUSH") then Lists.Right else Lists.Left;
      assert RPUSH != LPUSH;
      CarriesOut(server, name, args, DoPush(args[0], args[1..], side), readers, now, clock);
      WrongTypePush(server, name, args, side, readers, now, clock);
    }
  }

  lemma {:induction false} RefusesMeans(server: Server, name: Bytes, args: seq<Bytes>, readers: Readers, now: nat, clock: u64)
    requires Refuses(server, name, args, readers, now, clock)
    ensures Replied(server, Said(name, args), readers, now, clock) == Some(REFUSAL)
    ensures OnlyDropped(server.store.entries, Ran(server, Said(name, args), readers, now, clock).store.entries, now)
  {
    hide Ran, Replied, Said;
  }

  lemma {:induction false} WrongTypePush(server: Server, name: Bytes, args: seq<Bytes>, side: Lists.Side, readers: Readers, now: nat, clock: u64)
    requires |args| >= 2 && ListAt(server.store, args[0], now).None?
    requires Carried(server, name, args, DoPush(args[0], args[1..], side), readers, now, clock)
    ensures Replied(server, Said(name, args), readers, now, clock) == Some(REFUSAL)
    ensures OnlyDropped(server.store.entries, Ran(server, Said(name, args), readers, now, clock).store.entries, now)
  {
    hide Ran, Replied, Said, Lists.Serve, Lists.Pushed;
  }

  /** What a pop takes followed by what it leaves is the list there was; an emptied key is gone. */
  ghost predicate Pops(server: Server, v: Value, key: Key, n: nat, readers: Readers, now: nat, clock: u64)
    requires ListAt(server.store, key, now).Some? && n <= |ListAt(server.store, key, now).value|
  {
    var s, list := server.store, ListAt(server.store, key, now).value;
    var live := Live(s.entries, key, now);
    Ran(server, v, readers, now, clock).store.entries ==
    if n == 0 then live
    else if n == |list| then live - {key}
    else live[key := Entry(List(list[n..]), None, s.changes + 1)]
  }

  /** `LPOP key`: the first element, or nothing. */
  lemma {:induction false} LPopTakesOne(server: Server, name: Bytes, key: Key, readers: Readers, now: nat, clock: u64)
    requires Names(name, "LPOP") && ListAt(server.store, key, now).Some?
    ensures var list := ListAt(server.store, key, now).value;
            && Pops(server, Said(name, [key]), key, Min(1, |list|), readers, now, clock)
            && Replied(server, Said(name, [key]), readers, now, clock) == Some(if list == [] then Null else BulkString(list[0]))
  {
    hide Ran, Replied, Said, Live;
    NameIsText(name, "LPOP");
    WordsAreSpelled();
    CarriesOut(server, name, [key], DoLPop(key, 1), readers, now, clock);
  }

  /** `LPOP key count`: the first so many, in order. */
  lemma {:induction false} LPopTakesSome(server: Server, name: Bytes, key: Key, count: nat, readers: Readers, now: nat, clock: u64)
    requires Names(name, "LPOP") && ListAt(server.store, key, now).Some? && count <= I64_MAX
    ensures var list := ListAt(server.store, key, now).value;
            var n, v := Min(count, |list|), Said(name, [key, Print(count)]);
            && Pops(server, v, key, n, readers, now, clock)
            && Replied(server, v, readers, now, clock) == Some(Array(Bulks(list[..n])))
  {
    hide Ran, Replied, Said, Live, Print, Interpret, Uppercased;
    LPopCarriesOut(server, name, key, count, readers, now, clock);
    var list := ListAt(server.store, key, now).value;
    assert list[..0] == [];
  }

  lemma {:induction false} LPopCarriesOut(server: Server, name: Bytes, key: Key, count: nat, readers: Readers, now: nat, clock: u64)
    requires Names(name, "LPOP") && count <= I64_MAX
    ensures Carried(server, name, [key, Print(count)], DoLPop(key, count), readers, now, clock)
  {
    hide Carried, Print, ParseI64;
    NameIsText(name, "LPOP");
    WordsAreSpelled();
    SignedReadBack(count);
    CarriesOut(server, name, [key, Print(count)], DoLPop(key, count), readers, now, clock);
  }

  /** `BLPOP` of a list with something in it takes the first element and says where it came from. */
  lemma {:induction false} BLPopTakesOne(server: Server, name: Bytes, key: Key, timeout: Bytes, readers: Readers, now: nat, clock: u64)
    requires Names(name, "BLPOP") && ListAt(server.store, key, now).Some? && ListAt(server.store, key, now).value != []
    requires readers.score(timeout).Some? && readers.score(timeout).value.Finite?
    requires 0.0 <= readers.score(timeout).value.number < U64_END as real
    ensures var list, v := ListAt(server.store, key, now).value, Said(name, [key, timeout]);
            && Pops(server, v, key, 1, readers, now, clock)
            && Replied(server, v, readers, now, clock) == Some(Array([BulkString(key), BulkString(list[0])]))
  {
    hide Ran, Replied, Said, Live, Lists.Open;
    NameIsText(name, "BLPOP");
    WordsAreSpelled();
    CarriesOut(server, name, [key, timeout], DoBLPop(key), readers, now, clock);
    var list := ListAt(server.store, key, now).value;
    assert Bulks([key, list[0]]) == [BulkString(key), BulkString(list[0])];
  }

  /** `BLPOP` of an absent key joins the end of the queue for it, over a channel of its own, and is not answered yet. */
  lemma {:induction false} BLPopWaits(server: Server, name: Bytes, key: Key, timeout: Bytes, readers: Readers, now: nat, clock: u64)
    requires Names(name, "BLPOP") && key !in Live(server.store.entries, key, now)
    requires readers.score(timeout).Some? && readers.score(timeout).value.Finite?
    requires 0.0 <= readers.score(timeout).value.number < U64_END as real
    ensures var s, v := server.store, Said(name, [key, timeout]);
            var after := Ran(server, v, readers, now, clock).store;
            && Replied(server, v, readers, now, clock) == None
            && after.entries == Live(s.entries, key, now) && after.channels == s.channels + 1
            && after.waiters == s.waiters[key := Lists.Open(QueueOf(s.waiters, key), s.gone) + [s.channels]]
  {
    hide Ran, Replied, Said, Live, Lists.Open;
    NameIsText(name, "BLPOP");
    WordsAreSpelled();
    CarriesOut(server, name, [key, timeout], DoBLPop(key), readers, now, clock);
  }

  /** Popping with the wrong words, a count below nought, or from what is no list, takes nothing. */
  lemma {:induction false} PopRefuses(server: Server, name: Bytes, args: seq<Bytes>, readers: Readers, now: nat, clock: u64)
    requires Names(name, "LPOP")
    requires || |args| == 0 || |args| > 2
             || (|args| == 2 && ParseI64(args[1]).None?)
             || (|args| == 2 && ParseI64(args[1]).value < 0)
             || ListAt(server.store, args[0], now).None?
    ensures Replied(server, Said(name, args), readers, now, clock) == Some(REFUSAL)
    ensures OnlyDropped(server.store.entries, Ran(server, Said(name, args), readers, now, clock).store.entries, now)
  {
    hide Ran, Replied, Said, Refuses, Carried, ParseI64;
    WordsAreSpelled();
    NameIsText(name, "LPOP");
    if |args| == 0 || |args| > 2 || (|args| == 2 && (ParseI64(args[1]).None? || ParseI64(args[1]).value < 0)) {
      RefusesOutright(server, name, args, readers, now, clock);
      RefusesMeans(server, name, args, readers, now, clock);
    } else {
      var count := if |args| == 1 then 1 else ParseI64(args[1]).value;
      CarriesOut(server, name, args, DoLPop(args[0], count), readers, now, clock);
      WrongTypePop(server, name, args, count, readers, now, clock);
    }
  }

  lemma {:induction false} WrongTypePop(server: Server, name: Bytes, args: seq<Bytes>, count: nat, readers: Readers, now: nat, clock: u64)
    requires args != [] && ListAt(server.store, args[0], now).None?
    requires Carried(server, name, args, DoLPop(args[0], count), readers, now, clock)
    ensures Replied(server, Said(name, args), readers, now, clock) == Some(REFUSAL)
    ensures OnlyDropped(server.store.entries, Ran(server, Said(name, args), readers, now, clock).store.entries, now)
  {
    hide Ran, Replied, Said;
  }

  /** Too many words or too few, and nothing is done. */
  lemma {:induction false} WrongArityRefuses(server: Server, name: Bytes, args: seq<Bytes>, readers: Readers, now: nat, clock: u64)
    requires || (Names(name, "INCR") && |args| != 1)
             || (Names(name, "BLPOP") && |args| != 2)
             || (Names(name, "ZREM") && |args| < 2)
             || (Names(name, "ZADD") && (|args| < 2 || |args| % 2 != 1))
             || (Names(name, "GEOADD") && (|args| < 4 || |args| % 3 != 1))
             || (Names(name, "XADD") && (|args| < 4 || |args| % 2 != 0))
    ensures Refuses(server, name, args, readers, now, clock)
  {
    hide Refuses, Ascii;
    WordsAreSpelled();
    assert Utf8.IsText(name) by {
      if Names(name, "INCR") { NameIsText(name, "INCR"); }
      if Names(name, "BLPOP") { NameIsText(name, "BLPOP"); }
      if Names(name, "ZREM") { NameIsText(name, "ZREM"); }
      if Names(name, "ZADD") { NameIsText(name, "ZADD"); }
      if Names(name, "GEOADD") { NameIsText(name, "GEOADD"); }
      if Names(name, "XADD") { NameIsText(name, "XADD"); }
    }
    RefusesOutright(server, name, args, readers, now, clock);
  }

  /** A timeout that is no number, is below nought or cannot be held is refused. */
  lemma {:induction false} BLPopRefusesTimeout(server: Server, name: Bytes, key: Key, timeout: Bytes, readers: Readers, now: nat, clock: u64)
    requires Names(name, "BLPOP")
    requires var score := readers.score(timeout);
             score.None? || !score.value.Finite? || score.value.number < 0.0 || score.value.number >= U64_END as real
    ensures Refuses(server, name, [key, timeout], readers, now, clock)
  {
    hide Refuses;
    NameIsText(name, "BLPOP");
    WordsAreSpelled();
    RefusesOutright(server, name, [key, timeout], readers, now, clock);
  }

  // ----- Sorted sets -----

  /** Words two by two, one pair after another. */
  function InPairs(pairs: seq<(Bytes, Bytes)>): (words: seq<Bytes>)
    ensures |words| == 2 * |pairs|
  {
    if pairs == [] then [] else [pairs[0].0, pairs[0].1] + InPairs(pairs[1..])
  }

  function InThrees(threes: seq<(Bytes, Bytes, Bytes)>): (words: seq<Bytes>)
    ensures |words| == 3 * |threes|
  {
    if threes == [] then [] else [threes[0].0, threes[0].1, threes[0].2] + InThrees(threes[1..])
  }

  function SetAt(s: State, key: Key, now: nat): Option<seq<Member>> {
    var live := Live(s.entries, key, now);
    if key !in live then Some([]) else if live[key].data.SortedSet? then Some(live[key].data.members) else None
  }

  function ScoreOf(members: seq<Member>, name: Bytes): Option<Score> {
    var scores := SortedSets.Scores(members);
    if name in scores then Some(scores[name]) else None
  }

  /** The score the last of some members to have a name gives it. */
  function LastGiven(more: seq<Member>, name: Bytes): Option<Score> {
    if more == [] then None
    else if more[|more| - 1].name == name then Some(more[|more| - 1].score)
    else LastGiven(more[..|more| - 1], name)
  }

  lemma {:induction false} ScoresWithSnoc(scores: map<Bytes, Score>, more: seq<Member>, last: Member)
    ensures SortedSets.ScoresWith(scores, more + [last]) == SortedSets.ScoresWith(scores, more)[last.name := last.score]
    decreases |more|
  {
    if more == [] {
      assert more + [last] == [last] && [last][1..] == [];
    } else {
      assert (more + [last])[1..] == more[1..] + [last];
      ScoresWithSnoc(scores[more[0].name := more[0].score], more[1..], last);
    }
  }

  lemma {:induction false} LastGivenWins(scores: map<Bytes, Score>, more: seq<Member>, name: Bytes)
    ensures var all, given := SortedSets.ScoresWith(scores, more), LastGiven(more, name);
            && (name in all <==> given.Some? || name in scores)
            && (name in all ==> all[name] == if given.Some? then given.value else scores[name])
    decreases |more|
  {
    hide SortedSets.ScoresWith;
    if more == [] {
      assert SortedSets.ScoresWith(scores, []) == scores by { NoneGiven(scores); }
    } else {
      var front, last := more[..|more| - 1], more[|more| - 1];
      assert more == front + [last];
      LastGivenWins(scores, front, name);
      ScoresWithSnoc(scores, front, last);
    }
  }

  lemma {:induction false} NoneGiven(scores: map<Bytes, Score>)
    ensures SortedSets.ScoresWith(scores, []) == scores
  {
  }

  /** Members added: the set stays in order, each name has the score last given it, and the reply counts the new names. */
  ghost predicate Adds(server: Server, v: Value, key: Key, more: seq<Member>, readers: Readers, now: nat, clock: u64)
    requires SetAt(server.store, key, now).Some?
  {
    var s, after := server.store, Ran(server, v, readers, now, clock).store;
    var live, before := Live(s.entries, key, now), SetAt(s, key, now).value;
    && key in after.entries && after.entries[key].data.SortedSet? && after.entries - {key} == live - {key}
    && var all := after.entries[key].data.members;
       && SortedSets.Ordered(all)
       && (forall name :: ScoreOf(all, name) == if LastGiven(more, name).Some? then LastGiven(more, name) else ScoreOf(before, name))
       && Replied(server, v, readers, now, clock) == Some(Integer(|all| - |before|))
  }

  lemma {:induction false} AddedIs(server: Server, name: Bytes, args: seq<Bytes>, key: Key, more: seq<Member>, readers: Readers, now: nat, clock: u64)
    requires Inv(server.store) && more != [] && SetAt(server.store, key, now).Some?
    requires Carried(server, name, args, DoZAdd(key, more), readers, now, clock)
    ensures Adds(server, Said(name, args), key, more, readers, now, clock)
  {
    hide Ran, Replied, Said, Inv, SortedSets.AddedAll, SortedSets.Ordered, SortedSets.Scores, SetAt, ScoreOf, LastGiven, ZAdd;
    var before := SetAt(server.store, key, now).value;
    AddedScores(server.store, key, more, now);
    AddedInStore(server.store, key, more, now);
  }

  lemma {:induction false} AddedScores(s: State, key: Key, more: seq<Member>, now: nat)
    requires Inv(s) && SetAt(s, key, now).Some?
    ensures var before := SetAt(s, key, now).value;
            var all := SortedSets.AddedAll(before, more);
            && SortedSets.Ordered(all) && |SortedSets.Scores(before)| == |before| <= |all| == |SortedSets.Scores(all)|
            && forall name :: ScoreOf(all, name) == if LastGiven(more, name).Some? then LastGiven(more, name) else ScoreOf(before, name)
  {
    hide Inv, SortedSets.AddedAll, SortedSets.Ordered, SortedSets.Scores, SetAt, SortedSets.ScoresWith, LastGiven;
    var before := SetAt(s, key, now).value;
    SetIsInOrder(s, key, now);
    var all := SortedSets.AddedAll(before, more);
    SortedSets.AddedAllIs(before, more);
    SortedSets.ScoresSize(before);
    SortedSets.ScoresSize(all);
    Grows(SortedSets.Scores(before), SortedSets.Scores(all));
    forall n
      ensures ScoreOf(all, n) == if LastGiven(more, n).Some? then LastGiven(more, n) else ScoreOf(before, n)
    {
      LastGivenWins(SortedSets.Scores(before), more, n);
    }
  }

  lemma {:induction false} AddedInStore(s: State, key: Key, more: seq<Member>, now: nat)
    requires more != [] && SetAt(s, key, now).Some?
    ensures var (after, reply) := ZAdd(s, key, more, now);
            var before, live := SetAt(s, key, now).value, Live(s.entries, key, now);
            var all := SortedSets.AddedAll(before, more);
            var added := |SortedSets.Scores(all)| - |SortedSets.Scores(before)|;
            && key in after.entries && after.entries[key].data == SortedSet(all) && after.entries - {key} == live - {key}
            && (added >= 0 ==> reply == Count(added))
  {
    hide SortedSets.AddedAll, SortedSets.Scores, Live;
  }

  lemma {:induction false} Grows(a: map<Bytes, Score>, b: map<Bytes, Score>)
    requires a.Keys <= b.Keys
    ensures |a| <= |b|
  {
    assert |a.Keys| + |b.Keys - a.Keys| == |b.Keys| by {
      assert b.Keys == a.Keys + (b.Keys - a.Keys);
    }
  }

  lemma {:induction false} SetIsInOrder(s: State, key: Key, now: nat)
    requires Inv(s) && SetAt(s, key, now).Some?
    ensures SortedSets.Ordered(SetAt(s, key, now).value)
  {
    if key in s.entries {
      assert Sound(s.entries[key], s.changes);
    }
  }

  /** The members `ZADD` names: each with the score read from the word before it. */
  lemma {:induction false} ScoredIs(pairs: seq<(Bytes, Bytes)>, members: seq<Member>, readers: Readers)
    requires |members| == |pairs|
    requires forall i :: 0 <= i < |pairs| ==> readers.score(pairs[i].0) == Some(members[i].score) && members[i].name == pairs[i].1
    ensures Scored(InPairs(pairs), readers) == Some(members)
    decreases |pairs|
  {
    if pairs != [] {
      assert InPairs(pairs)[2..] == InPairs(pairs[1..]);
      ScoredIs(pairs[1..], members[1..], readers);
      assert members == [Member(members[0].score, members[0].name)] + members[1..];
    }
  }

  lemma {:induction false} ScoredFails(pairs: seq<(Bytes, Bytes)>, i: nat, readers: Readers)
    requires i < |pairs| && readers.score(pairs[i].0).None?
    ensures Scored(InPairs(pairs), readers).None?
    decreases |pairs|
  {
    assert InPairs(pairs)[2..] == InPairs(pairs[1..]);
    if i > 0 {
      ScoredFails(pairs[1..], i - 1, readers);
    }
  }

  lemma {:induction false} ZAddCarriesOut(server: Server, name: Bytes, key: Key, pairs: seq<(Bytes, Bytes)>, members: seq<Member>,
                                          readers: Readers, now: nat, clock: u64)
    requires Names(name, "ZADD") && pairs != [] && |members| == |pairs|
    requires forall i :: 0 <= i < |pairs| ==> readers.score(pairs[i].0) == Some(members[i].score) && members[i].name == pairs[i].1
    ensures Carried(server, name, [key] + InPairs(pairs), DoZAdd(key, members), readers, now, clock)
  {
    hide Carried, Scored, InPairs, Interpret;
    NameIsText(name, "ZADD");
    WordsAreSpelled();
    ScoredIs(pairs, members, readers);
    var words := InPairs(pairs);
    ZAddAsks(name, key, words, members, readers, clock);
    CarriesOut(server, name, [key] + words, DoZAdd(key, members), readers, now, clock);
  }

  lemma {:induction false} ZAddAsks(name: Bytes, key: Key, words: seq<Bytes>, members: seq<Member>, readers: Readers, clock: u64)
    requires |words| >= 2 && |words| % 2 == 0 && Scored(words, readers) == Some(members)
    ensures Interpret(Command(ZADD, name, [key] + words), readers, clock) == Ask(DoZAdd(key, members))
  {
    hide Scored;
    assert ([key] + words)[1..] == words;
  }

  /** `ZADD key score member ...` */
  lemma {:induction false} ZAddScores(server: Server, name: Bytes, key: Key, pairs: seq<(Bytes, Bytes)>, members: seq<Member>, readers: Readers,
                   now: nat, clock: u64)
    requires Names(name, "ZADD") && Inv(server.store) && pairs != [] && SetAt(server.store, key, now).Some?
    requires |members| == |pairs|
    requires forall i :: 0 <= i < |pairs| ==> readers.score(pairs[i].0) == Some(members[i].score) && members[i].name == pairs[i].1
    ensures Adds(server, Said(name, [key] + InPairs(pairs)), key, members, readers, now, clock)
  {
    hide Ran, Replied, Said, Adds, Carried, Inv, SetAt, InPairs;
    var args := [key] + InPairs(pairs);
    ZAddCarriesOut(server, name, key, pairs, members, readers, now, clock);
    AddedIs(server, name, args, key, members, readers, now, clock);
  }

  /** One score that cannot be read, and none of the members is added. */
  lemma {:induction false} ZAddRefuses(server: Server, name: Bytes, key: Key, pairs: seq<(Bytes, Bytes)>, i: nat, readers: Readers, now: nat, clock: u64)
    requires Names(name, "ZADD") && i < |pairs| && readers.score(pairs[i].0).None?
    ensures Refuses(server, name, [key] + InPairs(pairs), readers, now, clock)
  {
    hide Refuses, Scored;
    NameIsText(name, "ZADD");
    WordsAreSpelled();
    ScoredFails(pairs, i, readers);
    var args := [key] + InPairs(pairs);
    assert args[1..] == InPairs(pairs);
    RefusesOutright(server, name, args, readers, now, clock);
  }

  lemma {:induction false} LocatedIs(threes: seq<(Bytes, Bytes, Bytes)>, members: seq<Member>, readers: Readers)
    requires |members| == |threes|
    requires forall i :: 0 <= i < |threes| ==>
               readers.place(threes[i].0, threes[i].1) == Some(members[i].score) && members[i].name == threes[i].2
    ensures Located(InThrees(threes), readers) == Some(members)
    decreases |threes|
  {
    if threes != [] {
      assert InThrees(threes)[3..] == InThrees(threes[1..]);
      LocatedIs(threes[1..], members[1..], readers);
      assert members == [Member(members[0].score, members[0].name)] + members[1..];
    }
  }

  lemma {:induction false} LocatedFails(threes: seq<(Bytes, Bytes, Bytes)>, i: nat, readers: Readers)
    requires i < |threes| && readers.place(threes[i].0, threes[i].1).None?
    ensures Located(InThrees(threes), readers).None?
    decreases |threes|
  {
    assert InThrees(threes)[3..] == InThrees(threes[1..]);
    if i > 0 {
      LocatedFails(threes[1..], i - 1, readers);
    }
  }

  /** `GEOADD key longitude latitude member ...` adds each member at the score of its place. */
  lemma {:induction false} GeoAddScores(server: Server, name: Bytes, key: Key, threes: seq<(Bytes, Bytes, Bytes)>, members: seq<Member>,
                     readers: Readers, now: nat, clock: u64)
    requires Names(name, "GEOADD") && Inv(server.store) && threes != [] && SetAt(server.store, key, now).Some?
    requires |members| == |threes|
    requires forall i :: 0 <= i < |threes| ==>
               readers.place(threes[i].0, threes[i].1) == Some(members[i].score) && members[i].name == threes[i].2
    ensures Adds(server, Said(name, [key] + InThrees(threes)), key, members, readers, now, clock)
  {
    hide Ran, Replied, Said, Adds, Carried, Inv, SetAt, Located;
    NameIsText(name, "GEOADD");
    WordsAreSpelled();
    LocatedIs(threes, members, readers);
    var args := [key] + InThrees(threes);
    assert args[1..] == InThrees(threes);
    CarriesOut(server, name, args, DoZAdd(key, members), readers, now, clock);
    AddedIs(server, name, args, key, members, readers, now, clock);
  }

  lemma {:induction false} GeoAddRefuses(server: Server, name: Bytes, key: Key, threes: seq<(Bytes, Bytes, Bytes)>, i: nat, readers: Readers,
                      now: nat, clock: u64)
    requires Names(name, "GEOADD") && i < |threes| && readers.place(threes[i].0, threes[i].1).None?
    ensures Refuses(server, name, [key] + InThrees(threes), readers, now, clock)
  {
    hide Refuses, Located;
    NameIsText(name, "GEOADD");
    WordsAreSpelled();
    LocatedFails(threes, i, readers);
    var args := [key] + InThrees(threes);
    assert args[1..] == InThrees(threes);
    RefusesOutright(server, name, args, readers, now, clock);
  }

  lemma {:induction false} WithoutNames(scores: map<Bytes, Score>, names: seq<Bytes>)
    ensures SortedSets.ScoresWithout(scores, names) == scores - (set n | n in names)
    decreases |names|
  {
    if names != [] {
      WithoutNames(scores - {names[0]}, names[1..]);
      assert names == [names[0]] + names[1..];
    }
  }

  /** Members removed: the names go, the rest keep their scores, the reply counts those that went, an emptied key is gone. */
  ghost predicate RemovedFrom(s: State, key: Key, names: seq<Bytes>, now: nat, after: State, reply: int)
    requires SetAt(s, key, now).Some?
  {
    var before := SetAt(s, key, now).value;
    var left := SortedSets.Scores(before) - (set n | n in names);
    && SetAt(after, key, now).Some?
    && SortedSets.Ordered(SetAt(after, key, now).value) && SortedSets.Scores(SetAt(after, key, now).value) == left
    && (key in after.entries <==> |left| > 0) && after.entries - {key} == s.entries - {key}
    && reply == |before| - |left|
  }

  /** `ZREM key member ...` */
  lemma {:induction false} ZRemRemoves(server: Server, name: Bytes, key: Key, names: seq<Bytes>, readers: Readers, now: nat, clock: u64)
    requires Names(name, "ZREM") && Inv(server.store) && names != [] && SetAt(server.store, key, now).Some?
    ensures var v := Said(name, [key] + names);
            var reply := Replied(server, v, readers, now, clock);
            && reply.Some? && reply.value.Integer?
            && RemovedFrom(server.store, key, names, now, Ran(server, v, readers, now, clock).store, reply.value.number)
  {
    hide Ran, Replied, Said, Inv, RemovedFrom, SetAt, ZRem;
    NameIsText(name, "ZREM");
    WordsAreSpelled();
    var args := [key] + names;
    assert args[1..] == names;
    CarriesOut(server, name, args, DoZRem(key, names), readers, now, clock);
    RemovedIs(server.store, key, names, now);
  }

  lemma {:induction false} RemovedIs(s: State, key: Key, names: seq<Bytes>, now: nat)
    requires Inv(s) && SetAt(s, key, now).Some?
    ensures var (after, reply) := ZRem(s, key, names, now);
            reply.Count? && RemovedFrom(s, key, names, now, after, reply.count)
  {
    hide Inv, SortedSets.WithoutAll, SortedSets.Ordered, SortedSets.Scores, SortedSets.ScoresWithout, RemovedFrom, Live;
    var before := SetAt(s, key, now).value;
    SetIsInOrder(s, key, now);
    var kept := SortedSets.WithoutAll(before, names);
    SortedSets.WithoutAllIs(before, names);
    WithoutNames(SortedSets.Scores(before), names);
    SortedSets.ScoresSize(before);
    SortedSets.ScoresSize(kept);
    Grows(SortedSets.Scores(kept), SortedSets.Scores(before));
    if key !in Live(s.entries, key, now) {
      NoneToRemove(s, key, names, now);
    } else {
      SetIsThere(s, key, now);
      SomeToRemove(s, key, names, now, before, kept);
    }
  }

  lemma {:induction false} NoneToRemove(s: State, key: Key, names: seq<Bytes>, now: nat)
    requires key !in Live(s.entries, key, now)
    ensures var (after, reply) := ZRem(s, key, names, now);
            reply == Count(0) && RemovedFrom(s, key, names, now, after, 0)
  {
    EmptySet();
  }

  lemma {:induction false} SomeToRemove(s: State, key: Key, names: seq<Bytes>, now: nat, before: seq<Member>, kept: seq<Member>)
    requires key in Live(s.entries, key, now) && SetAt(s, key, now) == Some(before)
    requires kept == SortedSets.WithoutAll(before, names) && before != [] && s.entries[key].expiresAt == None
    requires SortedSets.Ordered(before) && SortedSets.Ordered(kept) && |kept| <= |before|
    requires SortedSets.Scores(kept) == SortedSets.Scores(before) - (set n | n in names)
    requires |SortedSets.Scores(kept)| == |kept|
    ensures var (after, reply) := ZRem(s, key, names, now);
            reply == Count(|before| - |kept|) && RemovedFrom(s, key, names, now, after, |before| - |kept|)
  {
    hide SortedSets.WithoutAll, SortedSets.Ordered, SortedSets.Scores, RemovedFrom, ZRem, SetAt;
    var after := ZRem(s, key, names, now).0;
    ZRemIs(s, key, names, now, before, kept);
    if |kept| == |before| {
      SameWhenNoneGo(before, kept);
      SortedSets.ScoresSize(before);
      LeftIn(s, key, names, now, after, before);
    } else {
      if kept == [] {
        EmptySet();
      }
      LeftIn(s, key, names, now, after, kept);
    }
  }

  lemma {:induction false} ZRemIs(s: State, key: Key, names: seq<Bytes>, now: nat, before: seq<Member>, kept: seq<Member>)
    requires key in Live(s.entries, key, now) && SetAt(s, key, now) == Some(before)
    requires kept == SortedSets.WithoutAll(before, names) && before != [] && |kept| <= |before|
    requires s.entries[key].expiresAt == None
    ensures var (after, reply) := ZRem(s, key, names, now);
            && reply == Count(|before| - |kept|)
            && SetAt(after, key, now) == Some(if |kept| == |before| then before else kept)
            && (key in after.entries <==> kept != [] || |kept| == |before|)
            && after.entries - {key} == s.entries - {key}
  {
    hide SortedSets.WithoutAll;
    assert Live(s.entries, key, now) == s.entries;
  }

  lemma {:induction false} LeftIn(s: State, key: Key, names: seq<Bytes>, now: nat, after: State, left: seq<Member>)
    requires SetAt(s, key, now).Some? && SetAt(after, key, now) == Some(left) && SortedSets.Ordered(left)
    requires SortedSets.Scores(left) == SortedSets.Scores(SetAt(s, key, now).value) - (set n | n in names)
    requires |SortedSets.Scores(left)| == |left| && (key in after.entries <==> left != [])
    requires after.entries - {key} == s.entries - {key}
    ensures RemovedFrom(s, key, names, now, after, |SetAt(s, key, now).value| - |left|)
  {
    hide SortedSets.Ordered, SortedSets.Scores, SetAt;
  }

  lemma {:induction false} EmptySet()
    ensures SortedSets.Scores([]) == map[] && SortedSets.Ordered([])
  {
  }

  lemma {:induction false} SetIsThere(s: State, key: Key, now: nat)
    requires Inv(s)
    ensures var live := Live(s.entries, key, now);
            key in live && live[key].data.SortedSet? ==>
              live[key].data.members != [] && key in s.entries && s.entries[key].expiresAt == None
  {
    if key in s.entries {
      assert Sound(s.entries[key], s.changes);
    }
  }

  lemma {:induction false} SameWhenNoneGo(a: seq<Member>, b: seq<Member>)
    requires SortedSets.Ordered(a) && SortedSets.Ordered(b) && |a| == |b|
    requires SortedSets.Scores(b).Keys <= SortedSets.Scores(a).Keys
    requires forall n :: n in SortedSets.Scores(b) ==> SortedSets.Scores(b)[n] == SortedSets.Scores(a)[n]
    ensures SortedSets.Scores(a) == SortedSets.Scores(b)
  {
    SortedSets.ScoresSize(a);
    SortedSets.ScoresSize(b);
    var x, y := SortedSets.Scores(a), SortedSets.Scores(b);
    assert |x.Keys - y.Keys| == 0 by {
      assert x.Keys == y.Keys + (x.Keys - y.Keys);
    }
    assert x.Keys == y.Keys;
  }

  // ----- Streams -----

  function LogAt(s: State, key: Key, now: nat): Option<seq<StreamEntry>> {
    var live := Live(s.entries, key, now);
    if key !in live then Some([]) else if live[key].data.Stream? then Some(live[key].data.log) else None
  }

  /** How an id may be written: in full, with its sequence left open, or left open altogether. */
  function Written(requested: Streams.RequestedId): Bytes {
    match requested
    case Explicit(id) => Print(id.milliseconds) + ([DASH] + Print(id.sequence))
    case AutoSequence(milliseconds) => Print(milliseconds) + [DASH, 42]
    case Auto => [42]
  }

  lemma {:induction false} DashAfter(digits: Bytes, rest: Bytes)
    requires AllDigits(digits)
    ensures FirstDash(digits + ([DASH] + rest)) == Some(|digits|)
    decreases |digits|
  {
    var s := digits + ([DASH] + rest);
    if digits != [] {
      assert s[1..] == digits[1..] + ([DASH] + rest);
      DashAfter(digits[1..], rest);
    }
  }

  lemma {:induction false} RequestedReadBack(requested: Streams.RequestedId)
    ensures Requested(Written(requested)) == Some(requested)
  {
    hide ParseUnsigned, FirstDash;
    if !requested.Auto? {
      var milliseconds: nat := if requested.Explicit? then requested.id.milliseconds else requested.milliseconds;
      var first := Print(milliseconds);
      var rest := if requested.Explicit? then Print(requested.id.sequence) else [42];
      var id := Written(requested);
      assert id == first + ([DASH] + rest);
      assert AllDigits(first);
      DashAfter(first, rest);
      assert id[..|first|] == first && id[|first| + 1..] == rest;
      UnsignedReadBack(milliseconds, U64_END);
      assert id[0] == first[0] && 48 <= first[0];
      if requested.Explicit? {
        UnsignedReadBack(requested.id.sequence, U64_END);
        assert AllDigits(rest);
      }
    }
  }

  lemma {:induction false} PairsIs(pairs: seq<(Bytes, Bytes)>)
    ensures Pairs(InPairs(pairs)) == pairs
    decreases |pairs|
  {
    if pairs != [] {
      assert InPairs(pairs)[2..] == InPairs(pairs[1..]);
      PairsIs(pairs[1..]);
      assert pairs == [(pairs[0].0, pairs[0].1)] + pairs[1..];
    }
  }

  lemma {:induction false} XAddIntoStore(s: State, key: Key, requested: Streams.RequestedId, fields: seq<(Bytes, Bytes)>, now: nat, clock: u64)
    requires LogAt(s, key, now).Some?
    ensures var log, (after, reply) := LogAt(s, key, now).value, XAdd(s, key, requested, fields, now, clock);
            var id := Streams.NextId(requested, Streams.Top(log), clock);
            if Streams.AboveZero(requested) && id.Ok? then
              && after.entries - {key} == s.entries - {key}
              && key in after.entries && after.entries[key].data == Stream(log + [StreamEntry(id.value, fields)])
              && reply == Stored(id.value)
            else
              OnlyDropped(s.entries, after.entries, now) && reply.BadId?
  {
    hide Streams.NextId, Streams.Top, Streams.AboveZero;
  }

  /** `XADD key id field value ...`: the fields go on the end in order, under the id given out, and the reply spells it. */
  lemma {:induction false} XAddAppends(server: Server, name: Bytes, key: Key, requested: Streams.RequestedId, fields: seq<(Bytes, Bytes)>,
                    readers: Readers, now: nat, clock: u64)
    requires Names(name, "XADD") && fields != [] && LogAt(server.store, key, now).Some?
    ensures var s, v := server.store, Said(name, [key, Written(requested)] + InPairs(fields));
            var log, after := LogAt(s, key, now).value, Ran(server, v, readers, now, clock).store;
            var id := Streams.NextId(requested, Streams.Top(log), clock);
            if Streams.AboveZero(requested) && id.Ok? then
              && after.entries - {key} == s.entries - {key}
              && key in after.entries && after.entries[key].data == Stream(log + [StreamEntry(id.value, fields)])
              && Replied(server, v, readers, now, clock)
                 == Some(BulkString(Print(id.value.milliseconds) + [DASH] + Print(id.value.sequence)))
            else
              && OnlyDropped(s.entries, after.entries, now)
              && Replied(server, v, readers, now, clock) == Some(REFUSAL)
  {
    hide Ran, Replied, Said, Streams.NextId, Streams.AboveZero, Print, Requested, Written, Pairs, InPairs, XAdd, OnlyDropped, LogAt;
    XAddCarriesOut(server, name, key, requested, fields, readers, now, clock);
    XAddIntoStore(server.store, key, requested, fields, now, clock);
  }

  lemma {:induction false} XAddCarriesOut(server: Server, name: Bytes, key: Key, requested: Streams.RequestedId,
                                          fields: seq<(Bytes, Bytes)>, readers: Readers, now: nat, clock: u64)
    requires Names(name, "XADD") && fields != []
    ensures Carried(server, name, [key, Written(requested)] + InPairs(fields), DoXAdd(key, requested, fields, clock), readers, now, clock)
  {
    hide Carried, Requested, Written, Pairs, InPairs;
    NameIsText(name, "XADD");
    WordsAreSpelled();
    var args := [key, Written(requested)] + InPairs(fields);
    assert args[2..] == InPairs(fields);
    RequestedReadBack(requested);
    PairsIs(fields);
    CarriesOut(server, name, args, DoXAdd(key, requested, fields, clock), readers, now, clock);
  }

  /** Adding to what is neither absent nor of the right kind is refused, and costs nothing. */
  lemma {:induction false} WrongKindRefused(server: Server, name: Bytes, args: seq<Bytes>, op: Op, readers: Readers, now: nat, clock: u64)
    requires Carried(server, name, args, op, readers, now, clock)
    requires || (op.DoZAdd? && SetAt(server.store, op.key, now).None?)
             || (op.DoZRem? && SetAt(server.store, op.key, now).None?)
             || (op.DoXAdd? && LogAt(server.store, op.key, now).None?)
    ensures Replied(server, Said(name, args), readers, now, clock) == Some(REFUSAL)
    ensures OnlyDropped(server.store.entries, Ran(server, Said(name, args), readers, now, clock).store.entries, now)
  {
    hide Ran, Replied, Said, Streams.NextId, SortedSets.AddedAll, SortedSets.WithoutAll, SortedSets.Scores;
  }

  lemma {:induction false} ZAddRefusesOthers(server: Server, name: Bytes, key: Key, pairs: seq<(Bytes, Bytes)>,
                                             members: seq<Member>, readers: Readers, now: nat, clock: u64)
    requires Names(name, "ZADD") && pairs != [] && SetAt(server.store, key, now).None? && |members| == |pairs|
    requires forall i :: 0 <= i < |pairs| ==> readers.score(pairs[i].0) == Some(members[i].score) && members[i].name == pairs[i].1
    ensures var v := Said(name, [key] + InPairs(pairs));
            && Replied(server, v, readers, now, clock) == Some(REFUSAL)
            && OnlyDropped(server.store.entries, Ran(server, v, readers, now, clock).store.entries, now)
  {
    hide Ran, Replied, Said, Carried, SetAt, InPairs, OnlyDropped;
    var args := [key] + InPairs(pairs);
    ZAddCarriesOut(server, name, key, pairs, members, readers, now, clock);
    WrongKindRefused(server, name, args, DoZAdd(key, members), readers, now, clock);
  }

  lemma {:induction false} ZRemRefusesOthers(server: Server, name: Bytes, key: Key, names: seq<Bytes>, readers: Readers, now: nat,
                                             clock: u64)
    requires Names(name, "ZREM") && names != [] && SetAt(server.store, key, now).None?
    ensures var v := Said(name, [key] + names);
            && Replied(server, v, readers, now, clock) == Some(REFUSAL)
            && OnlyDropped(server.store.entries, Ran(server, v, readers, now, clock).store.entries, now)
  {
    hide Ran, Replied, Said, Carried, SetAt, OnlyDropped;
    NameIsText(name, "ZREM");
    WordsAreSpelled();
    var args := [key] + names;
    assert args[1..] == names;
    CarriesOut(server, name, args, DoZRem(key, names), readers, now, clock);
    WrongKindRefused(server, name, args, DoZRem(key, names), readers, now, clock);
  }

  lemma {:induction false} XAddRefusesOthers(server: Server, name: Bytes, key: Key, requested: Streams.RequestedId,
                                             fields: seq<(Bytes, Bytes)>, readers: Readers, now: nat, clock: u64)
    requires Names(name, "XADD") && fields != [] && LogAt(server.store, key, now).None?
    ensures var v := Said(name, [key, Written(requested)] + InPairs(fields));
            && Replied(server, v, readers, now, clock) == Some(REFUSAL)
            && OnlyDropped(server.store.entries, Ran(server, v, readers, now, clock).store.entries, now)
  {
    hide Ran, Replied, Said, Carried, LogAt, OnlyDropped, Requested, Written, Pairs, InPairs;
    var args := [key, Written(requested)] + InPairs(fields);
    XAddCarriesOut(server, name, key, requested, fields, readers, now, clock);
    WrongKindRefused(server, name, args, DoXAdd(key, requested, fields, clock), readers, now, clock);
  }
}
