/**
 Commands as clients send them, what the store is asked for by each, and the
 value that goes into the log and out to replicas once it is done. Parsing a
 score and locating a coordinate pair are parameters (`Readers`), because no
 result below depends on which numbers they yield.
 */
module Commands {
  import opened Base
  import opened Decimal
  import opened Resp
  import opened StoreState
  import opened StoreSteps
  import Lists
  import Streams
  import Utf8

  datatype Command = Command(uppercased: Bytes, name: Bytes, args: seq<Bytes>)

  /** How scores, timeouts and places are read out of words. */
  datatype Readers = Readers(score: Bytes -> Option<Score>, place: (Bytes, Bytes) -> Option<Score>)

  const SET: Bytes := [83, 69, 84]
  const INCR: Bytes := [73, 78, 67, 82]
  const RPUSH: Bytes := [82, 80, 85, 83, 72]
  const LPUSH: Bytes := [76, 80, 85, 83, 72]
  const LPOP: Bytes := [76, 80, 79, 80]
  const BLPOP: Bytes := [66, 76, 80, 79, 80]
  const XADD: Bytes := [88, 65, 68, 68]
  const ZADD: Bytes := [90, 65, 68, 68]
  const ZREM: Bytes := [90, 82, 69, 77]
  const GEOADD: Bytes := [71, 69, 79, 65, 68, 68]
  const EX: Bytes := [69, 88]
  const PX: Bytes := [80, 88]
  const STAR: Bytes := [42]
  const DASH: byte := 45

  function Upper(b: byte): byte {
    if 97 <= b <= 122 then b - 32 else b
  }

  function Uppercased(s: Bytes): (r: Bytes)
    ensures |r| == |s|
  {
    seq(|s|, i requires 0 <= i < |s| => Upper(s[i]))
  }

  // ----- Commands and values -----

  predicate AllBulk(parts: seq<Value>) {
    forall i :: 0 <= i < |parts| ==> parts[i].BulkString?
  }

  function Words(parts: seq<Value>): (words: seq<Bytes>)
    requires AllBulk(parts)
    ensures |words| == |parts|
  {
    seq(|parts|, i requires 0 <= i < |parts| => parts[i].bytes)
  }

  function Bulks(words: seq<Bytes>): (parts: seq<Value>)
    ensures |parts| == |words| && AllBulk(parts)
  {
    seq(|words|, i requires 0 <= i < |words| => BulkString(words[i]))
  }

  /** `Command::parse`: defined on non-empty arrays of bulk strings whose head is valid UTF-8. */
  function CommandOf(v: Value): (r: Option<Command>) {
    if !v.Array? || !AllBulk(v.values) || v.values == [] then None
    else
      var words := Words(v.values);
      if !Utf8.IsText(words[0]) then None else Some(Command(Uppercased(words[0]), words[0], words[1..]))
  }

  /** Rebuilds the array a command was parsed from, keeping the client's own casing. */
  function AsSent(c: Command): Value {
    Array(Bulks([c.name] + c.args))
  }

  /** Handed on and read again, a command is the same command. */
  lemma SentAgain(v: Value)
    requires CommandOf(v).Some?
    ensures AsSent(CommandOf(v).value) == v
  {
    var c := CommandOf(v).value;
    var words := Words(v.values);
    assert [c.name] + c.args == words;
    assert Bulks(words) == v.values;
  }

  /** The value logged and replicated for a command with this reply; `BLPOP` turns into `LPOP`, reads into nothing. */
  function WrittenDown(c: Command, reply: Value): Option<Value> {
    if c.uppercased in {SET, INCR, RPUSH, LPUSH, LPOP, XADD, ZADD, ZREM, GEOADD} then Some(AsSent(c))
    else if c.uppercased == BLPOP && c.args != [] && reply.Array? then Some(Array(Bulks([LPOP, c.args[0]])))
    else None
  }

  // ----- What the store is asked for -----

  /** A step to ask of the store, an error before it is asked anything, or a command that writes nothing. */
  datatype Meaning = Ask(op: Op) | Malformed | WritesNothing

  function Interpret(c: Command, readers: Readers, clock: u64): (m: Meaning)
    ensures m.Ask? ==> Asked(m.op)
  {
    var args := c.args;
    if c.uppercased == SET then
      if |args| < 2 then Malformed
      else
        match Expiry(args[2..])
        case None => Malformed
        case Some(expiresIn) => Ask(DoSet(args[0], args[1], expiresIn))
    else if c.uppercased == INCR then
      if |args| != 1 then Malformed else Ask(DoIncrement(args[0]))
    else if c.uppercased == RPUSH then
      if |args| < 2 then Malformed else Ask(DoPush(args[0], args[1..], Lists.Right))
    else if c.uppercased == LPUSH then
      if |args| < 2 then Malformed else Ask(DoPush(args[0], args[1..], Lists.Left))
    else if c.uppercased == LPOP then
      if |args| == 1 then Ask(DoLPop(args[0], 1))
      else if |args| != 2 then Malformed
      else
        var count := ParseI64(args[1]);
        if count.Some? && count.value >= 0 then Ask(DoLPop(args[0], count.value)) else Malformed
    else if c.uppercased == BLPOP then
      if |args| != 2 then Malformed
      else
        match readers.score(args[1])
        case Some(Finite(seconds)) =>
          if seconds < 0.0 || seconds >= U64_END as real then Malformed else Ask(DoBLPop(args[0]))
        case _ => Malformed
    else if c.uppercased == XADD then
      if |args| < 4 || |args| % 2 != 0 then Malformed
      else
        var id := Requested(args[1]);
        if id.None? then Malformed else Ask(DoXAdd(args[0], id.value, Pairs(args[2..]), clock))
    else if c.uppercased == ZADD then
      if |args| < 2 || |args| % 2 != 1 then Malformed
      else
        var members := Scored(args[1..], readers);
        if members.None? then Malformed else Ask(DoZAdd(args[0], members.value))
    else if c.uppercased == ZREM then
      if |args| < 2 then Malformed else Ask(DoZRem(args[0], args[1..]))
    else if c.uppercased == GEOADD then
      if |args| < 4 || |args| % 3 != 1 then Malformed
      else
        var members := Located(args[1..], readers);
        if members.None? then Malformed else Ask(DoZAdd(args[0], members.value))
    else WritesNothing
  }

  /** The lifetime a `SET` asks for in milliseconds: `None` when its arguments are malformed, `Some(None)` for no expiry. */
  function Expiry(options: seq<Bytes>): Option<Option<nat>> {
    if options == [] then Some(None)
    else if |options| != 2 then None
    else
      var amount := ParseUnsigned(options[1], U64_END);
      if amount.None? then None
      else if Uppercased(options[0]) == EX then Some(Some(1000 * amount.value))
      else if Uppercased(options[0]) == PX then Some(Some(amount.value))
      else None
  }

  function Pairs(words: seq<Bytes>): seq<(Bytes, Bytes)> {
    if |words| < 2 then [] else [(words[0], words[1])] + Pairs(words[2..])
  }

  function Scored(words: seq<Bytes>, readers: Readers): (r: Option<seq<Member>>)
    ensures r.Some? && |words| >= 2 ==> r.value != []
    decreases |words|
  {
    if |words| < 2 then Some([])
    else
      var score, more := readers.score(words[0]), Scored(words[2..], readers);
      if score.None? || more.None? then None else Some([Member(score.value, words[1])] + more.value)
  }

  function Located(words: seq<Bytes>, readers: Readers): (r: Option<seq<Member>>)
    ensures r.Some? && |words| >= 3 ==> r.value != []
    decreases |words|
  {
    if |words| < 3 then Some([])
    else
      var score, more := readers.place(words[0], words[1]), Located(words[3..], readers);
      if score.None? || more.None? then None else Some([Member(score.value, words[2])] + more.value)
  }

  function FirstDash(s: Bytes): (at: Option<nat>)
    ensures at.Some? ==> at.value < |s|
  {
    if s == [] then None
    else if s[0] == DASH then Some(0)
    else
      var later := FirstDash(s[1..]);
      if later.Some? then Some(later.value + 1) else None
  }

  /** Parses the id argument of `XADD` into one of the three request kinds. */
  function Requested(id: Bytes): Option<Streams.RequestedId> {
    if id == STAR then Some(Streams.Auto)
    else
      var dash := FirstDash(id);
      if dash.None? then None
      else
        var milliseconds := ParseUnsigned(id[..dash.value], U64_END);
        var sequence := id[dash.value + 1..];
        if milliseconds.None? then None
        else if sequence == STAR then Some(Streams.AutoSequence(milliseconds.value))
        else
          var number := ParseUnsigned(sequence, U64_END);
          if number.None? then None else Some(Streams.Explicit(EntryId(milliseconds.value, number.value)))
  }

  // ----- Replies -----

  /** Errors are told apart only from everything else: their texts are not modelled. */
  const REFUSAL: Value := Error([])

  function Told(c: Command, reply: Reply): Value {
    match reply
    case Fine => SimpleString([79, 75])
    case Count(n) => Integer(n)
    case Number(n) => Integer(n)
    case Elements(elements) =>
      if |c.args| == 2 then Array(Bulks(elements))
      else if elements == [] then Null
      else BulkString(elements[0])
    case Ready(element) => if c.args == [] then REFUSAL else Array(Bulks([c.args[0], element]))
    case Stored(id) => BulkString(Print(id.milliseconds) + [DASH] + Print(id.sequence))
    case _ => REFUSAL
  }
}
