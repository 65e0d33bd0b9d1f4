/**
 Commands off a byte stream. A connection gathers what arrives in a buffer and
 takes whole values off its front; a log file is parsed by the same
 rule. What comes out depends on the bytes alone, not on how they were cut up,
 and a file cut short gives back every command that is all there.
 */
module Framing {
  import opened Base
  import opened Resp

  /** How a stream stands once every whole value is off it: waiting on the rest of one, or given up. */
  datatype Ending = Waiting(rest: Bytes) | Refused(error: ParseError)

  datatype Framed = Framed(values: seq<Value>, ending: Ending)

  /** The values at the front of `s`, one after another, up to the first that is not all there or is malformed. */
  function Frames(s: Bytes): (f: Framed)
    decreases |s|
  {
    match Parse(s, 0)
    case More => Framed([], Waiting(s))
    case Bad(error) => Framed([], Refused(error))
    case Got(value, length) => Before([value], Frames(s[length..]))
  }

  function Before(values: seq<Value>, later: Framed): Framed {
    Framed(values + later.values, later.ending)
  }

  lemma BeforeTwice(a: seq<Value>, b: seq<Value>, later: Framed)
    ensures Before(a, Before(b, later)) == Before(a + b, later)
  {
  }

  /** What is read off `s + t`, given what is read off `s`. */
  function Continued(f: Framed, t: Bytes): Framed {
    match f.ending
    case Waiting(rest) => Before(f.values, Frames(rest + t))
    case Refused(_) => f
  }

  /** Values already taken off stay taken off, and a stream given up stays given up. */
  lemma {:induction false} FramesContinue(s: Bytes, t: Bytes)
    ensures Frames(s + t) == Continued(Frames(s), t)
    decreases |s|
  {
    hide Parse;
    match Parse(s, 0) {
      case More =>
        assert [] + Frames(s + t).values == Frames(s + t).values;
      case Bad(error) =>
        ParseStable(s, t, 0);
      case Got(value, length) =>
        ParseStable(s, t, 0);
        assert (s + t)[length..] == s[length..] + t;
        FramesContinue(s[length..], t);
        var later := Frames(s[length..]);
        if later.ending.Waiting? {
          BeforeTwice([value], later.values, Frames(later.ending.rest + t));
        }
    }
  }

  /** Nothing is left in the buffer that could be taken off it. */
  lemma {:induction false} FramesLeaveNothing(s: Bytes)
    requires Frames(s).ending.Waiting?
    ensures Parse(Frames(s).ending.rest, 0) == More
    decreases |s|
  {
    hide Parse;
    if Parse(s, 0).Got? {
      FramesLeaveNothing(s[Parse(s, 0).length..]);
    }
  }

  // ----- One connection -----

  /** The concatenation of the reads up to the first empty one, which stands for end of file. */
  function Heard(arrived: seq<Bytes>): Bytes {
    if arrived == [] || arrived[0] == [] then [] else arrived[0] + Heard(arrived[1..])
  }

  /** What is heard is the reads end to end, up to the one that finds the stream closed. */
  lemma {:induction false} HeardIs(arrived: seq<Bytes>, last: Bytes, later: seq<Bytes>)
    requires forall i :: 0 <= i < |arrived| ==> arrived[i] != []
    ensures Heard(arrived + [last]) == Heard(arrived) + last
    ensures Heard(arrived + [[]] + later) == Heard(arrived)
  {
    if arrived == [] {
      assert arrived + [last] == [last] && arrived + [[]] + later == [[]] + later;
      assert Heard([last]) == last + Heard([last][1..]) || last == [];
    } else {
      var rest := arrived[1..];
      assert (arrived + [last])[1..] == rest + [last];
      assert (arrived + [[]] + later)[1..] == rest + [[]] + later;
      HeardIs(rest, last, later);
      Reassociate(arrived[0], Heard(rest), last);
    }
  }

  /** How a connection's command loop ends: with its stream, or by handing the stream on to a replica's loop. */
  datatype Close = Ended(ending: Ending) | HandedOn(rest: Bytes)

  datatype Served = Served(commands: seq<Value>, close: Close)

  /** `hands` says whether the last of the commands so far is a `PSYNC` answered with a handover. */
  function Answered(before: seq<Value>, s: Bytes, hands: seq<Value> -> bool): (r: Served)
    decreases |s|
  {
    match Parse(s, 0)
    case More => Served(before, Ended(Waiting(s)))
    case Bad(error) => Served(before, Ended(Refused(error)))
    case Got(value, length) =>
      if hands(before + [value]) then Served(before + [value], HandedOn(s[length..]))
      else Answered(before + [value], s[length..], hands)
  }

  function ReadOn(r: Served, t: Bytes, hands: seq<Value> -> bool): Served {
    match r.close
    case Ended(Waiting(rest)) => Answered(r.commands, rest + t, hands)
    case Ended(Refused(_)) => r
    case HandedOn(rest) => r.(close := HandedOn(rest + t))
  }

  lemma {:induction false} AnsweredContinues(before: seq<Value>, s: Bytes, t: Bytes, hands: seq<Value> -> bool)
    ensures Answered(before, s + t, hands) == ReadOn(Answered(before, s, hands), t, hands)
    decreases |s|
  {
    hide Parse;
    if Parse(s, 0) != More {
      ParseStable(s, t, 0);
      if Parse(s, 0).Got? {
        var value, length := Parse(s, 0).value, Parse(s, 0).length;
        assert (s + t)[length..] == s[length..] + t;
        AnsweredContinues(before + [value], s[length..], t, hands);
      }
    }
  }

  /** Left waiting, a buffer has nothing whole in it. */
  lemma {:induction false} AnsweredLeavesNothing(before: seq<Value>, s: Bytes, hands: seq<Value> -> bool)
    requires Answered(before, s, hands).close.Ended? && Answered(before, s, hands).close.ending.Waiting?
    ensures Parse(Answered(before, s, hands).close.ending.rest, 0) == More
    decreases |s|
  {
    hide Parse;
    if Parse(s, 0).Got? {
      AnsweredLeavesNothing(before + [Parse(s, 0).value], s[Parse(s, 0).length..], hands);
    }
  }

  /**
   The commands answered are the stream's own in order: all of them when the
   stream ends, and up to the first handover when one comes, with every byte
   after it handed on.
   */
  lemma {:induction false} AnsweredIsFrames(before: seq<Value>, s: Bytes, hands: seq<Value> -> bool)
    ensures var r := Answered(before, s, hands);
            && before <= r.commands
            && (forall n :: |before| < n < |r.commands| ==> !hands(r.commands[..n]))
            && (|before| < |r.commands| ==> (hands(r.commands) <==> r.close.HandedOn?))
            && match r.close
               case Ended(ending) => Frames(s) == Framed(r.commands[|before|..], ending)
               case HandedOn(rest) => |before| < |r.commands| && Frames(s) == Before(r.commands[|before|..], Frames(rest))
    decreases |s|
  {
    hide Parse;
    if Parse(s, 0).Got? {
      var value, rest := Parse(s, 0).value, s[Parse(s, 0).length..];
      var more := before + [value];
      if !hands(more) {
        AnsweredIsFrames(more, rest, hands);
        var r := Answered(before, s, hands);
        assert r.commands[|before|..] == [value] + r.commands[|more|..];
        assert r.commands[..|more|] == more;
        if r.close.HandedOn? {
          BeforeTwice([value], r.commands[|more|..], Frames(r.close.rest));
        }
      } else {
        assert more[|before|..] == [value];
      }
    }
  }

  /**
   The loop of one connection: each read extends the buffer, and its whole
   commands are answered before the next read. A protocol error or a handover
   ends it; the handover passes on the buffer, and `next` is the first read not made.
   */
  method Serve(arrived: seq<Bytes>, hands: seq<Value> -> bool)
    returns (commands: seq<Value>, close: Close, next: nat)
    ensures next <= |arrived|
    ensures Answered([], Heard(arrived), hands) ==
            Served(commands, if close.HandedOn? then HandedOn(close.rest + Heard(arrived[next..])) else close)
  {
    hide Parse, Answered;
    NothingToParse();
    var buf: Bytes := [];
    commands := [];
    ghost var whole := Answered([], Heard(arrived), hands);
    assert buf + Heard(arrived) == Heard(arrived);
    for i := 0 to |arrived|
      invariant whole == Answered(commands, buf + Heard(arrived[i..]), hands)
      invariant Parse(buf, 0) == More
    {
      if arrived[i] == [] {
        assert buf + [] == buf;
        AnsweredAtEnd(commands, buf, hands);
        return commands, Ended(Waiting(buf)), i;
      }
      ghost var later := Heard(arrived[i + 1..]);
      assert arrived[i..][0] == arrived[i] && arrived[i..][1..] == arrived[i + 1..];
      Reassociate(buf, arrived[i], later);
      buf := buf + arrived[i];
      AnsweredContinues(commands, buf, later, hands);
      var drained, ends := Drain(commands, buf, hands);
      if ends.HandedOn? || ends.ending.Refused? {
        return drained, ends, i + 1;
      }
      AnsweredLeavesNothing(commands, buf, hands);
      commands, buf := drained, ends.ending.rest;
    }
    assert buf + [] == buf;
    AnsweredAtEnd(commands, buf, hands);
    close, next := Ended(Waiting(buf)), |arrived|;
  }

  lemma AnsweredAtEnd(before: seq<Value>, s: Bytes, hands: seq<Value> -> bool)
    requires Parse(s, 0) == More
    ensures Answered(before, s, hands) == Served(before, Ended(Waiting(s)))
  {
  }

  /** The inner loop: answers the whole commands in a buffer. */
  method Drain(before: seq<Value>, buffer: Bytes, hands: seq<Value> -> bool)
    returns (commands: seq<Value>, close: Close)
    ensures Served(commands, close) == Answered(before, buffer, hands)
  {
    hide Parse;
    var buf := buffer;
    commands := before;
    while true
      invariant Answered(commands, buf, hands) == Answered(before, buffer, hands)
      decreases |buf|
    {
      var parsed := ParseFront(buf);
      match parsed {
        case More => return commands, Ended(Waiting(buf));
        case Bad(error) => return commands, Ended(Refused(error));
        case Got(command, consumed) =>
          buf := buf[consumed..];
          commands := commands + [command];
          if hands(commands) {
            return commands, HandedOn(buf);
          }
      }
    }
  }

  // ----- What was written comes back -----

  lemma {:induction false} FramesOfEncoded(values: seq<Value>, rest: Bytes)
    requires AllReadable(values, MAX_DEPTH)
    ensures Frames(EncodeAll(values) + rest) == Before(values, Frames(rest))
  {
    hide Parse, Encode;
    if values == [] {
      assert [] + rest == rest;
      assert [] + Frames(rest).values == Frames(rest).values;
    } else {
      var first, tail := Encode(values[0]), EncodeAll(values[1..]) + rest;
      Reassociate(first, EncodeAll(values[1..]), rest);
      RoundTrip(values[0], tail, 0);
      assert (first + tail)[|first|..] == tail;
      FramesOfEncoded(values[1..], rest);
      BeforeTwice([values[0]], values[1..], Frames(rest));
      assert [values[0]] + values[1..] == values;
    }
  }

  /** How many of `values` have all their bytes among the first `n`. */
  function WholeWithin(values: seq<Value>, n: nat): (k: nat)
    ensures k <= |values|
    ensures |EncodeAll(values[..k])| <= n
    ensures k < |values| ==> n < |EncodeAll(values[..k + 1])|
  {
    if values == [] || n < |Encode(values[0])| then
      assert values != [] ==> EncodeAll(values[..1]) == Encode(values[0]) by {
        if values != [] { assert values[..1] == [values[0]]; EncodeAllOne(values[0]); }
      }
      0
    else
      var k := WholeWithin(values[1..], n - |Encode(values[0])|);
      assert EncodeAll(values[..k + 1]) == Encode(values[0]) + EncodeAll(values[1..][..k]) by {
        assert values[..k + 1][1..] == values[1..][..k];
      }
      assert k + 1 < |values| ==> EncodeAll(values[..k + 2]) == Encode(values[0]) + EncodeAll(values[1..][..k + 1]) by {
        if k + 1 < |values| { assert values[..k + 2][1..] == values[1..][..k + 1]; }
      }
      k + 1
  }

  lemma EncodeAllFrom(values: seq<Value>, k: nat)
    requires k < |values|
    ensures EncodeAll(values[k..]) == Encode(values[k]) + EncodeAll(values[k + 1..])
  {
    hide Encode;
    assert values[k..][0] == values[k] && values[k..][1..] == values[k + 1..];
  }

  lemma TornWithin(front: Bytes, next: Bytes, later: Bytes, n: nat)
    requires |front| <= n <= |front| + |next|
    ensures (front + (next + later))[|front|..n] == next[..n - |front|]
  {
  }

  /** A stream of values cut anywhere gives back exactly the ones that are all there, and no error. */
  lemma TornStream(values: seq<Value>, n: nat)
    requires AllReadable(values, MAX_DEPTH) && n <= |EncodeAll(values)|
    ensures var k := WholeWithin(values, n);
            Frames(EncodeAll(values)[..n]) == Framed(values[..k], Waiting(EncodeAll(values)[|EncodeAll(values[..k])|..n]))
  {
    hide Parse, Encode, WholeWithin, Frames;
    var k := WholeWithin(values, n);
    var whole, front := EncodeAll(values), EncodeAll(values[..k]);
    assert values == values[..k] + values[k..];
    EncodeAllAppends(values[..k], values[k..]);
    var torn := whole[|front|..n];
    assert whole[..n] == front + torn;
    FramesOfEncoded(values[..k], torn);
    if k < |values| {
      EncodeAllSnoc(values, k);
      EncodeAllFrom(values, k);
      TornWithin(front, Encode(values[k]), EncodeAll(values[k + 1..]), n);
      PrefixAsksForMore(values[k], n - |front|);
    } else {
      assert values[..k] == values;
      assert torn == [];
      NothingToParse();
    }
    FramesOfTorn(torn);
    assert values[..k] + [] == values[..k];
  }

  lemma FramesOfTorn(torn: Bytes)
    requires Parse(torn, 0) == More
    ensures Frames(torn) == Framed([], Waiting(torn))
  {
  }

  // ----- The append-only file -----

  class Aof {
    var file: Bytes

    constructor (file: Bytes)
      ensures this.file == file
    {
      this.file := file;
    }

    /** Appends one encoded command. */
    method Record(command: Value)
      modifies this
      ensures file == old(file) + Encode(command)
    {
      var recorded := EncodeInto(command, []);
      assert [] + Encode(command) == Encode(command);
      file := file + recorded;
    }

    /** Parses the file into commands. An incomplete tail is ignored, a protocol error fails the whole read. */
    method Recorded() returns (r: Result<seq<Value>, ParseError>)
      ensures r == Replayable(file)
    {
      hide Parse;
      var commands, at := [], 0;
      ghost var left := Frames(file);
      assert file[0..] == file;
      while at < |file|
        invariant 0 <= at <= |file|
        invariant left == Frames(file[at..])
        invariant Frames(file) == Before(commands, left)
      {
        ghost var rest := file[at..];
        var read := ParseFront(file[at..]);
        if read.Bad? {
          return Err(read.error);
        }
        if read.More? {
          assert commands + [] == commands;
          return Ok(commands);
        }
        assert rest[read.length..] == file[at + read.length..];
        at := at + read.length;
        left := Frames(file[at..]);
        BeforeTwice(commands, [read.value], left);
        commands := commands + [read.value];
      }
      NothingToParse();
      assert commands + [] == commands;
      r := Ok(commands);
    }
  }

  /** What a log says: the commands read off it, unless it is out of shape. */
  function Replayable(file: Bytes): (r: Result<seq<Value>, ParseError>) {
    match Frames(file).ending
    case Waiting(_) => Ok(Frames(file).values)
    case Refused(error) => Err(error)
  }

  /** A log of whole commands cut at any byte gives back the commands whose bytes are all there. */
  lemma TornLog(log: seq<Value>, n: nat)
    requires AllReadable(log, MAX_DEPTH) && n <= |EncodeAll(log)|
    ensures Replayable(EncodeAll(log)[..n]) == Ok(log[..WholeWithin(log, n)])
  {
    TornStream(log, n);
  }

  /** A log that was not cut gives back everything recorded in it. */
  lemma WholeLog(log: seq<Value>)
    requires AllReadable(log, MAX_DEPTH)
    ensures Replayable(EncodeAll(log)) == Ok(log)
  {
    hide Parse, Encode, Frames;
    FramesOfEncoded(log, []);
    assert EncodeAll(log) + [] == EncodeAll(log);
    NothingToParse();
    FramesOfTorn([]);
    assert log + [] == log;
  }
}
