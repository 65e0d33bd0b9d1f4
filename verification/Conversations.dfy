/**
 A replica talking to its master: the few words they say to each other, the
 handover, and the loop that takes in commands, counting the bytes they came in.
 */
module Conversations {
  import opened Base
  import opened Decimal
  import opened Resp
  import Commands
  import Framing
  import Utf8

  const REPLCONF: Bytes := [82, 69, 80, 76, 67, 79, 78, 70]
  const GETACK: Bytes := [71, 69, 84, 65, 67, 75]
  const ACK: Bytes := [65, 67, 75]

  // ----- The few words the two say to each other -----

  function Ask(): Value {
    Array(Commands.Bulks([REPLCONF, GETACK, [42]]))
  }

  function Acknowledgement(offset: nat): Value {
    Array(Commands.Bulks([REPLCONF, ACK, Print(offset)]))
  }

  predicate AsksHowFar(v: Value) {
    && v.Array? && |v.values| >= 2 && v.values[0].BulkString? && v.values[1].BulkString?
    && Commands.Uppercased(v.values[0].bytes) == REPLCONF
    && Commands.Uppercased(v.values[1].bytes) == GETACK
  }

  /** The offset inside a `REPLCONF ACK` message, or `None` for any other value. */
  function HowFar(v: Value): Option<nat> {
    if v.Array? && |v.values| == 3 && Commands.AllBulk(v.values)
       && Commands.Uppercased(v.values[0].bytes) == REPLCONF
       && Commands.Uppercased(v.values[1].bytes) == ACK
    then ParseUnsigned(v.values[2].bytes, U64_END)
    else None
  }

  lemma WordsAreSpelled()
    ensures REPLCONF == Ascii("REPLCONF") && GETACK == Ascii("GETACK") && ACK == Ascii("ACK")
    ensures FULLRESYNC == Ascii("FULLRESYNC ") && [SPACE] == Ascii(" ")
  {
  }

  /** Among commands, in any case: which are questions, and which are reports and of what. */
  lemma QuestionsAndReports(words: seq<Bytes>)
    ensures var v := Array(Commands.Bulks(words));
            && (AsksHowFar(v) <==>
                  && |words| >= 2 && Commands.Uppercased(words[0]) == Ascii("REPLCONF")
                  && Commands.Uppercased(words[1]) == Ascii("GETACK"))
            && HowFar(v) == if |words| == 3 && Commands.Uppercased(words[0]) == Ascii("REPLCONF")
                               && Commands.Uppercased(words[1]) == Ascii("ACK")
                            then ParseUnsigned(words[2], 0x1_0000_0000_0000_0000) else None
  {
    hide ParseUnsigned, Commands.Uppercased;
    WordsAreSpelled();
    var parts := Commands.Bulks(words);
    assert forall i :: 0 <= i < |words| ==> parts[i] == BulkString(words[i]);
  }

  lemma AcknowledgementRead(offset: nat)
    requires offset < U64_END
    ensures HowFar(Acknowledgement(offset)) == Some(offset)
  {
    var parts := Commands.Bulks([REPLCONF, ACK, Print(offset)]);
    assert parts[0] == BulkString(REPLCONF) && parts[1] == BulkString(ACK) && parts[2] == BulkString(Print(offset));
    assert Commands.Uppercased(REPLCONF) == REPLCONF && Commands.Uppercased(ACK) == ACK;
    UnsignedReadBack(offset, U64_END);
  }

  // ----- The handover -----

  datatype Header = NotYet | NotAFile | Found(length: nat, taken: nat)

  /** Parses the `$<length>` line before a snapshot; `taken` is the size of that line with its CRLF. */
  function FileHeader(heard: Bytes): (r: Header) {
    var end := LineEnd(heard);
    if end.None? then NotYet
    else if end.value == 0 || heard[0] != BULK then NotAFile
    else
      var length := ParseUnsigned(heard[1..end.value], U64_END);
      if length.None? then NotAFile else Found(length.value, end.value + 2)
  }

  lemma FileHeaderStable(heard: Bytes, more: Bytes)
    requires FileHeader(heard) != NotYet
    ensures FileHeader(heard + more) == FileHeader(heard)
  {
    LineEndStable(heard, more);
    var end := LineEnd(heard).value;
    if end > 0 {
      assert (heard + more)[1..end] == heard[1..end];
    }
  }

  /** What is taken for the head of a file: a dollar and a number on a line of their own. */
  lemma FileHeaderIs(kind: byte, text: Bytes, rest: Bytes)
    requires kind != CR && OneLine(text)
    ensures var number := ParseUnsigned(text, U64_END);
            FileHeader(Line(kind, text) + rest)
            == if [kind] == Ascii("$") && number.Some? then Found(number.value, |text| + 3) else NotAFile
    ensures FileHeader(Ascii("\r\n") + rest) == NotAFile
  {
    hide ParseUnsigned;
    Characters();
    LineRead(kind, text, rest);
    var s := Line(kind, text) + rest;
    assert s[0] == kind && s[1..1 + |text|] == text;
    var blank := Ascii("\r\n") + rest;
    assert LineEndAt(blank, 0);
  }

  const FULLRESYNC: Bytes := [70, 85, 76, 76, 82, 69, 83, 89, 78, 67, 32]
  const SPACE: byte := 32

  /** What a master says to a replica it is about to start afresh. */
  function Agreement(id: Bytes, offset: nat): Bytes {
    FULLRESYNC + (id + ([SPACE] + Print(offset)))
  }

  /** What comes after the first space. */
  function AfterSpace(s: Bytes): Option<Bytes> {
    if s == [] then None else if s[0] == SPACE then Some(s[1..]) else AfterSpace(s[1..])
  }

  /** Where a replica starts counting. */
  function StartFrom(agreement: Bytes): Option<nat> {
    if !(FULLRESYNC <= agreement) then None
    else
      var from := AfterSpace(agreement[|FULLRESYNC|..]);
      if from.None? then None else ParseUnsigned(from.value, U64_END)
  }

  lemma {:induction false} SpaceAfterId(id: Bytes, rest: Bytes)
    requires SPACE !in id
    ensures AfterSpace(id + ([SPACE] + rest)) == Some(rest)
  {
    var s := id + ([SPACE] + rest);
    if id == [] {
      assert s[0] == SPACE && s[1..] == rest;
    } else {
      assert s[0] == id[0] && s[1..] == id[1..] + ([SPACE] + rest);
      SpaceAfterId(id[1..], rest);
    }
  }

  /** Replica and master count from the same number. */
  lemma AgreementRead(id: Bytes, offset: nat)
    requires SPACE !in id && offset < U64_END
    ensures StartFrom(Agreement(id, offset)) == Some(offset)
  {
    hide AfterSpace, ParseUnsigned, Print;
    assert Agreement(id, offset)[|FULLRESYNC|..] == id + ([SPACE] + Print(offset));
    SpaceAfterId(id, Print(offset));
    UnsignedReadBack(offset, U64_END);
  }

  predicate NamesHistory(agreement: Bytes, id: Bytes, from: Bytes) {
    SPACE !in id && agreement == Ascii("FULLRESYNC ") + (id + (Ascii(" ") + from))
  }

  lemma {:induction false} SplitAtSpace(s: Bytes) returns (before: Bytes, after: Bytes)
    ensures AfterSpace(s).None? <==> SPACE !in s
    ensures AfterSpace(s).Some? ==> SPACE !in before && s == before + ([SPACE] + after) && AfterSpace(s) == Some(after)
  {
    before, after := [], [];
    if s != [] {
      if s[0] == SPACE {
        after := s[1..];
        assert s == [] + ([SPACE] + after);
      } else {
        var inner;
        inner, after := SplitAtSpace(s[1..]);
        before := [s[0]] + inner;
        assert s == [s[0]] + s[1..];
        Reassociate([s[0]], inner, [SPACE] + after);
      }
    }
  }

  /** A replica starts from the number after a history's name, and from nothing said in any other way. */
  lemma StartsWhen(agreement: Bytes) returns (id: Bytes, from: Bytes)
    ensures StartFrom(agreement).Some? ==>
              NamesHistory(agreement, id, from) && StartFrom(agreement) == ParseUnsigned(from, 0x1_0000_0000_0000_0000)
    ensures StartFrom(agreement).None? ==>
              forall i, f :: NamesHistory(agreement, i, f) ==> ParseUnsigned(f, 0x1_0000_0000_0000_0000).None?
  {
    hide AfterSpace, ParseUnsigned, Ascii;
    WordsAreSpelled();
    id, from := [], [];
    if FULLRESYNC <= agreement {
      var rest := agreement[|FULLRESYNC|..];
      id, from := SplitAtSpace(rest);
      assert agreement == FULLRESYNC + rest;
    }
    forall i, f | NamesHistory(agreement, i, f)
      ensures StartFrom(agreement) == ParseUnsigned(f, 0x1_0000_0000_0000_0000)
    {
      assert agreement[|FULLRESYNC|..] == i + ([SPACE] + f);
      SpaceAfterId(i, f);
    }
  }

  /** What the replica takes off the front once it has agreed: a file, and what is left after it. */
  function FileTaken(heard: Bytes): Option<(Bytes, Bytes)> {
    match FileHeader(heard)
    case NotYet => None
    case NotAFile => None
    case Found(length, header) =>
      if |heard| < header + length then None
      else Some((heard[header..header + length], heard[header + length..]))
  }

  /** After the agreement and the dataset come the commands, from their very first byte. */
  lemma HandoverLeavesTheStream(agreement: Bytes, dataset: Bytes, stream: Bytes)
    requires OneLine(agreement) && Utf8.IsText(agreement) && |dataset| < U64_END
    ensures var sent := Encode(Sequence([SimpleString(agreement), File(dataset)])) + stream;
            && Parse(sent, 0) == Got(SimpleString(agreement), |Encode(SimpleString(agreement))|)
            && FileTaken(sent[|Encode(SimpleString(agreement))|..]) == Some((dataset, stream))
  {
    hide Parse, Line, Print, FileTaken;
    var said, file := SimpleString(agreement), Encode(File(dataset));
    SequenceOfTwo(said, File(dataset));
    Reassociate(Encode(said), file, stream);
    RoundTrip(said, file + stream, 0);
    assert (Encode(said) + (file + stream))[|Encode(said)|..] == file + stream;
    FileComesOff(dataset, stream);
  }

  lemma SequenceOfTwo(a: Value, b: Value)
    ensures Encode(Sequence([a, b])) == Encode(a) + Encode(b)
  {
    assert [a, b][1..] == [b];
    EncodeAllOne(b);
  }

  lemma FileComesOff(dataset: Bytes, stream: Bytes)
    requires |dataset| < U64_END
    ensures FileTaken(Encode(File(dataset)) + stream) == Some((dataset, stream))
  {
    hide Print, Line, FileHeader;
    var header := Line(BULK, Print(|dataset|));
    Reassociate(header, dataset, stream);
    HeaderOfFile(|dataset|, dataset + stream);
    var heard := header + (dataset + stream);
    assert heard[|header|..|header| + |dataset|] == dataset;
    assert heard[|header| + |dataset|..] == stream;
  }

  lemma HeaderOfFile(length: nat, rest: Bytes)
    requires length < U64_END
    ensures FileHeader(Line(BULK, Print(length)) + rest) == Found(length, |Print(length)| + 3)
  {
    hide Print;
    PrintIsOneLine(length);
    LineRead(BULK, Print(length), rest);
    UnsignedReadBack(length, U64_END);
    var s := Line(BULK, Print(length)) + rest;
    assert s[0] == BULK && s[1..1 + |Print(length)|] == Print(length);
  }

  // ----- Keeping up -----

  /** What a replica has made of a stretch of the stream. */
  datatype Progress = Progress(heard: seq<Value>, reports: seq<nat>, offset: nat)

  /**
   Folds `Taken` over the values parsed from the front of `s`. A `GETACK` yields a
   report of the offset before it is counted; any other value yields none.
   */
  function Followed(s: Bytes, sofar: Progress): (p: Progress)
    decreases |s|
  {
    match Parse(s, 0)
    case More => sofar
    case Bad(_) => sofar
    case Got(v, length) => Followed(s[length..], Taken(sofar, v, length))
  }

  function Taken(p: Progress, v: Value, length: nat): Progress {
    Progress(p.heard + [v], if AsksHowFar(v) then p.reports + [p.offset] else p.reports, p.offset + length)
  }

  /** The same, of values rather than bytes. */
  function FollowedAll(values: seq<Value>, sofar: Progress): (p: Progress) {
    if values == [] then sofar
    else FollowedAll(values[1..], Taken(sofar, values[0], |Encode(values[0])|))
  }

  /** A replica hears exactly what was sent, and counts exactly the bytes it was sent in. */
  lemma {:induction false} FollowedIsWhatWasSent(values: seq<Value>, sofar: Progress)
    requires AllReadable(values, MAX_DEPTH)
    ensures Followed(EncodeAll(values), sofar) == FollowedAll(values, sofar)
    ensures FollowedAll(values, sofar).heard == sofar.heard + values
    ensures FollowedAll(values, sofar).offset == sofar.offset + |EncodeAll(values)|
    decreases |values|
  {
    hide Parse, Encode, AsksHowFar;
    if values == [] {
      NothingToParse();
    } else {
      var first, rest := Encode(values[0]), EncodeAll(values[1..]);
      RoundTrip(values[0], rest, 0);
      assert (first + rest)[|first|..] == rest;
      FollowedIsWhatWasSent(values[1..], Taken(sofar, values[0], |first|));
      assert sofar.heard + [values[0]] + values[1..] == sofar.heard + values;
    }
  }

  class Conversation {
    /** Bytes received and not yet parsed. */
    var heard: Bytes
    /** What each read to come will bring. An empty one is the master hanging up. */
    var coming: seq<Bytes>

    constructor (coming: seq<Bytes>)
      ensures this.coming == coming && heard == []
    {
      heard, this.coming := [], coming;
    }

    /** Everything the replica will ever hear from here on. */
    ghost function Stream(): Bytes
      reads this
    {
      heard + Framing.Heard(coming)
    }

    /** Reads more, which makes no difference to what there is to hear. */
    method Fill() returns (more: bool)
      modifies this
      ensures Stream() == old(Stream())
      ensures more ==> |coming| < |old(coming)|
      ensures !more ==> heard == old(heard) && Stream() == heard
    {
      if coming == [] || coming[0] == [] {
        assert heard + [] == heard;
        return false;
      }
      Reassociate(heard, coming[0], Framing.Heard(coming[1..]));
      heard, coming := heard + coming[0], coming[1..];
      return true;
    }

    /** Waits for a whole value, however it is cut up on the way. */
    method Hear() returns (r: Parsed)
      modifies this
      ensures r == Parse(old(Stream()), 0)
      ensures Stream() == if r.Got? then old(Stream())[r.length..] else old(Stream())
    {
      hide Parse;
      var more := true;
      while more
        invariant Stream() == old(Stream())
        invariant !more ==> Stream() == heard && Parse(heard, 0) == More
        decreases more, |coming|
      {
        r := Parse(heard, 0);
        if !r.More? {
          ParseStable(heard, Framing.Heard(coming), 0);
          if r.Got? {
            ghost var rest := Framing.Heard(coming);
            assert (heard + rest)[r.length..] == heard[r.length..] + rest;
            heard := heard[r.length..];
          }
          return;
        }
        more := Fill();
      }
      r := More;
    }

    /** Splits a snapshot off the stream by its declared length; later bytes remain in `Stream()`. */
    method TakeFile() returns (file: Option<Bytes>)
      modifies this
      ensures var was := FileTaken(old(Stream()));
              && file == (if was.Some? then Some(was.value.0) else None)
              && (was.Some? ==> Stream() == was.value.1)
    {
      hide FileHeader;
      var more := true;
      while more
        invariant Stream() == old(Stream())
        invariant !more ==> Stream() == heard && FileTaken(heard) == None
        decreases more, |coming|
      {
        ghost var rest := Framing.Heard(coming);
        match FileHeader(heard) {
          case NotAFile =>
            FileHeaderStable(heard, rest);
            return None;
          case Found(length, header) =>
            FileHeaderStable(heard, rest);
            if header + length <= |heard| {
              assert (heard + rest)[header..header + length] == heard[header..header + length];
              assert (heard + rest)[header + length..] == heard[header + length..] + rest;
              file := Some(heard[header..header + length]);
              heard := heard[header + length..];
              return;
            }
          case NotYet =>
        }
        more := Fill();
      }
      file := None;
    }

    /** The replica's main loop, ended by a closed connection or a protocol error. */
    method KeepUp(from: nat) returns (p: Progress)
      modifies this
      ensures p == Followed(old(Stream()), Progress([], [], from))
    {
      hide Parse, AsksHowFar;
      p := Progress([], [], from);
      while true
        invariant Followed(Stream(), p) == Followed(old(Stream()), Progress([], [], from))
        decreases |Stream()|
      {
        var said := Hear();
        if !said.Got? {
          return;
        }
        var reports := p.reports;
        if AsksHowFar(said.value) {
          reports := reports + [p.offset];
        }
        p := Progress(p.heard + [said.value], reports, p.offset + said.length);
      }
    }
  }
}
