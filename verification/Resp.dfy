/**
 The Redis serialization protocol (RESP2): how values are laid out as bytes, and
 the incremental reader that either finds a whole value at the front of what has
 arrived, asks for more, or gives the input up as malformed.
 */
module Resp {
  import opened Base
  import opened Decimal
  import Utf8

  const MAX_BULK_LENGTH: nat := 512 * 1024 * 1024
  const MAX_DEPTH: nat := 8

  const SIMPLE: byte := 43   // +
  const ERROR: byte := 45    // -
  const INTEGER: byte := 58  // :
  const BULK: byte := 36     // $
  const ARRAY: byte := 42    // *

  const CRLF: Bytes := [CR, LF]

  datatype Value =
    | SimpleString(text: Bytes)
    | Error(text: Bytes)
    | Integer(number: int)
    | BulkString(bytes: Bytes)
    | Array(values: seq<Value>)
    | Null
    | NullArray
    | File(bytes: Bytes)
    | Sequence(values: seq<Value>)

  datatype ParseError =
    | EmptyFrame
    | NotText
    | NotANumber
    | UnknownType(kind: byte)
    | InvalidBulkLength
    | NestedTooDeeply

  /** Outcome of a parse: incomplete input, a protocol error, or a value and its encoded size. */
  datatype Parsed = More | Bad(error: ParseError) | Got(value: Value, length: nat)

  datatype ParsedMany = MoreMany | BadMany(error: ParseError) | GotMany(values: seq<Value>, length: nat)

  // ----- Writing -----

  /** One line: a type byte, what follows it, and the CRLF that ends it. */
  function Line(kind: byte, text: Bytes): (s: Bytes)
    ensures |s| == |text| + 3
  {
    [kind] + text + CRLF
  }

  function Encode(v: Value): (s: Bytes)
    decreases v, 1
  {
    match v
    case SimpleString(text) => Line(SIMPLE, text)
    case Error(text) => Line(ERROR, text)
    case Integer(number) => Line(INTEGER, Print(number))
    case BulkString(bytes) => Line(BULK, Print(|bytes|)) + (bytes + CRLF)
    case Array(values) => Line(ARRAY, Print(|values|)) + EncodeAll(values)
    case Null => Line(BULK, [MINUS, 49])
    case NullArray => Line(ARRAY, [MINUS, 49])
    case File(bytes) => Line(BULK, Print(|bytes|)) + bytes
    case Sequence(values) => EncodeAll(values)
  }

  function EncodeAll(values: seq<Value>): (s: Bytes)
    decreases values, 0
  {
    if values == [] then [] else Encode(values[0]) + EncodeAll(values[1..])
  }

  lemma {:induction false} EncodeAllAppends(first: seq<Value>, second: seq<Value>)
    ensures EncodeAll(first + second) == EncodeAll(first) + EncodeAll(second)
  {
    if first == [] {
      assert first + second == second;
    } else {
      var both := first + second;
      assert both[1..] == first[1..] + second && both[0] == first[0];
      EncodeAllAppends(first[1..], second);
      Reassociate(Encode(first[0]), EncodeAll(first[1..]), EncodeAll(second));
    }
  }

  lemma EncodeAllOne(v: Value)
    ensures EncodeAll([v]) == Encode(v)
  {
    assert EncodeAll([v][1..]) == [];
  }

  /** `encode_into`: `out'` extends `out` by the encoding. */
  method EncodeInto(v: Value, out: Bytes) returns (out': Bytes)
    ensures out' == out + Encode(v)
    decreases v, 1
  {
    match v
    case SimpleString(text) => out' := out + Line(SIMPLE, text);
    case Error(text) => out' := out + Line(ERROR, text);
    case Integer(number) => out' := out + Line(INTEGER, Print(number));
    case BulkString(bytes) =>
      out' := out + Line(BULK, Print(|bytes|));
      out' := out' + bytes;
      out' := out' + CRLF;
    case Array(values) =>
      out' := out + Line(ARRAY, Print(|values|));
      out' := EncodeEachInto(values, out');
    case Null => out' := out + Line(BULK, [MINUS, 49]);
    case NullArray => out' := out + Line(ARRAY, [MINUS, 49]);
    case File(bytes) =>
      out' := out + Line(BULK, Print(|bytes|));
      out' := out' + bytes;
    case Sequence(values) =>
      out' := EncodeEachInto(values, out);
  }

  /** The loop both an array and a sequence of values are written with. */
  method EncodeEachInto(values: seq<Value>, out: Bytes) returns (out': Bytes)
    ensures out' == out + EncodeAll(values)
    decreases values, 0
  {
    hide EncodeAll, Encode;
    EncodeAllNone();
    out' := out;
    assert values[..0] == [];
    for i := 0 to |values|
      invariant out' == out + EncodeAll(values[..i])
    {
      out' := EncodeInto(values[i], out');
      EncodeAllSnoc(values, i);
      Reassociate(out, EncodeAll(values[..i]), Encode(values[i]));
    }
    assert values[..|values|] == values;
  }

  lemma EncodeAllNone()
    ensures EncodeAll([]) == []
  {
  }

  lemma EncodeAllSnoc(values: seq<Value>, i: nat)
    requires i < |values|
    ensures EncodeAll(values[..i + 1]) == EncodeAll(values[..i]) + Encode(values[i])
  {
    EncodeAllAppends(values[..i], [values[i]]);
    EncodeAllOne(values[i]);
    assert values[..i + 1] == values[..i] + [values[i]];
  }

  /** How each kind of value looks on the wire, in the characters of the Redis serialization protocol. */
  lemma OnTheWire(text: Bytes, number: int, values: seq<Value>)
    ensures Encode(SimpleString(text)) == Ascii("+") + text + Ascii("\r\n")
    ensures Encode(Error(text)) == Ascii("-") + text + Ascii("\r\n")
    ensures Encode(Integer(number)) == Ascii(":") + Print(number) + Ascii("\r\n")
    ensures Encode(BulkString(text)) == Ascii("$") + Print(|text|) + Ascii("\r\n") + text + Ascii("\r\n")
    ensures Encode(Array(values)) == Ascii("*") + Print(|values|) + Ascii("\r\n") + EncodeAll(values)
    ensures Encode(Null) == Ascii("$-1\r\n") && Encode(NullArray) == Ascii("*-1\r\n")
    ensures Encode(File(text)) == Ascii("$") + Print(|text|) + Ascii("\r\n") + text
  {
    hide Print, EncodeAll, Ascii, Line;
    Characters();
    LineIs(SIMPLE, text);
    LineIs(ERROR, text);
    LineIs(INTEGER, Print(number));
    LineIs(BULK, Print(|text|));
    LineIs(ARRAY, Print(|values|));
    LineIs(BULK, [MINUS, 49]);
    LineIs(ARRAY, [MINUS, 49]);
    Reassociate(Line(BULK, Print(|text|)), text, CRLF);
  }

  lemma LineIs(kind: byte, text: Bytes)
    ensures Line(kind, text) == [kind] + text + [13, 10]
  {
  }

  lemma Characters()
    ensures Ascii("\r\n") == [13, 10] && Ascii("+") == [43] && Ascii("-") == [45] && Ascii(":") == [58]
    ensures Ascii("$") == [36] && Ascii("*") == [42]
    ensures Ascii("$-1\r\n") == [36] + [45, 49] + [13, 10] && Ascii("*-1\r\n") == [42] + [45, 49] + [13, 10]
  {
  }

  // ----- Reading -----

  predicate LineEndAt(s: Bytes, i: int) {
    0 <= i < |s| - 1 && s[i] == CR && s[i + 1] == LF
  }

  /** Where the first CRLF is. */
  function LineEnd(s: Bytes): (end: Option<nat>)
    ensures end.Some? ==> LineEndAt(s, end.value) && forall i :: 0 <= i < end.value ==> !LineEndAt(s, i)
    ensures end.None? ==> forall i :: !LineEndAt(s, i)
  {
    if |s| < 2 then None
    else if s[0] == CR && s[1] == LF then Some(0)
    else
      var rest := LineEnd(s[1..]);
      assert forall i :: LineEndAt(s, i) && i != 0 ==> LineEndAt(s[1..], i - 1);
      if rest.Some? then Some(rest.value + 1) else None
  }

  function Parse(s: Bytes, depth: nat): (r: Parsed)
    ensures r.Got? ==> 3 <= r.length <= |s|
    decreases |s|, 0
  {
    var end := LineEnd(s);
    if end.None? then More
    else if end.value == 0 then Bad(EmptyFrame)
    else ParseLine(s[0], s[1..end.value], s[end.value + 2..], depth)
  }

  /** A value whose first line is already read: its type byte, the rest of that line, and what follows it. */
  function ParseLine(kind: byte, payload: Bytes, rest: Bytes, depth: nat): (r: Parsed)
    ensures r.Got? ==> |payload| + 3 <= r.length <= |payload| + 3 + |rest|
    decreases |rest|, 2
  {
    var taken := |payload| + 3;
    if kind == SIMPLE then
      if Utf8.IsText(payload) then Got(SimpleString(payload), taken) else Bad(NotText)
    else if kind == ERROR then
      if Utf8.IsText(payload) then Got(Error(payload), taken) else Bad(NotText)
    else if kind == INTEGER then
      var number := ParseI64(payload);
      if number.Some? then Got(Integer(number.value), taken) else Bad(NotANumber)
    else if kind == BULK then
      ParseBulk(payload, rest, taken)
    else if kind == ARRAY then
      if depth >= MAX_DEPTH then Bad(NestedTooDeeply)
      else
        var length := ParseUnsigned(payload, U64_END);
        if length.None? then Bad(NotANumber)
        else
          match ParseMany(rest, length.value, depth + 1)
          case MoreMany => More
          case BadMany(error) => Bad(error)
          case GotMany(values, more) => Got(Array(values), taken + more)
    else
      Bad(UnknownType(kind))
  }

  /** The body of a bulk string. The two bytes after it are passed over unread. */
  function ParseBulk(payload: Bytes, rest: Bytes, taken: nat): (r: Parsed)
    ensures r.Got? ==> taken <= r.length <= taken + |rest|
  {
    var length := ParseUnsigned(payload, U64_END);
    if length.None? then Bad(NotANumber)
    else if length.value > MAX_BULK_LENGTH then Bad(InvalidBulkLength)
    else if |rest| < length.value + 2 then More
    else Got(BulkString(rest[..length.value]), taken + length.value + 2)
  }

  /** What has been read so far, put in front of what is still to be read. */
  function Resumed(values: seq<Value>, taken: nat, rest: ParsedMany): ParsedMany {
    match rest
    case GotMany(more, length) => GotMany(values + more, taken + length)
    case _ => rest
  }

  /** `count` values one after another. */
  function ParseMany(s: Bytes, count: nat, depth: nat): (r: ParsedMany)
    ensures r.GotMany? ==> r.length <= |s|
    decreases |s|, 1
  {
    if count == 0 then GotMany([], 0)
    else
      match Parse(s, depth)
      case More => MoreMany
      case Bad(error) => BadMany(error)
      case Got(value, length) =>
        Resumed([value], length, ParseMany(s[length..], count - 1, depth))
  }

  // ----- The reader as it is written: a cursor moved by mutually recursive methods -----

  lemma ResumedTwice(a: seq<Value>, n: nat, b: seq<Value>, m: nat, rest: ParsedMany)
    ensures Resumed(a, n, Resumed(b, m, rest)) == Resumed(a + b, n + m, rest)
  {
    if rest.GotMany? {
      assert a + (b + rest.values) == a + b + rest.values;
    }
  }

  class Parser {
    const input: Bytes
    var pos: nat

    ghost predicate Valid()
      reads this
    {
      pos <= |input|
    }

    constructor (input: Bytes)
      ensures this.input == input && pos == 0 && Valid()
    {
      this.input := input;
      pos := 0;
    }

    method Line() returns (line: Option<Bytes>)
      requires Valid()
      modifies this
      ensures Valid()
      ensures var end := LineEnd(input[old(pos)..]);
              if end.Some?
              then line == Some(input[old(pos)..old(pos) + end.value]) && pos == old(pos) + end.value + 2
              else line == None && pos == old(pos)
    {
      var rest := input[pos..];
      var at := 0;
      while at + 1 < |rest|
        invariant 0 <= at
        invariant forall i :: 0 <= i < at ==> !LineEndAt(rest, i)
        invariant pos == old(pos)
      {
        if rest[at] == CR && rest[at + 1] == LF {
          assert LineEndAt(rest, at);
          assert LineEnd(rest) == Some(at);
          assert rest[..at] == input[pos..pos + at];
          pos := pos + at + 2;
          return Some(rest[..at]);
        }
        at := at + 1;
      }
      assert LineEnd(rest).None?;
      line := None;
    }

    method ReadValue(depth: nat) returns (r: Parsed)
      requires Valid()
      modifies this
      ensures Valid()
      ensures match Parse(input[old(pos)..], depth)
              case Got(value, length) => r == Got(value, old(pos) + length) && pos == old(pos) + length
              case other => r == other
      decreases |input| - pos, 1
    {
      hide ParseMany;
      ghost var start := pos;
      ghost var s := input[pos..];
      var line := Line();
      if line.None? {
        return More;
      }
      if line.value == [] {
        return Bad(EmptyFrame);
      }
      assert s[pos - start..] == input[pos..];
      assert s[..pos - start - 2] == line.value;
      var kind, payload := line.value[0], line.value[1..];
      if kind == SIMPLE {
        r := if Utf8.IsText(payload) then Got(SimpleString(payload), pos) else Bad(NotText);
      } else if kind == ERROR {
        r := if Utf8.IsText(payload) then Got(Error(payload), pos) else Bad(NotText);
      } else if kind == INTEGER {
        var number := ParseI64(payload);
        r := if number.Some? then Got(Integer(number.value), pos) else Bad(NotANumber);
      } else if kind == BULK {
        r := ReadBulk(payload);
      } else if kind == ARRAY {
        r := ReadArray(payload, depth);
      } else {
        r := Bad(UnknownType(kind));
      }
    }

    method ReadBulk(payload: Bytes) returns (r: Parsed)
      requires Valid()
      modifies this
      ensures Valid()
      ensures r == ParseBulk(payload, input[old(pos)..], old(pos))
      ensures r.Got? ==> pos == r.length
    {
      var length := ParseUnsigned(payload, U64_END);
      if length.None? {
        return Bad(NotANumber);
      }
      if length.value > MAX_BULK_LENGTH {
        return Bad(InvalidBulkLength);
      }
      var rest := input[pos..];
      if |rest| < length.value + 2 {
        return More;
      }
      pos := pos + length.value + 2;
      r := Got(BulkString(rest[..length.value]), pos);
    }

    method ReadArray(payload: Bytes, depth: nat) returns (r: Parsed)
      requires Valid()
      modifies this
      ensures Valid()
      ensures if depth >= MAX_DEPTH then r == Bad(NestedTooDeeply)
              else var count := ParseUnsigned(payload, U64_END);
                   if count.None? then r == Bad(NotANumber)
                   else match ParseMany(input[old(pos)..], count.value, depth + 1)
                        case MoreMany => r == More
                        case BadMany(error) => r == Bad(error)
                        case GotMany(values, more) =>
                          r == Got(Array(values), old(pos) + more) && pos == old(pos) + more
      decreases |input| - pos, 3
    {
      if depth >= MAX_DEPTH {
        return Bad(NestedTooDeeply);
      }
      var count := ParseUnsigned(payload, U64_END);
      if count.None? {
        return Bad(NotANumber);
      }
      var all := ReadMany(count.value, depth + 1);
      match all
      case MoreMany => r := More;
      case BadMany(error) => r := Bad(error);
      case GotMany(values, _) => r := Got(Array(values), pos);
    }

    /** The loop over an array's elements. */
    method ReadMany(count: nat, depth: nat) returns (r: ParsedMany)
      requires Valid()
      modifies this
      ensures Valid()
      ensures r == ParseMany(input[old(pos)..], count, depth)
      ensures r.GotMany? ==> pos == old(pos) + r.length
      decreases |input| - pos, 2
    {
      hide Parse;
      var values, start, i := [], pos, 0;
      ghost var all := ParseMany(input[pos..], count, depth);
      ghost var left := all;
      while i < count
        invariant Valid() && start <= pos
        invariant 0 <= i <= count
        invariant left == ParseMany(input[pos..], count - i, depth)
        invariant all == Resumed(values, pos - start, left)
      {
        ghost var rest := input[pos..];
        var element := ReadValue(depth);
        match element {
          case More =>
            return MoreMany;
          case Bad(error) =>
            return BadMany(error);
          case Got(value, _) =>
            ghost var length := Parse(rest, depth).length;
            assert rest[length..] == input[pos..];
            i := i + 1;
            left := ParseMany(input[pos..], count - i, depth);
            ResumedTwice(values, pos - length - start, [value], length, left);
            values := values + [value];
        }
      }
      assert values + [] == values;
      r := GotMany(values, pos - start);
    }
  }

  /** `parse`: one value off the front of `input`. */
  method ParseFront(input: Bytes) returns (r: Parsed)
    ensures r == Parse(input, 0)
  {
    var parser := new Parser(input);
    assert input[0..] == input;
    r := parser.ReadValue(0);
  }

  // ----- Which values can be read back -----

  predicate OneLine(text: Bytes) {
    forall i :: 0 <= i < |text| ==> !LineEndAt(text, i)
  }

  /** Values the reader can hand back, nested in at most `room` arrays. */
  predicate Readable(v: Value, room: nat)
    decreases v
  {
    match v
    case SimpleString(text) => OneLine(text) && Utf8.IsText(text)
    case Error(text) => OneLine(text) && Utf8.IsText(text)
    case Integer(number) => I64_MIN <= number <= I64_MAX
    case BulkString(bytes) => |bytes| <= MAX_BULK_LENGTH
    case Array(values) =>
      room > 0 && |values| < U64_END && forall i :: 0 <= i < |values| ==> Readable(values[i], room - 1)
    case _ => false
  }

  predicate AllReadable(values: seq<Value>, room: nat) {
    forall i :: 0 <= i < |values| ==> Readable(values[i], room)
  }

  lemma LineRead(kind: byte, text: Bytes, rest: Bytes)
    requires kind != CR && OneLine(text)
    ensures LineEnd(Line(kind, text) + rest) == Some(1 + |text|)
  {
    var s := Line(kind, text) + rest;
    assert LineEndAt(s, 1 + |text|);
    forall i | 0 <= i < 1 + |text|
      ensures !LineEndAt(s, i)
    {
      if i > 0 {
        assert !LineEndAt(text, i - 1);
        assert s[i] == text[i - 1];
      }
    }
  }

  lemma ParseOfLine(kind: byte, text: Bytes, rest: Bytes, depth: nat)
    requires kind != CR && OneLine(text)
    ensures Parse(Line(kind, text) + rest, depth) == ParseLine(kind, text, rest, depth)
  {
    var s := Line(kind, text) + rest;
    LineRead(kind, text, rest);
    assert s[0] == kind;
    assert s[1..1 + |text|] == text;
    assert s[|text| + 3..] == rest;
  }

  lemma PrintIsOneLine(number: int)
    ensures OneLine(Print(number))
  {
    forall i | 0 <= i < |Print(number)|
      ensures !LineEndAt(Print(number), i)
    {
      PrintHasNoLineEnd(number, i);
    }
  }

  lemma BulkRoundTrip(bytes: Bytes, rest: Bytes, depth: nat)
    requires |bytes| <= MAX_BULK_LENGTH
    ensures var header := Line(BULK, Print(|bytes|));
            Parse(header + (bytes + CRLF + rest), depth) == Got(BulkString(bytes), |header| + |bytes| + 2)
  {
    var body := bytes + CRLF + rest;
    PrintIsOneLine(|bytes|);
    ParseOfLine(BULK, Print(|bytes|), body, depth);
    UnsignedReadBack(|bytes|, U64_END);
    assert body[..|bytes|] == bytes;
  }

  lemma ArrayHeaderRead(count: nat, body: Bytes, depth: nat)
    requires count < U64_END && depth < MAX_DEPTH
    requires ParseMany(body, count, depth + 1).GotMany?
    ensures var header, all := Line(ARRAY, Print(count)), ParseMany(body, count, depth + 1);
            Parse(header + body, depth) == Got(Array(all.values), |header| + all.length)
  {
    PrintIsOneLine(count);
    ParseOfLine(ARRAY, Print(count), body, depth);
    UnsignedReadBack(count, U64_END);
  }

  /**
   Reading undoes writing: whatever follows a value's bytes, the reader finds
   that value and exactly its length.
   */
  lemma {:induction false} RoundTrip(v: Value, rest: Bytes, depth: nat)
    requires depth <= MAX_DEPTH && Readable(v, MAX_DEPTH - depth)
    ensures Parse(Encode(v) + rest, depth) == Got(v, |Encode(v)|)
    decreases v, 1
  {
    hide Parse, Line, ParseMany;
    match v
    case SimpleString(text) =>
      ParseOfLine(SIMPLE, text, rest, depth);
    case Error(text) =>
      ParseOfLine(ERROR, text, rest, depth);
    case Integer(number) =>
      PrintIsOneLine(number);
      ParseOfLine(INTEGER, Print(number), rest, depth);
      SignedReadBack(number);
    case BulkString(bytes) =>
      var header := Line(BULK, Print(|bytes|));
      BulkRoundTrip(bytes, rest, depth);
      Reassociate(header, bytes + CRLF, rest);
    case Array(values) =>
      var header := Line(ARRAY, Print(|values|));
      RoundTripMany(values, rest, depth + 1);
      ArrayHeaderRead(|values|, EncodeAll(values) + rest, depth);
      Reassociate(header, EncodeAll(values), rest);
  }

  lemma ParseManyFrom(value: Value, first: Bytes, tail: Bytes, count: nat, depth: nat)
    requires count > 0 && Parse(first + tail, depth) == Got(value, |first|)
    ensures ParseMany(first + tail, count, depth) == Resumed([value], |first|, ParseMany(tail, count - 1, depth))
  {
    assert (first + tail)[|first|..] == tail;
  }

  lemma {:induction false} RoundTripMany(values: seq<Value>, rest: Bytes, depth: nat)
    requires depth <= MAX_DEPTH && AllReadable(values, MAX_DEPTH - depth)
    ensures ParseMany(EncodeAll(values) + rest, |values|, depth) == GotMany(values, |EncodeAll(values)|)
    decreases values, 0
  {
    hide Parse, Encode;
    if values != [] {
      var first, tail := Encode(values[0]), EncodeAll(values[1..]) + rest;
      Reassociate(first, EncodeAll(values[1..]), rest);
      RoundTrip(values[0], tail, depth);
      RoundTripMany(values[1..], rest, depth);
      ParseManyFrom(values[0], first, tail, |values|, depth);
      assert [values[0]] + values[1..] == values;
    }
  }

  // ----- What is refused -----

  predicate MoreThan(number: Option<nat>, most: nat) {
    number.Some? && number.value > most
  }

  /** A whole line that cannot begin a value is refused at once, and for what reason. */
  lemma RefusedLines(kind: byte, text: Bytes, rest: Bytes, depth: nat)
    requires kind != CR && OneLine(text)
    ensures var r := Parse(Line(kind, text) + rest, depth);
            && ([kind] !in {Ascii("+"), Ascii("-"), Ascii(":"), Ascii("$"), Ascii("*")} ==> r == Bad(UnknownType(kind)))
            && ([kind] in {Ascii("+"), Ascii("-")} && !Utf8.IsText(text) ==> r == Bad(NotText))
            && ([kind] == Ascii(":") && ParseI64(text).None? ==> r == Bad(NotANumber))
            && ([kind] == Ascii("$") && ParseUnsigned(text, U64_END).None? ==> r == Bad(NotANumber))
            && ([kind] == Ascii("$") && MoreThan(ParseUnsigned(text, U64_END), 512 * 1024 * 1024) ==> r == Bad(InvalidBulkLength))
            && ([kind] == Ascii("*") && depth >= 8 ==> r == Bad(NestedTooDeeply))
            && ([kind] == Ascii("*") && depth < 8 && ParseUnsigned(text, U64_END).None? ==> r == Bad(NotANumber))
  {
    hide Ascii, Parse, ParseMany, ParseUnsigned, ParseI64, Utf8.IsText, OneLine;
    Characters();
    ParseOfLine(kind, text, rest, depth);
  }

  lemma BlankLineRefused(rest: Bytes, depth: nat)
    ensures Parse(Ascii("\r\n") + rest, depth) == Bad(EmptyFrame)
  {
    Characters();
    assert LineEndAt(Ascii("\r\n") + rest, 0);
  }

  /** An array is waited for, or refused, exactly as the first of its elements not to be there in full is. */
  lemma {:induction false} ArrayStops(count: nat, values: seq<Value>, s: Bytes, depth: nat)
    requires depth < MAX_DEPTH && AllReadable(values, MAX_DEPTH - depth - 1)
    requires |values| < count < U64_END && !Parse(s, depth + 1).Got?
    ensures Parse(Line(ARRAY, Print(count)) + (EncodeAll(values) + s), depth) == Parse(s, depth + 1)
  {
    hide Parse, ParseMany, Line, Print, EncodeAll;
    PrintIsOneLine(count);
    ParseOfLine(ARRAY, Print(count), EncodeAll(values) + s, depth);
    UnsignedReadBack(count, U64_END);
    ManyStop(count, values, s, depth + 1);
  }

  lemma {:induction false} ManyStop(count: nat, values: seq<Value>, s: Bytes, depth: nat)
    requires depth <= MAX_DEPTH && AllReadable(values, MAX_DEPTH - depth)
    requires |values| < count && !Parse(s, depth).Got?
    ensures ParseMany(EncodeAll(values) + s, count, depth)
            == match Parse(s, depth) case Bad(error) => BadMany(error) case _ => MoreMany
    decreases |values|
  {
    hide Parse, Encode;
    if values == [] {
      assert EncodeAll(values) + s == s;
    } else {
      var first, tail := Encode(values[0]), EncodeAll(values[1..]) + s;
      Reassociate(first, EncodeAll(values[1..]), s);
      RoundTrip(values[0], tail, depth);
      ManyStop(count - 1, values[1..], s, depth);
      ParseManyFrom(values[0], first, tail, count, depth);
    }
  }

  // ----- More bytes never change an answer already given -----

  lemma LineEndStable(s: Bytes, t: Bytes)
    requires LineEnd(s).Some?
    ensures LineEnd(s + t) == LineEnd(s)
  {
    var end := LineEnd(s).value;
    assert LineEndAt(s + t, end);
    forall i | 0 <= i < end
      ensures !LineEndAt(s + t, i)
    {
      assert !LineEndAt(s, i);
    }
  }

  lemma {:induction false} ParseStable(s: Bytes, t: Bytes, depth: nat)
    requires Parse(s, depth) != More
    ensures Parse(s + t, depth) == Parse(s, depth)
    decreases |s|, 0
  {
    LineEndStable(s, t);
    var end := LineEnd(s).value;
    if end > 0 {
      assert (s + t)[1..end] == s[1..end];
      assert (s + t)[end + 2..] == s[end + 2..] + t;
      ParseLineStable(s[0], s[1..end], s[end + 2..], t, depth);
    }
  }

  lemma {:induction false} ParseLineStable(kind: byte, payload: Bytes, rest: Bytes, t: Bytes, depth: nat)
    requires ParseLine(kind, payload, rest, depth) != More
    ensures ParseLine(kind, payload, rest + t, depth) == ParseLine(kind, payload, rest, depth)
    decreases |rest|, 2
  {
    var length := ParseUnsigned(payload, U64_END);
    if kind == BULK && length.Some? && length.value <= MAX_BULK_LENGTH {
      assert (rest + t)[..length.value] == rest[..length.value];
    } else if kind == ARRAY && depth < MAX_DEPTH && length.Some? {
      ParseManyStable(rest, t, length.value, depth + 1);
    }
  }

  lemma {:induction false} ParseManyStable(s: Bytes, t: Bytes, count: nat, depth: nat)
    requires ParseMany(s, count, depth) != MoreMany
    ensures ParseMany(s + t, count, depth) == ParseMany(s, count, depth)
    decreases |s|, 1
  {
    hide Parse;
    if count > 0 {
      var first := Parse(s, depth);
      ParseStable(s, t, depth);
      if first.Got? {
        var rest := s[first.length..];
        assert ParseMany(s, count, depth) == Resumed([first.value], first.length, ParseMany(rest, count - 1, depth));
        ParseManyStable(rest, t, count - 1, depth);
        assert (s + t)[first.length..] == rest + t;
      }
    }
  }

  /** Every proper prefix of a value's bytes asks for more; none is taken for something else. */
  lemma PrefixAsksForMore(v: Value, n: nat)
    requires Readable(v, MAX_DEPTH) && n < |Encode(v)|
    ensures Parse(Encode(v)[..n], 0) == More
  {
    var whole := Encode(v);
    RoundTrip(v, [], 0);
    assert whole + [] == whole == whole[..n] + whole[n..];
    if Parse(whole[..n], 0) != More {
      ParseStable(whole[..n], whole[n..], 0);
    }
  }

  lemma NothingToParse()
    ensures Parse([], 0) == More
  {
  }

  /** What comes off the wire is always something that could have been written there. */
  lemma {:induction false} ParsedIsReadable(s: Bytes, depth: nat)
    requires depth <= MAX_DEPTH && Parse(s, depth).Got?
    ensures Readable(Parse(s, depth).value, MAX_DEPTH - depth)
    decreases |s|, 0
  {
    hide ParseLine, Readable;
    var end := LineEnd(s).value;
    PayloadIsOneLine(s, end);
    ParsedLineIsReadable(s[0], s[1..end], s[end + 2..], depth);
  }

  lemma PayloadIsOneLine(s: Bytes, end: nat)
    requires LineEnd(s) == Some(end) && end > 0
    ensures OneLine(s[1..end])
  {
    var payload := s[1..end];
    forall i
      ensures !LineEndAt(payload, i)
    {
      if LineEndAt(payload, i) {
        assert LineEndAt(s, i + 1);
      }
    }
  }

  lemma {:induction false} ParsedLineIsReadable(kind: byte, payload: Bytes, rest: Bytes, depth: nat)
    requires depth <= MAX_DEPTH && OneLine(payload) && ParseLine(kind, payload, rest, depth).Got?
    ensures Readable(ParseLine(kind, payload, rest, depth).value, MAX_DEPTH - depth)
    decreases |rest|, 2
  {
    hide ParseMany, ParseUnsigned, OneLine;
    if kind == ARRAY {
      ParsedManyAreReadable(rest, ParseUnsigned(payload, U64_END).value, depth + 1);
    }
  }

  lemma {:induction false} ParsedManyAreReadable(s: Bytes, count: nat, depth: nat)
    requires depth <= MAX_DEPTH && ParseMany(s, count, depth).GotMany?
    ensures |ParseMany(s, count, depth).values| == count
    ensures AllReadable(ParseMany(s, count, depth).values, MAX_DEPTH - depth)
    decreases |s|, 1
  {
    hide Parse;
    if count > 0 {
      ParsedIsReadable(s, depth);
      ParsedManyAreReadable(s[Parse(s, depth).length..], count - 1, depth);
    }
  }
}
