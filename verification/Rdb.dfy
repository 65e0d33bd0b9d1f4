/**
 The snapshot (RDB) reader, twice: as functions from a byte suffix to a result and
 a consumed length, and as a class with a cursor that is proved to compute them.
 `RdbFile` supplies the writers it is inverted against.
 */
module Rdb {
  import opened Base
  import opened Decimal
  import Lzf

  const MAGIC: Bytes := [82, 69, 68, 73, 83]  // REDIS
  const HEADER: nat := 9

  const AUXILIARY: byte := 0xFA
  const RESIZE: byte := 0xFB
  const EXPIRES_AT_MILLISECONDS: byte := 0xFC
  const EXPIRES_AT_SECONDS: byte := 0xFD
  const DATABASE: byte := 0xFE
  const END: byte := 0xFF
  const STRING: byte := 0x00

  /** A loaded entry; `expiresAt` is absolute, in Unix milliseconds. */
  datatype Record = Record(key: Bytes, value: Bytes, expiresAt: Option<nat>)

  datatype RdbError =
    | PastEnd
    | NotADataset
    | UnreadableLength(first: byte)
    | PackedCount(how: byte)
    | PackedString(how: byte)
    | UnreadableKind(kind: byte)
    | Squeezing(error: Lzf.LzfError)

  datatype Length = Of(length: nat) | Packed(how: byte)

  type Reading<T> = Result<(T, nat), RdbError>

  // ----- Whole numbers as bytes -----

  function Little(s: Bytes): nat {
    if s == [] then 0 else s[0] + 256 * Little(s[1..])
  }

  function Big(s: Bytes): nat {
    if s == [] then 0 else 256 * Big(s[..|s| - 1]) + s[|s| - 1]
  }

  function Signed(value: nat, half: nat): int {
    if value >= half then value - 2 * half else value
  }

  // ----- Readings: a value with its consumed length, or an error -----

  function ReadBytes(s: Bytes, n: nat): (r: Reading<Bytes>)
    ensures r.Ok? ==> r.value.1 == n <= |s|
  {
    if n <= |s| then Ok((s[..n], n)) else Err(PastEnd)
  }

  function ReadBig(s: Bytes, width: nat): (r: Reading<nat>)
    ensures r.Ok? ==> r.value.1 == width <= |s|
  {
    if width <= |s| then Ok((Big(s[..width]), width)) else Err(PastEnd)
  }

  function ReadLittle(s: Bytes, width: nat): (r: Reading<nat>)
    ensures r.Ok? ==> r.value.1 == width <= |s|
  {
    if width <= |s| then Ok((Little(s[..width]), width)) else Err(PastEnd)
  }

  /** One more byte was read before this. */
  function After<T>(n: nat, r: Reading<T>): Reading<T> {
    match r
    case Ok((value, m)) => Ok((value, n + m))
    case Err(error) => Err(error)
  }

  function ReadLength(s: Bytes): (r: Reading<Length>)
    ensures r.Ok? ==> 0 < r.value.1 <= |s|
  {
    if s == [] then Err(PastEnd)
    else
      var first: int := s[0];
      if first / 64 == 0 then Ok((Of(first % 64), 1))
      else if first / 64 == 1 then
        if |s| < 2 then Err(PastEnd) else Ok((Of(first % 64 * 256 + s[1]), 2))
      else if first == 0x80 then AsLength(After(1, ReadBig(s[1..], 4)))
      else if first == 0x81 then AsLength(After(1, ReadBig(s[1..], 8)))
      else if first / 64 == 2 then Err(UnreadableLength(first))
      else Ok((Packed(first % 64), 1))
  }

  function AsLength(r: Reading<nat>): Reading<Length> {
    match r
    case Ok((n, taken)) => Ok((Of(n), taken))
    case Err(error) => Err(error)
  }

  function ReadCount(s: Bytes): (r: Reading<nat>)
    ensures r.Ok? ==> 0 < r.value.1 <= |s|
  {
    match ReadLength(s)
    case Ok((Of(n), taken)) => Ok((n, taken))
    case Ok((Packed(how), _)) => Err(PackedCount(how))
    case Err(error) => Err(error)
  }

  function ReadTwoCounts(s: Bytes): (r: Reading<(nat, nat)>)
    ensures r.Ok? ==> 0 < r.value.1 <= |s|
  {
    match ReadCount(s)
    case Err(error) => Err(error)
    case Ok((a, n)) =>
      match ReadCount(s[n..])
      case Err(error) => Err(error)
      case Ok((b, m)) => Ok(((a, b), n + m))
  }

  function ReadSqueezed(s: Bytes): (r: Reading<Bytes>)
    ensures r.Ok? ==> r.value.1 <= |s|
  {
    match ReadTwoCounts(s)
    case Err(error) => Err(error)
    case Ok(((stored, unpacked), n)) =>
      match ReadBytes(s[n..], stored)
      case Err(error) => Err(error)
      case Ok((squeezed, m)) =>
        match Lzf.Unsqueezed(squeezed, unpacked)
        case Err(error) => Err(Squeezing(error))
        case Ok(out) => Ok((out, n + m))
  }

  /** Two's-complement value printed in decimal; `half` is the sign threshold. */
  function SpelledOut(r: Reading<nat>, half: nat): Reading<Bytes> {
    match r
    case Ok((n, taken)) => Ok((Print(Signed(n, half)), taken))
    case Err(error) => Err(error)
  }

  function ReadText(s: Bytes): (r: Reading<Bytes>)
    ensures r.Ok? ==> 0 < r.value.1 <= |s|
  {
    match ReadLength(s)
    case Err(error) => Err(error)
    case Ok((Of(length), n)) => After(n, ReadBytes(s[n..], length))
    case Ok((Packed(how), n)) =>
      if how == 0 then After(n, SpelledOut(ReadLittle(s[n..], 1), 0x80))
      else if how == 1 then After(n, SpelledOut(ReadLittle(s[n..], 2), 0x8000))
      else if how == 2 then After(n, SpelledOut(ReadLittle(s[n..], 4), 0x8000_0000))
      else if how == 3 then After(n, ReadSqueezed(s[n..]))
      else Err(PackedString(how))
  }

  function ReadTwoTexts(s: Bytes): (r: Reading<(Bytes, Bytes)>)
    ensures r.Ok? ==> 0 < r.value.1 <= |s|
  {
    match ReadText(s)
    case Err(error) => Err(error)
    case Ok((a, n)) =>
      match ReadText(s[n..])
      case Err(error) => Err(error)
      case Ok((b, m)) => Ok(((a, b), n + m))
  }

  /** Records already gathered, in front of what is still to be read. */
  function Gathered(records: seq<Record>, later: Result<seq<Record>, RdbError>): Result<seq<Record>, RdbError> {
    match later
    case Ok(more) => Ok(records + more)
    case Err(error) => Err(error)
  }

  /** What a section leaves behind: the end, or records gathered and what is carried on to the next. */
  datatype Step = Finished | Next(records: seq<Record>, database: nat, expiresAt: Option<nat>)

  /** What a section comes to once the part after its leading byte has been read. */
  function Carried<T>(r: Reading<T>, step: T -> Step): Reading<Step> {
    match r
    case Err(error) => Err(error)
    case Ok((value, n)) => Ok((step(value), n + 1))
  }

  /** One section, read in a given database with a deadline set aside or none. */
  function ReadSection(s: Bytes, database: nat, expiresAt: Option<nat>): (r: Reading<Step>)
    ensures r.Ok? ==> 0 < r.value.1 <= |s|
  {
    if s == [] then Err(PastEnd)
    else
      var kind, rest := s[0], s[1..];
      if kind == END then Ok((Finished, 1))
      else if kind == AUXILIARY then
        Carried(ReadTwoTexts(rest), _ => Next([], database, expiresAt))
      else if kind == DATABASE then
        Carried(ReadCount(rest), number => Next([], number, expiresAt))
      else if kind == RESIZE then
        Carried(ReadTwoCounts(rest), _ => Next([], database, expiresAt))
      else if kind == EXPIRES_AT_SECONDS then
        Carried(ReadLittle(rest, 4), seconds => Next([], database, Some(1000 * seconds)))
      else if kind == EXPIRES_AT_MILLISECONDS then
        Carried(ReadLittle(rest, 8), milliseconds => Next([], database, Some(milliseconds)))
      else if kind == STRING then
        Carried(ReadTwoTexts(rest), (both: (Bytes, Bytes)) =>
          Next(if database == 0 then [Record(both.0, both.1, expiresAt)] else [], database, None))
      else Err(UnreadableKind(kind))
  }

  function Sections(s: Bytes, database: nat, expiresAt: Option<nat>): (r: Result<seq<Record>, RdbError>)
    decreases |s|
  {
    match ReadSection(s, database, expiresAt)
    case Err(error) => Err(error)
    case Ok((Finished, _)) => Ok([])
    case Ok((Next(records, d, e), n)) => Gathered(records, Sections(s[n..], d, e))
  }

  function ReadFile(file: Bytes): (r: Result<seq<Record>, RdbError>) {
    if |file| < HEADER then Err(PastEnd)
    else if file[..5] != MAGIC then Err(NotADataset)
    else Sections(file[HEADER..], 0, None)
  }

  // ----- The reader as it is written -----

  /** A method answered what was there to read and moved past it, or failed the same way. */
  ghost predicate Took<T>(before: nat, after: nat, r: Result<T, RdbError>, reading: Reading<T>) {
    match reading
    case Ok((value, n)) => r == Ok(value) && after == before + n
    case Err(error) => r == Err(error)
  }

  class Reader {
    const file: Bytes
    var at: nat

    ghost predicate Valid()
      reads this
    {
      at <= |file|
    }

    ghost function Rest(): Bytes
      requires Valid()
      reads this
    {
      file[at..]
    }

    constructor (file: Bytes)
      ensures this.file == file && at == 0 && Valid()
    {
      this.file := file;
      at := 0;
    }

    method Take(length: nat) returns (r: Result<Bytes, RdbError>)
      requires Valid()
      modifies this
      ensures Valid() && Took(old(at), at, r, ReadBytes(old(Rest()), length))
    {
      var end := at + length;
      if end > |file| {
        return Err(PastEnd);
      }
      assert file[at..][..length] == file[at..end];
      r := Ok(file[at..end]);
      at := end;
    }

    method FixedBig(width: nat) returns (r: Result<nat, RdbError>)
      requires Valid()
      modifies this
      ensures Valid() && Took(old(at), at, r, ReadBig(old(Rest()), width))
    {
      var bytes := Take(width);
      if bytes.Err? {
        return Err(bytes.error);
      }
      r := Ok(Big(bytes.value));
    }

    method FixedLittle(width: nat) returns (r: Result<nat, RdbError>)
      requires Valid()
      modifies this
      ensures Valid() && Took(old(at), at, r, ReadLittle(old(Rest()), width))
    {
      var bytes := Take(width);
      if bytes.Err? {
        return Err(bytes.error);
      }
      r := Ok(Little(bytes.value));
    }

    method NextLength() returns (r: Result<Length, RdbError>)
      requires Valid()
      modifies this
      ensures Valid() && Took(old(at), at, r, ReadLength(old(Rest())))
    {
      hide Big;
      ghost var s := Rest();
      var byte := Take(1);
      if byte.Err? {
        return Err(byte.error);
      }
      var first: int := byte.value[0];
      assert Rest() == s[1..];
      if first / 64 == 0 {
        return Ok(Of(first % 64));
      }
      if first / 64 == 1 {
        var low := Take(1);
        if low.Err? {
          return Err(low.error);
        }
        return Ok(Of(first % 64 * 256 + low.value[0]));
      }
      if first / 64 == 2 {
        var wide;
        if first == 0x80 {
          wide := FixedBig(4);
        } else if first == 0x81 {
          wide := FixedBig(8);
        } else {
          return Err(UnreadableLength(first));
        }
        r := if wide.Ok? then Ok(Of(wide.value)) else Err(wide.error);
        return;
      }
      r := Ok(Packed(first % 64));
    }

    method Count() returns (r: Result<nat, RdbError>)
      requires Valid()
      modifies this
      ensures Valid() && Took(old(at), at, r, ReadCount(old(Rest())))
    {
      hide ReadLength;
      var length := NextLength();
      match length
      case Ok(Of(count)) => r := Ok(count);
      case Ok(Packed(how)) => r := Err(PackedCount(how));
      case Err(error) => r := Err(error);
    }

    method TwoCounts() returns (r: Result<(nat, nat), RdbError>)
      requires Valid()
      modifies this
      ensures Valid() && Took(old(at), at, r, ReadTwoCounts(old(Rest())))
    {
      hide ReadCount;
      ghost var s, before := Rest(), at;
      var first := Count();
      if first.Err? {
        return Err(first.error);
      }
      assert Rest() == s[at - before..];
      var second := Count();
      if second.Err? {
        return Err(second.error);
      }
      r := Ok((first.value, second.value));
    }

    method Squeezed() returns (r: Result<Bytes, RdbError>)
      requires Valid()
      modifies this
      ensures Valid() && Took(old(at), at, r, ReadSqueezed(old(Rest())))
    {
      hide ReadTwoCounts;
      ghost var s, before := Rest(), at;
      var lengths := TwoCounts();
      if lengths.Err? {
        return Err(lengths.error);
      }
      var (stored, unpacked) := lengths.value;
      assert Rest() == s[at - before..];
      var squeezed := Take(stored);
      if squeezed.Err? {
        return Err(squeezed.error);
      }
      var out := Lzf.Unsqueeze(squeezed.value, unpacked);
      r := if out.Ok? then Ok(out.value) else Err(Squeezing(out.error));
    }

    method Text() returns (r: Result<Bytes, RdbError>)
      requires Valid()
      modifies this
      ensures Valid() && Took(old(at), at, r, ReadText(old(Rest())))
    {
      hide ReadLength, ReadSqueezed, Print, Little;
      ghost var s, before := Rest(), at;
      var length := NextLength();
      if length.Err? {
        return Err(length.error);
      }
      assert Rest() == s[at - before..];
      match length.value {
        case Of(length) =>
          r := Take(length);
        case Packed(how) =>
          if how == 3 {
            r := Squeezed();
          } else if how < 3 {
            var width := if how == 0 then 1 else if how == 1 then 2 else 4;
            var half := if how == 0 then 0x80 else if how == 1 then 0x8000 else 0x8000_0000;
            var number := FixedLittle(width);
            r := if number.Ok? then Ok(Print(Signed(number.value, half))) else Err(number.error);
          } else {
            r := Err(PackedString(how));
          }
      }
    }

    method TwoTexts() returns (r: Result<(Bytes, Bytes), RdbError>)
      requires Valid()
      modifies this
      ensures Valid() && Took(old(at), at, r, ReadTwoTexts(old(Rest())))
    {
      hide ReadText;
      ghost var s, before := Rest(), at;
      var first := Text();
      if first.Err? {
        return Err(first.error);
      }
      assert Rest() == s[at - before..];
      var second := Text();
      if second.Err? {
        return Err(second.error);
      }
      r := Ok((first.value, second.value));
    }

    /** One pass of the loop over the file. */
    method Section(database: nat, expiresAt: Option<nat>) returns (r: Result<Step, RdbError>)
      requires Valid()
      modifies this
      ensures Valid() && Took(old(at), at, r, ReadSection(old(Rest()), database, expiresAt))
    {
      hide ReadTwoTexts, ReadTwoCounts, ReadCount, ReadLittle;
      ghost var s := Rest();
      var byte := Take(1);
      if byte.Err? {
        return Err(byte.error);
      }
      var kind := byte.value[0];
      assert Rest() == s[1..];
      if kind == END {
        r := Ok(Finished);
      } else if kind == AUXILIARY {
        var both := TwoTexts();
        r := if both.Ok? then Ok(Next([], database, expiresAt)) else Err(both.error);
      } else if kind == DATABASE {
        var number := Count();
        r := if number.Ok? then Ok(Next([], number.value, expiresAt)) else Err(number.error);
      } else if kind == RESIZE {
        var both := TwoCounts();
        r := if both.Ok? then Ok(Next([], database, expiresAt)) else Err(both.error);
      } else if kind == EXPIRES_AT_SECONDS {
        var seconds := FixedLittle(4);
        r := if seconds.Ok? then Ok(Next([], database, Some(1000 * seconds.value))) else Err(seconds.error);
      } else if kind == EXPIRES_AT_MILLISECONDS {
        var milliseconds := FixedLittle(8);
        r := if milliseconds.Ok? then Ok(Next([], database, Some(milliseconds.value))) else Err(milliseconds.error);
      } else if kind == STRING {
        var both := TwoTexts();
        if both.Err? {
          return Err(both.error);
        }
        var record := Record(both.value.0, both.value.1, expiresAt);
        r := Ok(Next(if database == 0 then [record] else [], database, None));
      } else {
        r := Err(UnreadableKind(kind));
      }
    }

    method Dataset() returns (r: Result<seq<Record>, RdbError>)
      requires at == 0
      modifies this
      ensures Valid() && r == ReadFile(file)
    {
      hide ReadSection;
      assert file[0..] == file;
      var header := Take(HEADER);
      if header.Err? {
        return Err(header.error);
      }
      assert header.value[..5] == file[..5];
      if header.value[..5] != MAGIC {
        return Err(NotADataset);
      }
      var records, database, expiresAt := [], 0, None;
      ghost var left := Sections(Rest(), database, expiresAt);
      assert left.Ok? ==> [] + left.value == left.value;
      while true
        invariant Valid()
        invariant left == Sections(Rest(), database, expiresAt)
        invariant ReadFile(file) == Gathered(records, left)
        decreases |file| - at
      {
        ghost var s, before := Rest(), at;
        var section := Section(database, expiresAt);
        match section {
          case Err(error) =>
            return Err(error);
          case Ok(Finished) =>
            assert records + [] == records;
            return Ok(records);
          case Ok(Next(more, d, e)) =>
            assert s[at - before..] == Rest();
            left := Sections(Rest(), d, e);
            GatheredTwice(records, more, left);
            records, database, expiresAt := records + more, d, e;
        }
      }
    }
  }

  lemma GatheredTwice(a: seq<Record>, b: seq<Record>, later: Result<seq<Record>, RdbError>)
    ensures Gathered(a, Gathered(b, later)) == Gathered(a + b, later)
  {
    if later.Ok? {
      assert a + (b + later.value) == a + b + later.value;
    }
  }
}
