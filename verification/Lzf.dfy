/**
 LZF compression as snapshots use it. A compressed string is a program of literals
 and back-references; a back-reference longer than its distance overlaps its own
 output, which makes it periodic.
 */
module Lzf {
  import opened Base

  const ISIZE_MAX: nat := 0x7FFF_FFFF_FFFF_FFFF

  datatype Instruction =
    | Literal(bytes: Bytes)
    | Repeat(distance: nat, length: nat)

  /** `CapacityOverflow` stands for the panic of reserving room for more than `ISIZE_MAX` bytes. */
  datatype LzfError = CapacityOverflow | RunPastEnd | LengthPastEnd | DistancePastEnd | BackPastStart | WrongLength

  /** What can be said at all, given how much has been written so far. */
  predicate Sayable(i: Instruction, written: nat) {
    match i
    case Literal(bytes) => 1 <= |bytes| <= 32
    case Repeat(distance, length) => 1 <= distance <= 8192 && 3 <= length <= 264 && distance <= written
  }

  function Length(i: Instruction): nat {
    match i
    case Literal(bytes) => |bytes|
    case Repeat(_, length) => length
  }

  /** Writes `n` bytes again from `start`, one at a time, so that a repeat can feed on itself. */
  function Copied(out: Bytes, start: nat, n: nat): (r: Bytes)
    requires start < |out|
    ensures |r| == |out| + n
    decreases n
  {
    if n == 0 then out else Copied(out + [out[start]], start + 1, n - 1)
  }

  function Expanded(out: Bytes, i: Instruction): (r: Bytes)
    requires Sayable(i, |out|)
    ensures |r| == |out| + Length(i)
  {
    match i
    case Literal(bytes) => out + bytes
    case Repeat(distance, length) => Copied(out, |out| - distance, length)
  }

  predicate AllSayable(program: seq<Instruction>, written: nat) {
    program == [] || (Sayable(program[0], written) && AllSayable(program[1..], written + Length(program[0])))
  }

  function ExpandedAll(out: Bytes, program: seq<Instruction>): (r: Bytes)
    requires AllSayable(program, |out|)
    decreases |program|
  {
    if program == [] then out else ExpandedAll(Expanded(out, program[0]), program[1..])
  }

  // ----- How instructions are laid out -----

  function Packed(i: Instruction): (s: Bytes)
    requires exists written: nat :: Sayable(i, written)
    ensures s != []
  {
    match i
    case Literal(bytes) => [|bytes| - 1] + bytes
    case Repeat(distance, length) =>
      var back, count := distance - 1, length - 2;
      if count < 7 then [count * 32 + back / 256, back % 256]
      else [7 * 32 + back / 256, count - 7, back % 256]
  }

  function PackedAll(program: seq<Instruction>, written: nat): Bytes
    requires AllSayable(program, written)
    decreases |program|
  {
    if program == [] then []
    else Packed(program[0]) + PackedAll(program[1..], written + Length(program[0]))
  }

  // ----- Letting a string out -----

  /** Decodes one instruction, returning it with its encoded size. */
  function First(s: Bytes, written: nat): (r: Result<(Instruction, nat), LzfError>)
    requires s != []
    ensures r.Ok? ==> 0 < r.value.1 <= |s| && Sayable(r.value.0, written)
  {
    var control: int := s[0];
    if control < 0x20 then
      var run := control + 1;
      if 1 + run <= |s| then Ok((Literal(s[1..1 + run]), 1 + run)) else Err(RunPastEnd)
    else
      var spills := control / 32 == 7;
      if spills && |s| < 2 then Err(LengthPastEnd)
      else
        var count: int := if spills then 7 + s[1] else control / 32;
        var at := if spills then 2 else 1;
        if |s| <= at then Err(DistancePastEnd)
        else
          var distance: int := (control % 32) * 256 + s[at] + 1;
          if distance > written then Err(BackPastStart)
          else Ok((Repeat(distance, count + 2), at + 1))
  }

  function Unpacked(s: Bytes, out: Bytes): (r: Result<Bytes, LzfError>)
    decreases |s|
  {
    if s == [] then Ok(out)
    else
      match First(s, |out|)
      case Err(error) => Err(error)
      case Ok((i, n)) => Unpacked(s[n..], Expanded(out, i))
  }

  /** What `unsqueeze` answers: the string, if it comes out as long as it was said to be. */
  function Unsqueezed(squeezed: Bytes, unpacked: nat): (r: Result<Bytes, LzfError>) {
    if unpacked > ISIZE_MAX then Err(CapacityOverflow)
    else
      match Unpacked(squeezed, [])
      case Ok(out) => if |out| == unpacked then Ok(out) else Err(WrongLength)
      case Err(error) => Err(error)
  }

  method Unsqueeze(squeezed: Bytes, unpacked: nat) returns (r: Result<Bytes, LzfError>)
    ensures r == Unsqueezed(squeezed, unpacked)
    ensures r.Ok? ==> |r.value| == unpacked <= 88 * |squeezed|
  {
    hide First;
    if unpacked > ISIZE_MAX {
      return Err(CapacityOverflow);
    }
    var out, at := [], 0;
    assert squeezed[0..] == squeezed;
    while at < |squeezed|
      invariant 0 <= at <= |squeezed|
      invariant Unpacked(squeezed, []) == Unpacked(squeezed[at..], out)
      invariant |out| <= 88 * at
    {
      ghost var rest := squeezed[at..];
      var read := ReadInstruction(squeezed, at, |out|);
      if read.Err? {
        return Err(read.error);
      }
      var (i, n) := read.value;
      FirstIsPacked(rest, |out|);
      match i {
        case Literal(bytes) => out := out + bytes;
        case Repeat(distance, length) => out := Repeated(out, |out| - distance, length);
      }
      at := at + n;
      assert rest[n..] == squeezed[at..];
    }
    assert squeezed[at..] == [];
    if |out| != unpacked {
      return Err(WrongLength);
    }
    r := Ok(out);
  }

  /** The front half of the loop: the control byte at `from` and what belongs to it. */
  method ReadInstruction(squeezed: Bytes, from: nat, written: nat) returns (r: Result<(Instruction, nat), LzfError>)
    requires from < |squeezed|
    ensures r == First(squeezed[from..], written)
  {
    var control: int := squeezed[from];
    var at := from + 1;
    if control < 0x20 {
      var run := control + 1;
      if at + run > |squeezed| {
        return Err(RunPastEnd);
      }
      assert squeezed[from..][1..1 + run] == squeezed[at..at + run];
      return Ok((Literal(squeezed[at..at + run]), 1 + run));
    }
    var length: int := control / 32;
    if length == 7 {
      if at >= |squeezed| {
        return Err(LengthPastEnd);
      }
      length := length + squeezed[at];
      at := at + 1;
    }
    if at >= |squeezed| {
      return Err(DistancePastEnd);
    }
    var distance: int := (control % 32) * 256 + squeezed[at];
    at := at + 1;
    if written < distance + 1 {
      return Err(BackPastStart);
    }
    r := Ok((Repeat(distance + 1, length + 2), at - from));
  }

  /** The copy loop: each byte is read only once the one before it has been written. */
  method Repeated(before: Bytes, start: nat, n: nat) returns (out: Bytes)
    requires start < |before|
    ensures out == Copied(before, start, n)
  {
    out := before;
    for from := start to start + n
      invariant |out| == |before| + from - start
      invariant Copied(before, start, n) == Copied(out, from, n - (from - start))
    {
      out := out + [out[from]];
    }
  }

  // ----- Letting out undoes squeezing -----

  lemma FirstOfPacked(i: Instruction, rest: Bytes, written: nat)
    requires Sayable(i, written)
    ensures First(Packed(i) + rest, written) == Ok((i, |Packed(i)|))
  {
    var s := Packed(i) + rest;
    match i {
      case Literal(bytes) =>
        assert s[1..1 + |bytes|] == bytes;
      case Repeat(distance, length) =>
        var back, count := distance - 1, length - 2;
        assert back / 256 < 32;
        if count < 7 {
          HighBits(count, back / 256);
        } else {
          HighBits(7, back / 256);
        }
    }
  }

  lemma HighBits(high: nat, low: nat)
    requires low < 32
    ensures (high * 32 + low) / 32 == high && (high * 32 + low) % 32 == low
  {
  }

  /** Whatever is said, in literal runs and repeats, is what comes out. */
  lemma {:induction false} UnpackedPacked(program: seq<Instruction>, out: Bytes)
    requires AllSayable(program, |out|)
    ensures Unpacked(PackedAll(program, |out|), out) == Ok(ExpandedAll(out, program))
    decreases |program|
  {
    hide First, Expanded, Packed;
    if program != [] {
      var first, rest := Packed(program[0]), PackedAll(program[1..], |out| + Length(program[0]));
      FirstOfPacked(program[0], rest, |out|);
      assert (first + rest)[|first|..] == rest;
      UnpackedPacked(program[1..], Expanded(out, program[0]));
    }
  }

  /** What can be read off the front is the one layout of the instruction it stands for. */
  lemma FirstIsPacked(s: Bytes, written: nat)
    requires s != [] && First(s, written).Ok?
    ensures var (i, n) := First(s, written).value;
            Sayable(i, written) && s[..n] == Packed(i)
  {
    var (i, n) := First(s, written).value;
    var control: int := s[0];
    if control >= 0x20 {
      var high: int := control % 32;
      assert control == (control / 32) * 32 + high;
      var low: int := s[n - 1];
      assert i.distance - 1 == high * 256 + low;
      assert (high * 256 + low) / 256 == high && (high * 256 + low) % 256 == low;
    }
  }

  /** The instructions a squeezed string is made of. */
  function Program(s: Bytes, out: Bytes): (program: seq<Instruction>)
    requires Unpacked(s, out).Ok?
    ensures AllSayable(program, |out|)
    decreases |s|
  {
    if s == [] then []
    else
      var (i, n) := First(s, |out|).value;
      assert ([i] + Program(s[n..], Expanded(out, i)))[1..] == Program(s[n..], Expanded(out, i));
      [i] + Program(s[n..], Expanded(out, i))
  }

  /** Nothing else is let out: an input that comes through is the layout of some instructions, and they say what came. */
  lemma {:induction false} UnpackedIsPacked(s: Bytes, out: Bytes)
    requires Unpacked(s, out).Ok?
    ensures PackedAll(Program(s, out), |out|) == s
    ensures Unpacked(s, out).value == ExpandedAll(out, Program(s, out))
    decreases |s|
  {
    hide First, Expanded, Packed, PackedAll, ExpandedAll;
    if s == [] {
      NothingPacked(out);
    } else {
      var (i, n) := First(s, |out|).value;
      var later := Program(s[n..], Expanded(out, i));
      FirstIsPacked(s, |out|);
      UnpackedIsPacked(s[n..], Expanded(out, i));
      FirstOfProgram(i, later, out);
      assert s == s[..n] + s[n..];
    }
  }

  lemma NothingPacked(out: Bytes)
    ensures PackedAll([], |out|) == [] && ExpandedAll(out, []) == out
  {
  }

  /** A program by its first instruction. */
  lemma FirstOfProgram(i: Instruction, later: seq<Instruction>, out: Bytes)
    requires Sayable(i, |out|) && AllSayable(later, |Expanded(out, i)|)
    ensures AllSayable([i] + later, |out|)
    ensures PackedAll([i] + later, |out|) == Packed(i) + PackedAll(later, |Expanded(out, i)|)
    ensures ExpandedAll(out, [i] + later) == ExpandedAll(Expanded(out, i), later)
  {
    hide Packed;
    assert ([i] + later)[1..] == later;
  }

  // ----- A repeat that feeds on itself -----

  lemma {:induction false} CopiedKeepsFront(out: Bytes, start: nat, n: nat, k: nat)
    requires start < |out| && k < |out|
    ensures Copied(out, start, n)[k] == out[k]
    decreases n
  {
    if n > 0 {
      CopiedKeepsFront(out + [out[start]], start + 1, n - 1, k);
    }
  }

  lemma {:induction false} CopiedShifts(out: Bytes, start: nat, n: nat, k: nat)
    requires start < |out| && k < n
    ensures Copied(out, start, n)[|out| + k] == Copied(out, start, n)[start + k]
    decreases n
  {
    var next := out + [out[start]];
    if k == 0 {
      CopiedKeepsFront(next, start + 1, n - 1, |out|);
      CopiedKeepsFront(next, start + 1, n - 1, start);
    } else {
      CopiedShifts(next, start + 1, n - 1, k - 1);
    }
  }

  /** A back-reference's output has period `distance`. */
  lemma {:induction false} CopiedIsPeriodic(out: Bytes, distance: nat, n: nat, k: nat)
    requires 1 <= distance <= |out| && k < n
    ensures Copied(out, |out| - distance, n)[|out| + k] == out[|out| - distance + k % distance]
    decreases k
  {
    hide Copied;
    var start := |out| - distance;
    CopiedShifts(out, start, n, k);
    if k < distance {
      CopiedKeepsFront(out, start, n, start + k);
      RemainderIs(k, distance, 0, k);
    } else {
      assert start + k == |out| + (k - distance);
      CopiedIsPeriodic(out, distance, n, k - distance);
      SameRemainder(k, distance);
    }
  }

  lemma SameRemainder(k: nat, d: nat)
    requires 0 < d <= k
    ensures k % d == (k - d) % d
  {
    var q, r := k / d, k % d;
    assert k == q * d + r;
    assert k - d == (q - 1) * d + r;
    RemainderIs(k - d, d, q - 1, r);
  }

  lemma RemainderIs(x: int, d: nat, q: int, r: nat)
    requires d > 0 && x == q * d + r && r < d
    ensures x % d == r
  {
    var q', r' := x / d, x % d;
    assert (q - q') * d == r' - r;
    SmallMultiple(q - q', d);
  }

  lemma SmallMultiple(m: int, d: int)
    requires -d < m * d < d
    ensures m == 0
  {
  }
}
