/**
 Geohash scores as Morton codes: the row and the column of a grid cell are
 interleaved into one number. Words (`Spread`, `Gather`, `Woven`) are shown to
 agree with a recursive definition on naturals (`Weave`, `EvenBits`), and
 inversion, order, block and accuracy results are proved of the latter.
 */
module Morton {
  // ----- Machine words -----

  /** How far each half is moved apart, and the bits that are kept. */
  const SPREADS: seq<(bv64, bv64)> := [
    (16, 0x0000FFFF0000FFFF),
    (8, 0x00FF00FF00FF00FF),
    (4, 0x0F0F0F0F0F0F0F0F),
    (2, 0x3333333333333333),
    (1, 0x5555555555555555)
  ]

  const GATHERS: seq<(bv64, bv64)> := [
    (1, 0x3333333333333333),
    (2, 0x0F0F0F0F0F0F0F0F),
    (4, 0x00FF00FF00FF00FF),
    (8, 0x0000FFFF0000FFFF),
    (16, 0x00000000FFFFFFFF)
  ]

  function Apart(x: bv64, shift: bv64, keep: bv64): bv64
    requires shift <= 64
  {
    (x | (x << shift)) & keep
  }

  function Together(x: bv64, shift: bv64, keep: bv64): bv64
    requires shift <= 64
  {
    (x | (x >> shift)) & keep
  }

  function Spread(value: bv64): bv64 {
    Apart(Apart(Apart(Apart(Apart(value, 16, 0x0000FFFF0000FFFF), 8, 0x00FF00FF00FF00FF),
                      4, 0x0F0F0F0F0F0F0F0F), 2, 0x3333333333333333), 1, 0x5555555555555555)
  }

  function Gather(woven: bv64): bv64 {
    Together(Together(Together(Together(Together(woven & 0x5555555555555555, 1, 0x3333333333333333),
                                        2, 0x0F0F0F0F0F0F0F0F), 4, 0x00FF00FF00FF00FF),
                      8, 0x0000FFFF0000FFFF), 16, 0x00000000FFFFFFFF)
  }

  function Joined(even: bv64, odd: bv64): bv64 {
    even | (odd << 1)
  }

  function Woven(north: bv64, east: bv64): bv64 {
    Joined(Spread(north), Spread(east))
  }

  predicate Movable(moves: seq<(bv64, bv64)>) {
    forall i :: 0 <= i < |moves| ==> moves[i].0 <= 64
  }

  function Spreading(x: bv64, moves: seq<(bv64, bv64)>): bv64
    requires Movable(moves)
    decreases |moves|
  {
    if moves == [] then x else Spreading(Apart(x, moves[0].0, moves[0].1), moves[1..])
  }

  function Gathering(x: bv64, moves: seq<(bv64, bv64)>): bv64
    requires Movable(moves)
    decreases |moves|
  {
    if moves == [] then x else Gathering(Together(x, moves[0].0, moves[0].1), moves[1..])
  }

  lemma SpreadInFiveMoves(x: bv64)
    ensures Spreading(x, SPREADS) == Spread(x)
  {
    hide Apart;
    var a := Apart(x, SPREADS[0].0, SPREADS[0].1);
    var b := Apart(a, SPREADS[1].0, SPREADS[1].1);
    var c := Apart(b, SPREADS[2].0, SPREADS[2].1);
    assert Spreading(x, SPREADS) == Spreading(a, SPREADS[1..]);
    assert SPREADS[1..][1..] == SPREADS[2..] && SPREADS[2..][1..] == SPREADS[3..] && SPREADS[3..][1..] == SPREADS[4..];
    assert Spreading(a, SPREADS[1..]) == Spreading(b, SPREADS[2..]) == Spreading(c, SPREADS[3..]);
  }

  lemma GatherInFiveMoves(x: bv64)
    ensures Gathering(x & 0x5555555555555555, GATHERS) == Gather(x)
  {
    hide Together;
    var a := Together(x & 0x5555555555555555, GATHERS[0].0, GATHERS[0].1);
    var b := Together(a, GATHERS[1].0, GATHERS[1].1);
    var c := Together(b, GATHERS[2].0, GATHERS[2].1);
    assert Gathering(x & 0x5555555555555555, GATHERS) == Gathering(a, GATHERS[1..]);
    assert GATHERS[1..][1..] == GATHERS[2..] && GATHERS[2..][1..] == GATHERS[3..] && GATHERS[3..][1..] == GATHERS[4..];
    assert Gathering(a, GATHERS[1..]) == Gathering(b, GATHERS[2..]) == Gathering(c, GATHERS[3..]);
  }

  /** Five shift-or-mask moves with shrinking shifts, as a loop. */
  method SpreadByHalves(value: bv64) returns (spread: bv64)
    ensures spread == Spread(value)
  {
    hide Apart;
    spread := value;
    for i := 0 to |SPREADS|
      invariant Spreading(spread, SPREADS[i..]) == Spreading(value, SPREADS)
    {
      assert SPREADS[i..][1..] == SPREADS[i + 1..];
      spread := Apart(spread, SPREADS[i].0, SPREADS[i].1);
    }
    SpreadInFiveMoves(value);
  }

  /** Closes the gaps again. */
  method GatherByHalves(woven: bv64) returns (gathered: bv64)
    ensures gathered == Gather(woven)
  {
    hide Together;
    gathered := woven & 0x5555555555555555;
    for i := 0 to |GATHERS|
      invariant Gathering(gathered, GATHERS[i..]) == Gathering(woven & 0x5555555555555555, GATHERS)
    {
      assert GATHERS[i..][1..] == GATHERS[i + 1..];
      gathered := Together(gathered, GATHERS[i].0, GATHERS[i].1);
    }
    GatherInFiveMoves(woven);
  }

  function Low(x: bv64): bool {
    x & 1 == 1
  }

  function Half(x: bv64): bv64 {
    x >> 1
  }

  predicate OddBitsClear(x: bv64) {
    x & 0x5555555555555555 == x
  }

  lemma SpreadLow(x: bv64)
    ensures Low(Spread(x)) == Low(x)
  {
  }

  lemma SpreadIsEven(x: bv64)
    ensures OddBitsClear(Spread(x))
  {
  }

  lemma SpreadOfHalf(x: bv64)
    requires x <= 0xFFFFFFFF
    ensures Half(Half(Spread(x))) == Spread(Half(x))
  {
  }

  lemma JoinedLow(a: bv64, b: bv64)
    ensures Low(Joined(a, b)) == Low(a)
  {
  }

  lemma JoinedNext(a: bv64, b: bv64)
    requires OddBitsClear(a) && OddBitsClear(b)
    ensures Low(Half(Joined(a, b))) == Low(b)
  {
  }

  lemma JoinedHalves(a: bv64, b: bv64)
    requires OddBitsClear(a) && OddBitsClear(b)
    ensures Half(Half(Joined(a, b))) == Joined(Half(Half(a)), Half(Half(b)))
  {
  }

  lemma GatherBits(w: bv64)
    ensures Gather(w) & 1 == w & 1
    ensures Gather(w) >> 1 == Gather(w >> 1 >> 1)
  {
  }

  /** Weaving takes one bit of each at a time. */
  lemma WovenStep(n: bv64, e: bv64)
    requires n <= 0xFFFFFFFF && e <= 0xFFFFFFFF
    ensures Low(Woven(n, e)) == Low(n)
    ensures Low(Half(Woven(n, e))) == Low(e)
    ensures Half(Half(Woven(n, e))) == Woven(Half(n), Half(e))
  {
    hide Spread, Joined, Low, Half, OddBitsClear;
    SpreadLow(n);
    SpreadLow(e);
    SpreadIsEven(n);
    SpreadIsEven(e);
    SpreadOfHalf(n);
    SpreadOfHalf(e);
    JoinedLow(Spread(n), Spread(e));
    JoinedNext(Spread(n), Spread(e));
    JoinedHalves(Spread(n), Spread(e));
  }

  lemma GatherStep(w: bv64)
    ensures Low(Gather(w)) == Low(w)
    ensures Half(Gather(w)) == Gather(Half(Half(w)))
  {
    hide Gather;
    GatherBits(w);
  }

  /** Taken apart again, the word gives back the two it was woven from. */
  lemma GatherUndoesWoven(n: bv64, e: bv64)
    requires n <= 0xFFFFFFFF && e <= 0xFFFFFFFF
    ensures Gather(Woven(n, e)) == n
    ensures Gather(Woven(n, e) >> 1) == e
  {
  }

  /** The number the low `bits` bits of a word hold. */
  function Number(x: bv64, bits: nat): nat {
    if bits == 0 then 0 else (if Low(x) then 1 else 0) + 2 * Number(Half(x), bits - 1)
  }

  // ----- The same on numbers: one bit at a time -----

  /** North in the even bits, east in the odd ones. */
  function Weave(north: nat, east: nat): nat {
    if north == 0 && east == 0 then 0 else north % 2 + 2 * (east % 2) + 4 * Weave(north / 2, east / 2)
  }

  function EvenBits(woven: nat): nat {
    if woven == 0 then 0 else woven % 2 + 2 * EvenBits(woven / 4)
  }

  function Bit(x: bv64): (b: nat)
    ensures b < 2
  {
    if Low(x) then 1 else 0
  }

  lemma NumberStep(x: bv64, bits: nat)
    requires bits > 0
    ensures Number(x, bits) % 2 == Bit(x) && Number(x, bits) / 2 == Number(Half(x), bits - 1)
  {
    hide Low, Half;
  }

  lemma NumberTwoSteps(x: bv64, bits: nat)
    requires bits > 1
    ensures Number(x, bits) == Bit(x) + 2 * Bit(Half(x)) + 4 * Number(Half(Half(x)), bits - 2)
  {
    hide Low, Half;
    assert Number(Half(x), bits - 1) == Bit(Half(x)) + 2 * Number(Half(Half(x)), bits - 2);
  }

  /** The words are woven as the numbers they hold are. */
  lemma {:induction false} WovenIsWeave(n: bv64, e: bv64, bits: nat)
    requires n <= 0xFFFFFFFF && e <= 0xFFFFFFFF
    ensures Number(Woven(n, e), 2 * bits) == Weave(Number(n, bits), Number(e, bits))
    decreases bits
  {
    hide Low, Half, Woven;
    if bits > 0 {
      WovenStep(n, e);
      HalfFits(n);
      HalfFits(e);
      WovenIsWeave(Half(n), Half(e), bits - 1);
      NumberTwoSteps(Woven(n, e), 2 * bits);
      NumberStep(n, bits);
      NumberStep(e, bits);
      hide Number, Weave;
      assert 2 * bits - 2 == 2 * (bits - 1);
      WeaveStep(Number(n, bits), Number(e, bits));
    }
  }

  lemma HalfFits(x: bv64)
    requires x <= 0xFFFFFFFF
    ensures Half(x) <= 0xFFFFFFFF
  {
  }

  lemma TwoParts(b: nat, rest: nat)
    requires b < 2
    ensures (b + 2 * rest) % 2 == b && (b + 2 * rest) / 2 == rest
  {
  }

  lemma FourParts(w: nat)
    ensures w / 2 / 2 == w / 4 && w / 2 / 4 == w / 4 / 2
  {
  }

  lemma {:induction false} WeaveStep(n: nat, e: nat)
    ensures Weave(n, e) == n % 2 + 2 * (e % 2) + 4 * Weave(n / 2, e / 2)
    ensures Weave(n, e) % 2 == n % 2
    ensures (Weave(n, e) / 2) % 2 == e % 2
    ensures Weave(n, e) / 2 / 2 == Weave(n, e) / 4 == Weave(n / 2, e / 2)
  {
    var rest := Weave(n / 2, e / 2);
    TwoParts(n % 2, e % 2 + 2 * rest);
    TwoParts(e % 2, rest);
    FourParts(Weave(n, e));
  }

  lemma {:induction false} EvenBitsStep(w: nat)
    ensures EvenBits(w) % 2 == w % 2 && EvenBits(w) / 2 == EvenBits(w / 4)
  {
    TwoParts(w % 2, EvenBits(w / 4));
  }

  lemma FromParts(w: nat)
    ensures w == w % 2 + 2 * (w / 2 % 2) + 4 * (w / 4)
  {
    FourParts(w);
  }

  lemma NumberOfParts(w: nat, b: nat, c: nat, rest: nat)
    requires b < 2 && c < 2 && w == b + 2 * c + 4 * rest
    ensures w % 2 == b && w / 4 == rest
  {
    TwoParts(b, c + 2 * rest);
    TwoParts(c, rest);
    FourParts(w);
  }

  lemma SameParts(x: nat, y: nat)
    requires x % 2 == y % 2 && x / 2 == y / 2
    ensures x == y
  {
  }

  /** Gathering picks out the even bits. */
  lemma {:induction false} GatherIsEvenBits(w: bv64, bits: nat)
    ensures Number(Gather(w), bits) == EvenBits(Number(w, 2 * bits))
    decreases bits
  {
    hide Low, Half, Gather;
    if bits > 0 {
      GatherStep(w);
      GatherIsEvenBits(Half(Half(w)), bits - 1);
      NumberTwoSteps(w, 2 * bits);
      NumberStep(Gather(w), bits);
      hide Number, EvenBits, Bit;
      var whole, rest := Number(w, 2 * bits), Number(Half(Half(w)), 2 * (bits - 1));
      assert 2 * bits - 2 == 2 * (bits - 1);
      NumberOfParts(whole, Bit(w), Bit(Half(w)), rest);
      EvenBitsStep(whole);
      SameParts(Number(Gather(w), bits), EvenBits(whole));
    }
  }

  // ----- What the weave is good for -----

  function Pow2(k: nat): (p: nat)
    ensures p > 0
  {
    if k == 0 then 1 else 2 * Pow2(k - 1)
  }

  function BitAt(n: nat, i: nat): nat {
    if i == 0 then n % 2 else BitAt(n / 2, i - 1)
  }

  /** Bit `i` of each number stands at bits `2i` and `2i + 1` of the weave. */
  lemma {:induction false} WeaveBits(n: nat, e: nat, i: nat)
    ensures BitAt(Weave(n, e), 2 * i) == BitAt(n, i)
    ensures BitAt(Weave(n, e), 2 * i + 1) == BitAt(e, i)
    decreases i
  {
    hide Weave;
    WeaveStep(n, e);
    var w := Weave(n, e);
    if i > 0 {
      WeaveBits(n / 2, e / 2, i - 1);
      assert BitAt(w, 2 * i) == BitAt(w / 2, 2 * i - 1) == BitAt(w / 2 / 2, 2 * (i - 1));
      assert BitAt(w, 2 * i + 1) == BitAt(w / 2, 2 * i) == BitAt(w / 2 / 2, 2 * (i - 1) + 1);
    } else {
      assert BitAt(w, 1) == BitAt(w / 2, 0);
    }
  }

  /** Both numbers can be had back out of the weave. */
  lemma {:induction false} EvenBitsUndoWeave(n: nat, e: nat)
    ensures EvenBits(Weave(n, e)) == n
    ensures EvenBits(Weave(n, e) / 2) == e
    decreases n + e
  {
    if n > 0 || e > 0 {
      hide Weave, EvenBits;
      WeaveStep(n, e);
      EvenBitsUndoWeave(n / 2, e / 2);
      EvenBitsStep(Weave(n, e));
      EvenBitsStep(Weave(n, e) / 2);
      FourParts(Weave(n, e));
    }
  }

  /** And every number is the weave of the two it holds, so no score is left over. */
  lemma {:induction false} WeaveUndoesEvenBits(w: nat)
    ensures Weave(EvenBits(w), EvenBits(w / 2)) == w
  {
    if w > 0 {
      hide Weave, EvenBits;
      WeaveUndoesEvenBits(w / 4);
      var n, e := EvenBits(w), EvenBits(w / 2);
      WeaveStep(n, e);
      EvenBitsStep(w);
      EvenBitsStep(w / 2);
      FourParts(w);
      FromParts(w);
    }
  }

  lemma {:induction false} WeaveRisesOneWay(n: nat, e: nat, n': nat, e': nat)
    requires n <= n' && e <= e' && (n < n' || e < e')
    requires n == n' || e == e'
    ensures Weave(n, e) < Weave(n', e')
    decreases n' + e'
  {
    hide Weave;
    WeaveStep(n, e);
    WeaveStep(n', e');
    if n / 2 < n' / 2 || e / 2 < e' / 2 {
      WeaveRisesOneWay(n / 2, e / 2, n' / 2, e' / 2);
    }
  }

  /** Going north, or east, or both, only ever raises the score. */
  lemma WeaveIsMonotone(n: nat, e: nat, n': nat, e': nat)
    requires n <= n' && e <= e' && (n < n' || e < e')
    ensures Weave(n, e) < Weave(n', e')
  {
    hide Weave;
    if n < n' {
      WeaveRisesOneWay(n, e, n', e);
    }
    if e < e' {
      WeaveRisesOneWay(n', e, n', e');
    }
  }

  /** A number with its low `k` bits cut off. */
  function Coarser(n: nat, k: nat): nat {
    if k == 0 then n else Coarser(n / 2, k - 1)
  }

  /** A weave cut short is the weave of the two numbers cut short. */
  lemma {:induction false} WeaveOfCoarser(n: nat, e: nat, k: nat)
    ensures Coarser(Weave(n, e), 2 * k) == Weave(Coarser(n, k), Coarser(e, k))
    decreases k
  {
    hide Weave;
    if k > 0 {
      WeaveStep(n, e);
      WeaveOfCoarser(n / 2, e / 2, k - 1);
      var w := Weave(n, e);
      assert Coarser(w, 2 * k) == Coarser(w / 2, 2 * k - 1) == Coarser(w / 2 / 2, 2 * (k - 1));
    }
  }

  lemma WeaveIsInjective(n: nat, e: nat, n': nat, e': nat)
    ensures Weave(n, e) == Weave(n', e') <==> n == n' && e == e'
  {
    hide Weave, EvenBits;
    EvenBitsUndoWeave(n, e);
    EvenBitsUndoWeave(n', e');
  }

  /**
   Two squares of the grid share an aligned block of 2^k by 2^k squares exactly
   when their scores agree but for the low 2k bits.
   */
  lemma SameBlockSameHighBits(n: nat, e: nat, n': nat, e': nat, k: nat)
    ensures Coarser(n, k) == Coarser(n', k) && Coarser(e, k) == Coarser(e', k)
            <==> Coarser(Weave(n, e), 2 * k) == Coarser(Weave(n', e'), 2 * k)
  {
    hide Weave, Coarser;
    WeaveOfCoarser(n, e, k);
    WeaveOfCoarser(n', e', k);
    WeaveIsInjective(Coarser(n, k), Coarser(e, k), Coarser(n', k), Coarser(e', k));
  }

  /** The numbers that agree but for their low `k` bits are one unbroken run of 2^k numbers. */
  lemma {:induction false} CoarserIsInterval(w: nat, k: nat, c: nat)
    ensures Coarser(w, k) == c <==> c * Pow2(k) <= w < c * Pow2(k) + Pow2(k)
    decreases k
  {
    if k > 0 {
      CoarserIsInterval(w / 2, k - 1, c);
      var p := Pow2(k - 1);
      assert c * (2 * p) == 2 * (c * p);
    } else {
      assert Pow2(0) == 1;
    }
  }

  /** The cell lies in the aligned 2^k by 2^k block with corner indices `row` and `column`. */
  predicate InBlock(n: nat, e: nat, row: nat, column: nat, k: nat) {
    Coarser(n, k) == row && Coarser(e, k) == column
  }

  /** The scores of a block's cells are exactly one interval of 4^k numbers. */
  lemma BlockIsInterval(row: nat, column: nat, k: nat, w: nat)
    ensures (exists n: nat, e: nat :: InBlock(n, e, row, column, k) && Weave(n, e) == w)
            <==> Weave(row, column) * Pow2(2 * k) <= w < Weave(row, column) * Pow2(2 * k) + Pow2(2 * k)
  {
    hide Weave, EvenBits, Coarser, Pow2;
    CoarserIsInterval(w, 2 * k, Weave(row, column));
    var n, e := EvenBits(w), EvenBits(w / 2);
    WeaveUndoesEvenBits(w);
    WeaveOfCoarser(n, e, k);
    WeaveIsInjective(Coarser(n, k), Coarser(e, k), row, column);
    forall n': nat, e': nat | InBlock(n', e', row, column, k) && Weave(n', e') == w
      ensures Coarser(w, 2 * k) == Weave(row, column)
    {
      WeaveOfCoarser(n', e', k);
    }
    if Coarser(w, 2 * k) == Weave(row, column) {
      assert InBlock(n, e, row, column, k) && Weave(n, e) == w;
    }
  }

  // ----- Places -----

  const SQUARES: nat := 0x400_0000

  datatype Span = Span(start: real, end: real)

  const LONGITUDES := Span(-180.0, 180.0)
  const LATITUDES := Span(-85.05112878, 85.05112878)

  datatype Point = Point(longitude: real, latitude: real)

  predicate Within(c: real, span: Span) {
    span.start <= c < span.end
  }

  /** The grid index of a coordinate within `span`. */
  function SquaresAlong(c: real, span: Span): (n: nat)
    requires Within(c, span)
    ensures n < SQUARES
  {
    var along := (c - span.start) / (span.end - span.start);
    assert 0.0 <= along < 1.0 by { Fraction(c - span.start, span.end - span.start); }
    (along * SQUARES as real).Floor
  }

  lemma Fraction(part: real, whole: real)
    requires 0.0 <= part < whole
    ensures 0.0 <= part / whole < 1.0
    ensures whole * (part / whole) == part
  {
    var q := part / whole;
    assert q * whole == part;
  }

  function MiddleOf(square: nat, span: Span): real {
    var width := span.end - span.start;
    var low := span.start + width * (square as real / SQUARES as real);
    var high := span.start + width * ((square + 1) as real / SQUARES as real);
    (low + high) / 2.0
  }

  function Score(p: Point): real
    requires Within(p.longitude, LONGITUDES) && Within(p.latitude, LATITUDES)
  {
    Weave(SquaresAlong(p.latitude, LATITUDES), SquaresAlong(p.longitude, LONGITUDES)) as real
  }

  function Decode(score: real): Point
    requires score >= 0.0
  {
    var woven := score.Floor;
    Point(MiddleOf(EvenBits(woven / 2), LONGITUDES), MiddleOf(EvenBits(woven), LATITUDES))
  }

  /** The middle of a coordinate's square is within half a square of it. */
  lemma MiddleIsNear(c: real, span: Span)
    requires Within(c, span)
    ensures var half := (span.end - span.start) / SQUARES as real / 2.0;
            -half <= MiddleOf(SquaresAlong(c, span), span) - c <= half
  {
    hide MiddleOf;
    var width, squares := span.end - span.start, SQUARES as real;
    var unit := width / squares;
    var along := (c - span.start) / width;
    var square := SquaresAlong(c, span);
    Fraction(c - span.start, width);
    var exact := along * squares;
    assert square as real <= exact < square as real + 1.0;
    InUnits(width, squares, exact);
    assert exact / squares == along;
    assert c - span.start == unit * exact;
    var off := square as real + 0.5 - exact;
    MiddleInUnits(square, span);
    Distribute(unit, square as real, exact);
    assert MiddleOf(square, span) - c == unit * off;
    assert unit >= 0.0;
    Scaled(unit, off);
  }

  lemma MiddleInUnits(square: nat, span: Span)
    ensures var unit := (span.end - span.start) / SQUARES as real;
            MiddleOf(square, span) == span.start + (unit * square as real + unit * (square as real + 1.0)) / 2.0
  {
    InUnits(span.end - span.start, SQUARES as real, square as real);
    InUnits(span.end - span.start, SQUARES as real, (square + 1) as real);
  }

  lemma InUnits(width: real, squares: real, x: real)
    requires squares > 0.0
    ensures width * (x / squares) == width / squares * x
  {
  }

  lemma Distribute(unit: real, square: real, exact: real)
    ensures (unit * square + unit * (square + 1.0)) / 2.0 - unit * exact == unit * (square + 0.5 - exact)
  {
  }

  lemma Scaled(unit: real, off: real)
    requires unit >= 0.0 && -0.5 <= off <= 0.5
    ensures -(unit / 2.0) <= unit * off <= unit / 2.0
  {
  }

  /** Decoding a score errs by at most half a cell in each coordinate. */
  lemma DecodedIsNear(p: Point)
    requires Within(p.longitude, LONGITUDES) && Within(p.latitude, LATITUDES)
    ensures Score(p) >= 0.0
    ensures var q := Decode(Score(p));
            && -(360.0 / SQUARES as real / 2.0) <= q.longitude - p.longitude <= 360.0 / SQUARES as real / 2.0
            && -(170.10225756 / SQUARES as real / 2.0) <= q.latitude - p.latitude <= 170.10225756 / SQUARES as real / 2.0
  {
    hide SquaresAlong, MiddleOf;
    EvenBitsUndoWeave(SquaresAlong(p.latitude, LATITUDES), SquaresAlong(p.longitude, LONGITUDES));
    MiddleIsNear(p.longitude, LONGITUDES);
    MiddleIsNear(p.latitude, LATITUDES);
  }

  // ----- The same on words -----

  function Odd(x: bv64): bv64 {
    (x << 1) | 1
  }

  function Put(bit: bool, x: bv64): bv64 {
    if bit then Odd(x) else Raised(x)
  }

  /** The word whose low `bits` bits spell a number. */
  function WordOf(n: nat, bits: nat): bv64 {
    if bits == 0 then 0 else Put(n % 2 == 1, WordOf(n / 2, bits - 1))
  }

  /** All bits but the low `bits`. */
  function High(bits: nat): bv64 {
    if bits == 0 then 0xFFFF_FFFF_FFFF_FFFF else Raised(High(bits - 1))
  }

  function Raised(x: bv64): bv64 {
    x << 1
  }

  predicate Clear(x: bv64, mask: bv64) {
    x & mask == 0
  }

  predicate Covers(a: bv64, b: bv64) {
    a & b == b
  }

  lemma RaisedStaysCovered(a: bv64, b: bv64)
    requires Covers(a, b)
    ensures Covers(Raised(a), Raised(b))
  {
  }

  lemma CoversOnward(a: bv64, b: bv64, c: bv64)
    requires Covers(a, b) && Covers(b, c)
    ensures Covers(a, c)
  {
  }

  lemma ClearOfCovered(x: bv64, a: bv64, b: bv64)
    requires Clear(x, a) && Covers(a, b)
    ensures Clear(x, b)
  {
  }

  lemma AllCovers(x: bv64)
    ensures Covers(0xFFFF_FFFF_FFFF_FFFF, x) && Covers(x, x) && Clear(0, x)
  {
  }

  lemma RaisedIsClear(x: bv64, mask: bv64)
    requires Clear(x, mask)
    ensures Clear(Raised(x), Raised(mask))
  {
  }

  lemma OddIsClear(x: bv64, mask: bv64)
    requires Clear(x, mask)
    ensures Clear(Odd(x), Raised(mask))
  {
  }

  lemma PutLow(bit: bool, x: bv64)
    ensures Low(Put(bit, x)) == bit
  {
  }

  lemma RaisedHalf(x: bv64)
    requires Clear(x, 0xFFFF_FFFF_FC00_0000)
    ensures Half(Raised(x)) == x
  {
  }

  lemma OddHalf(x: bv64)
    requires Clear(x, 0xFFFF_FFFF_FC00_0000)
    ensures Half(Odd(x)) == x
  {
  }

  lemma ClearFits(x: bv64)
    requires Clear(x, 0xFFFF_FFFF_FC00_0000)
    ensures x <= 0xFFFFFFFF
  {
  }

  lemma {:induction false} HighShrinks(bits: nat)
    ensures Covers(High(bits), High(bits + 1))
  {
    hide Covers, Raised;
    if bits == 0 {
      AllCovers(High(1));
    } else {
      HighShrinks(bits - 1);
      RaisedStaysCovered(High(bits - 1), High(bits));
    }
  }

  lemma {:induction false} HighCovers(bits: nat, more: nat)
    requires bits <= more
    ensures Covers(High(bits), High(more))
    decreases more
  {
    hide Covers, Raised, High;
    if bits == more {
      AllCovers(High(bits));
    } else {
      HighCovers(bits, more - 1);
      HighShrinks(more - 1);
      CoversOnward(High(bits), High(more - 1), High(more));
    }
  }

  lemma HighOfGrid()
    ensures High(26) == 0xFFFF_FFFF_FC00_0000
  {
    assert High(8) == 0xFFFF_FFFF_FFFF_FF00;
    assert High(16) == 0xFFFF_FFFF_FFFF_0000;
    assert High(24) == 0xFFFF_FFFF_FF00_0000;
  }

  lemma ClearAboveGrid(x: bv64, bits: nat)
    requires bits <= 26 && Clear(x, High(bits))
    ensures Clear(x, 0xFFFF_FFFF_FC00_0000)
  {
    hide Clear, Covers, High;
    HighCovers(bits, 26);
    HighOfGrid();
    ClearOfCovered(x, High(bits), High(26));
  }

  lemma {:induction false} WordIsClear(n: nat, bits: nat)
    ensures Clear(WordOf(n, bits), High(bits))
    decreases bits
  {
    hide Clear, Odd, Raised;
    if bits == 0 {
      AllCovers(High(0));
    } else {
      WordIsClear(n / 2, bits - 1);
      RaisedIsClear(WordOf(n / 2, bits - 1), High(bits - 1));
      OddIsClear(WordOf(n / 2, bits - 1), High(bits - 1));
    }
  }

  /** Every number that fits the grid is the number of a word. */
  lemma {:induction false} WordIsNumber(n: nat, bits: nat)
    requires bits <= 26 && n < Pow2(bits)
    ensures WordOf(n, bits) <= 0xFFFFFFFF
    ensures Number(WordOf(n, bits), bits) == n
    decreases bits
  {
    hide Low, Half, Odd, Raised, High, Clear;
    WordIsClear(n, bits);
    ClearAboveGrid(WordOf(n, bits), bits);
    ClearFits(WordOf(n, bits));
    if bits > 0 {
      var rest, bit := WordOf(n / 2, bits - 1), n % 2 == 1;
      WordIsNumber(n / 2, bits - 1);
      WordIsClear(n / 2, bits - 1);
      ClearAboveGrid(rest, bits - 1);
      RaisedHalf(rest);
      OddHalf(rest);
      PutLow(bit, rest);
      NumberFromParts(WordOf(n, bits), bits, n);
    }
  }

  lemma NumberFromParts(x: bv64, bits: nat, n: nat)
    requires bits > 0 && Low(x) == (n % 2 == 1) && Number(Half(x), bits - 1) == n / 2
    ensures Number(x, bits) == n
  {
    hide Low, Half;
  }

  lemma SquaresFit()
    ensures Pow2(26) == SQUARES
  {
    assert Pow2(8) == 0x100 && Pow2(16) == 0x1_0000 && Pow2(24) == 0x100_0000;
  }

  /** `score`, before the word is stored as a double. */
  function ScoreWord(p: Point): bv64
    requires Within(p.longitude, LONGITUDES) && Within(p.latitude, LATITUDES)
  {
    Woven(WordOf(SquaresAlong(p.latitude, LATITUDES), 26), WordOf(SquaresAlong(p.longitude, LONGITUDES), 26))
  }

  /** `decode`, once the double is a word again. */
  function DecodeWord(w: bv64): Point {
    Point(MiddleOf(Number(Gather(w >> 1), 26), LONGITUDES), MiddleOf(Number(Gather(w), 26), LATITUDES))
  }

  /** The word holds the score. */
  lemma ScoreIsWord(p: Point)
    requires Within(p.longitude, LONGITUDES) && Within(p.latitude, LATITUDES)
    ensures Score(p) == Number(ScoreWord(p), 52) as real
  {
    hide Woven, Weave, Number, WordOf, SquaresAlong;
    SquaresFit();
    var n, e := SquaresAlong(p.latitude, LATITUDES), SquaresAlong(p.longitude, LONGITUDES);
    WordIsNumber(n, 26);
    WordIsNumber(e, 26);
    WovenIsWeave(WordOf(n, 26), WordOf(e, 26), 26);
  }

  /** Through the machine words, decoding errs by at most half a cell in each coordinate. */
  lemma DecodedWordIsNear(p: Point)
    requires Within(p.longitude, LONGITUDES) && Within(p.latitude, LATITUDES)
    ensures var q := DecodeWord(ScoreWord(p));
            && -(360.0 / SQUARES as real / 2.0) <= q.longitude - p.longitude <= 360.0 / SQUARES as real / 2.0
            && -(170.10225756 / SQUARES as real / 2.0) <= q.latitude - p.latitude <= 170.10225756 / SQUARES as real / 2.0
  {
    hide Woven, Gather, Number, WordOf, SquaresAlong, MiddleOf;
    SquaresFit();
    var n, e := SquaresAlong(p.latitude, LATITUDES), SquaresAlong(p.longitude, LONGITUDES);
    WordIsNumber(n, 26);
    WordIsNumber(e, 26);
    GatherUndoesWoven(WordOf(n, 26), WordOf(e, 26));
    MiddleIsNear(p.longitude, LONGITUDES);
    MiddleIsNear(p.latitude, LATITUDES);
  }

  /** Bounds scores: with k = 26 they stay below 2^52. */
  lemma {:induction false} WeaveIsBelow(n: nat, e: nat, k: nat)
    requires n < Pow2(k) && e < Pow2(k)
    ensures Weave(n, e) < Pow2(2 * k)
    decreases k
  {
    hide Weave;
    if k == 0 {
      WeaveOfNothing();
    } else {
      WeaveStep(n, e);
      WeaveIsBelow(n / 2, e / 2, k - 1);
      assert Pow2(2 * k) == 2 * Pow2(2 * k - 1) == 4 * Pow2(2 * (k - 1));
    }
  }

  lemma WeaveOfNothing()
    ensures Weave(0, 0) == 0
  {
  }
}
