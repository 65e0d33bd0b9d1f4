/**
 The patterns `KEYS` picks keys out by. A pattern is read into items once; a key
 is then tried against them by a loop whose only memory is its latest star.
 The loop is proved to answer exactly what the items mean when every run is free
 to stand for any stretch of the key.
 */
module Glob {
  import opened Base

  const STAR: byte := 42
  const QUESTION: byte := 63
  const OPEN: byte := 91
  const CLOSE: byte := 93
  const CARET: byte := 94
  const DASH: byte := 45
  const BACKSLASH: byte := 92

  lemma CharactersAre()
    ensures [STAR, QUESTION, OPEN, CLOSE, CARET, DASH, BACKSLASH] == Ascii("*?[]^-\\")
  {
  }

  datatype Range = Range(first: byte, last: byte)

  datatype Item =
    | Anything
    | One
    | Byte(expected: byte)
    | OneOf(ranges: seq<Range>, negated: bool)

  predicate Named(ranges: seq<Range>, b: byte) {
    exists i :: 0 <= i < |ranges| && ranges[i].first <= b <= ranges[i].last
  }

  predicate ItemMatches(item: Item, b: byte) {
    match item
    case Anything => true
    case One => true
    case Byte(expected) => expected == b
    case OneOf(ranges, negated) => Named(ranges, b) != negated
  }

  /** What a pattern means: a run is any stretch of the key, every other item is one byte of it. */
  predicate Means(items: seq<Item>, key: Bytes)
    decreases |items|
  {
    if items == [] then key == []
    else if items[0].Anything? then exists n :: 0 <= n <= |key| && Means(items[1..], key[n..])
    else key != [] && ItemMatches(items[0], key[0]) && Means(items[1..], key[1..])
  }

  // ----- Facts about the meaning -----

  /** Items that each stand for one byte, laid against as many bytes. */
  predicate Along(segment: seq<Item>, key: Bytes) {
    |segment| <= |key| &&
    forall i :: 0 <= i < |segment| ==> !segment[i].Anything? && ItemMatches(segment[i], key[i])
  }

  predicate Singles(segment: seq<Item>) {
    forall i :: 0 <= i < |segment| ==> !segment[i].Anything?
  }

  predicate AllRuns(items: seq<Item>) {
    forall i :: 0 <= i < |items| ==> items[i].Anything?
  }

  /** A leading run may always be handed more of the key. */
  lemma RunAbsorbs(items: seq<Item>, key: Bytes, more: nat)
    requires items != [] && items[0].Anything? && more <= |key|
    requires Means(items, key[more..])
    ensures Means(items, key)
  {
    var n :| 0 <= n <= |key[more..]| && Means(items[1..], key[more..][n..]);
    assert key[more..][n..] == key[more + n..];
  }

  lemma RunTakes(items: seq<Item>, key: Bytes) returns (n: nat)
    requires items != [] && items[0].Anything? && Means(items, key)
    ensures n <= |key| && Means(items[1..], key[n..])
  {
    n :| 0 <= n <= |key| && Means(items[1..], key[n..]);
  }

  lemma RunMayTake(items: seq<Item>, key: Bytes, n: nat)
    requires items != [] && items[0].Anything? && n <= |key| && Means(items[1..], key[n..])
    ensures Means(items, key)
  {
  }

  lemma {:induction false} SegmentFirst(segment: seq<Item>, rest: seq<Item>, key: Bytes)
    requires Singles(segment)
    ensures Means(segment + rest, key) <==> Along(segment, key) && Means(rest, key[|segment|..])
  {
    if segment == [] {
      assert segment + rest == rest && key[0..] == key;
    } else {
      assert (segment + rest)[1..] == segment[1..] + rest;
      if key != [] {
        SegmentFirst(segment[1..], rest, key[1..]);
        if |segment| <= |key| {
          assert key[1..][|segment| - 1..] == key[|segment|..];
          assert Along(segment, key) <==> ItemMatches(segment[0], key[0]) && Along(segment[1..], key[1..]) by {
            if ItemMatches(segment[0], key[0]) && Along(segment[1..], key[1..]) {
              forall i | 0 <= i < |segment|
                ensures !segment[i].Anything? && ItemMatches(segment[i], key[i])
              {
                if i > 0 {
                  assert segment[1..][i - 1] == segment[i] && key[1..][i - 1] == key[i];
                }
              }
            }
          }
        }
      }
    }
  }

  lemma {:induction false} OnlyRunsMeanNothing(items: seq<Item>)
    ensures Means(items, []) <==> AllRuns(items)
  {
    var nothing: Bytes := [];
    if items != [] {
      OnlyRunsMeanNothing(items[1..]);
      assert nothing[0..] == nothing;
      assert AllRuns(items) <==> items[0].Anything? && AllRuns(items[1..]) by {
        if items[0].Anything? && AllRuns(items[1..]) {
          forall i | 0 <= i < |items|
            ensures items[i].Anything?
          {
            if i > 0 {
              assert items[1..][i - 1] == items[i];
            }
          }
        }
      }
    }
  }

  // ----- The loop -----

  /** Where the latest `*` sits among the items, and the key position it currently extends to. */
  datatype Run = NoRun | Run(at: nat, taken: nat)

  /**
   What the loop knows: the question still open, and how the items since the
   last run lie along the key since that run's end.
   */
  ghost predicate Tracked(items: seq<Item>, key: Bytes, item: nat, byte: nat, run: Run) {
    && item <= |items|
    && byte <= |key|
    && match run
       case NoRun => Means(items, key) == Means(items[item..], key[byte..])
       case Run(at, taken) =>
         && at < item && taken <= byte
         && items[at].Anything?
         && item - (at + 1) == byte - taken
         && Along(items[at + 1..item], key[taken..])
         && Means(items, key) == Means(items[at..], key[taken..])
  }

  /** A run, the items after it that each take one byte, and then the rest. */
  lemma RunThenSegment(items: seq<Item>, key: Bytes, item: nat, byte: nat, run: Run, n: nat)
    requires run.Run? && Tracked(items, key, item, byte, run) && run.taken + n <= |key|
    ensures Means(items[run.at + 1..], key[run.taken + n..])
            <==> Along(items[run.at + 1..item], key[run.taken + n..])
                 && byte + n <= |key| && Means(items[item..], key[byte + n..])
  {
    var segment := items[run.at + 1..item];
    assert items[run.at + 1..] == segment + items[item..];
    SegmentFirst(segment, items[item..], key[run.taken + n..]);
    if byte + n <= |key| {
      assert key[run.taken + n..][|segment|..] == key[byte + n..];
    }
  }

  /** Meeting another run settles the one before it: whatever it might take, the new one can. */
  lemma AnotherRun(items: seq<Item>, key: Bytes, item: nat, byte: nat, run: Run)
    requires Tracked(items, key, item, byte, run)
    requires item < |items| && items[item].Anything?
    ensures Tracked(items, key, item + 1, byte, Run(item, byte))
  {
    hide Means, ItemMatches;
    if run.Run? {
      var front, back := items[run.at..], items[item..];
      assert front[0].Anything? && front[1..] == items[run.at + 1..];
      RunThenSegment(items, key, item, byte, run, 0);
      if Means(back, key[byte..]) {
        assert key[run.taken..][0..] == key[run.taken + 0..];
        RunMayTake(front, key[run.taken..], 0);
      }
      if Means(front, key[run.taken..]) {
        var n := RunTakes(front, key[run.taken..]);
        assert key[run.taken..][n..] == key[run.taken + n..];
        RunThenSegment(items, key, item, byte, run, n);
        assert key[byte..][n..] == key[byte + n..];
        RunAbsorbs(back, key[byte..], n);
      }
    }
  }

  /** One more byte goes by under an item that stands for it. */
  lemma StepAlong(items: seq<Item>, key: Bytes, item: nat, byte: nat, run: Run)
    requires Tracked(items, key, item, byte, run)
    requires item < |items| && byte < |key| && !items[item].Anything? && ItemMatches(items[item], key[byte])
    ensures Tracked(items, key, item + 1, byte + 1, run)
  {
    match run {
      case NoRun =>
        assert items[item..][1..] == items[item + 1..];
        assert key[byte..][1..] == key[byte + 1..];
      case Run(at, taken) =>
        assert items[at + 1..item + 1] == items[at + 1..item] + [items[item]];
        assert key[taken..][byte - taken] == key[byte];
    }
  }

  /** On a mismatch, no match exists with the star at its current extent. */
  lemma FallBack(items: seq<Item>, key: Bytes, item: nat, byte: nat, run: Run)
    requires run.Run? && Tracked(items, key, item, byte, run)
    requires byte < |key|
    requires item == |items| || (!items[item].Anything? && !ItemMatches(items[item], key[byte]))
    ensures Tracked(items, key, run.at + 1, run.taken + 1, Run(run.at, run.taken + 1))
  {
    hide Means, ItemMatches, Along;
    var Run(at, taken) := run;
    var front := items[at..];
    Mismatch(items[item..], key[byte..]);
    ReachesFurther(items, key, item, byte, run);
    if Means(front, key[taken + 1..]) {
      assert key[taken..][1..] == key[taken + 1..];
      RunAbsorbs(front, key[taken..], 1);
    }
    assert items[at + 1..at + 1] == [];
    NothingAlong(key[taken + 1..]);
  }

  lemma NothingAlong(key: Bytes)
    ensures Along([], key)
  {
  }

  lemma Mismatch(items: seq<Item>, key: Bytes)
    requires key != [] && (items == [] || (!items[0].Anything? && !ItemMatches(items[0], key[0])))
    ensures !Means(items, key)
  {
  }

  /** If what follows the star cannot match where it stands, any match gives the star another byte. */
  lemma ReachesFurther(items: seq<Item>, key: Bytes, item: nat, byte: nat, run: Run)
    requires run.Run? && Tracked(items, key, item, byte, run) && byte < |key|
    requires !Means(items[item..], key[byte..])
    ensures Means(items[run.at..], key[run.taken..]) ==> Means(items[run.at..], key[run.taken + 1..])
  {
    hide Means, ItemMatches, Along;
    var Run(at, taken) := run;
    var front := items[at..];
    assert front[1..] == items[at + 1..];
    RunThenSegment(items, key, item, byte, run, 0);
    if Means(front, key[taken..]) {
      var n := RunTakes(front, key[taken..]);
      assert key[taken..][n..] == key[taken + n..];
      assert n > 0;
      assert key[taken + 1..][n - 1..] == key[taken + n..];
      RunMayTake(front, key[taken + 1..], n - 1);
    }
  }

  /** With the key spent, only runs may be left. */
  lemma KeySpent(items: seq<Item>, key: Bytes, item: nat, run: Run)
    requires Tracked(items, key, item, |key|, run)
    ensures Means(items, key) <==> AllRuns(items[item..])
  {
    hide Means, ItemMatches, Along, AllRuns;
    OnlyRunsMeanNothing(items[item..]);
    assert key[|key|..] == [];
    if run.Run? {
      SpentAgainstRun(items, key, item, run);
    }
  }

  lemma SpentAgainstRun(items: seq<Item>, key: Bytes, item: nat, run: Run)
    requires run.Run? && Tracked(items, key, item, |key|, run)
    ensures Means(items[run.at..], key[run.taken..]) <==> Means(items[item..], [])
  {
    hide Means, ItemMatches, Along;
    var Run(at, taken) := run;
    var front := items[at..];
    assert front[1..] == items[at + 1..];
    assert key[|key|..] == [];
    RunThenSegment(items, key, item, |key|, run, 0);
    if Means(items[item..], []) {
      assert key[taken..][0..] == key[taken + 0..];
      RunMayTake(front, key[taken..], 0);
    }
    if Means(front, key[taken..]) {
      var n := RunTakes(front, key[taken..]);
      assert key[taken..][n..] == key[taken + n..];
      RunThenSegment(items, key, item, |key|, run, n);
      assert n == 0;
    }
  }

  /**
   `Pattern::matches`. `steps` counts the passes of the loop: falling back on
   one run alone keeps it to a product of the two lengths.
   */
  method Matches(items: seq<Item>, key: Bytes) returns (found: bool, ghost steps: nat)
    ensures found <==> Means(items, key)
    ensures steps <= (|key| + 1) * (|items| + 1)
  {
    hide Tracked, ItemMatches, Means;
    var item, byte := 0, 0;
    var run := NoRun;
    steps := 0;
    ghost var width := |items| + 1;
    ghost var tries, spent := 0, 0;
    NothingYet(items, key);
    while byte < |key|
      invariant Tracked(items, key, item, byte, run)
      invariant item <= |items| && byte <= |key|
      invariant run.Run? ==> run.at < item && run.taken <= byte
      invariant tries <= (if run.Run? then run.taken else 0)
      invariant spent == tries * width && steps <= spent + item
      decreases if run.Run? then |key| - run.taken else |key| + 1, |items| - item
    {
      steps := steps + 1;
      if item < |items| && items[item].Anything? {
        AnotherRun(items, key, item, byte, run);
        run := Run(item, byte);
        item := item + 1;
      } else if item < |items| && ItemMatches(items[item], key[byte]) {
        StepAlong(items, key, item, byte, run);
        item, byte := item + 1, byte + 1;
      } else {
        match run {
          case Run(at, taken) =>
            FallBack(items, key, item, byte, run);
            item, byte, run := at + 1, taken + 1, Run(at, taken + 1);
            OneMore(tries, width);
            tries, spent := tries + 1, spent + width;
          case NoRun =>
            NothingToFallBackOn(items, key, item, byte);
            Within(tries, |key|, width, item);
            return false, steps;
        }
      }
    }
    KeySpent(items, key, item, run);
    Within(tries, |key|, width, item);
    found := forall i :: item <= i < |items| ==> items[i].Anything?;
    assert found <==> AllRuns(items[item..]) by {
      assert forall i :: item <= i < |items| ==> items[item..][i - item] == items[i];
    }
  }

  lemma NothingYet(items: seq<Item>, key: Bytes)
    ensures Tracked(items, key, 0, 0, NoRun)
  {
    assert items[0..] == items && key[0..] == key;
  }

  lemma OneMore(tries: nat, width: nat)
    ensures (tries + 1) * width == tries * width + width
  {
  }

  lemma NothingToFallBackOn(items: seq<Item>, key: Bytes, item: nat, byte: nat)
    requires Tracked(items, key, item, byte, NoRun) && byte < |key|
    requires item == |items| || (!items[item].Anything? && !ItemMatches(items[item], key[byte]))
    ensures !Means(items, key)
  {
  }

  lemma Within(tries: nat, most: nat, width: nat, item: nat)
    requires tries <= most && item < width
    ensures tries * width + item + 1 <= (most + 1) * width
  {
    assert (most - tries) * width >= 0;
    assert (most + 1) * width == tries * width + (most - tries) * width + width;
  }

  // ----- Reading a pattern -----

  /** The body of a bracket expression, with its length including the closing bracket if there is one. */
  function Ranges(p: Bytes): (r: (seq<Range>, nat))
    ensures r.1 <= |p|
    decreases |p|
  {
    if p == [] then ([], 0)
    else if p[0] == CLOSE then ([], 1)
    else
      var (range, taken) := FirstRange(p);
      var (more, n) := Ranges(p[taken..]);
      ([range] + more, taken + n)
  }

  /** One byte, escaped or not, and where a dash follows, the byte it reaches to. */
  function FirstRange(p: Bytes): (r: (Range, nat))
    requires p != []
    ensures 0 < r.1 <= |p|
  {
    var escaped := p[0] == BACKSLASH && |p| > 1;
    var first, at := if escaped then p[1] else p[0], if escaped then 2 else 1;
    if at + 1 < |p| && p[at] == DASH && p[at + 1] != CLOSE then
      (Ordered(first, p[at + 1]), at + 2)
    else
      (Range(first, first), at)
  }

  function Ordered(a: byte, b: byte): Range {
    if a <= b then Range(a, b) else Range(b, a)
  }

  /** What a `[` opened. */
  function SetItem(p: Bytes): (r: (Item, nat))
    ensures r.1 <= |p|
  {
    var negated := p != [] && p[0] == CARET;
    var start := if negated then 1 else 0;
    var (ranges, n) := Ranges(p[start..]);
    (OneOf(ranges, negated), start + n)
  }

  /** One pass of the loop over a set: the range that starts at `from`. */
  method ReadRange(p: Bytes, from: nat) returns (range: Range, at: nat)
    requires from < |p|
    ensures from < at <= |p| && (range, at - from) == FirstRange(p[from..])
  {
    var byte := p[from];
    at := from + 1;
    var first := byte;
    if byte == BACKSLASH && at < |p| {
      first := p[at];
      at := at + 1;
    }
    var last := first;
    if at + 1 < |p| && p[at] == DASH && p[at + 1] != CLOSE {
      last := p[at + 1];
      at := at + 2;
    }
    range := Ordered(first, last);
  }

  lemma RangesAt(p: Bytes, at: nat)
    requires at < |p|
    ensures p[at] == CLOSE ==> Ranges(p[at..]) == ([], 1)
    ensures p[at] != CLOSE ==>
              var (range, taken) := FirstRange(p[at..]);
              && at + taken <= |p|
              && var (more, n) := Ranges(p[at + taken..]);
                 Ranges(p[at..]) == ([range] + more, taken + n)
  {
    hide FirstRange;
    if p[at] != CLOSE {
      var taken := FirstRange(p[at..]).1;
      assert p[at..][taken..] == p[at + taken..];
    }
  }

  lemma NoRanges(p: Bytes)
    ensures Ranges(p[|p|..]) == ([], 0)
  {
  }

  method ReadSet(p: Bytes) returns (item: Item, at: nat)
    ensures (item, at) == SetItem(p)
  {
    hide FirstRange, Ranges;
    var negated := p != [] && p[0] == CARET;
    var start := if negated then 1 else 0;
    at := start;
    var ranges: seq<Range> := [];
    ghost var all := Ranges(p[start..]);
    ghost var left := all;
    assert [] + left.0 == left.0;
    while at < |p|
      invariant start <= at <= |p|
      invariant left == Ranges(p[at..])
      invariant all == (ranges + left.0, at - start + left.1)
    {
      RangesAt(p, at);
      if p[at] == CLOSE {
        assert ranges + [] == ranges;
        return OneOf(ranges, negated), at + 1;
      }
      var range;
      range, at := ReadRange(p, at);
      left := Ranges(p[at..]);
      Reassociate(ranges, [range], left.0);
      ranges := ranges + [range];
    }
    NoRanges(p);
    assert ranges + [] == ranges;
    item := OneOf(ranges, negated);
  }

  /** The item at the front of a pattern, and how many bytes spell it. */
  function FirstItem(p: Bytes): (r: (Item, nat))
    requires p != []
    ensures 0 < r.1 <= |p|
  {
    if p[0] == STAR then (Anything, 1)
    else if p[0] == QUESTION then (One, 1)
    else if p[0] == OPEN then
      var (item, n) := SetItem(p[1..]);
      (item, 1 + n)
    else if p[0] == BACKSLASH && |p| > 1 then (Byte(p[1]), 2)
    else (Byte(p[0]), 1)
  }

  /** Every item a pattern spells, runs in a row included. */
  function Spelled(p: Bytes): seq<Item>
    decreases |p|
  {
    if p == [] then []
    else
      var (item, n) := FirstItem(p);
      [item] + Spelled(p[n..])
  }

  /** Puts an item on the end, unless it is a run straight after a run. */
  function Pushed(items: seq<Item>, item: Item): seq<Item> {
    if item.Anything? && items != [] && items[|items| - 1].Anything? then items else items + [item]
  }

  function PushedAll(items: seq<Item>, more: seq<Item>): seq<Item>
    decreases |more|
  {
    if more == [] then items else PushedAll(Pushed(items, more[0]), more[1..])
  }

  /** One pass of the loop over a pattern: the item that starts at `from`. */
  method ReadItem(p: Bytes, from: nat) returns (item: Item, at: nat)
    requires from < |p|
    ensures from < at <= |p| && (item, at - from) == FirstItem(p[from..])
  {
    hide SetItem;
    ghost var rest := p[from..];
    var byte := p[from];
    at := from + 1;
    if byte == STAR {
      item := Anything;
    } else if byte == QUESTION {
      item := One;
    } else if byte == OPEN {
      var taken;
      assert rest[1..] == p[at..];
      item, taken := ReadSet(p[at..]);
      at := at + taken;
    } else if byte == BACKSLASH && at < |p| {
      item := Byte(p[at]);
      at := at + 1;
    } else {
      item := Byte(byte);
    }
  }

  /** `Pattern::parse`. */
  method ReadPattern(p: Bytes) returns (items: seq<Item>)
    ensures items == PushedAll([], Spelled(p))
    ensures forall key :: Means(items, key) <==> Means(Spelled(p), key)
  {
    hide FirstItem, Means;
    items := [];
    var at := 0;
    assert p[0..] == p;
    ghost var left := Spelled(p);
    while at < |p|
      invariant at <= |p|
      invariant left == Spelled(p[at..])
      invariant PushedAll([], Spelled(p)) == PushedAll(items, left)
    {
      ghost var rest := p[at..];
      var item;
      item, at := ReadItem(p, at);
      assert rest[FirstItem(rest).1..] == p[at..];
      left := Spelled(p[at..]);
      assert Spelled(rest) == [item] + left;
      assert ([item] + left)[1..] == left;
      // Adjacent stars are collapsed; `RunsInARow` shows the meaning survives.
      if !(item.Anything? && items != [] && items[|items| - 1].Anything?) {
        items := items + [item];
      }
    }
    forall key
      ensures Means(items, key) <==> Means(Spelled(p), key)
    {
      RunsInARow([], Spelled(p), key);
      assert [] + Spelled(p) == Spelled(p);
    }
  }

  // ----- Collapsing adjacent stars -----

  lemma {:induction false} AfterSameItems(front: seq<Item>, a: seq<Item>, b: seq<Item>, key: Bytes)
    requires forall k :: Means(a, k) <==> Means(b, k)
    ensures Means(front + a, key) <==> Means(front + b, key)
    decreases |front|
  {
    if front == [] {
      assert front + a == a && front + b == b;
    } else {
      assert (front + a)[1..] == front[1..] + a && (front + b)[1..] == front[1..] + b;
      if front[0].Anything? {
        forall n | 0 <= n <= |key|
          ensures Means(front[1..] + a, key[n..]) <==> Means(front[1..] + b, key[n..])
        {
          AfterSameItems(front[1..], a, b, key[n..]);
        }
      } else if key != [] {
        AfterSameItems(front[1..], a, b, key[1..]);
      }
    }
  }

  lemma TwoRunsAreOne(rest: seq<Item>, key: Bytes)
    ensures Means([Anything, Anything] + rest, key) <==> Means([Anything] + rest, key)
  {
    var one, two := [Anything] + rest, [Anything, Anything] + rest;
    assert two[1..] == one;
    if Means(two, key) {
      var n :| 0 <= n <= |key| && Means(one, key[n..]);
      RunAbsorbs(one, key, n);
    }
    assert key[0..] == key;
  }

  lemma {:induction false} RunsInARow(items: seq<Item>, more: seq<Item>, key: Bytes)
    ensures Means(PushedAll(items, more), key) <==> Means(items + more, key)
    decreases |more|
  {
    if more == [] {
      assert items + more == items;
    } else {
      RunsInARow(Pushed(items, more[0]), more[1..], key);
      if Pushed(items, more[0]) == items + [more[0]] {
        assert items + [more[0]] + more[1..] == items + more;
      } else {
        var front, rest := items[..|items| - 1], more[1..];
        assert items + more == front + ([Anything, Anything] + rest);
        assert items + rest == front + ([Anything] + rest);
        forall k
          ensures Means([Anything, Anything] + rest, k) <==> Means([Anything] + rest, k)
        {
          TwoRunsAreOne(rest, k);
        }
        AfterSameItems(front, [Anything, Anything] + rest, [Anything] + rest, key);
      }
    }
  }

  // ----- How patterns are written, and what is read out of them -----

  /** One entry of a bracket expression as written: a byte or a span between two, the first byte escaped or not. */
  datatype Piece = Single(escaped: bool, b: byte) | Span(escaped: bool, b: byte, to: byte)

  /** One element of a pattern as written. Only the last may be a bracket that is never closed. */
  datatype Token =
    | Star
    | Question
    | Literal(escaped: bool, b: byte)
    | Bracket(negated: bool, pieces: seq<Piece>, closed: bool)

  function Lead(escaped: bool, b: byte): Bytes {
    if escaped then [BACKSLASH, b] else [b]
  }

  function SpellPiece(piece: Piece): (s: Bytes)
    ensures s != []
  {
    Lead(piece.escaped, piece.b) + if piece.Span? then [DASH, piece.to] else []
  }

  function SpellPieces(pieces: seq<Piece>): Bytes {
    if pieces == [] then [] else SpellPiece(pieces[0]) + SpellPieces(pieces[1..])
  }

  function SpellToken(token: Token): (s: Bytes)
    ensures s != []
  {
    match token
    case Star => [STAR]
    case Question => [QUESTION]
    case Literal(escaped, b) => Lead(escaped, b)
    case Bracket(negated, pieces, closed) => [OPEN] + (Opening(negated) + (SpellPieces(pieces) + Closing(closed)))
  }

  function Opening(negated: bool): Bytes {
    if negated then [CARET] else []
  }

  function Closing(closed: bool): Bytes {
    if closed then [CLOSE] else []
  }

  function Spell(tokens: seq<Token>): Bytes {
    if tokens == [] then [] else SpellToken(tokens[0]) + Spell(tokens[1..])
  }

  // ----- When what is written is read as it was meant -----

  /** A byte followed by this would be taken for a span. */
  predicate ReachesOut(rest: Bytes) {
    |rest| >= 2 && rest[0] == DASH && rest[1] != CLOSE
  }

  predicate LegiblePiece(piece: Piece, rest: Bytes) {
    && (!piece.escaped ==> piece.b != CLOSE && (piece.b == BACKSLASH ==> piece.Single? && rest == []))
    && (if piece.Span? then piece.to != CLOSE else !ReachesOut(rest))
  }

  predicate LegiblePieces(pieces: seq<Piece>, tail: Bytes) {
    pieces != [] ==>
      LegiblePiece(pieces[0], SpellPieces(pieces[1..]) + tail) && LegiblePieces(pieces[1..], tail)
  }

  predicate LegibleToken(token: Token, rest: Bytes) {
    match token
    case Star => true
    case Question => true
    case Literal(escaped, b) => escaped || (b !in {STAR, QUESTION, OPEN} && (b == BACKSLASH ==> rest == []))
    case Bracket(negated, pieces, closed) =>
      && (closed || rest == [])
      && LegiblePieces(pieces, Closing(closed) + rest)
      && (negated || pieces == [] || pieces[0].escaped || pieces[0].b != CARET)
  }

  predicate Legible(tokens: seq<Token>) {
    tokens != [] ==> LegibleToken(tokens[0], Spell(tokens[1..])) && Legible(tokens[1..])
  }

  // ----- What each is taken for -----

  /** A span stands for every byte between its ends, whichever comes first. */
  predicate Covers(piece: Piece, b: byte) {
    if piece.Span? then piece.b <= b <= piece.to || piece.to <= b <= piece.b else b == piece.b
  }

  predicate TokenMatches(token: Token, b: byte) {
    match token
    case Star => true
    case Question => true
    case Literal(_, expected) => b == expected
    case Bracket(negated, pieces, _) => (exists i :: 0 <= i < |pieces| && Covers(pieces[i], b)) != negated
  }

  /** What a list of tokens stands for, said of the bytes of the key alone. */
  predicate Stands(tokens: seq<Token>, key: Bytes)
    decreases |tokens|
  {
    if tokens == [] then key == []
    else if tokens[0].Star? then exists n :: 0 <= n <= |key| && Stands(tokens[1..], key[n..])
    else key != [] && TokenMatches(tokens[0], key[0]) && Stands(tokens[1..], key[1..])
  }

  function RangeOf(piece: Piece): Range {
    if piece.Single? then Range(piece.b, piece.b) else Ordered(piece.b, piece.to)
  }

  function RangesOf(pieces: seq<Piece>): (ranges: seq<Range>)
    ensures |ranges| == |pieces|
  {
    seq(|pieces|, i requires 0 <= i < |pieces| => RangeOf(pieces[i]))
  }

  function ItemOf(token: Token): Item {
    match token
    case Star => Anything
    case Question => One
    case Literal(_, b) => Byte(b)
    case Bracket(negated, pieces, _) => OneOf(RangesOf(pieces), negated)
  }

  function ItemsOf(tokens: seq<Token>): (items: seq<Item>)
    ensures |items| == |tokens|
  {
    seq(|tokens|, i requires 0 <= i < |tokens| => ItemOf(tokens[i]))
  }

  lemma ItemMatchesToken(token: Token, b: byte)
    ensures ItemMatches(ItemOf(token), b) <==> TokenMatches(token, b)
    ensures ItemOf(token).Anything? <==> token.Star?
  {
    if token.Bracket? {
      var ranges := RangesOf(token.pieces);
      assert forall i :: 0 <= i < |ranges| ==> (ranges[i].first <= b <= ranges[i].last <==> Covers(token.pieces[i], b));
    }
  }

  lemma {:induction false} ItemsMeanTokens(tokens: seq<Token>, key: Bytes)
    ensures Means(ItemsOf(tokens), key) <==> Stands(tokens, key)
    decreases |tokens|
  {
    hide ItemMatches, TokenMatches;
    if tokens != [] {
      var items := ItemsOf(tokens);
      assert items[1..] == ItemsOf(tokens[1..]);
      if tokens[0].Star? {
        ItemMatchesToken(tokens[0], 0);
        forall n | 0 <= n <= |key|
          ensures Means(items[1..], key[n..]) <==> Stands(tokens[1..], key[n..])
        {
          ItemsMeanTokens(tokens[1..], key[n..]);
        }
      } else {
        ItemMatchesToken(tokens[0], if key == [] then 0 else key[0]);
        if key != [] {
          ItemsMeanTokens(tokens[1..], key[1..]);
        }
      }
    }
  }

  // ----- Reading it back -----

  lemma PieceReadBack(piece: Piece, rest: Bytes)
    requires LegiblePiece(piece, rest)
    ensures FirstRange(SpellPiece(piece) + rest) == (RangeOf(piece), |SpellPiece(piece)|)
    ensures SpellPiece(piece)[0] != CLOSE
  {
    var p, lead := SpellPiece(piece) + rest, Lead(piece.escaped, piece.b);
    assert p[..|lead|] == lead;
    if piece.Single? {
      assert p[|lead|..] == rest;
    }
  }

  lemma RangesFrom(first: Bytes, later: Bytes, range: Range)
    requires first != [] && first[0] != CLOSE && FirstRange(first + later) == (range, |first|)
    ensures var (more, n) := Ranges(later);
            Ranges(first + later) == ([range] + more, |first| + n)
  {
    hide FirstRange;
    assert (first + later)[|first|..] == later && (first + later)[0] == first[0];
  }

  lemma NoMoreRanges(closed: bool, rest: Bytes)
    requires closed || rest == []
    ensures Ranges(Closing(closed) + rest) == ([], |Closing(closed)|)
  {
    hide FirstRange;
  }

  /** A bracket's entries are read back one for one, up to the bracket's end or the pattern's. */
  lemma {:induction false} RangesReadBack(pieces: seq<Piece>, closed: bool, rest: Bytes)
    requires LegiblePieces(pieces, Closing(closed) + rest) && (closed || rest == [])
    ensures Ranges(SpellPieces(pieces) + (Closing(closed) + rest))
            == (RangesOf(pieces), |SpellPieces(pieces)| + |Closing(closed)|)
    decreases |pieces|
  {
    hide FirstRange, SpellPiece, RangeOf, Closing, Ranges;
    var tail := Closing(closed) + rest;
    if pieces == [] {
      assert SpellPieces(pieces) + tail == tail;
      NoMoreRanges(closed, rest);
    } else {
      var first, later := SpellPiece(pieces[0]), SpellPieces(pieces[1..]);
      Reassociate(first, later, tail);
      PieceReadBack(pieces[0], later + tail);
      RangesReadBack(pieces[1..], closed, rest);
      RangesFrom(first, later + tail, RangeOf(pieces[0]));
      assert RangesOf(pieces) == [RangeOf(pieces[0])] + RangesOf(pieces[1..]);
    }
  }

  lemma OpensWith(pieces: seq<Piece>, tail: Bytes)
    requires pieces != []
    ensures SpellPieces(pieces) != []
    ensures (SpellPieces(pieces) + tail)[0] == (if pieces[0].escaped then BACKSLASH else pieces[0].b)
  {
  }

  lemma SetReadBack(negated: bool, pieces: seq<Piece>, closed: bool, rest: Bytes)
    requires LegibleToken(Bracket(negated, pieces, closed), rest)
    ensures var body := SpellPieces(pieces) + (Closing(closed) + rest);
            SetItem(Opening(negated) + body)
            == (OneOf(RangesOf(pieces), negated), |Opening(negated)| + |SpellPieces(pieces)| + |Closing(closed)|)
  {
    hide Ranges, SpellPieces, LegiblePieces;
    var body := SpellPieces(pieces) + (Closing(closed) + rest);
    RangesReadBack(pieces, closed, rest);
    if negated {
      assert ([CARET] + body)[1..] == body;
    } else {
      assert [] + body == body && body[0..] == body;
      if pieces != [] {
        OpensWith(pieces, Closing(closed) + rest);
      } else {
        NoPieces();
        assert body == Closing(closed) + rest;
      }
    }
  }

  lemma NoPieces()
    ensures SpellPieces([]) == []
  {
  }

  lemma ItemReadBack(token: Token, rest: Bytes)
    requires LegibleToken(token, rest)
    ensures FirstItem(SpellToken(token) + rest) == (ItemOf(token), |SpellToken(token)|)
  {
    hide SetItem, SpellPieces, LegiblePieces;
    if token.Bracket? {
      BracketReadBack(token.negated, token.pieces, token.closed, rest);
    }
  }

  lemma BracketReadBack(negated: bool, pieces: seq<Piece>, closed: bool, rest: Bytes)
    requires LegibleToken(Bracket(negated, pieces, closed), rest)
    ensures var token := Bracket(negated, pieces, closed);
            FirstItem(SpellToken(token) + rest) == (ItemOf(token), |SpellToken(token)|)
  {
    hide SetItem, SpellPieces, LegibleToken, Opening, Closing;
    SetReadBack(negated, pieces, closed, rest);
    var front, body, end := Opening(negated), SpellPieces(pieces), Closing(closed);
    var p := [OPEN] + (front + (body + end)) + rest;
    Reassociate([OPEN], front + (body + end), rest);
    Reassociate(front, body + end, rest);
    Reassociate(body, end, rest);
    assert p[0] == OPEN && p[1..] == front + (body + (end + rest));
  }

  /** A pattern written from legible tokens is read as those tokens. */
  lemma {:induction false} SpelledReadBack(tokens: seq<Token>)
    requires Legible(tokens)
    ensures Spelled(Spell(tokens)) == ItemsOf(tokens)
    decreases |tokens|
  {
    hide FirstItem, SpellToken, ItemOf, LegibleToken;
    if tokens != [] {
      var p, first := Spell(tokens), SpellToken(tokens[0]);
      ItemReadBack(tokens[0], Spell(tokens[1..]));
      assert p[|first|..] == Spell(tokens[1..]);
      SpelledReadBack(tokens[1..]);
      assert ItemsOf(tokens) == [ItemOf(tokens[0])] + ItemsOf(tokens[1..]);
    }
  }

  /** So it matches exactly the keys the tokens stand for. */
  lemma PatternStandsForItsTokens(tokens: seq<Token>, key: Bytes)
    requires Legible(tokens)
    ensures Means(Spelled(Spell(tokens)), key) <==> Stands(tokens, key)
  {
    hide Means, Stands, Spelled, Spell, Legible;
    SpelledReadBack(tokens);
    ItemsMeanTokens(tokens, key);
  }

  // ----- Every pattern is written from tokens -----

  function PieceOf(p: Bytes): (r: (Piece, nat))
    requires p != []
    ensures 0 < r.1 <= |p| && SpellPiece(r.0) == p[..r.1]
  {
    var escaped := p[0] == BACKSLASH && |p| > 1;
    var b, at := if escaped then p[1] else p[0], if escaped then 2 else 1;
    if ReachesOut(p[at..]) then
      assert p[..at + 2] == Lead(escaped, b) + [DASH, p[at + 1]];
      (Span(escaped, b, p[at + 1]), at + 2)
    else
      assert p[..at] == Lead(escaped, b);
      (Single(escaped, b), at)
  }

  lemma PieceOfIsLegible(p: Bytes)
    requires p != [] && p[0] != CLOSE
    ensures LegiblePiece(PieceOf(p).0, p[PieceOf(p).1..])
  {
    var escaped := p[0] == BACKSLASH && |p| > 1;
    var at := if escaped then 2 else 1;
    if ReachesOut(p[at..]) {
      assert p[at..][1] == p[at + 1];
    }
  }

  /** The entries of a bracket, how far it reaches, and whether it is closed. */
  function PiecesOf(p: Bytes): (r: (seq<Piece>, nat, bool))
    ensures r.1 <= |p| && (r.2 || r.1 == |p|)
    decreases |p|
  {
    if p == [] then ([], 0, false)
    else if p[0] == CLOSE then ([], 1, true)
    else
      var (piece, n) := PieceOf(p);
      var (pieces, m, closed) := PiecesOf(p[n..]);
      ([piece] + pieces, n + m, closed)
  }

  lemma {:induction false} PiecesOfSpell(p: Bytes)
    ensures var (pieces, n, closed) := PiecesOf(p);
            && SpellPieces(pieces) + (Closing(closed) + p[n..]) == p
            && LegiblePieces(pieces, Closing(closed) + p[n..])
    decreases |p|
  {
    hide SpellPiece, LegiblePiece, PieceOf, PiecesOf, SpellPieces, LegiblePieces, Closing;
    if p == [] || p[0] == CLOSE {
      NothingBetween(p);
    } else {
      var (piece, n) := PieceOf(p);
      var (pieces, m, closed) := PiecesOf(p[n..]);
      PiecesOfStep(p);
      PiecesOfSpell(p[n..]);
      PieceOfIsLegible(p);
      assert p[n..][m..] == p[n + m..];
      assert p == p[..n] + p[n..];
      PieceBefore(piece, pieces, Closing(closed) + p[n + m..]);
    }
  }

  lemma PiecesOfStep(p: Bytes)
    requires p != [] && p[0] != CLOSE
    ensures var (piece, n) := PieceOf(p);
            var (pieces, m, closed) := PiecesOf(p[n..]);
            PiecesOf(p) == ([piece] + pieces, n + m, closed)
  {
    hide PieceOf;
  }

  lemma NothingBetween(p: Bytes)
    requires p == [] || p[0] == CLOSE
    ensures var (pieces, n, closed) := PiecesOf(p);
            && SpellPieces(pieces) + (Closing(closed) + p[n..]) == p
            && LegiblePieces(pieces, Closing(closed) + p[n..])
  {
    hide SpellPiece, LegiblePiece, PieceOf;
    var (pieces, n, closed) := PiecesOf(p);
    assert pieces == [];
    assert Closing(closed) + p[n..] == p;
    assert [] + p == p;
  }

  lemma PieceBefore(piece: Piece, pieces: seq<Piece>, tail: Bytes)
    requires LegiblePiece(piece, SpellPieces(pieces) + tail) && LegiblePieces(pieces, tail)
    ensures SpellPieces([piece] + pieces) + tail == SpellPiece(piece) + (SpellPieces(pieces) + tail)
    ensures LegiblePieces([piece] + pieces, tail)
  {
    hide SpellPiece, LegiblePiece;
    var all := [piece] + pieces;
    assert all[1..] == pieces;
    Reassociate(SpellPiece(piece), SpellPieces(pieces), tail);
  }

  function TokenOf(p: Bytes): (r: (Token, nat))
    requires p != []
    ensures 0 < r.1 <= |p|
  {
    if p[0] == STAR then (Star, 1)
    else if p[0] == QUESTION then (Question, 1)
    else if p[0] == OPEN then
      var negated := |p| > 1 && p[1] == CARET;
      var from := if negated then 2 else 1;
      var (pieces, n, closed) := PiecesOf(p[from..]);
      (Bracket(negated, pieces, closed), from + n)
    else if p[0] == BACKSLASH && |p| > 1 then (Literal(true, p[1]), 2)
    else (Literal(false, p[0]), 1)
  }

  lemma TokenOfSpells(p: Bytes)
    requires p != []
    ensures var (token, n) := TokenOf(p);
            SpellToken(token) + p[n..] == p && LegibleToken(token, p[n..])
  {
    hide SpellPieces, LegiblePieces, PiecesOf;
    if p[0] == OPEN {
      BracketOfSpells(p);
    }
  }

  lemma BracketOfSpells(p: Bytes)
    requires p != [] && p[0] == OPEN
    ensures var (token, n) := TokenOf(p);
            SpellToken(token) + p[n..] == p && LegibleToken(token, p[n..])
  {
    hide SpellPieces, LegiblePieces, PiecesOf, Opening, Closing;
    OpeningIs();
    var negated := |p| > 1 && p[1] == CARET;
    var from := if negated then 2 else 1;
    var body := p[from..];
    var (pieces, n, closed) := PiecesOf(body);
    PiecesOfSpell(body);
    assert body[n..] == p[from + n..];
    var front, inner, end, rest := Opening(negated), SpellPieces(pieces), Closing(closed), p[from + n..];
    assert p == [OPEN] + (front + body);
    assert body == inner + (end + rest);
    BracketJoins(front, inner, end, rest);
    if !negated && pieces != [] {
      OpensWith(pieces, end + rest);
      assert p[1] == body[0];
    }
  }

  lemma OpeningIs()
    ensures Opening(true) == [CARET] && Opening(false) == []
  {
  }

  lemma BracketJoins(front: Bytes, inner: Bytes, end: Bytes, rest: Bytes)
    ensures [OPEN] + (front + (inner + end)) + rest == [OPEN] + (front + (inner + (end + rest)))
  {
    Reassociate(inner, end, rest);
    Reassociate(front, inner + end, rest);
    Reassociate([OPEN], front + (inner + end), rest);
  }

  function Tokens(p: Bytes): seq<Token>
    decreases |p|
  {
    if p == [] then []
    else
      var (token, n) := TokenOf(p);
      [token] + Tokens(p[n..])
  }

  /** Nothing can be written that is not legible tokens one after another. */
  lemma {:induction false} EveryPatternIsTokens(p: Bytes)
    ensures Legible(Tokens(p)) && Spell(Tokens(p)) == p
    decreases |p|
  {
    hide TokenOf, SpellToken, LegibleToken;
    if p != [] {
      var (token, n) := TokenOf(p);
      TokenOfSpells(p);
      EveryPatternIsTokens(p[n..]);
      var all := [token] + Tokens(p[n..]);
      assert all[1..] == Tokens(p[n..]);
    }
  }

  // ----- The plainest patterns -----

  predicate Plain(p: Bytes) {
    forall i :: 0 <= i < |p| ==> p[i] !in {STAR, QUESTION, OPEN, BACKSLASH}
  }

  /** A pattern with nothing special in it asks for itself and for nothing else. */
  lemma {:induction false} PlainMeansItself(p: Bytes, key: Bytes)
    requires Plain(p)
    ensures Means(Spelled(p), key) <==> key == p
    decreases |p|
  {
    if p == [] {
      assert Spelled(p) == [];
    } else {
      hide Means, Spelled;
      PlainFirst(p);
      ByteThenItems(p[0], Spelled(p[1..]), key);
      if key != [] {
        PlainMeansItself(p[1..], key[1..]);
        assert key == [key[0]] + key[1..] && p == [p[0]] + p[1..];
      }
    }
  }

  lemma PlainFirst(p: Bytes)
    requires p != [] && Plain(p)
    ensures Spelled(p) == [Byte(p[0])] + Spelled(p[1..])
  {
  }

  lemma ByteThenItems(b: byte, items: seq<Item>, key: Bytes)
    ensures Means([Byte(b)] + items, key) <==> key != [] && key[0] == b && Means(items, key[1..])
  {
    assert ([Byte(b)] + items)[1..] == items;
  }

  function SinglesOf(body: Bytes): (pieces: seq<Piece>)
    ensures |pieces| == |body|
  {
    seq(|body|, i requires 0 <= i < |body| => Single(false, body[i]))
  }

  lemma {:induction false} SinglesSpell(body: Bytes, tail: Bytes)
    requires forall i :: 0 <= i < |body| ==> body[i] !in {CLOSE, BACKSLASH, DASH}
    requires tail == [] || tail[0] != DASH
    ensures SpellPieces(SinglesOf(body)) == body && LegiblePieces(SinglesOf(body), tail)
    decreases |body|
  {
    if body != [] {
      assert SinglesOf(body)[1..] == SinglesOf(body[1..]);
      SinglesSpell(body[1..], tail);
      assert body == [body[0]] + body[1..];
    }
  }

  /** Bytes in brackets ask for one of themselves, or with a caret for none of them, whether or not they are closed in. */
  lemma PlainSetMeansOneOfThem(negated: bool, body: Bytes, closed: bool, key: Bytes)
    requires forall i :: 0 <= i < |body| ==> body[i] !in {CLOSE, BACKSLASH, DASH}
    requires negated || body == [] || body[0] != CARET
    ensures var p := [OPEN] + (Opening(negated) + (body + Closing(closed)));
            Means(Spelled(p), key) <==> |key| == 1 && ((key[0] in body) != negated)
  {
    hide Means, Spelled, SpellPieces, LegiblePieces;
    SinglesSpell(body, Closing(closed));
    var pieces := SinglesOf(body);
    assert Closing(closed) + [] == Closing(closed);
    OneTokenMeans(Bracket(negated, pieces, closed), key);
    if |key| == 1 {
      assert key[0] in body <==> exists i :: 0 <= i < |pieces| && Covers(pieces[i], key[0]) by {
        assert forall i :: 0 <= i < |pieces| ==> (Covers(pieces[i], key[0]) <==> body[i] == key[0]);
      }
    }
  }

  /** Two bytes with a dash between them ask for one from the lesser to the greater, whichever is written first. */
  lemma SpanMeansOneBetween(a: byte, c: byte, negated: bool, closed: bool, key: Bytes)
    requires a !in {CLOSE, BACKSLASH} && c != CLOSE && (negated || a != CARET)
    ensures var p := [OPEN] + (Opening(negated) + ([a, DASH, c] + Closing(closed)));
            Means(Spelled(p), key) <==> |key| == 1 && ((a <= key[0] <= c || c <= key[0] <= a) != negated)
  {
    hide Means, Spelled;
    var pieces := [Span(false, a, c)];
    assert pieces[1..] == [];
    assert SpellPieces(pieces) == [a, DASH, c];
    assert Closing(closed) + [] == Closing(closed);
    assert LegiblePieces(pieces[1..], Closing(closed));
    assert LegiblePieces(pieces, Closing(closed));
    OneTokenMeans(Bracket(negated, pieces, closed), key);
    if |key| == 1 {
      assert (exists i :: 0 <= i < |pieces| && Covers(pieces[i], key[0])) <==> Covers(pieces[0], key[0]);
    }
  }

  lemma OneTokenMeans(token: Token, key: Bytes)
    requires LegibleToken(token, []) && !token.Star?
    ensures Means(Spelled(SpellToken(token)), key) <==> |key| == 1 && TokenMatches(token, key[0])
  {
    hide Means, Spelled, SpellToken, TokenMatches, LegibleToken;
    var tokens := [token];
    assert tokens[1..] == [];
    assert Spell(tokens[1..]) == [] && SpellToken(token) + [] == SpellToken(token);
    PatternStandsForItsTokens(tokens, key);
    if key != [] {
      assert Stands(tokens[1..], key[1..]) <==> key[1..] == [];
    }
  }
}
