/** `partition_point`: where a sequence goes over from what satisfies a test to what does not. */
module Search {
  import opened Base

  ghost predicate Partitioned<T(!new)>(s: seq<T>, test: T -> bool) {
    forall i, j :: 0 <= i < j < |s| && test(s[j]) ==> test(s[i])
  }

  /** How many elements at the front satisfy the test. */
  function Leading<T>(s: seq<T>, test: T -> bool): (n: nat)
    ensures n <= |s|
    ensures forall i :: 0 <= i < n ==> test(s[i])
    ensures n < |s| ==> !test(s[n])
  {
    if s == [] || !test(s[0]) then 0 else 1 + Leading(s[1..], test)
  }

  lemma {:induction false} LeadingIs<T>(s: seq<T>, test: T -> bool, n: nat)
    requires n <= |s| && forall i :: 0 <= i < n ==> test(s[i])
    requires n < |s| ==> !test(s[n])
    ensures n == Leading(s, test)
    decreases n
  {
    if n > 0 {
      LeadingIs(s[1..], test, n - 1);
    }
  }

  /** Halves what is left each time round. */
  method PartitionPoint<T(!new)>(s: seq<T>, test: T -> bool) returns (at: nat)
    requires Partitioned(s, test)
    ensures at == Leading(s, test)
    ensures at <= |s|
    ensures forall i :: 0 <= i < at ==> test(s[i])
    ensures forall i :: at <= i < |s| ==> !test(s[i])
  {
    var low, high := 0, |s|;
    while low < high
      invariant 0 <= low <= high <= |s|
      invariant forall i :: 0 <= i < low ==> test(s[i])
      invariant forall i :: high <= i < |s| ==> !test(s[i])
    {
      var middle := (low + high) / 2;
      if test(s[middle]) {
        low := middle + 1;
      } else {
        high := middle;
      }
    }
    at := low;
    LeadingIs(s, test, at);
  }

  /** The elements that satisfy a test, in the order they stand in. */
  function Filter<T>(s: seq<T>, test: T -> bool): (r: seq<T>) {
    if s == [] then [] else (if test(s[0]) then [s[0]] else []) + Filter(s[1..], test)
  }

  lemma {:induction false} FilterNone<T>(s: seq<T>, test: T -> bool)
    requires forall i :: 0 <= i < |s| ==> !test(s[i])
    ensures Filter(s, test) == []
  {
    if s != [] {
      FilterNone(s[1..], test);
    }
  }

  lemma {:induction false} FilterAppends<T>(a: seq<T>, b: seq<T>, test: T -> bool)
    ensures Filter(a + b, test) == Filter(a, test) + Filter(b, test)
  {
    if a == [] {
      assert a + b == b;
    } else {
      var both := a + b;
      assert both[0] == a[0] && both[1..] == a[1..] + b;
      FilterAppends(a[1..], b, test);
      Reassociate(if test(a[0]) then [a[0]] else [], Filter(a[1..], test), Filter(b, test));
    }
  }

  lemma SliceOfRest<T>(s: seq<T>, first: nat, last: nat)
    requires 0 < first <= last <= |s|
    ensures s[1..][first - 1..last - 1] == s[first..last]
  {
  }

  lemma SliceFromFront<T>(s: seq<T>, last: nat)
    requires 0 < last <= |s|
    ensures [s[0]] + s[1..][0..last - 1] == s[0..last]
  {
  }

  /** What a test picks out of a sequence it holds on just between `first` and `last`. */
  lemma {:induction false} FilterIsSlice<T>(s: seq<T>, test: T -> bool, first: nat, last: nat)
    requires first <= last <= |s|
    requires forall i :: 0 <= i < |s| ==> (test(s[i]) <==> first <= i < last)
    ensures Filter(s, test) == s[first..last]
    decreases |s|
  {
    if first > 0 {
      FilterIsSlice(s[1..], test, first - 1, last - 1);
      SliceOfRest(s, first, last);
    } else if last > 0 {
      FilterIsSlice(s[1..], test, 0, last - 1);
      SliceFromFront(s, last);
    } else {
      FilterNone(s, test);
    }
  }
}
