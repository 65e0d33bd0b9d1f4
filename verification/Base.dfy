/** Bytes, optional values and outcomes shared by every component of the server. */
module Base {

  type byte = b: int | 0 <= b < 256

  type Bytes = seq<byte>

  const U64_END: nat := 0x1_0000_0000_0000_0000

  /** `u64`, and `usize` on the 64-bit machines the server is built for. */
  type u64 = n: nat | n < U64_END

  datatype Option<+T> = None | Some(value: T)

  datatype Result<+T, +E> = Ok(value: T) | Err(error: E)

  const CR: byte := 13
  const LF: byte := 10

  function Min(a: int, b: int): int {
    if a <= b then a else b
  }

  predicate IsAscii(word: string) {
    forall i :: 0 <= i < |word| ==> word[i] as int < 128
  }

  /** A word as the bytes it is sent in. */
  function Ascii(word: string): (s: Bytes)
    requires IsAscii(word)
    ensures |s| == |word|
  {
    seq(|word|, i requires 0 <= i < |word| => word[i] as int)
  }

  ghost predicate Distinct<T>(s: seq<T>) {
    forall i, j :: 0 <= i < j < |s| ==> s[i] != s[j]
  }

  lemma Reassociate<T>(a: seq<T>, b: seq<T>, c: seq<T>)
    ensures a + b + c == a + (b + c)
  {
  }

  /** How `Bytes` compare: byte by byte, a proper prefix coming first. */
  predicate BytesLess(a: Bytes, b: Bytes) {
    b != [] && (a == [] || a[0] < b[0] || (a[0] == b[0] && BytesLess(a[1..], b[1..])))
  }

  /** The first byte to differ decides, and where none does the shorter comes first. */
  lemma {:induction false} BytesLessIs(a: Bytes, b: Bytes)
    ensures BytesLess(a, b) <==>
            || (|a| < |b| && a == b[..|a|])
            || exists i :: 0 <= i < |a| && i < |b| && a[..i] == b[..i] && a[i] < b[i]
  {
    if a != [] && b != [] && a[0] == b[0] {
      var x, y := a[1..], b[1..];
      BytesLessIs(x, y);
      assert forall i :: 0 <= i <= |x| && i <= |y| ==> (x[..i] == y[..i] <==> a[..i + 1] == b[..i + 1]) by {
        forall i | 0 <= i <= |x| && i <= |y|
          ensures x[..i] == y[..i] <==> a[..i + 1] == b[..i + 1]
        {
          assert a[..i + 1] == [a[0]] + x[..i] && b[..i + 1] == [b[0]] + y[..i];
          assert a[..i + 1][1..] == x[..i] && b[..i + 1][1..] == y[..i];
        }
      }
      if exists i :: 0 <= i < |x| && i < |y| && x[..i] == y[..i] && x[i] < y[i] {
        var i :| 0 <= i < |x| && i < |y| && x[..i] == y[..i] && x[i] < y[i];
        assert a[..i + 1] == b[..i + 1] && a[i + 1] < b[i + 1];
      }
      if exists i :: 0 <= i < |a| && i < |b| && a[..i] == b[..i] && a[i] < b[i] {
        var i :| 0 <= i < |a| && i < |b| && a[..i] == b[..i] && a[i] < b[i];
        assert i > 0;
        assert x[..i - 1] == y[..i - 1] && x[i - 1] < y[i - 1];
      }
    } else if a != [] && b != [] {
      assert a[..0] == b[..0];
      forall i | 0 < i < |a| && i < |b|
        ensures a[..i] != b[..i]
      {
        assert a[..i][0] == a[0] && b[..i][0] == b[0];
      }
      assert |a| <= |b| ==> b[..|a|][0] == b[0];
    }
  }

  lemma {:induction false} BytesLessTotal(a: Bytes, b: Bytes)
    ensures BytesLess(a, b) || a == b || BytesLess(b, a)
    ensures !(BytesLess(a, b) && BytesLess(b, a))
  {
    if a != [] && b != [] && a[0] == b[0] {
      BytesLessTotal(a[1..], b[1..]);
      assert a[1..] == b[1..] ==> a == [a[0]] + a[1..] == [b[0]] + b[1..] == b;
    }
  }

  lemma {:induction false} BytesLessIrreflexive(a: Bytes)
    ensures !BytesLess(a, a)
  {
    if a != [] {
      BytesLessIrreflexive(a[1..]);
    }
  }

  lemma {:induction false} BytesLessTransitive(a: Bytes, b: Bytes, c: Bytes)
    requires BytesLess(a, b) && BytesLess(b, c)
    ensures BytesLess(a, c)
  {
    if a != [] && a[0] == b[0] && b[0] == c[0] {
      BytesLessTransitive(a[1..], b[1..], c[1..]);
    }
  }
}
