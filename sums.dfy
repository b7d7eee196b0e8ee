/**
 * `->sum(...)` over a table: the total of a real-valued column (or of a
 * per-row expression) over the rows of a sequence, and how that total moves
 * when a row is appended, replaced or removed.
 */
module Sums {

  /** Sum of `f` over the rows of `s`, accumulated from the front. */
  function SumOf<T>(s: seq<T>, f: T -> real): real {
    if s == [] then 0.0 else SumOf(s[..|s| - 1], f) + f(s[|s| - 1])
  }

  lemma SumOfAppend<T>(s: seq<T>, x: T, f: T -> real)
    ensures SumOf(s + [x], f) == SumOf(s, f) + f(x)
  {
    assert (s + [x])[..|s|] == s;
  }

  lemma {:induction false} SumOfConcat<T>(a: seq<T>, b: seq<T>, f: T -> real)
    ensures SumOf(a + b, f) == SumOf(a, f) + SumOf(b, f)
    decreases |b|
  {
    if b == [] {
      assert a + b == a;
    } else {
      var b' := b[..|b| - 1];
      assert a + b == (a + b') + [b[|b| - 1]];
      SumOfAppend(a + b', b[|b| - 1], f);
      SumOfConcat(a, b', f);
    }
  }

  /** Replacing row `i` by `x` moves the sum by `f(x) - f(s[i])`. */
  lemma SumOfUpdate<T>(s: seq<T>, i: nat, x: T, f: T -> real)
    requires i < |s|
    ensures SumOf(s[i := x], f) == SumOf(s, f) - f(s[i]) + f(x)
  {
    assert s == s[..i] + [s[i]] + s[i + 1..];
    assert s[i := x] == s[..i] + [x] + s[i + 1..];
    SumOfConcat(s[..i] + [s[i]], s[i + 1..], f);
    SumOfConcat(s[..i] + [x], s[i + 1..], f);
    SumOfAppend(s[..i], s[i], f);
    SumOfAppend(s[..i], x, f);
  }

  /** Removing row `i` lowers the sum by `f(s[i])`. */
  lemma SumOfRemove<T>(s: seq<T>, i: nat, f: T -> real)
    requires i < |s|
    ensures SumOf(s[..i] + s[i + 1..], f) == SumOf(s, f) - f(s[i])
  {
    assert s == s[..i] + [s[i]] + s[i + 1..];
    SumOfMiddle(s[..i], s[i], s[i + 1..], f);
  }

  /** A row between two parts adds its own term to the sum of the parts. */
  lemma SumOfMiddle<T>(a: seq<T>, x: T, b: seq<T>, f: T -> real)
    ensures SumOf(a + [x] + b, f) == SumOf(a + b, f) + f(x)
  {
    SumOfConcat(a + [x], b, f);
    SumOfConcat(a, b, f);
    SumOfAppend(a, x, f);
  }

  /** A sum of non-negative terms is non-negative. */
  lemma {:induction false} SumOfNonNegative<T>(s: seq<T>, f: T -> real)
    requires forall i :: 0 <= i < |s| ==> f(s[i]) >= 0.0
    ensures SumOf(s, f) >= 0.0
    decreases |s|
  {
    if s != [] {
      SumOfNonNegative(s[..|s| - 1], f);
    }
  }

  /** Term-wise `f <= g` gives `SumOf(s, f) <= SumOf(s, g)`. */
  lemma {:induction false} SumOfMonotone<T>(s: seq<T>, f: T -> real, g: T -> real)
    requires forall i :: 0 <= i < |s| ==> f(s[i]) <= g(s[i])
    ensures SumOf(s, f) <= SumOf(s, g)
    decreases |s|
  {
    if s != [] {
      SumOfMonotone(s[..|s| - 1], f, g);
    }
  }

  /** Term-wise equal functions have equal sums. */
  lemma {:induction false} SumOfCongruent<T>(s: seq<T>, f: T -> real, g: T -> real)
    requires forall i :: 0 <= i < |s| ==> f(s[i]) == g(s[i])
    ensures SumOf(s, f) == SumOf(s, g)
    decreases |s|
  {
    if s != [] {
      SumOfCongruent(s[..|s| - 1], f, g);
    }
  }

  /** A constant factor in every term comes out of the sum. */
  lemma {:induction false} SumOfScaled<T>(s: seq<T>, f: T -> real, g: T -> real, c: real)
    requires forall i :: 0 <= i < |s| ==> f(s[i]) == c * g(s[i])
    ensures SumOf(s, f) == c * SumOf(s, g)
    decreases |s|
  {
    if s != [] {
      SumOfScaled(s[..|s| - 1], f, g, c);
    }
  }
}
