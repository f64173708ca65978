/**
The element loops of SliceVector (yate/yatemath.h) on windows of arrays that
may be the same array: what a loop leaves behind when it writes the cells that
it is going to read.
*/
module Elementwise {
  /** The first n results of `*d op= *od` when the window read starts k cells
      before the window written: from the k-th on, results are read back. */
  function Chain<T>(a: seq<T>, b: seq<T>, k: nat, op: (T, T) -> T, n: nat): (r: seq<T>)
    requires 0 < k && n <= |a| && n <= |b|
    ensures |r| == n
  {
    if n == 0 then []
    else
      var p := Chain(a, b, k, op, n - 1);
      p + [op(a[n - 1], if n - 1 < k then b[n - 1] else p[n - 1 - k])]
  }

  /** The recurrence: each result combines the old cell with the old other
      cell, or with the result k places earlier. */
  lemma {:induction false} ChainRecurrence<T>(a: seq<T>, b: seq<T>, k: nat, op: (T, T) -> T, n: nat, i: nat)
    requires 0 < k && i < n <= |a| && n <= |b|
    ensures Chain(a, b, k, op, n)[i] == op(a[i], if i < k then b[i] else Chain(a, b, k, op, n)[i - k])
  {
    if i < n - 1 {
      ChainRecurrence(a, b, k, op, n - 1, i);
    }
  }

  /** Windows that do not reach into each other's past: element by element. */
  lemma ChainIsPointwise<T>(a: seq<T>, b: seq<T>, k: nat, op: (T, T) -> T, n: nat)
    requires 0 < k && n <= k && n <= |a| && n <= |b|
    ensures forall i :: 0 <= i < n ==> Chain(a, b, k, op, n)[i] == op(a[i], b[i])
  {
    forall i | 0 <= i < n
      ensures Chain(a, b, k, op, n)[i] == op(a[i], b[i])
    {
      ChainRecurrence(a, b, k, op, n, i);
    }
  }

  /** How far back the other window starts does not matter beyond the end. */
  lemma {:induction false} ChainIgnoresFarLag<T>(a: seq<T>, b: seq<T>, k: nat, k': nat, op: (T, T) -> T, n: nat)
    requires 0 < k && 0 < k' && n <= |a| && n <= |b|
    requires k == k' || (n <= k && n <= k')
    ensures Chain(a, b, k, op, n) == Chain(a, b, k', op, n)
  {
    if n > 0 && k != k' {
      ChainIgnoresFarLag(a, b, k, k', op, n - 1);
    }
  }

  function Total(s: seq<int>): int {
    if s == [] then 0 else Total(s[..|s| - 1]) + s[|s| - 1]
  }

  /** Summing a window with itself one cell later runs up the prefix sums. */
  lemma {:induction false} LagOneSumsUp(a: seq<int>, b: seq<int>, n: nat, i: nat)
    requires i < n <= |a| && n <= |b|
    ensures Chain(a, b, 1, (x, y) => x + y, n)[i] == b[0] + Total(a[..i + 1])
  {
    var op := (x: int, y: int) => x + y;
    ChainRecurrence(a, b, 1, op, n, i);
    assert a[..i + 1][..i] == a[..i];
    if i > 0 {
      LagOneSumsUp(a, b, n, i - 1);
    } else {
      assert Total(a[..0]) == 0;
    }
  }

  /** How far the window read lies before the window written, in the same
      array; at least n where that makes no difference. */
  ghost function Lag<T>(x: array<T>, p: nat, y: array<T>, q: nat, n: nat): (k: nat)
    ensures 0 < k
  {
    if x == y && q < p then p - q else n + 1
  }

  lemma ChainStep<T>(a: seq<T>, b: seq<T>, k: nat, op: (T, T) -> T, n: nat)
    requires 0 < k && n < |a| && n < |b|
    ensures var c, c' := Chain(a, b, k, op, n), Chain(a, b, k, op, n + 1);
      && c'[n] == op(a[n], if n < k then b[n] else c[n - k])
      && forall j :: 0 <= j < n ==> c'[j] == c[j]
  {
  }

  /** `for (; d != last; ++d, ++od) *d op= *od;` */
  method CombineWindows<T>(x: array<T>, p: nat, y: array<T>, q: nat, n: nat, op: (T, T) -> T)
    requires p + n <= x.Length && q + n <= y.Length
    modifies x
    ensures x[p..p + n] == Chain(old(x[p..p + n]), old(y[q..q + n]), Lag(x, p, y, q, n), op, n)
    ensures forall j :: 0 <= j < x.Length && !(p <= j < p + n) ==> x[j] == old(x[j])
  {
    hide Chain;
    ghost var was, other, k := x[..], y[..], Lag(x, p, y, q, n);
    ghost var a, b := was[p..p + n], other[q..q + n];
    assert a == x[p..p + n] && b == y[q..q + n];
    var i := 0;
    while i < n
      invariant i <= n
      invariant forall j :: p <= j < p + i ==> x[j] == Chain(a, b, k, op, i)[j - p]
      invariant forall j :: 0 <= j < x.Length && !(p <= j < p + i) ==> x[j] == was[j]
      invariant x != y ==> y[..] == other
    {
      ChainStep(a, b, k, op, i);
      ghost var c := Chain(a, b, k, op, i);
      assert x[p + i] == a[i];
      assert y[q + i] == if i < k then b[i] else c[i - k] by {
        if x != y {
          assert y[..][q + i] == other[q + i];
        } else if q < p && k <= i {
          assert q + i == p + (i - k);
        }
      }
      x[p + i] := op(x[p + i], y[q + i]);
      i := i + 1;
    }
    ghost var now := x[p..p + n];
    assert forall j :: 0 <= j < n ==> now[j] == x[p + j];
    assert now == Chain(a, b, k, op, n);
  }

  /** `for (; d != last; ++d) *d = value;` and the loops that change each cell by itself. */
  method MapWindow<T>(x: array<T>, p: nat, n: nat, f: T -> T)
    requires p + n <= x.Length
    modifies x
    ensures forall j :: p <= j < p + n ==> x[j] == f(old(x[j]))
    ensures forall j :: 0 <= j < x.Length && !(p <= j < p + n) ==> x[j] == old(x[j])
  {
    var i := 0;
    while i < n
      invariant i <= n
      invariant forall j :: p <= j < p + i ==> x[j] == f(old(x[j]))
      invariant forall j :: 0 <= j < x.Length && !(p <= j < p + i) ==> x[j] == old(x[j])
    {
      x[p + i] := f(x[p + i]);
      i := i + 1;
    }
  }

  function Fold<T>(op: (T, T) -> T, zero: T, s: seq<T>): T {
    if s == [] then zero else op(Fold(op, zero, s[..|s| - 1]), s[|s| - 1])
  }

  /** Each element is added to what the elements before it have come to. */
  lemma FoldNext<T>(op: (T, T) -> T, zero: T, s: seq<T>, x: T)
    ensures Fold(op, zero, []) == zero && Fold(op, zero, s + [x]) == op(Fold(op, zero, s), x)
  {
    assert (s + [x])[..|s|] == s;
  }

  /** A sum goes on from the sum of what came before. */
  lemma {:induction false} FoldAppend<T>(op: (T, T) -> T, zero: T, a: seq<T>, b: seq<T>)
    ensures Fold(op, zero, a + b) == Fold(op, Fold(op, zero, a), b)
  {
    if b == [] {
      assert a + b == a;
    } else {
      var front, x := b[..|b| - 1], b[|b| - 1];
      FoldAppend(op, zero, a, front);
      FoldNext(op, zero, a + front, x);
      FoldNext(op, Fold(op, zero, a), front, x);
      assert a + b == a + front + [x] && b == front + [x];
    }
  }

  /** Numbers add up to their total, and the total of two vectors put together
      is the sum of the totals. */
  lemma {:induction false} SumOfParts(a: seq<int>, b: seq<int>)
    ensures Fold((x: int, y: int) => x + y, 0, a) == Total(a)
    ensures Fold((x: int, y: int) => x + y, 0, a + b) == Total(a) + Total(b)
    decreases |a| + |b|
  {
    var plus := (x: int, y: int) => x + y;
    if b != [] {
      var front, x := b[..|b| - 1], b[|b| - 1];
      SumOfParts(a, front);
      FoldNext(plus, 0, a + front, x);
      assert a + b == a + front + [x];
    } else {
      assert a + b == a;
      if a != [] {
        SumOfParts(a[..|a| - 1], []);
      }
    }
  }

  /** `result += *d` over a window. */
  method FoldWindow<T>(x: array<T>, p: nat, n: nat, op: (T, T) -> T, zero: T) returns (r: T)
    requires p + n <= x.Length
    ensures r == Fold(op, zero, x[p..p + n])
  {
    r := zero;
    var i := 0;
    while i < n
      invariant i <= n && r == Fold(op, zero, x[p..p + i])
    {
      assert x[p..p + i + 1] == x[p..p + i] + [x[p + i]];
      assert x[p..p + i + 1][..i] == x[p..p + i];
      r := op(r, x[p + i]);
      i := i + 1;
    }
  }

  /** RefStorage::copy between windows that do not overlap, or are the same, where nothing is done. */
  method CopyWindow<T>(x: array<T>, p: nat, y: array<T>, q: nat, n: nat)
    requires p + n <= x.Length && q + n <= y.Length
    requires x == y ==> p == q || p + n <= q || q + n <= p
    modifies x
    ensures x[p..p + n] == old(y[q..q + n])
    ensures forall j :: 0 <= j < x.Length && !(p <= j < p + n) ==> x[j] == old(x[j])
  {
    if x == y && p == q {
      return;
    }
    forall i | 0 <= i < n {
      x[p + i] := y[q + i];
    }
  }
}
