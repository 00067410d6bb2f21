/** Sorting by a comparison, as sort.Slice does it, and the order of Go strings. */
module Sorting {
  /** `less` is a strict weak order: the comparison that a sort needs. */
  ghost predicate StrictWeak<T(!new)>(less: (T, T) -> bool) {
    && (forall a, b :: less(a, b) ==> !less(b, a))
    && (forall a, b, c :: !less(b, a) && !less(c, b) ==> !less(c, a))
  }

  ghost predicate Sorted<T>(xs: seq<T>, less: (T, T) -> bool) {
    forall i, j :: 0 <= i < j < |xs| ==> !less(xs[j], xs[i])
  }

  /** Any sorting routine: the result is ordered and is a rearrangement of the input. */
  method Sort<T(!new)>(xs: seq<T>, less: (T, T) -> bool) returns (r: seq<T>)
    requires StrictWeak(less)
    ensures Sorted(r, less)
    ensures multiset(r) == multiset(xs)
  {
    r := [];
    for i := 0 to |xs|
      invariant Sorted(r, less)
      invariant multiset(r) == multiset(xs[..i])
    {
      assert xs[..i + 1] == xs[..i] + [xs[i]];
      r := Insert(r, xs[i], less);
    }
    assert xs[..|xs|] == xs;
  }

  method Insert<T(!new)>(xs: seq<T>, x: T, less: (T, T) -> bool) returns (r: seq<T>)
    requires StrictWeak(less) && Sorted(xs, less)
    ensures Sorted(r, less)
    ensures multiset(r) == multiset(xs) + multiset{x}
  {
    var k := |xs|;
    while k > 0 && less(x, xs[k - 1])
      invariant 0 <= k <= |xs|
      invariant forall j | k <= j < |xs| :: less(x, xs[j])
    {
      k := k - 1;
    }
    PutKeeps(xs, k, x, less);
    r := xs[..k] + [x] + xs[k..];
  }

  lemma PutKeeps<T(!new)>(xs: seq<T>, k: nat, x: T, less: (T, T) -> bool)
    requires StrictWeak(less) && Sorted(xs, less) && k <= |xs|
    requires forall j | k <= j < |xs| :: less(x, xs[j])
    requires k > 0 ==> !less(x, xs[k - 1])
    ensures Sorted(xs[..k] + [x] + xs[k..], less)
    ensures multiset(xs[..k] + [x] + xs[k..]) == multiset(xs) + multiset{x}
  {
    assert xs == xs[..k] + xs[k..];
    NotBelow(xs, k, x, less);
    PutSorted(xs, k, x, less);
  }

  lemma NotBelow<T(!new)>(xs: seq<T>, k: nat, x: T, less: (T, T) -> bool)
    requires StrictWeak(less) && Sorted(xs, less) && k <= |xs|
    requires k > 0 ==> !less(x, xs[k - 1])
    ensures forall i | 0 <= i < k :: !less(x, xs[i])
  {
    forall i | 0 <= i < k ensures !less(x, xs[i]) {
      assert i == k - 1 || !less(xs[k - 1], xs[i]);
    }
  }

  lemma PutSorted<T(!new)>(xs: seq<T>, k: nat, x: T, less: (T, T) -> bool)
    requires k <= |xs| && Sorted(xs, less)
    requires forall i | 0 <= i < k :: !less(x, xs[i])
    requires forall j | k <= j < |xs| :: !less(xs[j], x)
    ensures Sorted(xs[..k] + [x] + xs[k..], less)
  {
    var r := xs[..k] + [x] + xs[k..];
    assert forall i | 0 <= i < k :: r[i] == xs[i];
    assert r[k] == x;
    assert forall i | k < i < |r| :: r[i] == xs[i - 1];
  }

  /** Go's `<` on strings. */
  predicate Less(a: string, b: string) {
    b != "" && (a == "" || a[0] < b[0] || (a[0] == b[0] && Less(a[1..], b[1..])))
  }

  /** At the first difference the smaller character decides, and a proper prefix comes first. */
  lemma {:induction false} LessMeans(a: string, b: string)
    ensures Less(a, b) <==>
            exists i: nat :: i <= |a| && i < |b| && a[..i] == b[..i] && (i == |a| || a[i] < b[i])
  {
    if b != "" && (a == "" || a[0] < b[0]) {
      assert a[..0] == b[..0];
    } else if a != "" && b != "" && a[0] == b[0] {
      LessMeans(a[1..], b[1..]);
      var x, y := a[1..], b[1..];
      if i: nat :| i <= |x| && i < |y| && x[..i] == y[..i] && (i == |x| || x[i] < y[i]) {
        assert a[..i + 1] == [a[0]] + a[1..][..i] && b[..i + 1] == [b[0]] + b[1..][..i];
      }
      if i: nat :| i <= |a| && i < |b| && a[..i] == b[..i] && (i == |a| || a[i] < b[i]) {
        assert i > 0 && a[1..][..i - 1] == a[..i][1..] && b[1..][..i - 1] == b[..i][1..];
      }
    } else {
      forall i: nat | 0 < i <= |a| && i < |b| ensures a[..i] == b[..i] ==> a[0] == b[0] {
        assert a[..i][0] == a[0] && b[..i][0] == b[0];
      }
    }
  }

  lemma {:induction false} LessIsTotal(a: string, b: string)
    ensures a == b || Less(a, b) || Less(b, a)
    ensures Less(a, b) ==> a != b && !Less(b, a)
  {
    if a != "" && b != "" && a[0] == b[0] {
      LessIsTotal(a[1..], b[1..]);
      assert a == [a[0]] + a[1..] && b == [b[0]] + b[1..];
    }
  }

  lemma {:induction false} LessIsTransitive(a: string, b: string, c: string)
    requires Less(a, b) && Less(b, c)
    ensures Less(a, c)
  {
    if a != "" && a[0] == b[0] == c[0] {
      LessIsTransitive(a[1..], b[1..], c[1..]);
    }
  }

  lemma LessIsStrictWeak(a: string, b: string, c: string)
    ensures Less(a, b) ==> !Less(b, a)
    ensures !Less(b, a) && !Less(c, b) ==> !Less(c, a)
  {
    LessIsTotal(a, b);
    LessIsTotal(b, c);
    LessIsTotal(a, c);
    if Less(a, b) && Less(b, c) { LessIsTransitive(a, b, c); }
  }
}
