/** Subsequences: what remains when elements are left out and the order is kept. */
module Subsequence {

  predicate Sub<T(==)>(a: seq<T>, b: seq<T>) {
    a == [] || (b != [] && ((a[0] == b[0] && Sub(a[1..], b[1..])) || Sub(a, b[1..])))
  }

  lemma {:induction false} SubRefl<T>(a: seq<T>)
    ensures Sub(a, a)
  {
    if a != [] { SubRefl(a[1..]); }
  }

  lemma {:induction false} SubIn<T>(a: seq<T>, b: seq<T>)
    requires Sub(a, b)
    ensures |a| <= |b| && forall x | x in a :: x in b
  {
    if a != [] {
      if a[0] == b[0] && Sub(a[1..], b[1..]) {
        SubIn(a[1..], b[1..]);
        assert a == [a[0]] + a[1..];
      } else {
        SubIn(a, b[1..]);
      }
    }
  }

  lemma {:induction false} SubTrans<T>(a: seq<T>, b: seq<T>, c: seq<T>)
    requires Sub(a, b) && Sub(b, c)
    ensures Sub(a, c)
    decreases |b| + |c|
  {
    if a != [] {
      if b[0] == c[0] && Sub(b[1..], c[1..]) {
        if a[0] == b[0] && Sub(a[1..], b[1..]) {
          SubTrans(a[1..], b[1..], c[1..]);
        } else {
          SubTrans(a, b[1..], c[1..]);
        }
      } else {
        SubTrans(a, b, c[1..]);
      }
    }
  }

  lemma {:induction false} SubAppend<T>(a: seq<T>, b: seq<T>, c: seq<T>, d: seq<T>)
    requires Sub(a, b) && Sub(c, d)
    ensures Sub(a + c, b + d)
  {
    if b == [] {
      assert a + c == c && b + d == d;
    } else {
      assert (b + d)[1..] == b[1..] + d;
      if a != [] && a[0] == b[0] && Sub(a[1..], b[1..]) {
        assert (a + c)[1..] == a[1..] + c;
        SubAppend(a[1..], b[1..], c, d);
      } else {
        SubAppend(a, b[1..], c, d);
      }
    }
  }

  lemma SubCons<T>(x: T, keep: bool, a: seq<T>, b: seq<T>)
    requires Sub(a, b)
    ensures Sub((if keep then [x] else []) + a, [x] + b)
  {
    assert ([x] + b)[1..] == b;
    if keep { assert ([x] + a)[1..] == a; } else { assert [] + a == a; }
  }
}
