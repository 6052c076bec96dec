/** Weighted sums over sequences. Counting, byte totals and conservation arguments are all
    instances of `Total` with a different weight. */
module Totals {

  function Total<T>(s: seq<T>, w: T -> nat): nat {
    if s == [] then 0 else Total(s[..|s| - 1], w) + w(s[|s| - 1])
  }

  lemma TotalSnoc<T>(s: seq<T>, x: T, w: T -> nat)
    ensures Total(s + [x], w) == Total(s, w) + w(x)
  {
    assert (s + [x])[..|s|] == s;
  }

  lemma {:induction false} TotalConcat<T>(a: seq<T>, b: seq<T>, w: T -> nat)
    ensures Total(a + b, w) == Total(a, w) + Total(b, w)
  {
    if b == [] {
      assert a + b == a;
    } else {
      var front, last := b[..|b| - 1], b[|b| - 1];
      assert a + b == (a + front) + [last];
      TotalSnoc(a + front, last, w);
      TotalConcat(a, front, w);
    }
  }

  /** The element at `k` contributes its own weight. */
  lemma TotalRemove<T>(s: seq<T>, k: nat, w: T -> nat)
    requires k < |s|
    ensures Total(s, w) == Total(s[..k] + s[k + 1..], w) + w(s[k])
  {
    var a, b := s[..k], s[k + 1..];
    assert s == (a + [s[k]]) + b;
    TotalConcat(a + [s[k]], b, w);
    TotalSnoc(a, s[k], w);
    TotalConcat(a, b, w);
  }

  lemma RemoveFromMultiset<T>(s: seq<T>, k: nat)
    requires k < |s|
    ensures multiset(s[..k] + s[k + 1..]) == multiset(s) - multiset{s[k]}
  {
    assert s == s[..k] + ([s[k]] + s[k + 1..]);
  }

  /** A total does not depend on the order of the sequence. */
  lemma {:induction false} TotalPermutation<T>(a: seq<T>, b: seq<T>, w: T -> nat)
    requires multiset(a) == multiset(b)
    ensures Total(a, w) == Total(b, w)
    decreases |b|
  {
    if b == [] {
      assert |multiset(a)| == |a|;
    } else {
      var front, last := b[..|b| - 1], b[|b| - 1];
      assert b == front + [last];
      assert last in multiset(a);
      var k :| 0 <= k < |a| && a[k] == last;
      var rest := a[..k] + a[k + 1..];
      RemoveFromMultiset(a, k);
      TotalPermutation(rest, front, w);
      TotalRemove(a, k, w);
    }
  }

  lemma {:induction false} TotalBounds<T>(s: seq<T>, w: T -> nat, k: nat)
    requires k < |s|
    ensures w(s[k]) <= Total(s, w)
  {
    TotalRemove(s, k, w);
  }

  lemma {:induction false} TotalZero<T>(s: seq<T>, w: T -> nat)
    requires forall x :: x in s ==> w(x) == 0
    ensures Total(s, w) == 0
  {
    if s != [] {
      TotalZero(s[..|s| - 1], w);
    }
  }

  lemma {:induction false} TotalMonotone<T>(s: seq<T>, v: T -> nat, w: T -> nat)
    requires forall x :: x in s ==> v(x) <= w(x)
    ensures Total(s, v) <= Total(s, w)
  {
    if s != [] {
      TotalMonotone(s[..|s| - 1], v, w);
    }
  }

  /** Updating one position changes a total by the difference of the weights there. */
  lemma TotalUpdate<T>(s: seq<T>, k: nat, x: T, w: T -> nat)
    requires k < |s|
    ensures Total(s[k := x], w) + w(s[k]) == Total(s, w) + w(x)
  {
    var t := s[k := x];
    TotalRemove(s, k, w);
    TotalRemove(t, k, w);
    assert t[..k] == s[..k] && t[k + 1..] == s[k + 1..];
  }

  /** The weight that counts elements. */
  function One<T>(): T -> nat {
    (x: T) => 1
  }

  lemma {:induction false} UnitTotal<T>(s: seq<T>)
    ensures Total(s, One()) == |s|
  {
    if s != [] {
      UnitTotal(s[..|s| - 1]);
    }
  }
}
