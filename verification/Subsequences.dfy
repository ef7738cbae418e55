/** Subsequences: what is left of a sequence when some of its elements are dropped. */
module Subsequences {

  predicate Subseq<T(==)>(a: seq<T>, b: seq<T>) {
    || a == []
    || (b != [] && Subseq(a, b[..|b| - 1]))
    || (b != [] && a[|a| - 1] == b[|b| - 1] && Subseq(a[..|a| - 1], b[..|b| - 1]))
  }

  lemma {:induction false} SubseqRefl<T>(a: seq<T>)
    ensures Subseq(a, a)
  {
    if a != [] {
      SubseqRefl(a[..|a| - 1]);
    }
  }

  lemma {:induction false} SubseqAppend<T>(a: seq<T>, b: seq<T>, t: seq<T>)
    requires Subseq(a, b)
    ensures Subseq(a + t, b + t)
  {
    if t == [] {
      assert a + t == a && b + t == b;
    } else {
      var k := |t| - 1;
      SubseqAppend(a, b, t[..k]);
      assert (a + t)[..|a + t| - 1] == a + t[..k];
      assert (b + t)[..|b + t| - 1] == b + t[..k];
    }
  }

  lemma {:induction false} SubseqLonger<T>(a: seq<T>, b: seq<T>, t: seq<T>)
    requires Subseq(a, b)
    ensures Subseq(a, b + t)
  {
    if t == [] {
      assert b + t == b;
    } else {
      SubseqLonger(a, b, t[..|t| - 1]);
      assert (b + t)[..|b + t| - 1] == b + t[..|t| - 1];
    }
  }

  lemma {:induction false} SubseqTrans<T>(a: seq<T>, b: seq<T>, c: seq<T>)
    requires Subseq(a, b) && Subseq(b, c)
    ensures Subseq(a, c)
  {
    if a != [] && b != [] {
      var c' := c[..|c| - 1];
      if Subseq(b, c') {
        SubseqTrans(a, b, c');
      } else if Subseq(a, b[..|b| - 1]) {
        SubseqTrans(a, b[..|b| - 1], c');
      } else {
        SubseqTrans(a[..|a| - 1], b[..|b| - 1], c');
      }
    }
  }

  /** Dropping a stretch in the middle. */
  lemma SubseqCut<T>(d: seq<T>, p: seq<T>, k: nat)
    requires k <= |p|
    ensures Subseq(d + p[k..], d + p)
  {
    SubseqRefl(d);
    SubseqLonger(d, d, p[..k]);
    SubseqAppend(d, d + p[..k], p[k..]);
    assert d + p[..k] + p[k..] == d + p;
  }
}
