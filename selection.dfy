/**
 * The firmware includes or drops each device family's calls with #ifdef,
 * leaving the remaining calls in their written order. `Keep` is that
 * selection over any fixed, ordered list of calls.
 */
module Selection {

  /** The elements of `s` that satisfy `p`, in their order. */
  function Keep<T>(s: seq<T>, p: T -> bool): seq<T>
    decreases |s|
  {
    if s == [] then []
    else
      var last := s[|s| - 1];
      Keep(s[..|s| - 1], p) + (if p(last) then [last] else [])
  }

  lemma KeepSnoc<T>(s: seq<T>, x: T, p: T -> bool)
    ensures Keep(s + [x], p) == Keep(s, p) + (if p(x) then [x] else [])
  {
    assert (s + [x])[..|s|] == s;
  }

  predicate Increasing<T>(s: seq<T>, rank: T -> nat)
  {
    forall i, j :: 0 <= i < j < |s| ==> rank(s[i]) < rank(s[j])
  }

  /** Selection keeps exactly the elements that pass, and keeps them in order. */
  lemma {:induction false} KeepIsOrderedSubsequence<T>(s: seq<T>, p: T -> bool, rank: T -> nat)
    ensures forall x :: x in Keep(s, p) ==> x in s && p(x)
    ensures forall x :: x in s && p(x) ==> x in Keep(s, p)
    ensures Increasing(s, rank) ==> Increasing(Keep(s, p), rank)
    decreases |s|
  {
    if s != [] {
      var n := |s| - 1;
      var prefix := s[..n];
      assert s == prefix + [s[n]];
      KeepIsOrderedSubsequence(prefix, p, rank);
      KeepSnoc(prefix, s[n], p);
      if Increasing(s, rank) {
        assert Increasing(prefix, rank) by {
          forall i, j | 0 <= i < j < |prefix| ensures rank(prefix[i]) < rank(prefix[j]) {
            assert prefix[i] == s[i] && prefix[j] == s[j];
          }
        }
        forall y | y in Keep(prefix, p) ensures rank(y) < rank(s[n]) {
          assert y in prefix;
          var i :| 0 <= i < |prefix| && prefix[i] == y;
          assert s[i] == y;
        }
      }
    }
  }

  /** Selecting from a concatenation selects from each part. */
  lemma {:induction false} KeepAppend<T>(a: seq<T>, b: seq<T>, p: T -> bool)
    ensures Keep(a + b, p) == Keep(a, p) + Keep(b, p)
    decreases |b|
  {
    if b == [] {
      assert a + b == a;
    } else {
      var n := |b| - 1;
      assert a + b == (a + b[..n]) + [b[n]];
      assert b == b[..n] + [b[n]];
      KeepSnoc(a + b[..n], b[n], p);
      KeepSnoc(b[..n], b[n], p);
      KeepAppend(a, b[..n], p);
    }
  }

  /** A list whose elements all pass, or all fail, is kept whole, or dropped whole. */
  lemma {:induction false} KeepUniform<T>(s: seq<T>, p: T -> bool, on: bool)
    requires forall i :: 0 <= i < |s| ==> p(s[i]) == on
    ensures Keep(s, p) == if on then s else []
    decreases |s|
  {
    if s != [] {
      var n := |s| - 1;
      assert s == s[..n] + [s[n]];
      KeepUniform(s[..n], p, on);
      KeepSnoc(s[..n], s[n], p);
    }
  }

  lemma AppendAssoc<T>(a: seq<T>, b: seq<T>, c: seq<T>)
    ensures a + (b + c) == a + b + c
  {
  }
}
