/**
  Sequence helpers for the relay's registry. A JavaScript `Map` iterates its
  keys, and a `Set` its members, in insertion order, so both are modelled as
  duplicate-free sequences; `delete` becomes `Without`.
 */
module Seqs {

  /** No element occurs twice. */
  predicate NoDups<T(==)>(s: seq<T>) {
    forall i, j | 0 <= i < j < |s| :: s[i] != s[j]
  }

  /** `s` with `x` taken out and every other element kept in its place in the order. */
  function Without<T(==)>(s: seq<T>, x: T): (r: seq<T>)
    ensures forall y | y in r :: y in s && y != x
    ensures forall y | y in s && y != x :: y in r
    ensures NoDups(s) ==> NoDups(r)
    ensures x !in s ==> r == s
  {
    if s == [] then []
    else
      var rest := Without(s[1..], x);
      assert NoDups(s) ==> NoDups(s[1..]) && s[0] !in s[1..] by {
        if NoDups(s) {
          forall i, j | 0 <= i < j < |s[1..]| ensures s[1..][i] != s[1..][j] {
            assert s[1..][i] == s[i + 1] && s[1..][j] == s[j + 1];
          }
        }
      }
      assert x !in s ==> [s[0]] + s[1..] == s;
      if s[0] == x then rest else [s[0]] + rest
  }

  /**
    Taking out the element at position `k` of a duplicate-free sequence
    leaves the elements before it and the elements after it, in order.
   */
  lemma {:induction false} WithoutAt<T>(s: seq<T>, x: T, k: nat)
    requires NoDups(s) && k < |s| && s[k] == x
    ensures Without(s, x) == s[..k] + s[k + 1..]
    decreases k
  {
    var tail := s[1..];
    assert NoDups(tail) by {
      forall i, j | 0 <= i < j < |tail| ensures tail[i] != tail[j] {
        assert tail[i] == s[i + 1] && tail[j] == s[j + 1];
      }
    }
    if k == 0 {
      assert x !in tail by {
        forall i | 0 <= i < |tail| ensures tail[i] != x {
          assert tail[i] == s[i + 1];
        }
      }
    } else {
      assert s[0] != x;
      WithoutAt(tail, x, k - 1);
      assert s[..k] == [s[0]] + tail[..k - 1];
      assert s[k + 1..] == tail[k..];
    }
  }

  /** Position `i` of `s` with position `k` cut out is position `i` or `i + 1` of `s`. */
  lemma SkipIndex<T>(s: seq<T>, k: nat, i: nat)
    requires k < |s| && i < |s| - 1
    ensures (s[..k] + s[k + 1..])[i] == s[if i < k then i else i + 1]
  {
  }
}
