/** Stable filtering of sequences, the model of JavaScript's `Array.prototype.filter`,
    with the facts that pin it down: it keeps exactly the elements the predicate accepts,
    each as often as it occurs, in their original order. */
module Sequences {

  /** The elements of `s` that `keep` accepts, in the order they occur in `s`. */
  function Retain<T>(s: seq<T>, keep: T -> bool): (r: seq<T>)
    ensures |r| <= |s|
    ensures forall i :: 0 <= i < |r| ==> keep(r[i])
  {
    if s == [] then []
    else if keep(s[0]) then [s[0]] + Retain(s[1..], keep)
    else Retain(s[1..], keep)
  }

  /** `a` is obtained from `b` by deleting elements, without reordering the rest. */
  predicate IsSubsequence<T(==)>(a: seq<T>, b: seq<T>)
    decreases |b|
  {
    a == [] ||
    (b != [] && ((a[0] == b[0] && IsSubsequence(a[1..], b[1..])) || IsSubsequence(a, b[1..])))
  }

  /** Filtering never reorders: the result is a subsequence of the input. */
  lemma {:induction false} RetainIsSubsequence<T>(s: seq<T>, keep: T -> bool)
    ensures IsSubsequence(Retain(s, keep), s)
  {
    if s != [] {
      RetainIsSubsequence(s[1..], keep);
      var r := Retain(s, keep);
      if keep(s[0]) {
        assert r[0] == s[0] && r[1..] == Retain(s[1..], keep);
      }
    }
  }

  /** Filtering keeps every accepted element as often as it occurs, and nothing else. */
  lemma {:induction false} RetainCount<T>(s: seq<T>, keep: T -> bool, x: T)
    ensures multiset(Retain(s, keep))[x] == if keep(x) then multiset(s)[x] else 0
  {
    if s != [] {
      RetainCount(s[1..], keep, x);
      assert s == [s[0]] + s[1..];
    }
  }

  /** Membership in the filtered sequence, both directions. */
  lemma {:induction false} RetainMember<T>(s: seq<T>, keep: T -> bool, x: T)
    ensures x in Retain(s, keep) <==> x in s && keep(x)
  {
    RetainCount(s, keep, x);
  }

  /** A subsequence holds no element more often than the sequence it comes from. */
  lemma {:induction false} SubsequenceMultiset<T>(a: seq<T>, b: seq<T>)
    requires IsSubsequence(a, b)
    ensures multiset(a) <= multiset(b)
    decreases |b|
  {
    if a != [] {
      assert b == [b[0]] + b[1..];
      if a[0] == b[0] && IsSubsequence(a[1..], b[1..]) {
        SubsequenceMultiset(a[1..], b[1..]);
        assert a == [a[0]] + a[1..];
      } else {
        SubsequenceMultiset(a, b[1..]);
      }
    }
  }

  /** `Retain` is the only order-preserving selection from `s` that holds every accepted
      element as often as `s` does and no rejected one. */
  lemma {:induction false} RetainUnique<T>(s: seq<T>, keep: T -> bool, r: seq<T>)
    requires IsSubsequence(r, s)
    requires forall x :: multiset(r)[x] == if keep(x) then multiset(s)[x] else 0
    ensures r == Retain(s, keep)
  {
    if s == [] {
      assert r == [];
    } else {
      var w, rest := s[0], s[1..];
      assert s == [w] + rest;
      if keep(w) {
        assert multiset(r)[w] > 0;
        if r[0] == w && IsSubsequence(r[1..], rest) {
          assert r == [w] + r[1..];
          forall x ensures multiset(r[1..])[x] == if keep(x) then multiset(rest)[x] else 0 {
            assert multiset(r)[x] == multiset([w])[x] + multiset(r[1..])[x];
          }
          RetainUnique(rest, keep, r[1..]);
        } else {
          SubsequenceMultiset(r, rest);
          assert false;
        }
      } else {
        if r != [] {
          assert r[0] in multiset(r);
        }
        assert IsSubsequence(r, rest);
        RetainUnique(rest, keep, r);
      }
    }
  }

  /** A predicate that accepts everything in `s` leaves `s` unchanged. */
  lemma {:induction false} RetainAll<T>(s: seq<T>, keep: T -> bool)
    requires forall i :: 0 <= i < |s| ==> keep(s[i])
    ensures Retain(s, keep) == s
  {
    if s != [] {
      RetainAll(s[1..], keep);
    }
  }

  /** A predicate that accepts nothing empties the sequence. */
  lemma {:induction false} RetainNone<T>(s: seq<T>, keep: T -> bool)
    requires forall i :: 0 <= i < |s| ==> !keep(s[i])
    ensures Retain(s, keep) == []
  {
    if s != [] {
      RetainNone(s[1..], keep);
    }
  }

  /** Filtering by `p` and then by `q` is filtering once by their conjunction `pq`. */
  lemma {:induction false} RetainCompose<T>(s: seq<T>, p: T -> bool, q: T -> bool, pq: T -> bool)
    requires forall x :: pq(x) == (p(x) && q(x))
    ensures Retain(Retain(s, p), q) == Retain(s, pq)
  {
    if s != [] {
      RetainCompose(s[1..], p, q, pq);
    }
  }

}
