/** Sequence helpers shared by the canonicaliser's stages. */
module Seqs {

  datatype Option<T> = None | Some(value: T)

  /** The concatenation of a list of lists, as Python's repeated `extend` builds it. */
  function Concat<X>(xss: seq<seq<X>>): seq<X>
  {
    if xss == [] then [] else Concat(xss[..|xss| - 1]) + xss[|xss| - 1]
  }

  /** One more list of the prefix extends the concatenation by that list. */
  lemma ConcatPrefix<X>(xss: seq<seq<X>>, i: nat)
    requires i < |xss|
    ensures Concat(xss[..i + 1]) == Concat(xss[..i]) + xss[i]
  {
    assert xss[..i + 1][..i] == xss[..i];
  }

  /** Concatenating lists that all have length n gives length |xss| * n. */
  lemma {:induction false} ConcatLength<X>(xss: seq<seq<X>>, n: nat)
    requires forall k :: 0 <= k < |xss| ==> |xss[k]| == n
    ensures |Concat(xss)| == |xss| * n
  {
    if xss != [] {
      var init := xss[..|xss| - 1];
      ConcatLength(init, n);
      calc {
        |Concat(xss)|;
        |Concat(init)| + n;
        |init| * n + n;
        (|init| + 1) * n;
      }
    }
  }

  /** Entry j of the k-th list sits at n * k + j of the concatenation when every list has length n. */
  lemma {:induction false} ConcatAt<X>(xss: seq<seq<X>>, n: nat, k: nat, j: nat)
    requires forall i :: 0 <= i < |xss| ==> |xss[i]| == n
    requires k < |xss| && j < n
    ensures n * k + j < |Concat(xss)| && Concat(xss)[n * k + j] == xss[k][j]
  {
    var init := xss[..|xss| - 1];
    ConcatLength(init, n);
    ConcatLength(xss, n);
    if k < |init| {
      ConcatAt(init, n, k, j);
      assert init[k] == xss[k];
    } else {
      assert n * k == |init| * n;
    }
  }

  /** An element of the concatenation is an element of one of the lists, and conversely. */
  lemma {:induction false} InConcat<X>(xss: seq<seq<X>>, x: X)
    ensures x in Concat(xss) <==> exists k :: 0 <= k < |xss| && x in xss[k]
  {
    if xss != [] {
      var init := xss[..|xss| - 1];
      InConcat(init, x);
      if x in Concat(xss) && x !in xss[|xss| - 1] {
        var k :| 0 <= k < |init| && x in init[k];
        assert x in xss[k];
      }
      if exists k :: 0 <= k < |xss| && x in xss[k] {
        var k :| 0 <= k < |xss| && x in xss[k];
        if k < |init| {
          assert x in init[k];
        }
      }
    }
  }

  predicate NoDuplicates<X(==)>(s: seq<X>) {
    forall i, j :: 0 <= i < j < |s| ==> s[i] != s[j]
  }

  /** a and b repeat themselves at the same places: equal entries in one exactly where equal entries in the other. */
  predicate SamePattern<X(==), Y(==)>(a: seq<X>, b: seq<Y>) {
    |a| == |b| && forall i, j :: 0 <= i < |a| && 0 <= j < |a| ==> (a[i] == a[j] <==> b[i] == b[j])
  }

  lemma SamePatternSymmetric<X, Y>(a: seq<X>, b: seq<Y>)
    requires SamePattern(a, b)
    ensures SamePattern(b, a)
  {
  }

  lemma SamePatternTransitive<X, Y, Z>(a: seq<X>, b: seq<Y>, c: seq<Z>)
    requires SamePattern(a, b) && SamePattern(b, c)
    ensures SamePattern(a, c)
  {
  }

  /** Six entries that differ pairwise. */
  lemma NoDuplicatesSix<X>(s: seq<X>)
    requires |s| == 6
    requires s[0] != s[1] && s[0] != s[2] && s[0] != s[3] && s[0] != s[4] && s[0] != s[5]
    requires s[1] != s[2] && s[1] != s[3] && s[1] != s[4] && s[1] != s[5]
    requires s[2] != s[3] && s[2] != s[4] && s[2] != s[5]
    requires s[3] != s[4] && s[3] != s[5] && s[4] != s[5]
    ensures NoDuplicates(s)
  {
  }

  /** Joining two duplicate-free lists with no element in common. */
  lemma NoDuplicatesAppend<X>(a: seq<X>, b: seq<X>)
    requires NoDuplicates(a) && NoDuplicates(b)
    requires forall x :: x in a ==> x !in b
    ensures NoDuplicates(a + b)
  {
    var ab := a + b;
    forall i, j | 0 <= i < j < |ab| ensures ab[i] != ab[j] {
      if i < |a| && |a| <= j {
        assert ab[i] in a && ab[j] == b[j - |a|];
      } else if |a| <= i {
        assert ab[i] == b[i - |a|] && ab[j] == b[j - |a|];
      }
    }
  }

  /** In a list without duplicates every element occurs at most once. */
  lemma {:induction false} NoDuplicatesCount<X>(s: seq<X>, x: X)
    requires NoDuplicates(s)
    ensures multiset(s)[x] <= 1
  {
    if s != [] {
      var rest := s[1..];
      assert s == [s[0]] + rest;
      forall i, j | 0 <= i < j < |rest| ensures rest[i] != rest[j] {
        assert rest[i] == s[i + 1] && rest[j] == s[j + 1];
      }
      NoDuplicatesCount(rest, x);
    }
  }

  /** A reordering of a list without duplicates has none either. */
  lemma SameElementsNoDuplicates<X>(s: seq<X>, t: seq<X>)
    requires NoDuplicates(s) && multiset(t) == multiset(s)
    ensures NoDuplicates(t)
  {
    forall i, j | 0 <= i < j < |t| ensures t[i] != t[j] {
      if t[i] == t[j] {
        assert t == t[..j] + [t[j]] + t[j + 1..];
        assert t[..j][i] == t[i];
        NoDuplicatesCount(s, t[i]);
      }
    }
  }

  /** `src` names, for every position of t, a distinct position of s holding the same element. */
  ghost predicate IsReindexing<X>(s: seq<X>, t: seq<X>, src: seq<nat>) {
    |src| == |t| == |s|
    && (forall p :: 0 <= p < |t| ==> src[p] < |s| && t[p] == s[src[p]])
    && NoDuplicates(src)
  }

  /** Removing position q and shifting the later positions down by one. */
  function DropIndex(src: seq<nat>, q: nat): (r: seq<nat>)
    ensures |r| == |src|
  {
    seq(|src|, p requires 0 <= p < |src| => if src[p] > q then src[p] - 1 else src[p])
  }

  /** A sequence read through a one-to-one reindexing holds the same elements. */
  lemma {:induction false} ReindexMultiset<X>(s: seq<X>, t: seq<X>, src: seq<nat>)
    requires IsReindexing(s, t, src)
    ensures multiset(t) == multiset(s)
    decreases |t|
  {
    if |t| > 0 {
      var p := |t| - 1;
      var q := src[p];
      var s' := s[..q] + s[q + 1..];
      var t' := t[..p];
      var src' := DropIndex(src[..p], q);
      forall i | 0 <= i < |t'| ensures src'[i] < |s'| && t'[i] == s'[src'[i]] {
        assert src[i] != q;
      }
      forall i, j | 0 <= i < j < |src'| ensures src'[i] != src'[j] {
        assert src[i] != src[j] && src[i] != q && src[j] != q;
      }
      ReindexMultiset(s', t', src');
      assert t == t' + [s[q]];
      assert s == s[..q] + [s[q]] + s[q + 1..];
    }
  }
}
