/**
 * `itertools.permutations` of a list, in the order Python yields them: the
 * element at index 0 first, followed by every ordering of the rest, then the
 * element at index 1 first, and so on.
 */
module Permutations {

  import opened Seqs

  function Fact(n: nat): (r: nat)
    ensures r >= 1
  {
    if n == 0 then 1 else n * Fact(n - 1)
  }

  /** s without its element at index i. */
  function Remove<X>(s: seq<X>, i: nat): (r: seq<X>)
    requires i < |s|
    ensures |r| == |s| - 1
  {
    s[..i] + s[i + 1..]
  }

  /** Every list of ps with x put in front. */
  function Prepend<X>(x: X, ps: seq<seq<X>>): (r: seq<seq<X>>)
    ensures |r| == |ps|
    ensures forall k :: 0 <= k < |ps| ==> r[k] == [x] + ps[k]
  {
    seq(|ps|, k requires 0 <= k < |ps| => [x] + ps[k])
  }

  /** All orderings of s, in itertools order. */
  function Permute<X>(s: seq<X>): (r: seq<seq<X>>)
    ensures |r| > 0
    ensures forall p :: p in r ==> |p| == |s|
    decreases |s|, 1, 0
  {
    if |s| == 0 then [[]] else PermuteFrom(s, 0)
  }

  /** The orderings of s whose first element is taken from index i or later. */
  function PermuteFrom<X>(s: seq<X>, i: nat): (r: seq<seq<X>>)
    requires i <= |s|
    ensures i < |s| ==> |r| > 0
    ensures forall p :: p in r ==> |p| == |s|
    decreases |s|, 0, |s| - i
  {
    if i == |s| then [] else Prepend(s[i], Permute(Remove(s, i))) + PermuteFrom(s, i + 1)
  }

  /** There are n! orderings of n elements. */
  lemma {:induction false} PermuteLength<X>(s: seq<X>)
    ensures |Permute(s)| == Fact(|s|)
    decreases |s|, 1, 0
  {
    if |s| > 0 {
      PermuteFromLength(s, 0);
    }
  }

  lemma {:induction false} PermuteFromLength<X>(s: seq<X>, i: nat)
    requires 0 < |s| && i <= |s|
    ensures |PermuteFrom(s, i)| == (|s| - i) * Fact(|s| - 1)
    decreases |s|, 0, |s| - i
  {
    if i < |s| {
      PermuteLength(Remove(s, i));
      PermuteFromLength(s, i + 1);
      MulSucc(|s| - (i + 1), Fact(|s| - 1));
    }
  }

  lemma MulSucc(n: nat, f: nat)
    ensures (n + 1) * f == f + n * f
  {
  }

  /** Putting back the removed element gives the same elements. */
  lemma RemoveMultiset<X>(s: seq<X>, i: nat)
    requires i < |s|
    ensures multiset(s) == multiset(Remove(s, i)) + multiset{s[i]}
  {
    assert s == s[..i] + [s[i]] + s[i + 1..];
  }

  /** Every ordering holds exactly the elements of s. */
  lemma {:induction false} PermuteSound<X>(s: seq<X>, p: seq<X>)
    requires p in Permute(s)
    ensures multiset(p) == multiset(s)
    decreases |s|, 1, 0
  {
    if |s| > 0 {
      PermuteFromSound(s, 0, p);
    }
  }

  lemma {:induction false} PermuteFromSound<X>(s: seq<X>, i: nat, p: seq<X>)
    requires i <= |s| && p in PermuteFrom(s, i)
    ensures multiset(p) == multiset(s)
    decreases |s|, 0, |s| - i
  {
    if i < |s| {
      var block := Prepend(s[i], Permute(Remove(s, i)));
      if p in block {
        var k :| 0 <= k < |block| && block[k] == p;
        var q := Permute(Remove(s, i))[k];
        assert p == [s[i]] + q;
        PermuteSound(Remove(s, i), q);
        RemoveMultiset(s, i);
      } else {
        PermuteFromSound(s, i + 1, p);
      }
    }
  }

  /** Every ordering of the elements of s is produced. */
  lemma {:induction false} PermuteComplete<X>(s: seq<X>, p: seq<X>)
    requires multiset(p) == multiset(s)
    ensures p in Permute(s)
    decreases |s|
  {
    if |s| > 0 {
      assert |p| == |s| by {
        assert |multiset(p)| == |multiset(s)|;
      }
      assert p[0] in multiset(s);
      var i :| 0 <= i < |s| && s[i] == p[0];
      RemoveMultiset(s, i);
      assert p == [p[0]] + p[1..];
      assert multiset(p) == multiset{p[0]} + multiset(p[1..]);
      assert multiset(p[1..]) == multiset(p) - multiset{p[0]};
      assert multiset(Remove(s, i)) == multiset(s) - multiset{s[i]};
      PermuteComplete(Remove(s, i), p[1..]);
      var k :| 0 <= k < |Permute(Remove(s, i))| && Permute(Remove(s, i))[k] == p[1..];
      assert Prepend(s[i], Permute(Remove(s, i)))[k] == p;
      PermuteFromHasBlock(s, 0, i, p);
    }
  }

  /** The block for index j lies inside PermuteFrom(s, i) when i <= j. */
  lemma {:induction false} PermuteFromHasBlock<X>(s: seq<X>, i: nat, j: nat, p: seq<X>)
    requires i <= j < |s| && p in Prepend(s[j], Permute(Remove(s, j)))
    ensures p in PermuteFrom(s, i)
    decreases j - i
  {
    if i < j {
      PermuteFromHasBlock(s, i + 1, j, p);
    }
  }

  /** The first ordering is s itself. */
  lemma {:induction false} PermuteFirst<X>(s: seq<X>)
    ensures |Permute(s)| > 0 && Permute(s)[0] == s
    decreases |s|
  {
    PermuteLength(s);
    if |s| > 0 {
      PermuteFirst(Remove(s, 0));
      assert Remove(s, 0) == s[1..];
      assert PermuteFrom(s, 0)[0] == Prepend(s[0], Permute(s[1..]))[0];
    }
  }

  /** Every ordering taken from index i or later starts with an element at index i or later. */
  lemma {:induction false} PermuteFromHead<X>(s: seq<X>, i: nat, p: seq<X>)
    requires i <= |s|
    ensures p in PermuteFrom(s, i) ==> |p| > 0 && p[0] in s[i..]
    decreases |s| - i
  {
    if i < |s| && p in PermuteFrom(s, i) {
      var block := Prepend(s[i], Permute(Remove(s, i)));
      if p in block {
        var k :| 0 <= k < |block| && block[k] == p;
        assert p[0] == s[i];
      } else {
        PermuteFromHead(s, i + 1, p);
        assert s[i + 1..] == s[i..][1..];
      }
    }
  }

  /** Removing an element keeps a list free of duplicates. */
  lemma RemoveNoDuplicates<X>(s: seq<X>, i: nat)
    requires i < |s| && NoDuplicates(s)
    ensures NoDuplicates(Remove(s, i))
  {
    var r := Remove(s, i);
    forall a, b | 0 <= a < b < |r| ensures r[a] != r[b] {
      var a' := if a < i then a else a + 1;
      var b' := if b < i then b else b + 1;
      assert r[a] == s[a'] && r[b] == s[b'];
    }
  }

  /** Orderings of distinct elements are themselves distinct: each appears once. */
  lemma {:induction false} PermuteDistinct<X>(s: seq<X>)
    requires NoDuplicates(s)
    ensures NoDuplicates(Permute(s))
    decreases |s|, 1, 0
  {
    if |s| > 0 {
      PermuteFromDistinct(s, 0);
    }
  }

  lemma {:induction false} PermuteFromDistinct<X>(s: seq<X>, i: nat)
    requires NoDuplicates(s) && i <= |s|
    ensures NoDuplicates(PermuteFrom(s, i))
    decreases |s|, 0, |s| - i
  {
    if i < |s| {
      var rest := Permute(Remove(s, i));
      var block := Prepend(s[i], rest);
      RemoveNoDuplicates(s, i);
      PermuteDistinct(Remove(s, i));
      forall a, b | 0 <= a < b < |block| ensures block[a] != block[b] {
        assert block[a][1..] == rest[a] && block[b][1..] == rest[b];
      }
      PermuteFromDistinct(s, i + 1);
      forall p | p in block ensures p !in PermuteFrom(s, i + 1) {
        var k :| 0 <= k < |block| && block[k] == p;
        assert p[0] == s[i];
        assert s[i] !in s[i + 1..];
        PermuteFromHead(s, i + 1, p);
      }
      NoDuplicatesAppend(block, PermuteFrom(s, i + 1));
    }
  }
}
