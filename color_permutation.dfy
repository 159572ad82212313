/**
 * `permute_colors`: for each of the 720 orderings of the colours 1..6, relabel the
 * flattened cube so that the k-th distinct colour met in scan order gets the
 * ordering's k-th entry.
 */
module ColorPermutation {

  import opened Seqs
  import opened Cube
  import opened Permutations

  /** The number of standard colour symbols. */
  const LabelCount: nat := 6

  /** The standard colour symbols, 1 to 6. */
  const Colors: seq<int> := seq(LabelCount, i => i + 1)

  /** `list(itertools.permutations([1, 2, 3, 4, 5, 6]))`. */
  const ColorPermutations: seq<seq<int>> := Permute(Colors)

  /** The distinct elements of s in order of first appearance. */
  function Distinct<T(==,!new)>(s: seq<T>): (d: seq<T>)
    ensures NoDuplicates(d)
    ensures forall i :: 0 <= i < |s| ==> s[i] in d
  {
    if s == [] then []
    else
      var d := Distinct(s[..|s| - 1]);
      var x := s[|s| - 1];
      if x in d then d else d + [x]
  }

  /** A colour is among the distinct colours exactly when it occurs. */
  lemma {:induction false} DistinctMembers<T(!new)>(s: seq<T>, x: T)
    ensures x in Distinct(s) <==> x in s
  {
    if s != [] {
      var init := s[..|s| - 1];
      DistinctMembers(init, x);
      assert s == init + [s[|s| - 1]];
      if x in init {
        var i :| 0 <= i < |init| && init[i] == x;
        assert s[i] == x;
      }
    }
  }

  /** Position of the first x in d. */
  function IndexOf<T(==,!new)>(d: seq<T>, x: T): (r: nat)
    requires x in d
    ensures r < |d| && d[r] == x
    ensures forall j :: 0 <= j < r ==> d[j] != x
  {
    if d[0] == x then 0 else 1 + IndexOf(d[1..], x)
  }

  /**
   * One relabelling: position i gets the entry of perm at the rank of s[i] among
   * the distinct colours in order of first appearance.
   */
  function Relabel<T(==,!new)>(s: seq<T>, perm: seq<int>): (r: seq<int>)
    requires |Distinct(s)| <= |perm|
    ensures |r| == |s|
    ensures forall i, k :: 0 <= i < |s| && 0 <= k < |Distinct(s)| && Distinct(s)[k] == s[i] ==> r[i] == perm[k]
  {
    seq(|s|, i requires 0 <= i < |s| => perm[IndexOf(Distinct(s), s[i])])
  }

  /** There are 6! = 720 colour orderings. */
  lemma ColorPermutationsLength()
    ensures |ColorPermutations| == 720
  {
    PermuteLength(Colors);
    assert Fact(6) == 720;
  }

  /** Every colour ordering holds each of the six colours once. */
  lemma ColorPermutationMember(p: seq<int>)
    requires p in ColorPermutations
    ensures |p| == LabelCount && multiset(p) == multiset(Colors)
  {
    PermuteSound(Colors, p);
    assert |multiset(p)| == |multiset(Colors)|;
  }

  /** Facts about the 720 colour orderings. */
  lemma ColorPermutationsFacts()
    ensures |ColorPermutations| == 720
    ensures forall p :: p in ColorPermutations ==> |p| == LabelCount
  {
    ColorPermutationsLength();
    forall p | p in ColorPermutations ensures |p| == LabelCount {
      ColorPermutationMember(p);
    }
  }

  /** Each colour ordering uses every label from 1 to 6 exactly once. */
  lemma ColorPermutationIsOrdering(p: seq<int>)
    requires p in ColorPermutations
    ensures |p| == LabelCount && NoDuplicates(p)
    ensures forall i :: 0 <= i < |p| ==> 1 <= p[i] <= LabelCount
  {
    ColorPermutationMember(p);
    SameElementsNoDuplicates(Colors, p);
    forall i | 0 <= i < |p| ensures 1 <= p[i] <= LabelCount {
      assert p[i] in multiset(Colors);
    }
  }

  /** The first colour ordering keeps the labels in order. */
  lemma FirstColorPermutation()
    ensures |ColorPermutations| > 0 && ColorPermutations[0] == [1, 2, 3, 4, 5, 6]
  {
    PermuteFirst(Colors);
    assert Colors == [1, 2, 3, 4, 5, 6];
  }

  /** The list `permute_colors` returns for a cube with at most six colours. */
  function Recolorings<T(==,!new)>(s: seq<T>): (r: seq<seq<int>>)
    requires |Distinct(s)| <= LabelCount
    ensures |r| == 720
    ensures forall q :: 0 <= q < 720 ==> |r[q]| == |s|
  {
    ColorPermutationsFacts();
    seq(720, q requires 0 <= q < 720 => Relabel(s, ColorPermutations[q]))
  }

  /** Extending a list by one element extends its distinct elements by at most that element. */
  lemma DistinctSnoc<T(!new)>(s: seq<T>, x: T)
    ensures Distinct(s + [x]) == if x in Distinct(s) then Distinct(s) else Distinct(s) + [x]
  {
    assert (s + [x])[..|s|] == s;
  }

  /** The distinct elements of a prefix are a prefix of the distinct elements. */
  lemma {:induction false} DistinctPrefix<T(!new)>(s: seq<T>, i: nat)
    requires i <= |s|
    ensures Distinct(s[..i]) <= Distinct(s)
    decreases |s| - i
  {
    if i < |s| {
      DistinctPrefix(s, i + 1);
      assert s[..i + 1] == s[..i] + [s[i]];
      DistinctSnoc(s[..i], s[i]);
    } else {
      assert s[..i] == s;
    }
  }

  /** The first position of x does not change when more elements follow. */
  lemma IndexOfPrefix<T(!new)>(d: seq<T>, e: seq<T>, x: T)
    requires x in d && d <= e
    ensures x in e && IndexOf(e, x) == IndexOf(d, x)
  {
    var r := IndexOf(d, x);
    assert e[r] == x;
    var r' := IndexOf(e, x);
    assert r' <= r;
    assert d[r'] == e[r'];
  }

  /** A new element appended to d sits at the end. */
  lemma IndexOfLast<T(!new)>(d: seq<T>, x: T)
    requires x !in d
    ensures x in d + [x] && IndexOf(d + [x], x) == |d|
  {
    var e := d + [x];
    assert e[|d|] == x;
    assert forall j :: 0 <= j < |d| ==> e[j] == d[j];
  }

  /** Position i of a relabelling, spelled out. */
  lemma RelabelAt<T(!new)>(s: seq<T>, perm: seq<int>, i: nat)
    requires |Distinct(s)| <= |perm| && i < |s|
    ensures s[i] in Distinct(s)
    ensures Relabel(s, perm)[i] == perm[IndexOf(Distinct(s), s[i])]
  {
  }

  /** The dictionary binds exactly the colours met so far, each to the entry of perm at its rank. */
  predicate Binds<T(==,!new)>(m: map<T, int>, distinct: seq<T>, perm: seq<int>) {
    && |distinct| <= |perm|
    && (forall x :: x in distinct ==> x in m)
    && (forall x :: x in m ==> x in distinct && m[x] == perm[IndexOf(distinct, x)])
  }

  /** The first i labels are those of the first i stickers. */
  predicate Labelled<T(==,!new)>(flat: seq<T>, i: nat, out: seq<int>, distinct: seq<T>, perm: seq<int>)
    requires |distinct| <= |perm|
  {
    |out| == i <= |flat|
    && forall k :: 0 <= k < i ==> flat[k] in distinct && out[k] == perm[IndexOf(distinct, flat[k])]
  }

  /** Binding a new colour to the next entry of perm. */
  lemma BindNew<T(!new)>(m: map<T, int>, distinct: seq<T>, perm: seq<int>, color: T)
    requires Binds(m, distinct, perm) && color !in distinct && |distinct| < |perm|
    ensures Binds(m[color := perm[|distinct|]], distinct + [color], perm)
  {
    var extended := distinct + [color];
    forall x | x in distinct ensures x in extended && IndexOf(extended, x) == IndexOf(distinct, x) {
      IndexOfPrefix(distinct, extended, x);
    }
    IndexOfLast(distinct, color);
    var m' := m[color := perm[|distinct|]];
    forall x | x in m' ensures m'[x] == perm[IndexOf(extended, x)] {
      if x != color {
        assert x in m;
      }
    }
  }

  /** Labelling one more sticker, possibly after meeting new colours. */
  lemma LabelledExtend<T(!new)>(flat: seq<T>, i: nat, out: seq<int>, distinct: seq<T>, distinct': seq<T>, perm: seq<int>, v: int)
    requires |distinct'| <= |perm| && distinct <= distinct' && Labelled(flat, i, out, distinct, perm)
    requires i < |flat| && flat[i] in distinct' && v == perm[IndexOf(distinct', flat[i])]
    ensures Labelled(flat, i + 1, out + [v], distinct', perm)
  {
    forall k | 0 <= k < i ensures flat[k] in distinct' && (out + [v])[k] == perm[IndexOf(distinct', flat[k])] {
      IndexOfPrefix(distinct, distinct', flat[k]);
    }
  }

  /**
   * One pass of permute_colors' inner loop: scan the flattened cube with a
   * dictionary from cube colour to standard colour and a counter of the colours
   * seen so far. A colour beyond the end of the ordering is Python's IndexError;
   * the model returns None there.
   */
  method RelabelScan<T(==,!new)>(flattenedSettingList: seq<T>, permutation: seq<int>) returns (r: Option<seq<int>>)
    ensures r.None? <==> |Distinct(flattenedSettingList)| > |permutation|
    ensures r.Some? ==> |Distinct(flattenedSettingList)| <= |permutation|
                        && r.value == Relabel(flattenedSettingList, permutation)
  {
    var mapOfCubeColorToStandardizedColors: map<T, int> := map[];
    var colorPermutationIndex := 0;
    var newCubePermutation: seq<int> := [];
    ghost var distinct: seq<T> := [];
    for i := 0 to |flattenedSettingList|
      invariant distinct == Distinct(flattenedSettingList[..i])
      invariant colorPermutationIndex == |distinct|
      invariant Binds(mapOfCubeColorToStandardizedColors, distinct, permutation)
      invariant Labelled(flattenedSettingList, i, newCubePermutation, distinct, permutation)
    {
      var color := flattenedSettingList[i];
      ghost var previous := distinct;
      assert flattenedSettingList[..i + 1] == flattenedSettingList[..i] + [color];
      DistinctSnoc(flattenedSettingList[..i], color);
      if color !in mapOfCubeColorToStandardizedColors {
        if colorPermutationIndex >= |permutation| {
          DistinctPrefix(flattenedSettingList, i + 1);
          return None;
        }
        BindNew(mapOfCubeColorToStandardizedColors, distinct, permutation, color);
        mapOfCubeColorToStandardizedColors :=
          mapOfCubeColorToStandardizedColors[color := permutation[colorPermutationIndex]];
        colorPermutationIndex := colorPermutationIndex + 1;
        distinct := distinct + [color];
      }
      LabelledExtend(flattenedSettingList, i, newCubePermutation, previous, distinct, permutation,
        mapOfCubeColorToStandardizedColors[color]);
      newCubePermutation := newCubePermutation + [mapOfCubeColorToStandardizedColors[color]];
    }
    assert flattenedSettingList[..|flattenedSettingList|] == flattenedSettingList;
    var relabelled := Relabel(flattenedSettingList, permutation);
    forall k | 0 <= k < |flattenedSettingList| ensures newCubePermutation[k] == relabelled[k] {
      RelabelAt(flattenedSettingList, permutation, k);
    }
    r := Some(newCubePermutation);
  }

  /**
   * permute_colors: one relabelling of the flattened cube per colour ordering, in
   * itertools order; None when the cube has more than six colours.
   */
  method PermuteColors<T(==,!new)>(rubiksSetting: CubeState<T>) returns (r: Option<seq<seq<int>>>)
    requires IsCube(rubiksSetting)
    ensures r.None? <==> |Distinct(Flatten(rubiksSetting))| > LabelCount
    ensures r.Some? ==> |Distinct(Flatten(rubiksSetting))| <= LabelCount
                        && r.value == Recolorings(Flatten(rubiksSetting))
  {
    ColorPermutationsFacts();
    var listOfPermutations: seq<seq<int>> := [];
    var colorPermutations := ColorPermutations;
    for q := 0 to |colorPermutations|
      invariant q > 0 ==> |Distinct(Flatten(rubiksSetting))| <= LabelCount
      invariant |listOfPermutations| == q
      invariant forall q' :: 0 <= q' < q ==>
        |Distinct(Flatten(rubiksSetting))| <= LabelCount
        && listOfPermutations[q'] == Relabel(Flatten(rubiksSetting), colorPermutations[q'])
    {
      var permutation := colorPermutations[q];
      assert permutation in ColorPermutations;
      var flattenedSettingList := Flatten(rubiksSetting);
      var newCubePermutation := RelabelScan(flattenedSettingList, permutation);
      if newCubePermutation.None? {
        return None;
      }
      listOfPermutations := listOfPermutations + [newCubePermutation.value];
    }
    r := Some(listOfPermutations);
  }

  /** Equal colours get equal labels and different colours different labels. */
  /** Relabelling by distinct labels keeps the pattern of equal entries. */
  lemma RelabelKeepsPattern<T(!new)>(s: seq<T>, perm: seq<int>)
    requires |Distinct(s)| <= |perm| && NoDuplicates(perm)
    ensures SamePattern(s, Relabel(s, perm))
  {
    forall i, j | 0 <= i < |s| && 0 <= j < |s| ensures s[i] == s[j] <==> Relabel(s, perm)[i] == Relabel(s, perm)[j] {
      RelabelPattern(s, perm, i, j);
    }
  }

  lemma RelabelPattern<T(!new)>(s: seq<T>, perm: seq<int>, i: nat, j: nat)
    requires |Distinct(s)| <= |perm| && NoDuplicates(perm) && i < |s| && j < |s|
    ensures Relabel(s, perm)[i] == Relabel(s, perm)[j] <==> s[i] == s[j]
  {
    RelabelAt(s, perm, i);
    RelabelAt(s, perm, j);
    var d := Distinct(s);
    var a := IndexOf(d, s[i]);
    var b := IndexOf(d, s[j]);
    if s[i] != s[j] {
      assert a != b;
      if a < b {
        assert perm[a] != perm[b];
      } else {
        assert perm[b] != perm[a];
      }
    }
  }

  /** Every label is one of the standard colours 1..6. */
  lemma RelabelValues<T(!new)>(s: seq<T>, perm: seq<int>)
    requires perm in ColorPermutations && |Distinct(s)| <= |perm|
    ensures forall i :: 0 <= i < |s| ==> 1 <= Relabel(s, perm)[i] <= 6
  {
    ColorPermutationMember(perm);
    forall i | 0 <= i < |s| ensures 1 <= Relabel(s, perm)[i] <= 6 {
      RelabelAt(s, perm, i);
      var v := Relabel(s, perm)[i];
      assert v in multiset(perm);
      assert v in multiset(Colors);
    }
  }

  /** The 720 colour orderings are all different. */
  lemma ColorPermutationsDistinct()
    ensures NoDuplicates(ColorPermutations)
  {
    assert NoDuplicates(Colors);
    PermuteDistinct(Colors);
  }

  /**
   * With six colours on the cube, the 720 relabellings are all different: two
   * orderings differ at some rank k, and the sticker where the k-th colour first
   * shows gets different labels from them.
   */
  lemma RecoloringsDistinct<T(!new)>(s: seq<T>)
    requires |Distinct(s)| == LabelCount
    ensures NoDuplicates(Recolorings(s))
  {
    ColorPermutationsDistinct();
    ColorPermutationsFacts();
    var r := Recolorings(s);
    forall a, b | 0 <= a < b < |r| ensures r[a] != r[b] {
      var pa, pb := ColorPermutations[a], ColorPermutations[b];
      assert pa in ColorPermutations && pb in ColorPermutations;
      assert pa != pb;
      var k :| 0 <= k < LabelCount && pa[k] != pb[k];
      var x := Distinct(s)[k];
      DistinctMembers(s, x);
      var i :| 0 <= i < |s| && s[i] == x;
      assert r[a][i] == pa[k] && r[b][i] == pb[k];
    }
  }

  /** f never maps two different elements of s to the same value. */
  predicate InjectiveOn<T(==,!new), U(==)>(f: T -> U, s: seq<T>) {
    forall x, y :: x in s && y in s && f(x) == f(y) ==> x == y
  }

  /** The set of elements of s. */
  function Elements<T(==,!new)>(s: seq<T>): (e: set<T>)
    ensures forall x :: x in e <==> x in s
  {
    set x | x in s
  }

  /** The number of distinct colours is the number of different elements. */
  lemma {:induction false} DistinctCount<T(!new)>(s: seq<T>)
    ensures |Distinct(s)| == |Elements(s)|
  {
    if s != [] {
      var init := s[..|s| - 1];
      var x := s[|s| - 1];
      assert s == init + [x];
      DistinctCount(init);
      DistinctMembers(init, x);
      assert Elements(s) == Elements(init) + {x};
    }
  }

  /** Lists holding the same elements, each as often, have equally many distinct colours. */
  lemma DistinctCountMultiset<T(!new)>(s: seq<T>, t: seq<T>)
    requires multiset(s) == multiset(t)
    ensures |Distinct(s)| == |Distinct(t)|
  {
    DistinctCount(s);
    DistinctCount(t);
    forall x ensures x in Elements(s) <==> x in Elements(t) {
      assert x in s <==> x in multiset(s);
      assert x in t <==> x in multiset(t);
    }
    assert Elements(s) == Elements(t);
  }

  lemma MapSeqSnoc<T, U>(f: T -> U, s: seq<T>, x: T)
    ensures MapSeq(f, s + [x]) == MapSeq(f, s) + [f(x)]
  {
  }

  /** Under a one-to-one recolouring, x's colour occurs among d's colours exactly when x is in d. */
  lemma MapSeqMember<T(!new), U(!new)>(f: T -> U, d: seq<T>, s: seq<T>, x: T)
    requires InjectiveOn(f, s) && x in s && forall y :: y in d ==> y in s
    ensures f(x) in MapSeq(f, d) <==> x in d
  {
    if f(x) in MapSeq(f, d) {
      var k :| 0 <= k < |d| && MapSeq(f, d)[k] == f(x);
      assert d[k] in d;
    }
    if x in d {
      var k :| 0 <= k < |d| && d[k] == x;
      assert MapSeq(f, d)[k] == f(x);
    }
  }

  /** Recolouring one-to-one recolours the distinct colours. */
  lemma {:induction false} DistinctMapSeq<T(!new), U(!new)>(f: T -> U, s: seq<T>)
    requires InjectiveOn(f, s)
    ensures Distinct(MapSeq(f, s)) == MapSeq(f, Distinct(s))
  {
    if s != [] {
      var init := s[..|s| - 1];
      var x := s[|s| - 1];
      assert s == init + [x];
      var d := Distinct(init);
      forall y | y in init ensures y in s { }
      DistinctMapSeq(f, init);
      MapSeqSnoc(f, init, x);
      DistinctSnoc(init, x);
      DistinctSnoc(MapSeq(f, init), f(x));
      forall y | y in d ensures y in s {
        DistinctMembers(init, y);
      }
      MapSeqMember(f, d, s, x);
      MapSeqSnoc(f, d, x);
    }
  }

  /** Recolouring one-to-one keeps the rank of every colour. */
  lemma IndexOfMapSeq<T(!new), U(!new)>(f: T -> U, d: seq<T>, s: seq<T>, x: T)
    requires InjectiveOn(f, s) && x in d && forall y :: y in d ==> y in s
    ensures f(x) in MapSeq(f, d) && IndexOf(MapSeq(f, d), f(x)) == IndexOf(d, x)
  {
    var r := IndexOf(d, x);
    var e := MapSeq(f, d);
    assert e[r] == f(x);
    var r' := IndexOf(e, f(x));
    assert d[r'] in d;
  }

  /**
   * permute_colors does not see which colours the cube uses: a one-to-one
   * recolouring of the stickers gives the same relabelling.
   */
  lemma RelabelRecolor<T(!new), U(!new)>(f: T -> U, s: seq<T>, perm: seq<int>)
    requires InjectiveOn(f, s) && |Distinct(s)| <= |perm|
    ensures |Distinct(MapSeq(f, s))| <= |perm|
    ensures Relabel(MapSeq(f, s), perm) == Relabel(s, perm)
  {
    var d := Distinct(s);
    DistinctMapSeq(f, s);
    forall y | y in d ensures y in s {
      DistinctMembers(s, y);
    }
    var t := MapSeq(f, s);
    forall i | 0 <= i < |s| ensures Relabel(t, perm)[i] == Relabel(s, perm)[i] {
      RelabelAt(s, perm, i);
      RelabelAt(t, perm, i);
      IndexOfMapSeq(f, d, s, s[i]);
    }
  }

  /** A one-to-one recolouring of the stickers leaves all 720 relabellings unchanged. */
  lemma RecoloringsRecolor<T(!new), U(!new)>(f: T -> U, s: seq<T>)
    requires InjectiveOn(f, s) && |Distinct(s)| <= LabelCount
    ensures |Distinct(MapSeq(f, s))| <= LabelCount
    ensures Recolorings(MapSeq(f, s)) == Recolorings(s)
  {
    ColorPermutationsFacts();
    DistinctMapSeq(f, s);
    forall q | 0 <= q < 720 ensures Recolorings(MapSeq(f, s))[q] == Recolorings(s)[q] {
      RelabelRecolor(f, s, ColorPermutations[q]);
    }
  }

  /** Injectivity depends only on which elements occur. */
  lemma InjectiveOnSameElements<T(!new), U(!new)>(f: T -> U, s: seq<T>, t: seq<T>)
    requires InjectiveOn(f, s) && multiset(t) == multiset(s)
    ensures InjectiveOn(f, t)
  {
    forall x | x in t ensures x in s {
      assert x in multiset(t);
    }
  }
}
