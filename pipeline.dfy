/**
 * main: the 4 face rotations, their 6 orientations each, the 720 recolourings
 * of each of those 24 positions, and the least of the 17280 labellings,
 * written out as a string of digits.
 */
module Pipeline {

  import opened Seqs
  import opened Cube
  import opened FaceRotation
  import opened Orientation
  import opened Orbit
  import opened ColorPermutation
  import opened CanonicalForm

  /** The cube shows at most as many colours as there are labels, so permute_colors succeeds. */
  predicate FewColors<T(==,!new)>(c: CubeState<T>)
    requires IsCube(c)
  {
    |Distinct(Flatten(c))| <= LabelCount
  }

  /** Every position shows as many colours as the input. */
  lemma StatesColorCount<T(!new)>(c: CubeState<T>, x: CubeState<T>)
    requires IsCube(c) && x in States(c)
    ensures IsCube(x) && |Distinct(Flatten(x))| == |Distinct(Flatten(c))|
  {
    StatesKeepStickers(c, x);
    DistinctCountMultiset(Flatten(x), Flatten(c));
  }

  /** permute_colors of position i. */
  function StateRecolorings<T(==,!new)>(c: CubeState<T>, i: nat): (r: seq<seq<int>>)
    requires IsCube(c) && FewColors(c) && i < 24
    ensures |r| == 720
  {
    StatesColorCount(c, States(c)[i]);
    Recolorings(Flatten(States(c)[i]))
  }

  /** The candidate labellings, one block of 720 per position. */
  function CandidateBlocks<T(==,!new)>(c: CubeState<T>): (r: seq<seq<seq<int>>>)
    requires IsCube(c) && FewColors(c)
    ensures |r| == 24 && forall i :: 0 <= i < 24 ==> |r[i]| == 720
  {
    seq(24, i requires 0 <= i < 24 => StateRecolorings(c, i))
  }

  /** main's totalSettingsList: all 24 * 720 candidate labellings, in main's order. */
  function Candidates<T(==,!new)>(c: CubeState<T>): (r: seq<seq<int>>)
    requires IsCube(c) && FewColors(c)
    ensures |r| == 24 * 720
  {
    ConcatLength(CandidateBlocks(c), 720);
    Concat(CandidateBlocks(c))
  }

  /** Entry q of block i is position i relabelled by the q-th permutation of the colours. */
  lemma BlockAt<T(!new)>(c: CubeState<T>, i: nat, q: nat)
    requires IsCube(c) && FewColors(c) && i < 24 && q < 720
    ensures |ColorPermutations| == 720 && ColorPermutations[q] in ColorPermutations
    ensures IsCube(States(c)[i]) && |Distinct(Flatten(States(c)[i]))| <= LabelCount
    ensures |ColorPermutations[q]| == LabelCount
    ensures CandidateBlocks(c)[i][q] == Relabel(Flatten(States(c)[i]), ColorPermutations[q])
  {
    StatesColorCount(c, States(c)[i]);
    ColorPermutationsFacts();
  }

  /** Candidate 720 * i + q is position i relabelled by the q-th permutation of the colours. */
  lemma CandidateAt<T(!new)>(c: CubeState<T>, i: nat, q: nat)
    requires IsCube(c) && FewColors(c) && i < 24 && q < 720
    ensures |ColorPermutations| == 720 && ColorPermutations[q] in ColorPermutations
    ensures IsCube(States(c)[i]) && |Distinct(Flatten(States(c)[i]))| <= LabelCount
    ensures |ColorPermutations[q]| == LabelCount
    ensures Candidates(c)[720 * i + q] == Relabel(Flatten(States(c)[i]), ColorPermutations[q])
  {
    BlockAt(c, i, q);
    ConcatAt(CandidateBlocks(c), 720, i, q);
  }

  /** Every candidate is a labelling of the 54 stickers with labels 1 to 6. */
  lemma CandidatesAreLabellings<T(!new)>(c: CubeState<T>)
    requires IsCube(c) && FewColors(c)
    ensures forall n :: 0 <= n < |Candidates(c)| ==> |Candidates(c)[n]| == StickerCount
    ensures forall n, p :: 0 <= n < |Candidates(c)| && 0 <= p < StickerCount ==> 1 <= Candidates(c)[n][p] <= 6
    ensures ExactLength(Candidates(c)) && LongEnough(Candidates(c)) && PositiveEntries(Candidates(c))
  {
    var all := Candidates(c);
    forall n | 0 <= n < |all|
      ensures |all[n]| == StickerCount && forall p :: 0 <= p < StickerCount ==> 1 <= all[n][p] <= 6
    {
      var i, q := n / 720, n % 720;
      assert n == 720 * i + q;
      CandidateAt(c, i, q);
      RelabelValues(Flatten(States(c)[i]), ColorPermutations[q]);
    }
  }

  /** The labelling main settles on. */
  function CanonicalLabels<T(==,!new)>(c: CubeState<T>): (r: seq<int>)
    requires IsCube(c) && FewColors(c)
    ensures r in Candidates(c) && |r| == StickerCount
    ensures forall p :: 0 <= p < |r| ==> 1 <= r[p] <= 6
  {
    CandidatesAreLabellings(c);
    LexMinOf(Candidates(c))
  }

  /** main's labelling comes no later, in lexicographic order, than any candidate. */
  lemma CanonicalIsLeast<T(!new)>(c: CubeState<T>)
    requires IsCube(c) && FewColors(c)
    ensures forall n :: 0 <= n < |Candidates(c)| ==>
      |Candidates(c)[n]| == StickerCount && LexLeq(CanonicalLabels(c), Candidates(c)[n])
  {
    var all := Candidates(c);
    CandidatesAreLabellings(c);
    LexMinOfLeast(all);
    forall n | 0 <= n < |all| ensures LexLeq(CanonicalLabels(c), all[n]) {
      assert Key(all[n]) == all[n];
      assert Key(CanonicalLabels(c)) == CanonicalLabels(c);
    }
  }

  /** A digit as the character str gives for it. */
  function DigitChar(n: int): (ch: char)
    requires 0 <= n <= 9
    ensures '0' <= ch <= '9'
  {
    ('0' as int + n) as char
  }

  /** The value of a digit character. */
  function DigitValue(ch: char): int {
    ch as int - '0' as int
  }

  /** The "".join(str(n) for n in ...) of main's return: one character per single-digit entry. */
  function DigitString(s: seq<int>): (r: string)
    requires forall i :: 0 <= i < |s| ==> 0 <= s[i] <= 9
    ensures |r| == |s|
    ensures forall i :: 0 <= i < |s| ==> r[i] == DigitChar(s[i])
  {
    seq(|s|, i requires 0 <= i < |s| => DigitChar(s[i]))
  }

  /** Reading the digits back gives the labelling: the string loses nothing. */
  lemma DigitStringRoundTrip(s: seq<int>)
    requires forall i :: 0 <= i < |s| ==> 0 <= s[i] <= 9
    ensures forall i :: 0 <= i < |s| ==> DigitValue(DigitString(s)[i]) == s[i]
  {
  }

  /** The string main returns. */
  function CanonicalString<T(==,!new)>(c: CubeState<T>): (r: string)
    requires IsCube(c) && FewColors(c)
    ensures |r| == StickerCount
    ensures forall p :: 0 <= p < |r| ==> '1' <= r[p] <= '6' && DigitValue(r[p]) == CanonicalLabels(c)[p]
  {
    DigitString(CanonicalLabels(c))
  }

  /**
   * Two cubes whose positions are the same have the same candidates, up to
   * order: a candidate of c is one of d.
   */
  lemma CandidatesSubset<T(!new)>(c: CubeState<T>, d: CubeState<T>, y: seq<int>)
    requires IsCube(c) && IsCube(d) && FewColors(c) && FewColors(d)
    requires forall x :: x in States(c) ==> x in States(d)
    requires y in Candidates(c)
    ensures y in Candidates(d)
  {
    InConcat(CandidateBlocks(c), y);
    var i :| 0 <= i < 24 && y in CandidateBlocks(c)[i];
    var q :| 0 <= q < 720 && CandidateBlocks(c)[i][q] == y;
    BlockAt(c, i, q);
    var x := States(c)[i];
    assert x in States(d);
    var i' :| 0 <= i' < 24 && States(d)[i'] == x;
    BlockAt(d, i', q);
    assert y in CandidateBlocks(d)[i'];
    InConcat(CandidateBlocks(d), y);
  }

  /** Every one of the 24 positions of a cube leads main to the same string as the cube. */
  lemma PositionInvariant<T(!new)>(c: CubeState<T>, x: CubeState<T>)
    requires IsCube(c) && FewColors(c) && x in States(c)
    ensures IsCube(x) && FewColors(x) && CanonicalString(x) == CanonicalString(c)
  {
    StatesColorCount(c, x);
    SameOrbit(c, x);
    forall y ensures y in Candidates(x) <==> y in Candidates(c) {
      if y in Candidates(x) {
        CandidatesSubset(x, c, y);
      }
      if y in Candidates(c) {
        CandidatesSubset(c, x, y);
      }
    }
    CandidatesAreLabellings(c);
    CandidatesAreLabellings(x);
    LexMinOfSameMembers(Candidates(x), Candidates(c));
  }

  /** Turning the whole cube to face another side does not change main's string. */
  lemma OrientationInvariant<T(!new)>(c: CubeState<T>, m: nat)
    requires IsCube(c) && FewColors(c) && m < 6
    ensures IsCube(RotateCubeOrientation(c)[m]) && FewColors(RotateCubeOrientation(c)[m])
    ensures CanonicalString(RotateCubeOrientation(c)[m]) == CanonicalString(c)
  {
    InputInStates(c);
    StatesClosedUnderOrientation(c, c, m);
    PositionInvariant(c, RotateCubeOrientation(c)[m]);
  }

  /** Spinning the cube about the axis through its front face does not change main's string. */
  lemma FaceRotationInvariant<T(!new)>(c: CubeState<T>, n: nat)
    requires IsCube(c) && FewColors(c) && n < 4
    ensures IsCube(FaceRotations(c)[n]) && FewColors(FaceRotations(c)[n])
    ensures CanonicalString(FaceRotations(c)[n]) == CanonicalString(c)
  {
    InputInStates(c);
    StatesClosedUnderFaceRotation(c, c, n);
    PositionInvariant(c, FaceRotations(c)[n]);
  }

  /** Repainting the stickers one-to-one with other colours does not change main's string. */
  lemma RecolorInvariant<T(!new), U(!new)>(f: T -> U, c: CubeState<T>)
    requires IsCube(c) && FewColors(c) && InjectiveOn(f, Flatten(c))
    ensures FewColors(MapCube(f, c)) && CanonicalString(MapCube(f, c)) == CanonicalString(c)
  {
    var d := MapCube(f, c);
    FlattenMapCube(f, c);
    DistinctMapSeq(f, Flatten(c));
    assert FewColors(d);
    forall i | 0 <= i < 24 ensures CandidateBlocks(d)[i] == CandidateBlocks(c)[i] {
      var x := States(c)[i];
      StatesMapCube(f, c, i);
      StatesKeepStickers(c, x);
      InjectiveOnSameElements(f, Flatten(c), Flatten(x));
      FlattenMapCube(f, x);
      StatesColorCount(c, x);
      RecoloringsRecolor(f, Flatten(x));
    }
    assert CandidateBlocks(d) == CandidateBlocks(c);
  }

  /** main's labelling is one of the 24 positions relabelled by one of the 720 orderings. */
  lemma CanonicalSource<T(!new)>(c: CubeState<T>) returns (i: nat, perm: seq<int>)
    requires IsCube(c) && FewColors(c)
    ensures i < 24 && IsCube(States(c)[i]) && |Distinct(Flatten(States(c)[i]))| <= |perm| && NoDuplicates(perm)
    ensures CanonicalLabels(c) == Relabel(Flatten(States(c)[i]), perm)
  {
    var all := Candidates(c);
    var n :| 0 <= n < |all| && all[n] == CanonicalLabels(c);
    i, perm := CandidateSource(c, n);
  }

  /** Candidate n is one of the 24 positions relabelled by one ordering of the colours. */
  lemma CandidateSource<T(!new)>(c: CubeState<T>, n: nat) returns (i: nat, perm: seq<int>)
    requires IsCube(c) && FewColors(c) && n < 24 * 720
    ensures i < 24 && IsCube(States(c)[i]) && |Distinct(Flatten(States(c)[i]))| <= |perm| && NoDuplicates(perm)
    ensures Candidates(c)[n] == Relabel(Flatten(States(c)[i]), perm)
  {
    var q := n % 720;
    i := n / 720;
    assert n == 720 * i + q;
    CandidateAt(c, i, q);
    perm := ColorPermutations[q];
    ColorPermutationIsOrdering(perm);
  }

  /** main's labelling repeats itself exactly where some position of the cube repeats its colours. */
  lemma CanonicalPattern<T(!new)>(c: CubeState<T>) returns (x: CubeState<T>)
    requires IsCube(c) && FewColors(c)
    ensures x in States(c) && IsCube(x) && SamePattern(Flatten(x), CanonicalLabels(c))
  {
    var i, perm := CanonicalSource(c);
    x := States(c)[i];
    RelabelKeepsPattern(Flatten(x), perm);
  }

  /** main's string repeats a digit exactly where its labelling repeats a label. */
  lemma CanonicalStringPattern<T(!new)>(c: CubeState<T>)
    requires IsCube(c) && FewColors(c)
    ensures SamePattern(CanonicalLabels(c), CanonicalString(c))
  {
    var labels, r := CanonicalLabels(c), CanonicalString(c);
    forall a, b | 0 <= a < 54 && 0 <= b < 54 ensures labels[a] == labels[b] <==> r[a] == r[b] {
      assert DigitValue(r[a]) == labels[a] && DigitValue(r[b]) == labels[b];
    }
  }

  /**
   * A cube with the same pattern of equal stickers as a position of c, in
   * whatever colours, gets the same string as c: repainting that position
   * one-to-one gives the cube.
   */
  lemma SamePatternSameString<T(!new), U(!new)>(c: CubeState<T>, x: CubeState<T>, d: CubeState<U>)
    requires IsCube(c) && FewColors(c) && x in States(c) && IsCube(x) && IsCube(d)
    requires SamePattern(Flatten(x), Flatten(d))
    ensures FewColors(d) && CanonicalString(d) == CanonicalString(c)
  {
    var fx, fd := Flatten(x), Flatten(d);
    var f := (v: T) => if v in fx then fd[IndexOf(fx, v)] else fd[0];
    forall p | 0 <= p < 54 ensures MapSeq(f, fx)[p] == fd[p] {
      var i := IndexOf(fx, fx[p]);
      assert fx[i] == fx[p];
    }
    assert MapSeq(f, fx) == fd;
    forall u, v | u in fx && v in fx && f(u) == f(v) ensures u == v {
      var iu, iv := IndexOf(fx, u), IndexOf(fx, v);
      assert fd[iu] == fd[iv];
    }
    assert InjectiveOn(f, fx);
    FlattenMapCube(f, x);
    UnflattenFlatten(MapCube(f, x));
    UnflattenFlatten(d);
    PositionInvariant(c, x);
    RecolorInvariant(f, x);
  }

  /**
   * Cubes that get the same string are the same pattern: some position of c
   * repeats its colours exactly where d does.
   */
  lemma CanonicalStringSeparates<T(!new), U(!new)>(c: CubeState<T>, d: CubeState<U>)
    requires IsCube(c) && IsCube(d) && FewColors(c) && FewColors(d)
    requires CanonicalString(c) == CanonicalString(d)
    ensures exists x :: x in States(c) && IsCube(x) && SamePattern(Flatten(x), Flatten(d))
  {
    var labels := CanonicalLabels(c);
    assert labels == CanonicalLabels(d) by {
      forall p | 0 <= p < StickerCount ensures labels[p] == CanonicalLabels(d)[p] {
        assert DigitValue(CanonicalString(c)[p]) == labels[p];
      }
    }
    var xc := CanonicalPattern(c);
    var yd := CanonicalPattern(d);
    SamePatternSymmetric(Flatten(yd), labels);
    SamePatternTransitive(Flatten(xc), labels, Flatten(yd));
    InputInStatesOf(d, yd);
    var k, j := PositionOf(yd, d);
    var x := State(xc, k, j);
    StateInStates(xc, k, j, x);
    StatesOfState(c, xc, x);
    StateIsMove(xc, k, j);
    StateIsMove(yd, k, j);
    ApplyKeepsPattern(StateMove(k, j), xc, yd);
    assert x in States(c) && IsCube(x) && SamePattern(Flatten(x), Flatten(d));
  }

  /**
   * The canonical promise in both directions: two cubes get the same string
   * exactly when some position of one repeats its colours where the other does.
   */
  lemma CanonicalStringIff<T(!new), U(!new)>(c: CubeState<T>, d: CubeState<U>)
    requires IsCube(c) && IsCube(d) && FewColors(c) && FewColors(d)
    ensures CanonicalString(c) == CanonicalString(d) <==>
      exists x :: x in States(c) && IsCube(x) && SamePattern(Flatten(x), Flatten(d))
  {
    if CanonicalString(c) == CanonicalString(d) {
      CanonicalStringSeparates(c, d);
    }
    if exists x :: x in States(c) && IsCube(x) && SamePattern(Flatten(x), Flatten(d)) {
      var x :| x in States(c) && IsCube(x) && SamePattern(Flatten(x), Flatten(d));
      SamePatternSameString(c, x, d);
    }
  }

  /** Read back as a cube of digit colours, main's string is its own canonical string. */
  lemma CanonicalStringIdempotent<T(!new)>(c: CubeState<T>)
    requires IsCube(c) && FewColors(c)
    ensures FewColors(Unflatten(CanonicalString(c)))
    ensures CanonicalString(Unflatten(CanonicalString(c))) == CanonicalString(c)
  {
    var d := Unflatten(CanonicalString(c));
    var x := CanonicalPattern(c);
    CanonicalStringPattern(c);
    SamePatternTransitive(Flatten(x), CanonicalLabels(c), Flatten(d));
    SamePatternSameString(c, x, d);
  }

  /** main's first loop: the six orientations of each face rotation, extended in turn. */
  method CollectOrientations<T>(rubiksSetting: CubeState<T>, faceRotationList: seq<CubeState<T>>)
    returns (cubeOrientationList: seq<CubeState<T>>)
    requires IsCube(rubiksSetting) && faceRotationList == FaceRotations(rubiksSetting)
    ensures cubeOrientationList == States(rubiksSetting)
  {
    ghost var blocks := StateBlocks(rubiksSetting);
    cubeOrientationList := [];
    for i := 0 to |faceRotationList|
      invariant cubeOrientationList == Concat(blocks[..i])
    {
      StateBlockIsOrientations(rubiksSetting, i);
      ConcatPrefix(blocks, i);
      cubeOrientationList := cubeOrientationList + RotateCubeOrientation(faceRotationList[i]);
    }
    assert blocks[..4] == blocks;
  }

  /**
   * main's second loop: permute_colors of each position, extended in turn;
   * None as soon as one of them fails.
   */
  method CollectRecolorings<T(==,!new)>(rubiksSetting: CubeState<T>, cubeOrientationList: seq<CubeState<T>>)
    returns (r: Option<seq<seq<int>>>)
    requires IsCube(rubiksSetting) && cubeOrientationList == States(rubiksSetting)
    ensures r.None? <==> !FewColors(rubiksSetting)
    ensures r.Some? ==> FewColors(rubiksSetting) && r.value == Candidates(rubiksSetting)
  {
    var totalSettingsList: seq<seq<int>> := [];
    for i := 0 to |cubeOrientationList|
      invariant i > 0 ==> FewColors(rubiksSetting)
      invariant FewColors(rubiksSetting) ==> totalSettingsList == Concat(CandidateBlocks(rubiksSetting)[..i])
    {
      StatesColorCount(rubiksSetting, cubeOrientationList[i]);
      var permutations := PermuteColors(cubeOrientationList[i]);
      if permutations.None? {
        return None;
      }
      assert CandidateBlocks(rubiksSetting)[i] == permutations.value;
      ConcatPrefix(CandidateBlocks(rubiksSetting), i);
      totalSettingsList := totalSettingsList + permutations.value;
    }
    assert CandidateBlocks(rubiksSetting)[..24] == CandidateBlocks(rubiksSetting);
    r := Some(totalSettingsList);
  }

  /**
   * main: the face rotations, their orientations, the recolourings of those,
   * and the least labelling as a digit string. None is the IndexError
   * permute_colors raises when the cube shows more than six colours.
   */
  method Canonicalize<T(==,!new)>(rubiksSetting: CubeState<T>) returns (r: Option<string>)
    requires IsCube(rubiksSetting)
    ensures r.None? <==> !FewColors(rubiksSetting)
    ensures r.Some? ==> FewColors(rubiksSetting) && r.value == CanonicalString(rubiksSetting)
  {
    var faceRotationList := RotateFace(rubiksSetting);
    var cubeOrientationList := CollectOrientations(rubiksSetting, faceRotationList);
    var totalSettingsList := CollectRecolorings(rubiksSetting, cubeOrientationList);
    if totalSettingsList.None? {
      return None;
    }
    CandidatesAreLabellings(rubiksSetting);
    var canonicalForm := ComputeCanonicalForm(totalSettingsList.value);
    r := Some(DigitString(canonicalForm));
  }
}
