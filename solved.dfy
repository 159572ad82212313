/**
 * Solved cubes: every face a single colour, the six colours all different.
 * main gives every one of them the same string, nine 1s, nine 2s, and so on
 * up to nine 6s, whatever the six colours are and however they are arranged.
 */
module SolvedCube {

  import opened Seqs
  import opened Cube
  import opened FaceRotation
  import opened Orientation
  import opened Orbit
  import opened ColorPermutation
  import opened CanonicalForm
  import opened Pipeline

  /** A face of one colour. */
  function Uniform<T>(v: T): (g: Grid<T>)
    ensures IsGrid(g) && forall i, j :: 0 <= i < 3 && 0 <= j < 3 ==> g[i][j] == v
  {
    [[v, v, v], [v, v, v], [v, v, v]]
  }

  /** The solved cube whose face f has colour colors[f]. */
  function Solved<T>(colors: seq<T>): (c: CubeState<T>)
    requires |colors| == 6
    ensures IsCube(c)
  {
    seq(6, f requires 0 <= f < 6 => Uniform(colors[f]))
  }

  /** Read out sticker by sticker, a solved cube shows nine of each face colour in turn. */
  lemma FlattenSolved<T>(colors: seq<T>)
    requires |colors| == 6
    ensures forall p :: 0 <= p < 54 ==> Flatten(Solved(colors))[p] == colors[p / 9]
  {
    forall p | 0 <= p < 54 ensures Flatten(Solved(colors))[p] == colors[p / 9] {
      FlatIndex(p);
    }
  }

  /** Quarter turns leave a one-colour face as it is. */
  lemma Rot90Uniform<T>(v: T, k: nat)
    ensures Rot90(Uniform(v), k) == Uniform(v)
  {
  }

  /**
   * A move of the whole cube takes a solved cube to a solved cube; when the
   * move uses every face once, the six colours stay different.
   */
  lemma ApplySolved<T>(m: Move, colors: seq<T>) returns (moved: seq<T>)
    requires IsMove(m) && |colors| == 6
    ensures |moved| == 6 && Apply(m, Solved(colors)) == Solved(moved)
    ensures UsesEachFaceOnce(m) && NoDuplicates(colors) ==> NoDuplicates(moved)
  {
    moved := seq(6, i requires 0 <= i < 6 => colors[m.slots[i]]);
    forall i | 0 <= i < 6 ensures Apply(m, Solved(colors))[i] == Solved(moved)[i] {
      Rot90Uniform(colors[m.slots[i]], m.turns[i]);
    }
  }

  /** Each of the 24 positions of a solved cube is a solved cube with its colours still different. */
  lemma StatesOfSolved<T>(colors: seq<T>, x: CubeState<T>) returns (moved: seq<T>)
    requires |colors| == 6 && NoDuplicates(colors) && x in States(Solved(colors))
    ensures |moved| == 6 && NoDuplicates(moved) && x == Solved(moved)
  {
    var k, j := PositionOf(Solved(colors), x);
    TurnPowUsesEachFaceOnce(k);
    var turned := ApplySolved(TurnPow(k), colors);
    OrientationMovesUseEachFaceOnce(j);
    moved := ApplySolved(OrientationMoves[j], turned);
  }

  /** How ceil(n / 9) grows by one sticker: only when a new face of nine begins. */
  lemma CeilStep(n: nat, m: nat)
    requires 0 < n <= 9 * m
    ensures (n + 8) / 9 <= m && (n + 7) / 9 <= (n + 8) / 9 <= (n + 7) / 9 + 1
    ensures (n - 1) / 9 < (n + 8) / 9
    ensures (n + 8) / 9 == (n + 7) / 9 + 1 <==> (n - 1) % 9 == 0
    ensures (n - 1) % 9 != 0 ==> (n - 1) / 9 < (n + 7) / 9
  {
  }

  /** In a list without duplicates, no element occurs before its own position. */
  lemma NotInPrefix<T>(colors: seq<T>, f: nat)
    requires NoDuplicates(colors) && f < |colors|
    ensures colors[f] !in colors[..f]
  {
    forall k | 0 <= k < f ensures colors[..f][k] != colors[f] {
      assert colors[..f][k] == colors[k];
    }
  }

  /** Nine stickers per colour: the distinct colours of the first n are the first ceil(n / 9) colours. */
  lemma {:induction false} DistinctFaceBlocks<T(!new)>(s: seq<T>, colors: seq<T>, n: nat)
    requires |s| == 9 * |colors| && NoDuplicates(colors) && n <= |s|
    requires forall p :: 0 <= p < |s| ==> s[p] == colors[p / 9]
    ensures (n + 8) / 9 <= |colors| && Distinct(s[..n]) == colors[..(n + 8) / 9]
  {
    if n == 0 {
      assert colors[..0] == [];
    } else {
      assert s[..n][..n - 1] == s[..n - 1];
      DistinctFaceBlocks(s, colors, n - 1);
      CeilStep(n, |colors|);
      var f, before, after := (n - 1) / 9, (n + 7) / 9, (n + 8) / 9;
      assert s[..n][n - 1] == colors[f];
      if (n - 1) % 9 == 0 {
        assert f == before;
        NotInPrefix(colors, f);
        assert colors[..after] == colors[..f] + [colors[f]];
      } else {
        assert before == after;
        assert colors[..after][f] == colors[f];
      }
    }
  }

  /** The colours of a solved cube, in order of first appearance, are its face colours in face order. */
  lemma DistinctSolved<T(!new)>(colors: seq<T>)
    requires |colors| == 6 && NoDuplicates(colors)
    ensures Distinct(Flatten(Solved(colors))) == colors
  {
    var s := Flatten(Solved(colors));
    FlattenSolved(colors);
    DistinctFaceBlocks(s, colors, 54);
    assert s[..54] == s;
    assert colors[..6] == colors;
  }

  /** The labelling that gives every sticker of face f the label perm[f]. */
  function FaceLabels(perm: seq<int>): (r: seq<int>)
    requires |perm| == 6
    ensures |r| == StickerCount
  {
    seq(54, p requires 0 <= p < 54 => perm[p / 9])
  }

  /** Relabelling a solved cube by an ordering labels face f with the f-th entry of the ordering. */
  lemma RelabelSolved<T(!new)>(colors: seq<T>, perm: seq<int>)
    requires |colors| == 6 && NoDuplicates(colors) && |perm| == 6
    ensures |Distinct(Flatten(Solved(colors)))| <= |perm|
    ensures Relabel(Flatten(Solved(colors)), perm) == FaceLabels(perm)
  {
    var s := Flatten(Solved(colors));
    FlattenSolved(colors);
    DistinctSolved(colors);
    forall p | 0 <= p < 54 ensures Relabel(s, perm)[p] == FaceLabels(perm)[p] {
      assert Distinct(s)[p / 9] == s[p];
    }
  }

  /** Candidate n of a solved cube is the colour ordering n % 720 written out face by face. */
  lemma SolvedCandidate<T(!new)>(colors: seq<T>, n: nat)
    requires |colors| == 6 && NoDuplicates(colors) && n < 24 * 720
    ensures FewColors(Solved(colors)) && |ColorPermutations| == 720 && |ColorPermutations[n % 720]| == 6
    ensures Candidates(Solved(colors))[n] == FaceLabels(ColorPermutations[n % 720])
  {
    var c := Solved(colors);
    DistinctSolved(colors);
    var i, q := n / 720, n % 720;
    assert n == 720 * i + q;
    CandidateAt(c, i, q);
    var moved := StatesOfSolved(colors, States(c)[i]);
    RelabelSolved(moved, ColorPermutations[q]);
    assert Candidates(c)[n] == Relabel(Flatten(Solved(moved)), ColorPermutations[q]);
  }

  /** Labelling the faces 1 to 6 in face order comes first among all orderings. */
  lemma InOrderLabelsLeast(perm: seq<int>)
    requires perm in ColorPermutations
    ensures |perm| == 6 && LexLeq(FaceLabels([1, 2, 3, 4, 5, 6]), FaceLabels(perm))
  {
    ColorPermutationIsOrdering(perm);
    var a, b := FaceLabels([1, 2, 3, 4, 5, 6]), FaceLabels(perm);
    if perm != [1, 2, 3, 4, 5, 6] {
      var f :=
        if perm[0] != 1 then 0 else if perm[1] != 2 then 1 else if perm[2] != 3 then 2
        else if perm[3] != 4 then 3 else if perm[4] != 5 then 4 else 5;
      assert forall g :: 0 <= g < f ==> perm[g] == g + 1;
      var v := perm[f];
      var w := perm[v - 1];
      assert v > f + 1;
      forall p | 0 <= p < 9 * f ensures a[p] == b[p] {
        assert p / 9 < f;
      }
      assert a[..9 * f] == b[..9 * f];
      LexLessAt(a, b, 9 * f);
    }
  }

  /** The labels main settles on for a solved cube: faces 1 to 6 in face order. */
  lemma CanonicalLabelsSolved<T(!new)>(colors: seq<T>)
    requires |colors| == 6 && NoDuplicates(colors)
    ensures FewColors(Solved(colors)) && CanonicalLabels(Solved(colors)) == FaceLabels([1, 2, 3, 4, 5, 6])
  {
    var c := Solved(colors);
    var first := FaceLabels([1, 2, 3, 4, 5, 6]);
    SolvedCandidate(colors, 0);
    FirstColorPermutation();
    var all := Candidates(c);
    assert all[0] == first;
    CandidatesAreLabellings(c);
    forall n | 0 <= n < |all| ensures LexLeq(first, all[n]) {
      SolvedCandidate(colors, n);
      InOrderLabelsLeast(ColorPermutations[n % 720]);
    }
    LexMinOfUnique(all, first);
  }

  /** n copies of one character. */
  function Repeat(ch: char, n: nat): (s: string)
    ensures |s| == n && forall i :: 0 <= i < n ==> s[i] == ch
  {
    seq(n, _ => ch)
  }

  /** The string main returns for every solved cube: nine 1s, nine 2s, ..., nine 6s. */
  const SolvedString: string :=
    Repeat('1', 9) + Repeat('2', 9) + Repeat('3', 9) + Repeat('4', 9) + Repeat('5', 9) + Repeat('6', 9)

  /** Labels 1 to 6 in face order, written out: position p carries p / 9 + 1. */
  lemma InOrderLabelsAt()
    ensures forall p :: 0 <= p < 54 ==> FaceLabels([1, 2, 3, 4, 5, 6])[p] == p / 9 + 1
  {
  }

  /** SolvedString, read character by character. */
  lemma SolvedStringAt()
    ensures |SolvedString| == 54 && forall p :: 0 <= p < 54 ==> SolvedString[p] == DigitChar(p / 9 + 1)
  {
  }

  /** main gives every solved cube with six different face colours the same string. */
  lemma CanonicalStringSolved<T(!new)>(colors: seq<T>)
    requires |colors| == 6 && NoDuplicates(colors)
    ensures FewColors(Solved(colors)) && CanonicalString(Solved(colors)) == SolvedString
  {
    CanonicalLabelsSolved(colors);
    InOrderLabelsAt();
    SolvedStringAt();
    var labels := FaceLabels([1, 2, 3, 4, 5, 6]);
    assert CanonicalString(Solved(colors)) == DigitString(labels);
    forall p | 0 <= p < 54 ensures DigitString(labels)[p] == SolvedString[p] {
    }
  }
}
