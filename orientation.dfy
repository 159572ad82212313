/**
 * The six ways of looking at the cube with a different face in front
 * (`rotate_cube_orientation`): the input itself and five hand-written
 * rearrangements. Each keeps the face order front, left, right, back, top,
 * bottom and says which old grid lands in each slot and how often rot90 turns it.
 */
module Orientation {

  import opened Seqs
  import opened Cube

  /** The five hand-written tables as moves. */
  const LeftAsFront: Move := Move([1, 3, 0, 2, 4, 5], [0, 0, 0, 0, 1, 3])
  const RightAsFront: Move := Move([2, 0, 3, 1, 4, 5], [0, 0, 0, 0, 3, 1])
  const BackAsFront: Move := Move([3, 2, 1, 0, 4, 5], [0, 0, 0, 0, 2, 2])
  const TopAsFront: Move := Move([4, 1, 2, 5, 3, 0], [0, 3, 1, 2, 2, 0])
  const BottomAsFront: Move := Move([5, 1, 2, 4, 0, 3], [0, 1, 3, 2, 0, 2])

  /** The move behind each of the six outputs, the input's own first. */
  const OrientationMoves: seq<Move> :=
    [Identity, LeftAsFront, RightAsFront, BackAsFront, TopAsFront, BottomAsFront]

  /**
   * rotate_cube_orientation: the input followed by the five tables, each grid
   * taken and turned exactly as the source lists it.
   */
  function RotateCubeOrientation<T>(c: CubeState<T>): (r: seq<CubeState<T>>)
    requires IsCube(c)
    ensures |r| == 6 && r[0] == c
  {
    var orientationA := [c[1], c[3], c[0], c[2], Rot90(c[4], 1), Rot90(c[5], 3)];
    var orientationB := [c[2], c[0], c[3], c[1], Rot90(c[4], 3), Rot90(c[5], 1)];
    var orientationC := [c[3], c[2], c[1], c[0], Rot90(c[4], 2), Rot90(c[5], 2)];
    var orientationD := [c[4], Rot90(c[1], 3), Rot90(c[2], 1), Rot90(c[5], 2), Rot90(c[3], 2), c[0]];
    var orientationE := [c[5], Rot90(c[1], 1), Rot90(c[2], 3), Rot90(c[4], 2), c[0], Rot90(c[3], 2)];
    [c, orientationA, orientationB, orientationC, orientationD, orientationE]
  }

  lemma OrientationMovesValid()
    ensures |OrientationMoves| == 6
    ensures forall j :: 0 <= j < 6 ==> IsMove(OrientationMoves[j])
  {
  }

  /** Output j is the input rearranged by OrientationMoves[j]. */
  lemma OrientationIsMove<T>(c: CubeState<T>, j: nat)
    requires IsCube(c) && j < 6
    ensures IsMove(OrientationMoves[j])
    ensures RotateCubeOrientation(c)[j] == Apply(OrientationMoves[j], c)
  {
    var r := RotateCubeOrientation(c);
    if j == 0 {
      ApplyIdentity(c);
    } else if j == 1 {
      LeftAsFrontIsMove(c);
    } else if j == 2 {
      RightAsFrontIsMove(c);
    } else if j == 3 {
      BackAsFrontIsMove(c);
    } else if j == 4 {
      TopAsFrontIsMove(c);
    } else {
      BottomAsFrontIsMove(c);
    }
  }

  lemma LeftAsFrontIsMove<T>(c: CubeState<T>)
    requires IsCube(c)
    ensures RotateCubeOrientation(c)[1] == Apply(LeftAsFront, c)
  {
    assert Apply(LeftAsFront, c) == RotateCubeOrientation(c)[1];
  }

  lemma RightAsFrontIsMove<T>(c: CubeState<T>)
    requires IsCube(c)
    ensures RotateCubeOrientation(c)[2] == Apply(RightAsFront, c)
  {
    assert Apply(RightAsFront, c) == RotateCubeOrientation(c)[2];
  }

  lemma BackAsFrontIsMove<T>(c: CubeState<T>)
    requires IsCube(c)
    ensures RotateCubeOrientation(c)[3] == Apply(BackAsFront, c)
  {
    assert Apply(BackAsFront, c) == RotateCubeOrientation(c)[3];
  }

  lemma TopAsFrontIsMove<T>(c: CubeState<T>)
    requires IsCube(c)
    ensures RotateCubeOrientation(c)[4] == Apply(TopAsFront, c)
  {
    Rot90Mod(c[0], 0);
    assert Apply(TopAsFront, c) == RotateCubeOrientation(c)[4];
  }

  lemma BottomAsFrontIsMove<T>(c: CubeState<T>)
    requires IsCube(c)
    ensures RotateCubeOrientation(c)[5] == Apply(BottomAsFront, c)
  {
    Rot90Mod(c[0], 0);
    assert Apply(BottomAsFront, c) == RotateCubeOrientation(c)[5];
  }

  /** Looking from the back twice is looking from the front. */
  lemma BackAsFrontSelfInverse<T>(c: CubeState<T>)
    requires IsCube(c)
    ensures IsCube(RotateCubeOrientation(c)[3])
    ensures RotateCubeOrientation(RotateCubeOrientation(c)[3])[3] == c
  {
    var b := RotateCubeOrientation(c)[3];
    OrientationIsMove(c, 3);
    OrientationIsMove(b, 3);
    ApplyThen(BackAsFront, BackAsFront, c);
    assert Then(BackAsFront, BackAsFront) == Identity;
    ApplyIdentity(c);
  }

  /** Left-as-front and right-as-front undo each other, in either order. */
  lemma LeftRightInverse<T>(c: CubeState<T>)
    requires IsCube(c)
    ensures IsCube(RotateCubeOrientation(c)[1]) && IsCube(RotateCubeOrientation(c)[2])
    ensures RotateCubeOrientation(RotateCubeOrientation(c)[1])[2] == c
    ensures RotateCubeOrientation(RotateCubeOrientation(c)[2])[1] == c
  {
    var l := RotateCubeOrientation(c)[1];
    var r := RotateCubeOrientation(c)[2];
    OrientationIsMove(c, 1);
    OrientationIsMove(c, 2);
    OrientationIsMove(l, 2);
    OrientationIsMove(r, 1);
    ApplyThen(LeftAsFront, RightAsFront, c);
    ApplyThen(RightAsFront, LeftAsFront, c);
    assert Then(LeftAsFront, RightAsFront) == Identity;
    assert Then(RightAsFront, LeftAsFront) == Identity;
    ApplyIdentity(c);
  }

  /** Top-as-front and bottom-as-front undo each other, in either order. */
  lemma TopBottomInverse<T>(c: CubeState<T>)
    requires IsCube(c)
    ensures IsCube(RotateCubeOrientation(c)[4]) && IsCube(RotateCubeOrientation(c)[5])
    ensures RotateCubeOrientation(RotateCubeOrientation(c)[4])[5] == c
    ensures RotateCubeOrientation(RotateCubeOrientation(c)[5])[4] == c
  {
    var t := RotateCubeOrientation(c)[4];
    var b := RotateCubeOrientation(c)[5];
    OrientationIsMove(c, 4);
    OrientationIsMove(c, 5);
    OrientationIsMove(t, 5);
    OrientationIsMove(b, 4);
    ApplyThen(TopAsFront, BottomAsFront, c);
    ApplyThen(BottomAsFront, TopAsFront, c);
    assert Then(TopAsFront, BottomAsFront) == Identity;
    assert Then(BottomAsFront, TopAsFront) == Identity;
    ApplyIdentity(c);
  }

  /** Each table takes every old grid exactly once. */
  lemma OrientationMovesUseEachFaceOnce(j: nat)
    requires j < 6
    ensures IsMove(OrientationMoves[j]) && UsesEachFaceOnce(OrientationMoves[j])
  {
    if j == 0 {
      NoDuplicatesSix(Identity.slots);
    } else if j == 1 {
      NoDuplicatesSix(LeftAsFront.slots);
    } else if j == 2 {
      NoDuplicatesSix(RightAsFront.slots);
    } else if j == 3 {
      NoDuplicatesSix(BackAsFront.slots);
    } else if j == 4 {
      NoDuplicatesSix(TopAsFront.slots);
    } else {
      NoDuplicatesSix(BottomAsFront.slots);
    }
  }

  /** Every output of rotate_cube_orientation holds the input's 54 stickers, each once. */
  lemma OrientationKeepsStickers<T>(c: CubeState<T>, j: nat)
    requires IsCube(c) && j < 6
    ensures IsCube(RotateCubeOrientation(c)[j])
    ensures multiset(Flatten(RotateCubeOrientation(c)[j])) == multiset(Flatten(c))
  {
    OrientationIsMove(c, j);
    OrientationMovesUseEachFaceOnce(j);
    ApplyKeepsStickers(OrientationMoves[j], c);
  }
}
