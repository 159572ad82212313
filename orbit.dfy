/**
 * The 24 whole-cube positions main collects before recolouring: each of
 * rotate_face's four turns, seen with each of rotate_cube_orientation's six
 * sides in front. Position (k, j) is the input turned k quarter turns and then
 * seen from side j; the family is closed under both operations.
 */
module Orbit {

  import opened Seqs
  import opened Cube
  import opened FaceRotation
  import opened Orientation

  /** The input turned k quarter turns about the front face, then seen with side j in front. */
  function State<T>(c: CubeState<T>, k: nat, j: nat): (r: CubeState<T>)
    requires IsCube(c) && j < 6
    ensures IsCube(r)
  {
    OrientationMovesValid();
    Apply(OrientationMoves[j], TurnN(c, k))
  }

  /** The six positions seen from each side, one block per turn. */
  function StateBlocks<T>(c: CubeState<T>): (r: seq<seq<CubeState<T>>>)
    requires IsCube(c)
    ensures |r| == 4 && forall k :: 0 <= k < 4 ==> |r[k]| == 6
  {
    seq(4, k requires 0 <= k < 4 => seq(6, j requires 0 <= j < 6 => State(c, k, j)))
  }

  /** The k-th block is rotate_cube_orientation of rotate_face's k-th output. */
  lemma StateBlockIsOrientations<T>(c: CubeState<T>, k: nat)
    requires IsCube(c) && k < 4
    ensures StateBlocks(c)[k] == RotateCubeOrientation(FaceRotations(c)[k])
  {
    var block, views := StateBlocks(c)[k], RotateCubeOrientation(FaceRotations(c)[k]);
    forall j | 0 <= j < 6 ensures block[j] == views[j] {
      OrientationIsMove(FaceRotations(c)[k], j);
    }
  }

  /** The 24 positions in main's order: the six orientations of turn 0, then of turn 1, and so on. */
  function States<T>(c: CubeState<T>): (r: seq<CubeState<T>>)
    requires IsCube(c)
    ensures |r| == 24
  {
    ConcatLength(StateBlocks(c), 6);
    Concat(StateBlocks(c))
  }

  /** A cube is among the 24 exactly when it is some position (k, j). */
  lemma InStates<T>(c: CubeState<T>, x: CubeState<T>)
    requires IsCube(c)
    ensures x in States(c) <==> exists k, j :: 0 <= k < 4 && 0 <= j < 6 && x == State(c, k, j)
  {
    InConcat(StateBlocks(c), x);
    if exists k, j :: 0 <= k < 4 && 0 <= j < 6 && x == State(c, k, j) {
      var k, j :| 0 <= k < 4 && 0 <= j < 6 && x == State(c, k, j);
      assert x == StateBlocks(c)[k][j];
    }
  }

  /** The position (k, j) of a cube among the 24. */
  lemma PositionOf<T>(c: CubeState<T>, x: CubeState<T>) returns (k: nat, j: nat)
    requires IsCube(c) && x in States(c)
    ensures k < 4 && j < 6 && x == State(c, k, j)
  {
    InStates(c, x);
    k, j :| 0 <= k < 4 && 0 <= j < 6 && x == State(c, k, j);
  }

  /** Every position is one of the 24, whatever the number of turns. */
  lemma StateInStates<T>(c: CubeState<T>, k: nat, j: nat, y: CubeState<T>)
    requires IsCube(c) && j < 6 && y == State(c, k, j)
    ensures y in States(c)
  {
    assert y == State(c, k % 4, j) by {
      assert TurnPow(k) == TurnPow(k % 4);
    }
    InStates(c, y);
  }

  /** Applying m after seeing side j is the same as turning t more quarter turns and seeing side s. */
  predicate ViewRule(j: nat, m: Move, t: nat, s: nat) {
    && j < 6 && s < 6 && t < 4 && IsMove(m)
    && IsMove(OrientationMoves[j]) && IsMove(OrientationMoves[s])
    && Then(OrientationMoves[j], m) == Then(TurnPow(t), OrientationMoves[s])
  }

  /**
   * The composition rules of the orientation tables: side j seen from side m
   * is side m.slots[j] after m.turns[j] more quarter turns. One lemma per side.
   */
  lemma ViewFromFront(j: nat) returns (t: nat, s: nat)
    requires j < 6
    ensures t == Identity.turns[j] && s == Identity.slots[j]
    ensures ViewRule(j, Identity, t, s)
  {
    if j == 0 {
      t, s := 0, 0;
    } else if j == 1 {
      t, s := 0, 1;
    } else if j == 2 {
      t, s := 0, 2;
    } else if j == 3 {
      t, s := 0, 3;
    } else if j == 4 {
      t, s := 0, 4;
    } else {
      t, s := 0, 5;
    }
  }

  lemma ViewFromLeft(j: nat) returns (t: nat, s: nat)
    requires j < 6
    ensures t == LeftAsFront.turns[j] && s == LeftAsFront.slots[j]
    ensures ViewRule(j, LeftAsFront, t, s)
  {
    if j == 0 {
      t, s := 0, 1;
    } else if j == 1 {
      t, s := 0, 3;
    } else if j == 2 {
      t, s := 0, 0;
    } else if j == 3 {
      t, s := 0, 2;
    } else if j == 4 {
      t, s := 1, 4;
    } else {
      t, s := 3, 5;
    }
  }

  lemma ViewFromRight(j: nat) returns (t: nat, s: nat)
    requires j < 6
    ensures t == RightAsFront.turns[j] && s == RightAsFront.slots[j]
    ensures ViewRule(j, RightAsFront, t, s)
  {
    if j == 0 {
      t, s := 0, 2;
    } else if j == 1 {
      t, s := 0, 0;
    } else if j == 2 {
      t, s := 0, 3;
    } else if j == 3 {
      t, s := 0, 1;
    } else if j == 4 {
      t, s := 3, 4;
    } else {
      t, s := 1, 5;
    }
  }

  lemma ViewFromBack(j: nat) returns (t: nat, s: nat)
    requires j < 6
    ensures t == BackAsFront.turns[j] && s == BackAsFront.slots[j]
    ensures ViewRule(j, BackAsFront, t, s)
  {
    if j == 0 {
      t, s := 0, 3;
    } else if j == 1 {
      t, s := 0, 2;
    } else if j == 2 {
      t, s := 0, 1;
    } else if j == 3 {
      t, s := 0, 0;
    } else if j == 4 {
      t, s := 2, 4;
    } else {
      t, s := 2, 5;
    }
  }

  lemma ViewFromTop(j: nat) returns (t: nat, s: nat)
    requires j < 6
    ensures t == TopAsFront.turns[j] && s == TopAsFront.slots[j]
    ensures ViewRule(j, TopAsFront, t, s)
  {
    if j == 0 {
      t, s := 0, 4;
    } else if j == 1 {
      t, s := 3, 1;
    } else if j == 2 {
      t, s := 1, 2;
    } else if j == 3 {
      t, s := 2, 5;
    } else if j == 4 {
      t, s := 2, 3;
    } else {
      t, s := 0, 0;
    }
  }

  lemma ViewFromBottom(j: nat) returns (t: nat, s: nat)
    requires j < 6
    ensures t == BottomAsFront.turns[j] && s == BottomAsFront.slots[j]
    ensures ViewRule(j, BottomAsFront, t, s)
  {
    if j == 0 {
      t, s := 0, 5;
    } else if j == 1 {
      t, s := 1, 1;
    } else if j == 2 {
      t, s := 3, 2;
    } else if j == 3 {
      t, s := 2, 4;
    } else if j == 4 {
      t, s := 0, 0;
    } else {
      t, s := 2, 3;
    }
  }

  /** A quarter turn of side j is side TurnThrice.slots[j] after TurnThrice.turns[j] more quarter turns. */
  lemma TurnView(j: nat) returns (t: nat, s: nat)
    requires j < 6
    ensures t == TurnThrice.turns[j] && s == TurnThrice.slots[j]
    ensures ViewRule(j, TurnMove, t, s)
  {
    if j == 0 {
      t, s := 1, 0;
    } else if j == 1 {
      t, s := 1, 4;
    } else if j == 2 {
      t, s := 1, 5;
    } else if j == 3 {
      t, s := 3, 3;
    } else if j == 4 {
      t, s := 1, 2;
    } else {
      t, s := 1, 1;
    }
  }

  /** Side j seen from side m, for any two sides. */
  lemma ViewFrom(j: nat, m: nat) returns (t: nat, s: nat)
    requires j < 6 && m < 6
    ensures t == OrientationMoves[m].turns[j] && s == OrientationMoves[m].slots[j]
    ensures ViewRule(j, OrientationMoves[m], t, s)
  {
    if m == 0 {
      t, s := ViewFromFront(j);
    } else if m == 1 {
      t, s := ViewFromLeft(j);
    } else if m == 2 {
      t, s := ViewFromRight(j);
    } else if m == 3 {
      t, s := ViewFromBack(j);
    } else if m == 4 {
      t, s := ViewFromTop(j);
    } else {
      t, s := ViewFromBottom(j);
    }
  }

  /** Applying m after side j to the cube turned k times is position (k + t, s) when ViewRule(j, m, t, s). */
  lemma ComposeAtState<T>(c: CubeState<T>, k: nat, j: nat, m: Move, t: nat, s: nat)
    requires IsCube(c) && k < 4 && ViewRule(j, m, t, s)
    ensures Apply(m, State(c, k, j)) == State(c, k + t, s)
    ensures Apply(m, State(c, k, j)) in States(c)
  {
    var x := TurnN(c, k);
    ApplyThen(OrientationMoves[j], m, x);
    ApplyThen(TurnPow(t), OrientationMoves[s], x);
    TurnNAdd(c, k, t);
    StateInStates(c, k + t, s, Apply(m, State(c, k, j)));
  }

  /** Side m of c brought to the front: rotate_cube_orientation's output m, as a move. */
  function Orient<T>(c: CubeState<T>, m: nat): (r: CubeState<T>)
    requires IsCube(c) && m < 6
    ensures IsCube(r)
  {
    OrientationMovesValid();
    Apply(OrientationMoves[m], c)
  }

  /**
   * Side m of position (k, j) brought to the front is again a position:
   * (k + t, s), where t and s are the quarter turns and the side the tables
   * give for side j seen from side m.
   */
  lemma OrientationOfState<T>(c: CubeState<T>, k: nat, j: nat, m: nat) returns (t: nat, s: nat)
    requires IsCube(c) && k < 4 && j < 6 && m < 6
    ensures t < 4 && s < 6 && Orient(State(c, k, j), m) == State(c, k + t, s)
    ensures Orient(State(c, k, j), m) in States(c)
  {
    t, s := ViewFrom(j, m);
    ComposeAtState(c, k, j, OrientationMoves[m], t, s);
  }

  /** A quarter turn of position (k, j) is position (k + t, s), as read off TurnThrice. */
  lemma TurnOfState<T>(c: CubeState<T>, k: nat, j: nat) returns (t: nat, s: nat)
    requires IsCube(c) && k < 4 && j < 6
    ensures t < 4 && s < 6 && Turn(State(c, k, j)) == State(c, k + t, s)
    ensures Turn(State(c, k, j)) in States(c)
  {
    t, s := TurnView(j);
    ComposeAtState(c, k, j, TurnMove, t, s);
  }

  /** Each of the 24 is a cube. */
  lemma StatesAreCubes<T>(c: CubeState<T>, x: CubeState<T>)
    requires IsCube(c) && x in States(c)
    ensures IsCube(x)
  {
    InStates(c, x);
  }

  /** The 24 positions are closed under bringing any side to the front. */
  lemma StatesClosedUnderOrient<T>(c: CubeState<T>, x: CubeState<T>, m: nat)
    requires IsCube(c) && x in States(c) && m < 6
    ensures IsCube(x) && Orient(x, m) in States(c)
  {
    var k, j := PositionOf(c, x);
    var _, _ := OrientationOfState(c, k, j, m);
  }

  /** The 24 positions are closed under rotate_cube_orientation: each of its six outputs is among them. */
  lemma StatesClosedUnderOrientation<T>(c: CubeState<T>, x: CubeState<T>, m: nat)
    requires IsCube(c) && x in States(c) && m < 6
    ensures IsCube(x) && RotateCubeOrientation(x)[m] in States(c)
  {
    StatesClosedUnderOrient(c, x, m);
    OrientationIsMove(x, m);
  }

  /** The 24 positions are closed under a quarter turn. */
  lemma StatesClosedUnderTurn<T>(c: CubeState<T>, x: CubeState<T>)
    requires IsCube(c) && x in States(c)
    ensures IsCube(x) && Turn(x) in States(c)
  {
    var k, j := PositionOf(c, x);
    var _, _ := TurnOfState(c, k, j);
  }

  /** The 24 positions are closed under rotate_face: each of its four outputs is among them. */
  lemma {:induction false} StatesClosedUnderFaceRotation<T>(c: CubeState<T>, x: CubeState<T>, n: nat)
    requires IsCube(c) && x in States(c) && n < 4
    ensures IsCube(x) && FaceRotations(x)[n] in States(c)
  {
    StatesAreCubes(c, x);
    if n > 0 {
      StatesClosedUnderFaceRotation(c, x, n - 1);
      TurnNStep(x, n - 1);
      StatesClosedUnderTurn(c, FaceRotations(x)[n - 1]);
    }
  }

  /** Position (k, j) is entry 6 * k + j of the 24, as main's loops order them. */
  lemma StatesAt<T>(c: CubeState<T>, k: nat, j: nat)
    requires IsCube(c) && k < 4 && j < 6
    ensures States(c)[6 * k + j] == State(c, k, j)
  {
    ConcatAt(StateBlocks(c), 6, k, j);
  }

  /** Repainting the input repaints each of its positions the same way. */
  lemma StateMapCube<T, U>(f: T -> U, c: CubeState<T>, k: nat, j: nat)
    requires IsCube(c) && j < 6
    ensures State(MapCube(f, c), k, j) == MapCube(f, State(c, k, j))
  {
    OrientationMovesValid();
    ApplyMapCube(f, TurnPow(k), c);
    ApplyMapCube(f, OrientationMoves[j], TurnN(c, k));
  }

  /** Entry i of the 24 positions of a repainted cube is entry i repainted. */
  lemma StatesMapCube<T, U>(f: T -> U, c: CubeState<T>, i: nat)
    requires IsCube(c) && i < 24
    ensures IsCube(States(c)[i]) && States(MapCube(f, c))[i] == MapCube(f, States(c)[i])
  {
    StatesAt(c, i / 6, i % 6);
    StatesAt(MapCube(f, c), i / 6, i % 6);
    StateMapCube(f, c, i / 6, i % 6);
  }

  /** The input itself is position (0, 0). */
  lemma InputInStates<T>(c: CubeState<T>)
    requires IsCube(c)
    ensures c in States(c)
  {
    ApplyIdentity(c);
    ApplyIdentity(TurnN(c, 0));
    StateInStates(c, 0, 0, c);
  }

  /** Every position holds the input's 54 stickers, rearranged. */
  lemma StatesKeepStickers<T>(c: CubeState<T>, x: CubeState<T>)
    requires IsCube(c) && x in States(c)
    ensures IsCube(x) && multiset(Flatten(x)) == multiset(Flatten(c))
  {
    var k, j := PositionOf(c, x);
    TurnPowUsesEachFaceOnce(k);
    ApplyKeepsStickers(TurnPow(k), c);
    OrientationMovesUseEachFaceOnce(j);
    ApplyKeepsStickers(OrientationMoves[j], TurnN(c, k));
  }

  /** The positions of a position are positions of the input. */
  lemma StatesOfState<T>(c: CubeState<T>, x: CubeState<T>, y: CubeState<T>)
    requires IsCube(c) && x in States(c) && IsCube(x) && y in States(x)
    ensures IsCube(x) && y in States(c)
  {
    StatesAreCubes(c, x);
    var k, j := PositionOf(x, y);
    StatesClosedUnderFaceRotation(c, x, k);
    StatesClosedUnderOrient(c, FaceRotations(x)[k], j);
  }

  /** The side to bring to the front to undo bringing side j there. */
  function Undo(j: nat): (r: nat)
    requires j < 6
    ensures r < 6
  {
    [0, 2, 1, 3, 5, 4][j]
  }

  /** Bringing side Undo(j) to the front undoes bringing side j to the front. */
  lemma OrientUndo<T>(c: CubeState<T>, j: nat)
    requires IsCube(c) && j < 6
    ensures Orient(Orient(c, j), Undo(j)) == c
  {
    var x := Orient(c, j);
    OrientationIsMove(c, j);
    OrientationIsMove(x, Undo(j));
    if j == 0 {
      ApplyIdentity(c);
      ApplyIdentity(x);
    } else if j == 1 || j == 2 {
      LeftRightInverse(c);
    } else if j == 3 {
      BackAsFrontSelfInverse(c);
    } else {
      TopBottomInverse(c);
    }
  }

  /** Position (0, j) is side j brought to the front. */
  lemma StateNoTurn<T>(c: CubeState<T>, j: nat)
    requires IsCube(c) && j < 6
    ensures State(c, 0, j) == Orient(c, j)
  {
    ApplyIdentity(c);
  }

  /** Turning k times and then (4 - k) % 4 times gives back the input. */
  lemma TurnBack<T>(c: CubeState<T>, k: nat)
    requires IsCube(c) && k < 4
    ensures TurnN(TurnN(c, k), (4 - k) % 4) == c
  {
    assert FaceRotations(c)[0] == c;
    if k == 1 {
      TurnNAdd(c, 1, 3);
    } else if k == 2 {
      TurnNAdd(c, 2, 2);
    } else if k == 3 {
      TurnNAdd(c, 3, 1);
    }
    if k > 0 {
      assert TurnPow(4) == TurnPow(0);
    }
  }

  /** The input is a position of each of its positions. */
  lemma InputInStatesOf<T>(c: CubeState<T>, x: CubeState<T>)
    requires IsCube(c) && x in States(c)
    ensures IsCube(x) && c in States(x)
  {
    var k, j := PositionOf(c, x);
    var turned := TurnN(c, k);
    OrientUndo(turned, j);
    StateNoTurn(x, Undo(j));
    StateInStates(x, 0, Undo(j), turned);
    StatesClosedUnderFaceRotation(x, turned, (4 - k) % 4);
    TurnBack(c, k);
  }

  /** A position has exactly the same 24 positions as the input. */
  lemma SameOrbit<T>(c: CubeState<T>, x: CubeState<T>)
    requires IsCube(c) && x in States(c)
    ensures IsCube(x) && forall y :: y in States(x) <==> y in States(c)
  {
    InputInStatesOf(c, x);
    forall y
      ensures y in States(x) <==> y in States(c)
    {
      if y in States(x) {
        StatesOfState(c, x, y);
      }
      if y in States(c) {
        StatesOfState(x, c, y);
      }
    }
  }

  /** The move behind position (k, j): k quarter turns, then side j brought to the front. */
  function StateMove(k: nat, j: nat): (m: Move)
    requires j < 6
    ensures IsMove(m)
  {
    OrientationMovesValid();
    Then(TurnPow(k), OrientationMoves[j])
  }

  /** Position (k, j) is the input rearranged by StateMove(k, j). */
  lemma StateIsMove<T>(c: CubeState<T>, k: nat, j: nat)
    requires IsCube(c) && j < 6
    ensures State(c, k, j) == Apply(StateMove(k, j), c)
  {
    OrientationMovesValid();
    ApplyThen(TurnPow(k), OrientationMoves[j], c);
  }

  /** The 24 moves behind main's positions, in main's order. */
  function StateMoves(): (r: seq<Move>)
    ensures |r| == 24
    ensures forall k, j :: 0 <= k < 4 && 0 <= j < 6 ==> r[6 * k + j] == StateMove(k, j)
  {
    var r := seq(24, i requires 0 <= i < 24 => StateMove(i / 6, i % 6));
    forall k, j | 0 <= k < 4 && 0 <= j < 6 ensures r[6 * k + j] == StateMove(k, j) {
      assert (6 * k + j) / 6 == k && (6 * k + j) % 6 == j;
    }
    r
  }

  /** The faces a move puts in the front and left slots, as one number; these two fix a whole orientation. */
  function FrontLeft(m: Move): (key: nat)
    requires IsMove(m)
    ensures key < 36
  {
    6 * m.slots[0] + m.slots[1]
  }

  /** The slots of the four turn moves, and the face each orientation puts in the left slot. */
  const TurnSlots: seq<seq<nat>> := [[0, 1, 2, 3, 4, 5], [0, 5, 4, 3, 1, 2], [0, 2, 1, 3, 5, 4], [0, 4, 5, 3, 2, 1]]
  const OrientationLeft: seq<nat> := [1, 3, 0, 2, 1, 1]

  /** FrontLeft of position (k, j), read off the tables. */
  function TableKey(k: nat, j: nat): (key: nat)
    requires k < 4 && j < 6
  {
    6 * TurnSlots[k][j] + TurnSlots[k][OrientationLeft[j]]
  }

  /** For each key, the index 6 * k + j of the position it came from. */
  const KeyRank: seq<nat> := [0, 0, 12, 0, 18, 6, 14, 0, 0, 1, 23, 10, 2, 0, 0, 13, 22, 11, 0, 15, 3, 0, 9, 21, 8, 4, 17, 19, 0, 0, 20, 5, 16, 7, 0, 0]

  /** KeyRank recovers (k, j) from the table key, so different positions have different keys. */
  lemma KeyRankAt(k: nat, j: nat)
    requires k < 4 && j < 6
    ensures TableKey(k, j) < 36 && KeyRank[TableKey(k, j)] == 6 * k + j
  {
    if k == 0 && j == 0 {
    } else if k == 0 && j == 1 {
    } else if k == 0 && j == 2 {
    } else if k == 0 && j == 3 {
    } else if k == 0 && j == 4 {
    } else if k == 0 && j == 5 {
    } else if k == 1 && j == 0 {
    } else if k == 1 && j == 1 {
    } else if k == 1 && j == 2 {
    } else if k == 1 && j == 3 {
    } else if k == 1 && j == 4 {
    } else if k == 1 && j == 5 {
    } else if k == 2 && j == 0 {
    } else if k == 2 && j == 1 {
    } else if k == 2 && j == 2 {
    } else if k == 2 && j == 3 {
    } else if k == 2 && j == 4 {
    } else if k == 2 && j == 5 {
    } else if k == 3 && j == 0 {
    } else if k == 3 && j == 1 {
    } else if k == 3 && j == 2 {
    } else if k == 3 && j == 3 {
    } else if k == 3 && j == 4 {
    } else {
    }
  }

  /** The slots of the move of k quarter turns. */
  lemma TurnSlotsAt(k: nat)
    requires k < 4
    ensures TurnPow(k).slots == TurnSlots[k]
  {
    if k == 0 {
    } else if k == 1 {
    } else if k == 2 {
    } else {
    }
  }

  /** Orientation j puts side j in front and side OrientationLeft[j] on the left. */
  lemma OrientationFrontLeft(j: nat)
    requires j < 6
    ensures IsMove(OrientationMoves[j])
    ensures OrientationMoves[j].slots[0] == j && OrientationMoves[j].slots[1] == OrientationLeft[j]
  {
    OrientationMovesValid();
    if j == 0 {
    } else if j == 1 {
    } else if j == 2 {
    } else if j == 3 {
    } else if j == 4 {
    } else {
    }
  }

  lemma FrontLeftAt(k: nat, j: nat)
    requires k < 4 && j < 6
    ensures FrontLeft(StateMove(k, j)) == TableKey(k, j)
  {
    OrientationFrontLeft(j);
    TurnSlotsAt(k);
    ThenAt(TurnPow(k), OrientationMoves[j], 0);
    ThenAt(TurnPow(k), OrientationMoves[j], 1);
  }

  /** The 24 rearrangements main applies are pairwise different. */
  lemma StateMovesDistinct()
    ensures NoDuplicates(StateMoves())
  {
    var ms := StateMoves();
    forall a, b | 0 <= a < b < 24 ensures ms[a] != ms[b] {
      FrontLeftDistinct(a, b);
    }
  }

  /** Different positions put different faces in the front slot or in the left slot. */
  lemma FrontLeftDistinct(a: nat, b: nat)
    requires a < b < 24
    ensures FrontLeft(StateMoves()[a]) != FrontLeft(StateMoves()[b])
  {
    var ms := StateMoves();
    var ka, ja, kb, jb := a / 6, a % 6, b / 6, b % 6;
    assert a == 6 * ka + ja && b == 6 * kb + jb;
    FrontLeftAt(ka, ja);
    FrontLeftAt(kb, jb);
    KeyRankAt(ka, ja);
    KeyRankAt(kb, jb);
  }

  /** A cube whose 54 stickers all differ has 24 pairwise different positions. */
  lemma StatesDistinct<T>(c: CubeState<T>)
    requires IsCube(c) && NoDuplicates(Flatten(c))
    ensures NoDuplicates(States(c))
  {
    StateMovesDistinct();
    var ms := StateMoves();
    forall a, b | 0 <= a < b < 24 ensures States(c)[a] != States(c)[b] {
      var ka, ja, kb, jb := a / 6, a % 6, b / 6, b % 6;
      assert a == 6 * ka + ja && b == 6 * kb + jb;
      StatesAt(c, ka, ja);
      StatesAt(c, kb, jb);
      StateIsMove(c, ka, ja);
      StateIsMove(c, kb, jb);
      assert ms[a] != ms[b];
      ApplySeparatesMoves(ms[a], ms[b], c);
    }
  }

  /** The six centre stickers of c are all different, as on every real cube. */
  predicate DistinctCentres<T(==)>(c: CubeState<T>)
    requires IsCube(c)
  {
    forall f, g :: 0 <= f < g < 6 ==> c[f][1][1] != c[g][1][1]
  }

  /** A move carries the centre of the face in its slot f to face f: no turn moves a centre. */
  lemma CentreAfterMove<T>(m: Move, c: CubeState<T>, f: nat)
    requires IsMove(m) && IsCube(c) && f < 6
    ensures m.slots[f] < 6 && Apply(m, c)[f][1][1] == c[m.slots[f]][1][1]
  {
    MoveAt(m, f);
    Rot90At(c[m.slots[f]], m.turns[f], 1, 1);
  }

  /** A cube whose six centres differ, as every real cube's do, has 24 pairwise different positions. */
  lemma StatesDistinctCentres<T>(c: CubeState<T>)
    requires IsCube(c) && DistinctCentres(c)
    ensures NoDuplicates(States(c))
  {
    var ms := StateMoves();
    forall a, b | 0 <= a < b < 24 ensures States(c)[a] != States(c)[b] {
      var ka, ja, kb, jb := a / 6, a % 6, b / 6, b % 6;
      assert a == 6 * ka + ja && b == 6 * kb + jb;
      StatesAt(c, ka, ja);
      StatesAt(c, kb, jb);
      StateIsMove(c, ka, ja);
      StateIsMove(c, kb, jb);
      FrontLeftDistinct(a, b);
      var f := if ms[a].slots[0] != ms[b].slots[0] then 0 else 1;
      CentreAfterMove(ms[a], c, f);
      CentreAfterMove(ms[b], c, f);
      assert ms[a].slots[f] != ms[b].slots[f];
      var x, y := ms[a].slots[f], ms[b].slots[f];
      assert c[x][1][1] != c[y][1][1] by {
        if x < y { assert c[x][1][1] != c[y][1][1]; } else { assert c[y][1][1] != c[x][1][1]; }
      }
    }
  }
}
