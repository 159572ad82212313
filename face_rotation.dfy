/**
 * The four whole-cube turns about the axis through the front and back faces
 * (`rotate_face`). One turn rotates the back grid once with rot90 and every other
 * grid three times, then moves the grids between face slots.
 */
module FaceRotation {

  import opened Seqs
  import opened Cube

  /** Slot permutations applied after the first, second and third turn. */
  const FirstRotationPositions: seq<nat> := [0, 5, 4, 3, 1, 2]
  const SecondRotationPositions: seq<nat> := [0, 2, 1, 3, 5, 4]
  const ThirdRotationPositions: seq<nat> := [0, 4, 5, 3, 2, 1]

  /** `[c[i] for i in positions]`. */
  function PickSlots<T>(c: CubeState<T>, positions: seq<nat>): (r: CubeState<T>)
    requires IsCube(c) && |positions| == 6
    requires forall i :: 0 <= i < 6 ==> positions[i] < 6
    ensures IsCube(r)
  {
    seq(6, i requires 0 <= i < 6 => c[positions[i]])
  }

  /** The grids of one turn before they are moved: back rot90 once, the others three times. */
  function Spin<T>(c: CubeState<T>): (r: CubeState<T>)
    requires IsCube(c)
    ensures IsCube(r)
  {
    seq(6, j requires 0 <= j < 6 => if j == Back then Rot90(c[j], 1) else Rot90(c[j], 3))
  }

  /**
   * One quarter turn of the whole cube about the front/back axis, as a Move: slot i
   * takes the grid of slot FirstRotationPositions[i], turned once by rot90 if that
   * is the back grid and three times otherwise.
   */
  const TurnMove: Move := Move(FirstRotationPositions, [3, 3, 3, 1, 3, 3])

  /** One quarter turn: one pass of rotate_face's loop followed by the first slot table. */
  function Turn<T>(c: CubeState<T>): (r: CubeState<T>)
    requires IsCube(c)
    ensures IsCube(r) && r == PickSlots(Spin(c), FirstRotationPositions)
  {
    OnePass(c);
    Apply(TurnMove, c)
  }

  /** Two and three quarter turns, written out; TurnPowStep shows they are TurnMove repeated. */
  const TurnTwice: Move := Move([0, 2, 1, 3, 5, 4], [2, 2, 2, 2, 2, 2])
  const TurnThrice: Move := Move([0, 4, 5, 3, 2, 1], [1, 1, 1, 3, 1, 1])

  /** No turn and one, two and three quarter turns. */
  const TurnPowers: seq<Move> := [Identity, TurnMove, TurnTwice, TurnThrice]

  /** The move of k quarter turns; four quarter turns are none. */
  function TurnPow(k: nat): (m: Move)
    ensures IsMove(m)
  {
    TurnPowers[k % 4]
  }

  /** The input turned k times. */
  function TurnN<T>(c: CubeState<T>, k: nat): (r: CubeState<T>)
    requires IsCube(c)
    ensures IsCube(r)
  {
    Apply(TurnPow(k), c)
  }

  /** The four states `rotate_face` promises: the input and one, two and three quarter turns. */
  function FaceRotations<T>(c: CubeState<T>): (r: seq<CubeState<T>>)
    requires IsCube(c)
    ensures |r| == 4 && r[0] == c
    ensures forall k :: 0 <= k < 4 ==> IsCube(r[k]) && r[k] == TurnN(c, k)
  {
    ApplyIdentity(c);
    [TurnN(c, 0), TurnN(c, 1), TurnN(c, 2), TurnN(c, 3)]
  }

  /**
   * rotate_face: entries 1 to 3 are each spun from the UNPERMUTED previous entry,
   * and the three slot permutations are applied only afterwards; the result is
   * nonetheless the input turned 0, 1, 2 and 3 times.
   */
  method RotateFace<T>(rubiksSetting: CubeState<T>) returns (totalRotations: seq<CubeState<T>>)
    requires IsCube(rubiksSetting)
    ensures totalRotations == FaceRotations(rubiksSetting)
  {
    totalRotations := [rubiksSetting];
    for i := 0 to 3
      invariant |totalRotations| == i + 1
      invariant totalRotations[0] == rubiksSetting
      invariant forall k :: 0 <= k <= i ==> IsCube(totalRotations[k])
      invariant forall k :: 0 <= k < i ==> totalRotations[k + 1] == Spin(totalRotations[k])
    {
      var newRotation := SpinGrids(totalRotations[i]);
      totalRotations := totalRotations + [newRotation];
    }
    SlotTablesGiveTurns(rubiksSetting, totalRotations);
    PositionTables();
    ghost var spun := totalRotations;
    totalRotations := totalRotations[1 := PickSlots(totalRotations[1], FirstRotationPositions)];
    totalRotations := totalRotations[2 := PickSlots(totalRotations[2], SecondRotationPositions)];
    totalRotations := totalRotations[3 := PickSlots(totalRotations[3], ThirdRotationPositions)];
    assert totalRotations == [spun[0], PickSlots(spun[1], FirstRotationPositions),
      PickSlots(spun[2], SecondRotationPositions), PickSlots(spun[3], ThirdRotationPositions)];
  }

  /** Spun entries 1 to 3, each then moved by its own slot table, are the input turned 1 to 3 times. */
  lemma SlotTablesGiveTurns<T>(c: CubeState<T>, spun: seq<CubeState<T>>)
    requires IsCube(c) && |spun| == 4 && spun[0] == c
    requires forall k :: 0 <= k < 4 ==> IsCube(spun[k])
    requires forall k :: 0 <= k < 3 ==> spun[k + 1] == Spin(spun[k])
    ensures [c, PickSlots(spun[1], FirstRotationPositions), PickSlots(spun[2], SecondRotationPositions),
             PickSlots(spun[3], ThirdRotationPositions)] == FaceRotations(c)
  {
    assert spun[1] == Spin(c) && spun[2] == Spin(Spin(c)) && spun[3] == Spin(Spin(Spin(c)));
    LiteralTurns(c);
    ApplyIdentity(c);
  }

  /** The inner loop of rotate_face: rot90 the back grid once and every other grid three times. */
  method SpinGrids<T>(setting: CubeState<T>) returns (newRotation: CubeState<T>)
    requires IsCube(setting)
    ensures newRotation == Spin(setting)
  {
    newRotation := [];
    for j := 0 to 6
      invariant |newRotation| == j
      invariant forall jj :: 0 <= jj < j ==> newRotation[jj] == Spin(setting)[jj]
    {
      if j == 3 {
        newRotation := newRotation + [Rot90(setting[j], 1)];
      } else {
        newRotation := newRotation + [Rot90(setting[j], 3)];
      }
    }
  }

  lemma ModFourStep(k: nat)
    ensures k % 4 == 3 ==> (k + 1) % 4 == 0
    ensures k % 4 < 3 ==> (k + 1) % 4 == k % 4 + 1
  {
  }

  /** k + 1 turns are k turns followed by one more: TurnPow is TurnMove iterated. */
  lemma TurnPowStep(k: nat)
    ensures TurnPow(k + 1) == Then(TurnPow(k), TurnMove)
  {
    ModFourStep(k);
    if k % 4 == 0 {
      assert Then(Identity, TurnMove) == TurnMove;
    } else if k % 4 == 1 {
      assert Then(TurnMove, TurnMove) == TurnTwice;
    } else if k % 4 == 2 {
      assert Then(TurnTwice, TurnMove) == TurnThrice;
    } else {
      assert Then(TurnThrice, TurnMove) == Identity;
    }
  }

  /** Turning k + 1 times is turning k times and then once more. */
  lemma TurnNStep<T>(c: CubeState<T>, k: nat)
    requires IsCube(c)
    ensures TurnN(c, k + 1) == Turn(TurnN(c, k))
  {
    TurnPowStep(k);
    ApplyThen(TurnPow(k), TurnMove, c);
  }

  /** Facts about the three slot tables: each keeps the back slot where it is. */
  lemma PositionTables()
    ensures |FirstRotationPositions| == |SecondRotationPositions| == |ThirdRotationPositions| == 6
    ensures forall i :: 0 <= i < 6 ==> FirstRotationPositions[i] < 6 && SecondRotationPositions[i] < 6 && ThirdRotationPositions[i] < 6
  {
  }

  /** The spin of one loop pass as a Move that leaves every grid in its slot. */
  const SpinMove: Move := Move([0, 1, 2, 3, 4, 5], [3, 3, 3, 1, 3, 3])

  /** A slot permutation as a Move that turns nothing. */
  function SlotMove(positions: seq<nat>): (m: Move)
    requires |positions| == 6 && forall i :: 0 <= i < 6 ==> positions[i] < 6
    ensures IsMove(m)
  {
    Move(positions, [0, 0, 0, 0, 0, 0])
  }

  lemma SpinIsMove<T>(c: CubeState<T>)
    requires IsCube(c)
    ensures IsMove(SpinMove) && Spin(c) == Apply(SpinMove, c)
  {
    var r, s := Spin(c), Apply(SpinMove, c);
    forall i | 0 <= i < 6 ensures r[i] == s[i] {
      if i == 3 {
        assert SpinMove.turns[i] == 1;
      } else {
        assert SpinMove.turns[i] == 3;
      }
    }
  }

  lemma PickSlotsIsMove<T>(c: CubeState<T>, positions: seq<nat>)
    requires IsCube(c) && |positions| == 6
    requires forall i :: 0 <= i < 6 ==> positions[i] < 6
    ensures PickSlots(c, positions) == Apply(SlotMove(positions), c)
  {
    var r, s := PickSlots(c, positions), Apply(SlotMove(positions), c);
    forall i | 0 <= i < 6 ensures r[i] == s[i] {
      assert SlotMove(positions).turns[i] == 0;
    }
  }

  /** The move algebra behind the literal tables: spins followed by each table give one, two and three turns. */
  lemma LiteralTurnMoves()
    ensures Then(SpinMove, SlotMove(FirstRotationPositions)) == TurnPow(1)
    ensures Then(Then(SpinMove, SpinMove), SlotMove(SecondRotationPositions)) == TurnPow(2)
    ensures Then(Then(Then(SpinMove, SpinMove), SpinMove), SlotMove(ThirdRotationPositions)) == TurnPow(3)
  {
    var s2 := Then(SpinMove, SpinMove);
    assert s2 == Move([0, 1, 2, 3, 4, 5], [2, 2, 2, 2, 2, 2]);
    assert Then(s2, SpinMove) == Move([0, 1, 2, 3, 4, 5], [1, 1, 1, 3, 1, 1]);
  }

  /** Spinning one, two and three times and then applying the literal table gives one, two and three turns. */
  lemma LiteralTurns<T>(c: CubeState<T>)
    requires IsCube(c)
    ensures PickSlots(Spin(c), FirstRotationPositions) == TurnN(c, 1)
    ensures PickSlots(Spin(Spin(c)), SecondRotationPositions) == TurnN(c, 2)
    ensures PickSlots(Spin(Spin(Spin(c))), ThirdRotationPositions) == TurnN(c, 3)
  {
    PositionTables();
    LiteralTurnMoves();
    var s := SpinMove;
    var c1 := Spin(c);
    var c2 := Spin(c1);
    var c3 := Spin(c2);
    SpinIsMove(c);
    SpinIsMove(c1);
    SpinIsMove(c2);
    ApplyThen(s, s, c);
    ApplyThen(Then(s, s), s, c);
    PickSlotsIsMove(c1, FirstRotationPositions);
    PickSlotsIsMove(c2, SecondRotationPositions);
    PickSlotsIsMove(c3, ThirdRotationPositions);
    ApplyThen(s, SlotMove(FirstRotationPositions), c);
    ApplyThen(Then(s, s), SlotMove(SecondRotationPositions), c);
    ApplyThen(Then(Then(s, s), s), SlotMove(ThirdRotationPositions), c);
  }

  /** The move TurnMove is one spin followed by the first slot table. */
  lemma OnePass<T>(c: CubeState<T>)
    requires IsCube(c)
    ensures Apply(TurnMove, c) == PickSlots(Spin(c), FirstRotationPositions)
  {
    PositionTables();
    LiteralTurnMoves();
    SpinIsMove(c);
    PickSlotsIsMove(Spin(c), FirstRotationPositions);
    ApplyThen(SpinMove, SlotMove(FirstRotationPositions), c);
  }

  /** Four quarter turns give back the input. */
  lemma {:induction false} TurnFour<T>(c: CubeState<T>)
    requires IsCube(c)
    ensures Turn(Turn(Turn(Turn(c)))) == c
  {
    ApplyIdentity(c);
    TurnNStep(c, 0);
    TurnNStep(c, 1);
    TurnNStep(c, 2);
    TurnNStep(c, 3);
  }

  /** Rows of the turn table: no turn, one, two or three quarter turns, followed by b more. */
  lemma TurnPowRow0(b: nat)
    requires b < 4
    ensures Then(TurnPow(0), TurnPow(b)) == TurnPow(0 + b)
  {
    assert TurnPow(0) == Identity;
    if b == 0 {
      assert TurnPow(b) == Identity && TurnPow(0 + b) == Identity;
      assert Then(Identity, Identity) == Identity;
    } else if b == 1 {
      assert TurnPow(b) == TurnMove && TurnPow(0 + b) == TurnMove;
      assert Then(Identity, TurnMove) == TurnMove;
    } else if b == 2 {
      assert TurnPow(b) == TurnTwice && TurnPow(0 + b) == TurnTwice;
      assert Then(Identity, TurnTwice) == TurnTwice;
    } else {
      assert TurnPow(b) == TurnThrice && TurnPow(0 + b) == TurnThrice;
      assert Then(Identity, TurnThrice) == TurnThrice;
    }
  }

  lemma TurnPowRow1(b: nat)
    requires b < 4
    ensures Then(TurnPow(1), TurnPow(b)) == TurnPow(1 + b)
  {
    assert TurnPow(1) == TurnMove;
    if b == 0 {
      assert TurnPow(b) == Identity && TurnPow(1 + b) == TurnMove;
      assert Then(TurnMove, Identity) == TurnMove;
    } else if b == 1 {
      assert TurnPow(b) == TurnMove && TurnPow(1 + b) == TurnTwice;
      assert Then(TurnMove, TurnMove) == TurnTwice;
    } else if b == 2 {
      assert TurnPow(b) == TurnTwice && TurnPow(1 + b) == TurnThrice;
      assert Then(TurnMove, TurnTwice) == TurnThrice;
    } else {
      assert TurnPow(b) == TurnThrice && TurnPow(1 + b) == Identity;
      assert Then(TurnMove, TurnThrice) == Identity;
    }
  }

  lemma TurnPowRow2(b: nat)
    requires b < 4
    ensures Then(TurnPow(2), TurnPow(b)) == TurnPow(2 + b)
  {
    assert TurnPow(2) == TurnTwice;
    if b == 0 {
      assert TurnPow(b) == Identity && TurnPow(2 + b) == TurnTwice;
      assert Then(TurnTwice, Identity) == TurnTwice;
    } else if b == 1 {
      assert TurnPow(b) == TurnMove && TurnPow(2 + b) == TurnThrice;
      assert Then(TurnTwice, TurnMove) == TurnThrice;
    } else if b == 2 {
      assert TurnPow(b) == TurnTwice && TurnPow(2 + b) == Identity;
      assert Then(TurnTwice, TurnTwice) == Identity;
    } else {
      assert TurnPow(b) == TurnThrice && TurnPow(2 + b) == TurnMove;
      assert Then(TurnTwice, TurnThrice) == TurnMove;
    }
  }

  lemma TurnPowRow3(b: nat)
    requires b < 4
    ensures Then(TurnPow(3), TurnPow(b)) == TurnPow(3 + b)
  {
    assert TurnPow(3) == TurnThrice;
    if b == 0 {
      assert TurnPow(b) == Identity && TurnPow(3 + b) == TurnThrice;
      assert Then(TurnThrice, Identity) == TurnThrice;
    } else if b == 1 {
      assert TurnPow(b) == TurnMove && TurnPow(3 + b) == Identity;
      assert Then(TurnThrice, TurnMove) == Identity;
    } else if b == 2 {
      assert TurnPow(b) == TurnTwice && TurnPow(3 + b) == TurnMove;
      assert Then(TurnThrice, TurnTwice) == TurnMove;
    } else {
      assert TurnPow(b) == TurnThrice && TurnPow(3 + b) == TurnTwice;
      assert Then(TurnThrice, TurnThrice) == TurnTwice;
    }
  }

  /** k quarter turns followed by j are k + j quarter turns. */
  lemma TurnPowAdd(k: nat, j: nat)
    requires k < 4 && j < 4
    ensures Then(TurnPow(k), TurnPow(j)) == TurnPow(k + j)
  {
    if k == 0 {
      TurnPowRow0(j);
    } else if k == 1 {
      TurnPowRow1(j);
    } else if k == 2 {
      TurnPowRow2(j);
    } else {
      TurnPowRow3(j);
    }
  }

  /** Turning k times and then j times is turning k + j times. */
  lemma TurnNAdd<T>(c: CubeState<T>, k: nat, j: nat)
    requires IsCube(c) && k < 4 && j < 4
    ensures TurnN(TurnN(c, k), j) == TurnN(c, k + j)
  {
    TurnPowAdd(k, j);
    ApplyThen(TurnPow(k), TurnPow(j), c);
  }

  /**
   * rotate_face applied to any of its own outputs gives the same four states,
   * shifted: the k-th output's j-th rotation is the original's (k + j) % 4-th.
   */
  lemma FaceRotationsClosed<T>(c: CubeState<T>, k: nat, j: nat)
    requires IsCube(c) && k < 4 && j < 4
    ensures FaceRotations(FaceRotations(c)[k])[j] == FaceRotations(c)[(k + j) % 4]
  {
    var x := FaceRotations(c)[k];
    assert x == TurnN(c, k);
    assert FaceRotations(x)[j] == TurnN(x, j);
    TurnNAdd(c, k, j);
    TurnPowMod(k + j);
  }

  /** Only the number of turns modulo four matters. */
  lemma TurnPowMod(n: nat)
    ensures TurnPow(n % 4) == TurnPow(n)
  {
    assert (n % 4) % 4 == n % 4;
  }

  /** Each of the four turn moves takes every old grid exactly once. */
  lemma TurnPowUsesEachFaceOnce(k: nat)
    ensures UsesEachFaceOnce(TurnPow(k))
  {
    assert TurnPow(k) in TurnPowers;
  }

  /** Every output of rotate_face holds the input's 54 stickers, each once. */
  lemma FaceRotationKeepsStickers<T>(c: CubeState<T>, k: nat)
    requires IsCube(c) && k < 4
    ensures multiset(Flatten(FaceRotations(c)[k])) == multiset(Flatten(c))
  {
    TurnPowUsesEachFaceOnce(k);
    ApplyKeepsStickers(TurnPow(k), c);
  }
}
