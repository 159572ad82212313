/**
 * A cube state: six 3×3 sticker grids, one per face, in the fixed face order
 * front, left, right, back, top, bottom. Every whole-cube rearrangement used by
 * the canonicaliser moves each face grid into some face slot and turns it by a
 * multiple of 90 degrees; such a rearrangement is a `Move`.
 */
module Cube {

  import opened Seqs

  /** A 3×3 grid of stickers, row by row. */
  type Grid<T> = seq<seq<T>>

  /** Six grids in the order front, left, right, back, top, bottom. */
  type CubeState<T> = seq<Grid<T>>

  /** The slot of the back face, the one grid rotate_face turns the other way. */
  const Back: nat := 3

  predicate IsGrid<T>(g: Grid<T>) {
    |g| == 3 && |g[0]| == 3 && |g[1]| == 3 && |g[2]| == 3
  }

  predicate IsCube<T>(c: CubeState<T>) {
    |c| == 6 && forall f :: 0 <= f < 6 ==> IsGrid(c[f])
  }

  /** Two grids with the same cells are the same grid. */
  lemma GridExt<T>(g: Grid<T>, h: Grid<T>)
    requires IsGrid(g) && IsGrid(h)
    requires forall i, j :: 0 <= i < 3 && 0 <= j < 3 ==> g[i][j] == h[i][j]
    ensures g == h
  {
    assert g[0] == h[0] by { assert forall j :: 0 <= j < 3 ==> g[0][j] == h[0][j]; }
    assert g[1] == h[1] by { assert forall j :: 0 <= j < 3 ==> g[1][j] == h[1][j]; }
    assert g[2] == h[2] by { assert forall j :: 0 <= j < 3 ==> g[2][j] == h[2][j]; }
  }

  /**
   * numpy's rot90 on a 3×3 grid: k quarter turns counter-clockwise. Cell (i, j) of
   * the result is m[j][2-i] after one turn, m[2-i][2-j] after two and m[2-j][i]
   * after three (Rot90At).
   */
  function Rot90<T>(m: Grid<T>, k: nat): (r: Grid<T>)
    requires IsGrid(m)
    ensures IsGrid(r)
  {
    if k % 4 == 0 then m
    else if k % 4 == 1 then [[m[0][2], m[1][2], m[2][2]], [m[0][1], m[1][1], m[2][1]], [m[0][0], m[1][0], m[2][0]]]
    else if k % 4 == 2 then [[m[2][2], m[2][1], m[2][0]], [m[1][2], m[1][1], m[1][0]], [m[0][2], m[0][1], m[0][0]]]
    else [[m[2][0], m[1][0], m[0][0]], [m[2][1], m[1][1], m[0][1]], [m[2][2], m[1][2], m[0][2]]]
  }

  /** Turning by a and then by b is turning by a + b; in particular four turns are none. */
  lemma Rot90Compose<T>(m: Grid<T>, a: nat, b: nat)
    requires IsGrid(m)
    ensures Rot90(Rot90(m, a), b) == Rot90(m, a + b)
  {
    var r, s := Rot90(Rot90(m, a), b), Rot90(m, a + b);
    forall i, j | 0 <= i < 3 && 0 <= j < 3
      ensures r[i][j] == s[i][j]
    {
    }
    GridExt(r, s);
  }

  lemma Rot90Mod<T>(m: Grid<T>, k: nat)
    requires IsGrid(m)
    ensures Rot90(m, k % 4) == Rot90(m, k)
  {
  }

  /** numpy's flatten of the 6×3×3 array: faces in order, each face row by row. */
  function Flatten<T>(c: CubeState<T>): (s: seq<T>)
    requires IsCube(c)
    ensures |s| == 54
  {
    seq(54, p requires 0 <= p < 54 => c[p / 9][(p % 9) / 3][p % 3])
  }

  /** Position p of a flattening is row (p % 9) / 3, column p % 3 of face p / 9. */
  lemma FlatIndex(p: int)
    requires 0 <= p < 54
    ensures 0 <= p / 9 < 6 && 0 <= (p % 9) / 3 < 3 && 0 <= p % 3 < 3
    ensures p == 9 * (p / 9) + 3 * ((p % 9) / 3) + p % 3
  {
  }

  /** Sticker (f, i, j) lands at position 9f + 3i + j of the flattening. */
  lemma FlattenAt<T>(c: CubeState<T>, f: nat, i: nat, j: nat)
    requires IsCube(c) && f < 6 && i < 3 && j < 3
    ensures Flatten(c)[9 * f + 3 * i + j] == c[f][i][j]
  {
    var p := 9 * f + 3 * i + j;
    assert p / 9 == f && (p % 9) / 3 == i && p % 3 == j;
  }

  /** The inverse of Flatten: 54 stickers read back into six row-major grids. */
  function Unflatten<T>(s: seq<T>): (c: CubeState<T>)
    requires |s| == 54
    ensures IsCube(c) && Flatten(c) == s
  {
    var c := seq(6, f requires 0 <= f < 6 =>
      seq(3, i requires 0 <= i < 3 => seq(3, j requires 0 <= j < 3 => s[9 * f + 3 * i + j])));
    assert IsCube(c);
    forall p | 0 <= p < 54 ensures Flatten(c)[p] == s[p] {
      FlatIndex(p);
    }
    c
  }

  /** Flattening loses nothing: reading the 54 stickers back gives the cube. */
  lemma UnflattenFlatten<T>(c: CubeState<T>)
    requires IsCube(c)
    ensures Unflatten(Flatten(c)) == c
  {
    var d := Unflatten(Flatten(c));
    forall f | 0 <= f < 6 ensures d[f] == c[f] {
      forall i, j | 0 <= i < 3 && 0 <= j < 3 ensures d[f][i][j] == c[f][i][j] {
        FlattenAt(c, f, i, j);
      }
      GridExt(d[f], c[f]);
    }
  }

  /** Repainting: every sticker x becomes f(x). */
  function MapGrid<T, U>(f: T -> U, g: Grid<T>): (r: Grid<U>)
    requires IsGrid(g)
    ensures IsGrid(r)
  {
    [[f(g[0][0]), f(g[0][1]), f(g[0][2])],
     [f(g[1][0]), f(g[1][1]), f(g[1][2])],
     [f(g[2][0]), f(g[2][1]), f(g[2][2])]]
  }

  function MapCube<T, U>(f: T -> U, c: CubeState<T>): (r: CubeState<U>)
    requires IsCube(c)
    ensures IsCube(r)
  {
    seq(6, k requires 0 <= k < 6 => MapGrid(f, c[k]))
  }

  function MapSeq<T, U>(f: T -> U, s: seq<T>): (r: seq<U>)
    ensures |r| == |s|
  {
    seq(|s|, i requires 0 <= i < |s| => f(s[i]))
  }

  /** Turning commutes with repainting. */
  lemma Rot90MapGrid<T, U>(f: T -> U, g: Grid<T>, k: nat)
    requires IsGrid(g)
    ensures Rot90(MapGrid(f, g), k) == MapGrid(f, Rot90(g, k))
  {
    var r, s := Rot90(MapGrid(f, g), k), MapGrid(f, Rot90(g, k));
    forall i, j | 0 <= i < 3 && 0 <= j < 3
      ensures r[i][j] == s[i][j]
    {
    }
    GridExt(r, s);
  }

  /** Flattening commutes with repainting. */
  lemma FlattenMapCube<T, U>(f: T -> U, c: CubeState<T>)
    requires IsCube(c)
    ensures Flatten(MapCube(f, c)) == MapSeq(f, Flatten(c))
  {
    var d := MapCube(f, c);
    forall p | 0 <= p < 54 ensures Flatten(d)[p] == MapSeq(f, Flatten(c))[p] {
      FlatIndex(p);
    }
  }

  /**
   * A whole-cube rearrangement: face slot i of the result holds the grid of
   * slot `slots[i]` of the input, turned `turns[i]` times by rot90.
   */
  datatype Move = Move(slots: seq<nat>, turns: seq<nat>)

  predicate IsMove(m: Move) {
    && |m.slots| == 6 && |m.turns| == 6
    && m.slots[0] < 6 && m.slots[1] < 6 && m.slots[2] < 6 && m.slots[3] < 6 && m.slots[4] < 6 && m.slots[5] < 6
    && m.turns[0] < 4 && m.turns[1] < 4 && m.turns[2] < 4 && m.turns[3] < 4 && m.turns[4] < 4 && m.turns[5] < 4
  }

  /** Slot i of a move names a face and a number of quarter turns. */
  lemma MoveAt(m: Move, i: nat)
    requires IsMove(m) && i < 6
    ensures m.slots[i] < 6 && m.turns[i] < 4
  {
  }

  /** Every slot of a move names a face and a number of quarter turns. */
  lemma MoveSlots(m: Move)
    requires IsMove(m)
    ensures forall i :: 0 <= i < 6 ==> m.slots[i] < 6 && m.turns[i] < 4
  {
  }

  const Identity: Move := Move([0, 1, 2, 3, 4, 5], [0, 0, 0, 0, 0, 0])

  function Apply<T>(m: Move, c: CubeState<T>): (r: CubeState<T>)
    requires IsMove(m) && IsCube(c)
    ensures IsCube(r)
  {
    seq(6, i requires 0 <= i < 6 => Rot90(c[m.slots[i]], m.turns[i]))
  }

  /** Quarter-turn counts add modulo four. */
  function AddTurns(x: nat, y: nat): (r: nat)
    requires x < 4 && y < 4
    ensures r < 4 && r == (x + y) % 4
  {
    if x + y >= 4 then x + y - 4 else x + y
  }

  /** Two turns by rot90 are one turn by their sum modulo four. */
  lemma Rot90AddTurns<T>(m: Grid<T>, x: nat, y: nat)
    requires IsGrid(m) && x < 4 && y < 4
    ensures Rot90(Rot90(m, x), y) == Rot90(m, AddTurns(x, y))
  {
    Rot90Compose(m, x, y);
    Rot90Mod(m, x + y);
  }

  /** The move that performs a and then b. */
  function Then(a: Move, b: Move): (r: Move)
    requires IsMove(a) && IsMove(b)
    ensures IsMove(r)
  {
    MoveSlots(a);
    Move([a.slots[b.slots[0]], a.slots[b.slots[1]], a.slots[b.slots[2]],
          a.slots[b.slots[3]], a.slots[b.slots[4]], a.slots[b.slots[5]]],
         [AddTurns(a.turns[b.slots[0]], b.turns[0]), AddTurns(a.turns[b.slots[1]], b.turns[1]),
          AddTurns(a.turns[b.slots[2]], b.turns[2]), AddTurns(a.turns[b.slots[3]], b.turns[3]),
          AddTurns(a.turns[b.slots[4]], b.turns[4]), AddTurns(a.turns[b.slots[5]], b.turns[5])])
  }

  /** Slot i of a-then-b takes the grid a put in slot b.slots[i], turned by both. */
  lemma ThenAt(a: Move, b: Move, i: nat)
    requires IsMove(a) && IsMove(b) && i < 6
    ensures b.slots[i] < 6
    ensures Then(a, b).slots[i] == a.slots[b.slots[i]]
    ensures Then(a, b).turns[i] == AddTurns(a.turns[b.slots[i]], b.turns[i])
  {
    MoveAt(b, i);
  }

  lemma ApplyIdentity<T>(c: CubeState<T>)
    requires IsCube(c)
    ensures Apply(Identity, c) == c
  {
    var r := Apply(Identity, c);
    assert forall i :: 0 <= i < 6 ==> r[i] == c[i];
  }

  /**
   * Slot i after a and then b holds what slot i of any move t holds whose slot i
   * takes a's grid from slot b.slots[i], turned by both.
   */
  lemma ApplyComposedAt<T>(a: Move, b: Move, t: Move, c: CubeState<T>, i: nat)
    requires IsMove(a) && IsMove(b) && IsMove(t) && IsCube(c) && i < 6
    requires t.slots[i] == a.slots[b.slots[i]]
    requires t.turns[i] == AddTurns(a.turns[b.slots[i]], b.turns[i])
    ensures Apply(b, Apply(a, c))[i] == Apply(t, c)[i]
  {
    MoveAt(b, i);
    var k := b.slots[i];
    MoveAt(a, k);
    MoveAt(t, i);
    calc {
      Apply(b, Apply(a, c))[i];
      Rot90(Apply(a, c)[k], b.turns[i]);
      Rot90(Rot90(c[a.slots[k]], a.turns[k]), b.turns[i]);
      { Rot90AddTurns(c[a.slots[k]], a.turns[k], b.turns[i]); }
      Rot90(c[t.slots[i]], t.turns[i]);
    }
  }

  /** Composition of moves is composition of their effects. */
  lemma ApplyThen<T>(a: Move, b: Move, c: CubeState<T>)
    requires IsMove(a) && IsMove(b) && IsCube(c)
    ensures Apply(b, Apply(a, c)) == Apply(Then(a, b), c)
  {
    var t := Then(a, b);
    var r, s := Apply(b, Apply(a, c)), Apply(t, c);
    forall i | 0 <= i < 6 ensures r[i] == s[i] {
      ThenAt(a, b, i);
      ApplyComposedAt(a, b, t, c, i);
    }
  }

  /** Repainting commutes with every move. */
  lemma ApplyMapCube<T, U>(f: T -> U, m: Move, c: CubeState<T>)
    requires IsMove(m) && IsCube(c)
    ensures Apply(m, MapCube(f, c)) == MapCube(f, Apply(m, c))
  {
    var r, s := Apply(m, MapCube(f, c)), MapCube(f, Apply(m, c));
    forall i | 0 <= i < 6 ensures r[i] == s[i] {
      Rot90MapGrid(f, c[m.slots[i]], m.turns[i]);
    }
  }

  /** The slots of m are six distinct faces: every input face is used exactly once. */
  predicate UsesEachFaceOnce(m: Move)
    requires IsMove(m)
  {
    NoDuplicates(m.slots)
  }

  /** The cell, numbered 3 * row + column, that k quarter turns bring to row i, column j. */
  function RotSource(k: nat, i: nat, j: nat): (n: nat)
    requires i < 3 && j < 3
    ensures n < 9
  {
    if k % 4 == 0 then 3 * i + j
    else if k % 4 == 1 then 3 * j + (2 - i)
    else if k % 4 == 2 then 3 * (2 - i) + (2 - j)
    else 3 * (2 - j) + i
  }

  lemma Rot90At<T>(m: Grid<T>, k: nat, i: nat, j: nat)
    requires IsGrid(m) && i < 3 && j < 3
    ensures Rot90(m, k)[i][j] == m[RotSource(k, i, j) / 3][RotSource(k, i, j) % 3]
  {
  }

  /** For each of the 54 stickers after m, the position it had before m. */
  function StickerSource(m: Move): (src: seq<nat>)
    requires IsMove(m)
    ensures |src| == 54
  {
    seq(54, p requires 0 <= p < 54 => 9 * m.slots[p / 9] + RotSource(m.turns[p / 9], (p % 9) / 3, p % 3))
  }

  /** Sticker p after m is the sticker that was at StickerSource(m)[p] before. */
  lemma ApplySource<T>(m: Move, c: CubeState<T>)
    requires IsMove(m) && IsCube(c)
    ensures forall p :: 0 <= p < 54 ==>
      StickerSource(m)[p] < 54 && Flatten(Apply(m, c))[p] == Flatten(c)[StickerSource(m)[p]]
  {
    forall p | 0 <= p < 54 ensures StickerSource(m)[p] < 54 && Flatten(Apply(m, c))[p] == Flatten(c)[StickerSource(m)[p]] {
      ApplySourceAt(m, c, p);
    }
  }

  lemma ApplySourceAt<T>(m: Move, c: CubeState<T>, p: nat)
    requires IsMove(m) && IsCube(c) && p < 54
    ensures StickerSource(m)[p] < 54 && Flatten(Apply(m, c))[p] == Flatten(c)[StickerSource(m)[p]]
  {
    var f, i, j := p / 9, (p % 9) / 3, p % 3;
    FlatIndex(p);
    MoveAt(m, f);
    var n := RotSource(m.turns[f], i, j);
    Rot90At(c[m.slots[f]], m.turns[f], i, j);
    FlattenAt(c, m.slots[f], n / 3, n % 3);
  }

  /** Cubes with the same pattern of equal stickers keep sharing it after any move. */
  lemma ApplyKeepsPattern<T, U>(m: Move, a: CubeState<T>, b: CubeState<U>)
    requires IsMove(m) && IsCube(a) && IsCube(b) && SamePattern(Flatten(a), Flatten(b))
    ensures SamePattern(Flatten(Apply(m, a)), Flatten(Apply(m, b)))
  {
    ApplySource(m, a);
    ApplySource(m, b);
  }

  /**
   * On a cube whose 54 stickers all differ, different moves give different
   * cubes: the centre of slot f shows which face went there, and its corner
   * cell shows how far that face was turned.
   */
  lemma ApplySeparatesMoves<T>(m: Move, n: Move, c: CubeState<T>)
    requires IsMove(m) && IsMove(n) && IsCube(c) && NoDuplicates(Flatten(c)) && m != n
    ensures Apply(m, c) != Apply(n, c)
  {
    var p := SourcesDiffer(m, n);
    ApplySourceAt(m, c, p);
    ApplySourceAt(n, c, p);
    var s := Flatten(c);
    var a, b := StickerSource(m)[p], StickerSource(n)[p];
    assert s[a] != s[b] by {
      if a < b { assert s[a] != s[b]; } else { assert s[b] != s[a]; }
    }
    assert Flatten(Apply(m, c))[p] != Flatten(Apply(n, c))[p];
  }

  /** Two different moves fetch some sticker from different places. */
  lemma SourcesDiffer(m: Move, n: Move) returns (p: nat)
    requires IsMove(m) && IsMove(n) && m != n
    ensures p < 54 && StickerSource(m)[p] != StickerSource(n)[p]
  {
    var f :| 0 <= f < 6 && (m.slots[f] != n.slots[f] || m.turns[f] != n.turns[f]);
    MoveAt(m, f);
    MoveAt(n, f);
    p := if m.slots[f] != n.slots[f] then 9 * f + 4 else 9 * f;
    assert p / 9 == f && (p % 9) / 3 == (if p == 9 * f then 0 else 1) && p % 3 == (if p == 9 * f then 0 else 1);
  }

  /**
   * A move that uses every face once, each turned by a multiple of 90 degrees,
   * keeps the 54 stickers: it only rearranges them.
   */
  lemma ApplyKeepsStickers<T>(m: Move, c: CubeState<T>)
    requires IsMove(m) && UsesEachFaceOnce(m) && IsCube(c)
    ensures multiset(Flatten(Apply(m, c))) == multiset(Flatten(c))
  {
    var s, t, src := Flatten(c), Flatten(Apply(m, c)), StickerSource(m);
    ApplySource(m, c);
    forall p, q | 0 <= p < q < 54 ensures src[p] != src[q] {
      FlatIndex(p);
      FlatIndex(q);
      var f, g := p / 9, q / 9;
      MoveAt(m, f);
      if f != g {
        assert m.slots[f] != m.slots[g];
      } else {
        RotSourceInjective(m.turns[f], (p % 9) / 3, p % 3, (q % 9) / 3, q % 3);
      }
    }
    ReindexMultiset(s, t, src);
  }

  lemma RotSourceInjective(k: nat, i: nat, j: nat, i': nat, j': nat)
    requires i < 3 && j < 3 && i' < 3 && j' < 3
    ensures RotSource(k, i, j) == RotSource(k, i', j') ==> i == i' && j == j'
  {
  }
}
