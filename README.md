# Canonical form of a Rubik's-cube sticker layout

This project models the canonical-form pipeline of `rubiks.py`. A cube layout
is six 3×3 grids of colours, in the order front, left, right, back, top,
bottom. `main` turns a layout into a 54-character string of digits that is
meant to be the same for every layout that differs from it only by:

- how the cube is held, or
- which colours are used.

The pipeline has five parts, and the model follows each one:

- **`rotate_face`** builds the four quarter-turn positions about the
  front-back axis. It is a `method` with the source's two nested loops
  (`FaceRotation.RotateFace`, with its inner loop in
  `FaceRotation.SpinGrids`). It is proved equal to the specification
  `FaceRotations`, whose entry k is the input turned k times. That turn is
  proved equal to one quarter turn iterated k times
  (`FaceRotation.TurnNStep`), and one quarter turn is proved equal to one
  pass of the source's loop followed by its first slot table
  (`FaceRotation.Turn`).
- **`rotate_cube_orientation`** brings each of the six faces to the
  front. It is a function over five literal tables
  (`Orientation.RotateCubeOrientation`). Each table is also read as a
  `Move`: a slot permutation plus a number of `rot90` quarter turns per
  face.
- **`permute_colors`** gives the 720 relabellings of the flattened
  stickers.
  - For each ordering of the labels 1..6, in `itertools` order, the k-th
    distinct colour met in scan order receives the k-th label of the
    ordering.
  - The scan is a `method` with the source's dictionary and counter
    (`ColorPermutation.RelabelScan`). It is proved equal to the function
    `Relabel`.
  - A cube with more than six colours makes the source index past the end
    of the ordering. The model returns `None` for it.
- **`compute_canonical_form`** is the filtering `while` loop
  (`CanonicalForm.ComputeCanonicalForm`). It is proved to return the
  lexicographic minimum, on the first 54 entries, of the candidate list
  (`LexMinOf`).
- **`main`** collects 4 × 6 positions and then 24 × 720 candidates, and
  writes the chosen one as digits (`Pipeline.Canonicalize`).
  - The result is the same for every one of the 24 positions of the cube.
  - It is the same after any one-to-one recolouring.
  - Two layouts get the same string exactly when some position of the first
    repeats a colour at exactly the places where the second does
    (`Pipeline.CanonicalStringIff`). In particular, the string separates
    layouts that no holding and no recolouring can make equal.
  - For every solved cube with six different face colours it is `111111111222222222333333333444444444555555555666666666`.

The colours are a type parameter `T` with equality, so no alphabet is fixed.
`rot90` is modelled by its index map on a 3×3 grid. numpy's `flatten` is
modelled as face-major, row-major order.

Modules:

- `Seqs`: list helpers.
- `Cube`: grids, `rot90`, flatten, and whole-cube moves with their
  composition.
- `FaceRotation`: `rotate_face`.
- `Orientation`: `rotate_cube_orientation`.
- `Orbit`: the 24 positions built by `main`.
- `Permutations`: `itertools.permutations`.
- `ColorPermutation`: `permute_colors`.
- `CanonicalForm`: `compute_canonical_form`.
- `Pipeline`: `main`.
- `SolvedCube`: solved cubes.

## Model

| member | source | states |
|---|---|---|
| FaceRotation.RotateFace | rubiks.py:68-88 | Builds the four positions with the literal loops and the three slot tables. The result equals `FaceRotations` of the input. |
| FaceRotation.SpinGrids | rubiks.py:71-76 | The inner loop turns the back grid once and every other grid three times. Every face keeps its slot. |
| FaceRotation.FaceRotations | rubiks.py:68-88 | Exactly four positions. The first is the input. Entry k is the input after k quarter turns. |
| FaceRotation.LiteralTurns | rubiks.py:70-86 | Spinning the unpermuted grids one, two and three times and then applying the first, second and third slot table gives one, two and three iterated quarter turns. |
| FaceRotation.Spin | rubiks.py:71-76 | One pass of the inner loop gives a cube again. |
| FaceRotation.SpinIsMove | rubiks.py:71-76 | That pass is the whole-cube move that keeps every grid in its slot, turning the back grid once and every other grid three times. |
| FaceRotation.PickSlots | rubiks.py:80-86 | Choosing grid `positions[i]` for slot i, by a table of six slots, gives a cube again. |
| FaceRotation.PickSlotsIsMove | rubiks.py:80-86 | Choosing slots by a table is the whole-cube move with that slot table and no quarter turns. |
| FaceRotation.SlotTablesGiveTurns | rubiks.py:79-86 | The spun entries 1 to 3, each moved by its own slot table, are the input turned one, two and three times. |
| FaceRotation.Turn | rubiks.py:70-80 | One quarter turn is one pass of the loop (the back grid turned once, the others three times) followed by the first slot table. |
| FaceRotation.OnePass | rubiks.py:70-80 | That loop pass and slot table, as one whole-cube move. |
| FaceRotation.TurnN | rubiks.py:70-86 | k quarter turns give a cube again. |
| FaceRotation.TurnNStep | rubiks.py:70-86 | k + 1 quarter turns are one quarter turn after k quarter turns, so `TurnN` is the single turn iterated. |
| FaceRotation.TurnFour | rubiks.py:72-80 | Four quarter turns give back the input. |
| FaceRotation.TurnNAdd | rubiks.py:70-86 | k quarter turns followed by j quarter turns are k + j quarter turns. |
| FaceRotation.FaceRotationsClosed | rubiks.py:68-88 | `rotate_face` of its k-th output gives the same four positions, starting at entry k and wrapping modulo four. |
| FaceRotation.FaceRotationKeepsStickers | rubiks.py:72-86 | Every output of `rotate_face` holds the 54 stickers of the input, each exactly once. |
| FaceRotation.TurnPowUsesEachFaceOnce | rubiks.py:79-86 | Each of the four turn moves takes every input grid exactly once. |
| Cube.Rot90 | rubiks.py:74-76 | Turning a 3×3 grid gives a 3×3 grid. |
| Cube.Rot90At | rubiks.py:74-76 | Entry (i, j) of the turned grid is the entry of the original grid given by the 90-degree index map. |
| Cube.Flatten | rubiks.py:166 | A cube flattens to 54 stickers. |
| Cube.FlattenAt | rubiks.py:166 | Sticker 9f + 3i + j of the flattened cube is row i, column j of face f. |
| Cube.UnflattenFlatten | rubiks.py:166 | Reading a flattened cube back into grids gives the cube. |
| Cube.Rot90Compose | rubiks.py:74-76 | Turning a grid a times and then b times is turning it a + b times. In particular four turns are none. |
| Cube.Unflatten | rubiks.py:166 | Reads 54 stickers back into six grids. Flattening the result gives back the 54 stickers. |
| Cube.ApplyThen | rubiks.py:101-147 | Applying move a and then move b is applying their composition. |
| Cube.ApplySource | rubiks.py:101-147 | Each sticker after a move is one fixed sticker of the cube before it. |
| Cube.SourcesDiffer | rubiks.py:101-147 | Two different moves take some sticker from different places. |
| Cube.ApplySeparatesMoves | rubiks.py:14-16 | On a cube whose 54 stickers are all different, two different moves give two different cubes. |
| Cube.ApplyKeepsPattern | rubiks.py:101-147 | If two cubes repeat colours at the same places, so do their images under any move. |
| Cube.ApplyKeepsStickers | rubiks.py:101-147 | A move that uses every face once keeps the multiset of the 54 flattened stickers. |
| Orientation.RotateCubeOrientation | rubiks.py:94-154 | Six positions, and the first is the input. |
| Orientation.OrientationIsMove | rubiks.py:101-147 | Output j is the input rearranged by the j-th table, read as a slot permutation plus quarter turns per face. |
| Orientation.BackAsFrontSelfInverse | rubiks.py:121-127 | Bringing the back face to the front twice gives back the input. |
| Orientation.LeftRightInverse | rubiks.py:101-117 | Left-as-front and right-as-front undo each other, in either order. |
| Orientation.TopBottomInverse | rubiks.py:131-147 | Top-as-front and bottom-as-front undo each other, in either order. |
| Orientation.OrientationMovesUseEachFaceOnce | rubiks.py:101-147 | Each table takes every input grid exactly once. |
| Orientation.OrientationKeepsStickers | rubiks.py:94-154 | Every output of `rotate_cube_orientation` holds the input's 54 stickers, each exactly once. |
| Orbit.States | rubiks.py:14-16 | The positions built by `main`'s first loop number exactly 24. |
| Orbit.StateIsMove | rubiks.py:14-16 | Position (k, j) is the input under one whole-cube move, turn k and then the table of side j. |
| Orbit.StateMovesDistinct | rubiks.py:14-16 | The 24 moves behind the positions are all different. |
| Orbit.StatesDistinct | rubiks.py:14-16 | A cube whose 54 stickers are all different has 24 different positions. |
| Orbit.FrontLeftDistinct | rubiks.py:14-16 | Different positions put different faces in the front slot or in the left slot. |
| Orbit.CentreAfterMove | rubiks.py:101-147 | A move brings the centre sticker of the face in slot f to face f. No quarter turn moves a centre. |
| Orbit.StatesDistinctCentres | rubiks.py:14-16 | A cube whose six centre stickers differ, as on every real cube, has 24 different positions. |
| Orbit.StateBlockIsOrientations | rubiks.py:14-16 | Block k of the 24 positions is `rotate_cube_orientation` of the k-th output of `rotate_face`. |
| Orbit.InStates | rubiks.py:14-16 | A cube is among the 24 positions exactly when it is the input turned k times and then seen from side j. |
| Orbit.StatesAt | rubiks.py:14-16 | Entry 6k + j of the list is turn k seen from side j, in the order of `main`'s loop. |
| Orbit.InputInStates | rubiks.py:14-16 | The input is among its own 24 positions. |
| Orbit.StatesClosedUnderOrientation | rubiks.py:14-16 | Every output of `rotate_cube_orientation` of a position is again one of the 24 positions. |
| Orbit.StatesClosedUnderFaceRotation | rubiks.py:14-16 | Every output of `rotate_face` of a position is again one of the 24 positions. |
| Orbit.StatesClosedUnderTurn | rubiks.py:14-16 | A quarter turn of a position is again one of the 24 positions. |
| Orbit.OrientationOfState | rubiks.py:94-154 | Bringing side m of a position to the front gives the position at a computed turn count and side. |
| Orbit.ComposeAtState | rubiks.py:14-16 | Applying a move to a position, when the view rule holds, gives position (k + t, s), which lies among the 24. |
| Orbit.StatesKeepStickers | rubiks.py:14-16 | Every position holds the input's 54 stickers, rearranged. |
| Orbit.OrientUndo | rubiks.py:101-147 | For every side j there is a side whose table undoes the table of side j. |
| Orbit.TurnBack | rubiks.py:70-86 | Turning k times and then (4 - k) mod 4 times gives back the input. |
| Orbit.InputInStatesOf | rubiks.py:14-16 | The input is one of the 24 positions of each of its positions. |
| Orbit.SameOrbit | rubiks.py:14-16 | Each position has exactly the same 24 positions as the input. |
| Permutations.Permute | rubiks.py:161 | There is at least one ordering, and every ordering is as long as the input. |
| Permutations.PermuteLength | rubiks.py:161 | n elements have n! orderings. |
| Permutations.PermuteSound | rubiks.py:161 | Every ordering holds exactly the input's elements. |
| Permutations.PermuteComplete | rubiks.py:161 | Every rearrangement of the input's elements is among the orderings. |
| Permutations.PermuteFirst | rubiks.py:161 | The first ordering, in `itertools` order, is the input itself. |
| Permutations.PermuteDistinct | rubiks.py:161 | Orderings of distinct elements are all different. |
| ColorPermutation.ColorPermutationsLength | rubiks.py:161 | There are 720 orderings of the labels 1..6. |
| ColorPermutation.ColorPermutationsFacts | rubiks.py:161 | The orderings of 1..6 number 720, and each has six labels. |
| ColorPermutation.ColorPermutationsDistinct | rubiks.py:161 | The 720 orderings are all different. |
| ColorPermutation.RecoloringsDistinct | rubiks.py:159-177 | A cube with exactly six colours has 720 different relabellings. |
| ColorPermutation.RelabelKeepsPattern | rubiks.py:163-175 | A relabelling repeats a label exactly where the stickers repeat a colour. |
| ColorPermutation.ColorPermutationIsOrdering | rubiks.py:161 | Every ordering uses each label from 1 to 6 exactly once. |
| ColorPermutation.FirstColorPermutation | rubiks.py:161 | The first ordering is 1, 2, 3, 4, 5, 6. |
| ColorPermutation.Distinct | rubiks.py:168-172 | The colours met in scan order, each once, and every sticker colour is among them. |
| ColorPermutation.DistinctMembers | rubiks.py:168 | A colour is among the distinct colours exactly when it occurs. |
| ColorPermutation.Relabel | rubiks.py:167-175 | The output is as long as the input. A sticker whose colour is the k-th distinct colour gets the k-th label of the ordering. |
| ColorPermutation.RelabelScan | rubiks.py:163-175 | The dictionary scan fails exactly when there are more distinct colours than labels. Otherwise it returns `Relabel`. |
| ColorPermutation.PermuteColors | rubiks.py:159-177 | Fails exactly when the flattened cube has more than six colours. Otherwise it returns the 720 relabellings, one per ordering, in `itertools` order. |
| ColorPermutation.Recolorings | rubiks.py:159-177 | Exactly 720 lists, each as long as the flattened input. |
| ColorPermutation.RelabelPattern | rubiks.py:163-175 | Two stickers get equal labels exactly when they have equal colours. |
| ColorPermutation.RelabelValues | rubiks.py:163-175 | Every label is between 1 and 6. |
| ColorPermutation.DistinctCount | rubiks.py:168 | The number of distinct colours met is the number of different colours on the cube. |
| ColorPermutation.DistinctMapSeq | rubiks.py:167-172 | A one-to-one recolouring recolours the distinct colours, in the same order. |
| ColorPermutation.RelabelRecolor | rubiks.py:163-175 | A one-to-one recolouring of the stickers leaves each relabelling unchanged. |
| ColorPermutation.RecoloringsRecolor | rubiks.py:159-177 | A one-to-one recolouring of the stickers leaves all 720 relabellings unchanged. |
| CanonicalForm.LexLessFirstDifference | rubiks.py:186-201 | The comparison is the textbook lexicographic order: equal up to the first difference, and smaller there. |
| CanonicalForm.LexLessAsymmetric | rubiks.py:186-201 | The strict order is irreflexive and asymmetric. |
| CanonicalForm.LexLessTransitive | rubiks.py:186-201 | The strict order is transitive. |
| CanonicalForm.LexTotal | rubiks.py:186-201 | Any two labellings are comparable. |
| CanonicalForm.LexMinOf | rubiks.py:181-204 | The reference choice is a member of the list. |
| CanonicalForm.LexMinOfLeast | rubiks.py:181-204 | The reference choice's first 54 entries come no later than those of any member. |
| CanonicalForm.LexMinOfFirst | rubiks.py:181-204 | No earlier member has the same first 54 entries as the reference choice. |
| CanonicalForm.LexMinOfUnique | rubiks.py:181-204 | For labellings of exactly 54 entries, a member that is no greater than every member is the one chosen. |
| CanonicalForm.LexMinOfSameMembers | rubiks.py:181-204 | Two lists with the same members, each of exactly 54 entries, lead to the same choice. |
| CanonicalForm.Survivors | rubiks.py:187-190 | The filter keeps only members, in order, that carry the current colour at the current index. |
| CanonicalForm.SurvivorsComplete | rubiks.py:187-190 | Every member that carries the current colour at the current index is kept. |
| CanonicalForm.LexMinOfSurvivors | rubiks.py:192-201 | Suppose the members agree before index p and are at least c at p. If a member carries c at p, filtering keeps the lexicographic minimum. |
| CanonicalForm.NarrowColor | rubiks.py:192-193 | When no member carries the current colour, every member carries a larger one. Raising the colour keeps the loop invariant. |
| CanonicalForm.NarrowPosition | rubiks.py:198-201 | Moving to the next index with the survivors keeps the loop invariant: they agree on one more entry and still hold the minimum. |
| CanonicalForm.NarrowSingle | rubiks.py:195-196 | A single survivor is the lexicographic minimum of the whole input. |
| CanonicalForm.NarrowDone | rubiks.py:186-203 | After all 54 indices, the first survivor is the lexicographic minimum. |
| CanonicalForm.FilterSettings | rubiks.py:187-190 | The filtering loop returns exactly the survivors. |
| CanonicalForm.ComputeCanonicalForm | rubiks.py:181-204 | The loop returns the first member with the least first 54 entries, in lexicographic order. |
| Pipeline.Candidates | rubiks.py:21-23 | `main`'s second loop builds exactly 24 × 720 candidates. |
| Pipeline.CandidateSource | rubiks.py:21-23 | Every candidate is one of the 24 positions relabelled by one ordering of six different labels. |
| Pipeline.StatesColorCount | rubiks.py:22-23 | Every position shows as many colours as the input. |
| Pipeline.CandidateAt | rubiks.py:21-23 | Candidate 720i + q is position i relabelled by the q-th ordering. |
| Pipeline.CandidatesAreLabellings | rubiks.py:21-23 | Every candidate has 54 labels, each between 1 and 6. |
| Pipeline.CanonicalLabels | rubiks.py:25 | The chosen labelling is a candidate, with 54 labels each between 1 and 6. |
| Pipeline.CanonicalIsLeast | rubiks.py:25 | The chosen labelling comes no later, lexicographically, than any candidate. |
| Pipeline.DigitString | rubiks.py:29 | The joined string is as long as the labelling, and character i is the digit of label i. |
| Pipeline.DigitStringRoundTrip | rubiks.py:29 | Reading the digits back gives the labelling. |
| Pipeline.CanonicalString | rubiks.py:29 | 54 characters, each between '1' and '6'. Each is the digit of the chosen label at that index. |
| Pipeline.CandidatesSubset | rubiks.py:14-23 | If every position of c is a position of d, every candidate of c is a candidate of d. |
| Pipeline.PositionInvariant | rubiks.py:6-29 | Every one of the 24 positions of a cube gets the same string as the cube. |
| Pipeline.OrientationInvariant | rubiks.py:6-29 | Bringing any face to the front does not change the string. |
| Pipeline.FaceRotationInvariant | rubiks.py:6-29 | A quarter turn about the front face does not change the string. |
| Pipeline.RecolorInvariant | rubiks.py:6-29 | A one-to-one recolouring of the stickers does not change the string. |
| Pipeline.CanonicalSource | rubiks.py:25 | The chosen labelling is one of the 24 positions relabelled by one ordering of six different labels. |
| Pipeline.CanonicalPattern | rubiks.py:6-29 | The chosen labelling repeats a label exactly where some position of the cube repeats a colour. |
| Pipeline.CanonicalStringPattern | rubiks.py:29 | The string repeats a digit exactly where the chosen labelling repeats a label. |
| Pipeline.SamePatternSameString | rubiks.py:6-29 | A cube that repeats colours at the same places as some position of c gets the same string as c. |
| Pipeline.CanonicalStringSeparates | rubiks.py:6-29 | Two cubes with the same string: some position of the first repeats colours at exactly the places where the second does. |
| Pipeline.CanonicalStringIff | rubiks.py:6-29 | Two cubes get the same string exactly when some position of the first has the second's pattern of repeated colours. |
| Pipeline.CanonicalStringIdempotent | rubiks.py:6-29 | The string, read back as a cube of digits, gets itself as its string. |
| Pipeline.CollectOrientations | rubiks.py:14-16 | The first loop of `main` builds the 24 positions, in order. |
| Pipeline.CollectRecolorings | rubiks.py:21-23 | The second loop fails exactly when the cube has more than six colours. Otherwise it builds all 24 × 720 candidates, in order. |
| Pipeline.Canonicalize | rubiks.py:6-29 | Fails exactly when the cube has more than six colours. Otherwise it returns the canonical string. |
| SolvedCube.ApplySolved | rubiks.py:101-147 | A move takes a solved cube to a solved cube. A move that uses each face once keeps the six colours different. |
| SolvedCube.StatesOfSolved | rubiks.py:14-16 | Every position of a solved cube with six different colours is again such a solved cube. |
| SolvedCube.DistinctSolved | rubiks.py:167-172 | The colours of a solved cube, in scan order, are its face colours in face order. |
| SolvedCube.SolvedCandidate | rubiks.py:21-23 | Candidate n of a solved cube labels every face f with entry f of the (n mod 720)-th ordering. |
| SolvedCube.InOrderLabelsLeast | rubiks.py:186-201 | Labelling faces 1 to 6 in face order comes first among all orderings. |
| SolvedCube.CanonicalLabelsSolved | rubiks.py:25 | For a solved cube the chosen labels are 1 to 6 in face order. |
| SolvedCube.CanonicalStringSolved | rubiks.py:6-29 | Every solved cube with six different colours gets the string of nine 1s, nine 2s, and so on up to nine 6s. |

## Left out

- `format_single_input` and `format_rubiks_example_file` (rubiks.py:208-251) are not modelled. They are file reading and a fixed table of input positions.
- The `__main__` batch driver (rubiks.py:254-264) is not modelled. It uses a progress bar, a result set and printing.
- `standardize_colors` (rubiks.py:56-63) and the recolouring block after `main`'s unconditional `return` (rubiks.py:31-46) are not modelled. That block can never run.
- numpy and itertools are not modelled as libraries. The model defines `rot90`, `flatten` and the orderings of [1..6] directly, and it ignores the conversions between arrays and lists.
- The `str`/`join` on rubiks.py:29 is modelled as one digit character per label. Every label is a single digit 1..6.
- Pipeline.Canonicalize: the source raises an `IndexError` when the cube has more than six colours. The model returns `None` and does not model the exception.
- CanonicalForm.ComputeCanonicalForm: requires a non-empty list whose labellings have at least 54 entries, each at least 1.
  - With an empty list the source loop never ends, because it keeps raising the colour.
  - The loop also never ends when, at some index, every remaining labelling holds a value below 1. No labelling carries the current colour, so lines 192-193 raise it forever.
  - With an entry below 1 its colour-by-colour search can skip the least entry and return something other than the minimum.
  - Every list that `main` builds meets the requirement.
- FaceRotation.RotateFace: the source overwrites entries 1 to 3 in place. The model rebinds a `seq` to the same value, so no aliasing between the numpy arrays is modelled.
- Pipeline.CollectOrientations, Pipeline.CollectRecolorings and FaceRotation.SpinGrids are `main`'s two loops and `rotate_face`'s inner loop, written as separate methods. `main` itself is Pipeline.Canonicalize.
- The model states nothing about running time or memory, such as the 17,280 candidates held at once.
