/**
 * `compute_canonical_form`: from a list of flattened cube labellings pick the one
 * that is lexicographically least on the 54 sticker positions, by filtering the
 * list position by position and colour by colour.
 */
module CanonicalForm {

  /** Number of stickers the comparison looks at. */
  const StickerCount: nat := 54

  /** The part of a labelling the comparison looks at. */
  function Key(s: seq<int>): (k: seq<int>)
    requires |s| >= StickerCount
    ensures |k| == StickerCount && forall p :: 0 <= p < StickerCount ==> k[p] == s[p]
  {
    s[..StickerCount]
  }

  /**
   * a comes strictly before b in Python's list order: the first entries decide,
   * and on a tie the rest.
   */
  predicate LexLess(a: seq<int>, b: seq<int>)
    requires |a| == |b|
    decreases |a|
  {
    |a| > 0 && (a[0] < b[0] || (a[0] == b[0] && LexLess(a[1..], b[1..])))
  }

  /** a comes before b or equals it. */
  predicate LexLeq(a: seq<int>, b: seq<int>)
    requires |a| == |b|
  {
    a == b || LexLess(a, b)
  }

  /** Agreeing before position p and being smaller at p makes a come before b. */
  lemma {:induction false} LexLessAt(a: seq<int>, b: seq<int>, p: nat)
    requires |a| == |b| && p < |a| && a[..p] == b[..p] && a[p] < b[p]
    ensures LexLess(a, b)
  {
    if p > 0 {
      assert a[0] == a[..p][0] && b[0] == b[..p][0];
      assert a[1..][..p - 1] == a[..p][1..] && b[1..][..p - 1] == b[..p][1..];
      LexLessAt(a[1..], b[1..], p - 1);
    }
  }

  /** The order agrees with its textbook reading: equal up to the first difference, smaller there. */
  lemma {:induction false} LexLessFirstDifference(a: seq<int>, b: seq<int>)
    requires |a| == |b|
    ensures LexLess(a, b) <==> exists k :: 0 <= k < |a| && a[..k] == b[..k] && a[k] < b[k]
    decreases |a|
  {
    if exists k :: 0 <= k < |a| && a[..k] == b[..k] && a[k] < b[k] {
      var k :| 0 <= k < |a| && a[..k] == b[..k] && a[k] < b[k];
      LexLessAt(a, b, k);
    }
    if LexLess(a, b) {
      if a[0] < b[0] {
        assert a[..0] == b[..0];
      } else {
        LexLessFirstDifference(a[1..], b[1..]);
        var k :| 0 <= k < |a| - 1 && a[1..][..k] == b[1..][..k] && a[1..][k] < b[1..][k];
        assert a[..k + 1] == [a[0]] + a[1..][..k] && b[..k + 1] == [b[0]] + b[1..][..k];
        assert a[k + 1] < b[k + 1];
      }
    }
  }

  /** Two sequences cannot each come strictly before the other, and none comes before itself. */
  lemma {:induction false} LexLessAsymmetric(a: seq<int>, b: seq<int>)
    requires |a| == |b|
    ensures !(LexLess(a, b) && LexLess(b, a))
    ensures !LexLess(a, a)
    decreases |a|
  {
    if |a| > 0 {
      LexLessAsymmetric(a[1..], b[1..]);
      LexLessAsymmetric(a[1..], a[1..]);
    }
  }

  /** Strict order is transitive. */
  lemma {:induction false} LexLessTransitive(a: seq<int>, b: seq<int>, c: seq<int>)
    requires |a| == |b| == |c| && LexLess(a, b) && LexLess(b, c)
    ensures LexLess(a, c)
    decreases |a|
  {
    if a[0] == b[0] && b[0] == c[0] {
      LexLessTransitive(a[1..], b[1..], c[1..]);
    }
  }

  /** Any two sequences of equal length are comparable. */
  lemma {:induction false} LexTotal(a: seq<int>, b: seq<int>)
    requires |a| == |b|
    ensures LexLeq(a, b) || LexLeq(b, a)
    decreases |a|
  {
    if |a| > 0 && a[0] == b[0] {
      LexTotal(a[1..], b[1..]);
      if a[1..] == b[1..] {
        assert a == [a[0]] + a[1..] && b == [b[0]] + b[1..];
      }
    }
  }

  /** Agreeing before position p and being smaller at p decides the comparison of the keys. */
  lemma KeyLessAt(a: seq<int>, b: seq<int>, p: nat)
    requires |a| >= StickerCount && |b| >= StickerCount && p < StickerCount
    requires a[..p] == b[..p] && a[p] < b[p]
    ensures LexLess(Key(a), Key(b))
  {
    assert Key(a)[..p] == a[..p] && Key(b)[..p] == b[..p];
    LexLessAt(Key(a), Key(b), p);
  }

  /** Every labelling in the list is long enough to compare. */
  predicate LongEnough(list: seq<seq<int>>) {
    forall k :: 0 <= k < |list| ==> |list[k]| >= StickerCount
  }

  /**
   * The reference definition: scanning the list from the front, keep the first
   * labelling whose key is least.
   */
  function LexMinOf(list: seq<seq<int>>): (r: seq<int>)
    requires |list| > 0 && LongEnough(list)
    ensures r in list
  {
    if |list| == 1 then list[0]
    else
      var m := LexMinOf(list[..|list| - 1]);
      var x := list[|list| - 1];
      if LexLess(Key(x), Key(m)) then x else m
  }

  /** The chosen labelling's key is no greater than that of any labelling in the list. */
  lemma {:induction false} LexMinOfLeast(list: seq<seq<int>>)
    requires |list| > 0 && LongEnough(list)
    ensures forall k :: 0 <= k < |list| ==> LexLeq(Key(LexMinOf(list)), Key(list[k]))
  {
    if |list| > 1 {
      var init := list[..|list| - 1];
      var m := LexMinOf(init);
      var x := list[|list| - 1];
      LexMinOfLeast(init);
      forall k | 0 <= k < |list| ensures LexLeq(Key(LexMinOf(list)), Key(list[k])) {
        if k < |list| - 1 {
          assert list[k] == init[k];
          if LexLess(Key(x), Key(m)) && Key(m) != Key(list[k]) {
            LexLessTransitive(Key(x), Key(m), Key(list[k]));
          }
        } else if !LexLess(Key(x), Key(m)) {
          LexTotal(Key(x), Key(m));
        }
      }
    }
  }

  /** No labelling before the chosen one has the same key. */
  lemma {:induction false} LexMinOfFirst(list: seq<seq<int>>, k: nat)
    requires |list| > 0 && LongEnough(list) && k < |list|
    requires Key(list[k]) == Key(LexMinOf(list))
    ensures exists j :: 0 <= j <= k && list[j] == LexMinOf(list)
  {
    if |list| > 1 {
      var init := list[..|list| - 1];
      var m := LexMinOf(init);
      var x := list[|list| - 1];
      LexMinOfLeast(init);
      if LexLess(Key(x), Key(m)) {
        if k < |list| - 1 {
          assert init[k] == list[k];
          LexLessAsymmetric(Key(x), Key(m));
          assert false;
        }
        assert list[|list| - 1] == LexMinOf(list);
      } else if k < |list| - 1 {
        assert init[k] == list[k];
        LexMinOfFirst(init, k);
        var j :| 0 <= j <= k && init[j] == m;
        assert list[j] == LexMinOf(list);
      } else {
        var j :| 0 <= j < |init| && init[j] == m;
        assert list[j] == LexMinOf(list);
      }
    }
  }

  /**
   * The labellings of list whose entry at position p is c, in list order (the
   * inner loop of compute_canonical_form).
   */
  function Survivors(list: seq<seq<int>>, p: nat, c: int): (r: seq<seq<int>>)
    requires forall k :: 0 <= k < |list| ==> |list[k]| > p
    ensures |r| <= |list|
    ensures forall k :: 0 <= k < |r| ==> r[k] in list && r[k][p] == c
  {
    if list == [] then []
    else
      var rest := Survivors(list[..|list| - 1], p, c);
      var x := list[|list| - 1];
      if x[p] == c then rest + [x] else rest
  }

  /**
   * When the labellings share their first p entries and none has an entry below
   * c at p, keeping those with c at p does not change the least labelling.
   */
  lemma {:induction false} LexMinOfSurvivors(list: seq<seq<int>>, prefix: seq<int>, p: nat, c: int)
    requires LongEnough(list) && p < StickerCount && |prefix| == p
    requires forall k :: 0 <= k < |list| ==> list[k][..p] == prefix && list[k][p] >= c
    requires |Survivors(list, p, c)| > 0
    ensures |list| > 0 && LongEnough(Survivors(list, p, c))
    ensures LexMinOf(Survivors(list, p, c)) == LexMinOf(list)
  {
    var init := list[..|list| - 1];
    var x := list[|list| - 1];
    var rest := Survivors(init, p, c);
    assert forall k :: 0 <= k < |init| ==> init[k] == list[k];
    if x[p] == c {
      if |rest| == 0 {
        forall k | 0 <= k < |list| - 1 ensures list[k][p] > c {
          assert init[k] == list[k];
          if list[k][p] == c {
            SurvivorsComplete(init, p, c, k);
          }
        }
        if |list| > 1 {
          var m := LexMinOf(init);
          var j :| 0 <= j < |init| && init[j] == m;
          KeyLessAt(x, m, p);
        }
      } else {
        LexMinOfSurvivors(init, prefix, p, c);
        assert Survivors(list, p, c) == rest + [x];
        assert (rest + [x])[..|rest|] == rest;
      }
    } else {
      LexMinOfSurvivors(init, prefix, p, c);
      var m := LexMinOf(rest);
      assert m in rest;
      KeyLessAt(m, x, p);
      LexLessAsymmetric(Key(x), Key(m));
    }
  }

  /** Every labelling with c at p is kept. */
  lemma {:induction false} SurvivorsComplete(list: seq<seq<int>>, p: nat, c: int, k: nat)
    requires forall i :: 0 <= i < |list| ==> |list[i]| > p
    requires k < |list| && list[k][p] == c
    ensures list[k] in Survivors(list, p, c)
  {
    var init := list[..|list| - 1];
    if k < |list| - 1 {
      assert init[k] == list[k];
      SurvivorsComplete(init, p, c, k);
    }
  }

  /** When every labelling has the same key, the first one is chosen. */
  lemma {:induction false} LexMinOfEqualKeys(list: seq<seq<int>>)
    requires |list| > 0 && LongEnough(list)
    requires forall k :: 0 <= k < |list| ==> Key(list[k]) == Key(list[0])
    ensures LexMinOf(list) == list[0]
  {
    if |list| > 1 {
      var init := list[..|list| - 1];
      assert init[0] == list[0];
      LexMinOfEqualKeys(init);
      LexLessAsymmetric(Key(list[0]), Key(list[0]));
    }
  }

  /** Every labelling in the list has exactly StickerCount entries, so each is its own key. */
  predicate ExactLength(list: seq<seq<int>>) {
    forall k :: 0 <= k < |list| ==> |list[k]| == StickerCount
  }

  /** When each labelling is its own key, a member no greater than every member is the one chosen. */
  lemma LexMinOfUnique(list: seq<seq<int>>, x: seq<int>)
    requires |list| > 0 && ExactLength(list) && x in list
    requires forall k :: 0 <= k < |list| ==> LexLeq(x, list[k])
    ensures LongEnough(list) && LexMinOf(list) == x
  {
    var a := LexMinOf(list);
    LexMinOfLeast(list);
    var i :| 0 <= i < |list| && list[i] == x;
    var j :| 0 <= j < |list| && list[j] == a;
    assert Key(x) == x && Key(a) == a;
    LexLessAsymmetric(x, a);
  }

  /** Lists holding the same labellings, each of exactly StickerCount entries, lead to the same choice. */
  lemma LexMinOfSameMembers(l1: seq<seq<int>>, l2: seq<seq<int>>)
    requires |l1| > 0 && |l2| > 0 && ExactLength(l1) && ExactLength(l2)
    requires forall s :: s in l1 <==> s in l2
    ensures LongEnough(l1) && LongEnough(l2) && LexMinOf(l1) == LexMinOf(l2)
  {
    var a := LexMinOf(l1);
    LexMinOfLeast(l1);
    assert a in l2;
    forall k | 0 <= k < |l2| ensures LexLeq(a, l2[k]) {
      assert l2[k] in l1;
      var j :| 0 <= j < |l1| && l1[j] == l2[k];
      assert Key(a) == a && Key(l1[j]) == l1[j];
    }
    LexMinOfUnique(l2, a);
  }

  /** Every entry the comparison looks at is at least 1, the first colour tried. */
  predicate Positive(s: seq<int>)
    requires |s| >= StickerCount
  {
    forall p :: 0 <= p < StickerCount ==> s[p] >= 1
  }

  /** Every labelling in the list is Positive. */
  predicate PositiveEntries(list: seq<seq<int>>)
    requires LongEnough(list)
  {
    forall k :: 0 <= k < |list| ==> Positive(list[k])
  }

  /** a and b agree on their first p entries. */
  predicate SamePrefix(a: seq<int>, b: seq<int>, p: nat)
    requires p <= |a| && p <= |b|
  {
    a[..p] == b[..p]
  }

  /**
   * The state of compute_canonical_form before position p: some labellings
   * remain, they agree on their first p entries, and the least of them is the
   * least of the whole list.
   */
  predicate Narrowing(allSettings: seq<seq<int>>, list: seq<seq<int>>, p: nat)
    requires |allSettings| > 0 && LongEnough(allSettings)
  {
    && p <= StickerCount
    && |list| > 0 && LongEnough(list) && PositiveEntries(list)
    && LexMinOf(list) == LexMinOf(allSettings)
    && forall k :: 0 <= k < |list| ==> SamePrefix(list[k], list[0], p)
  }

  /** No remaining labelling has an entry below c at position p. */
  predicate AtLeast(list: seq<seq<int>>, p: nat, c: int)
    requires forall k :: 0 <= k < |list| ==> |list[k]| > p
  {
    forall k :: 0 <= k < |list| ==> list[k][p] >= c
  }

  /** Before the first position: the whole list remains and every entry is at least 1. */
  lemma NarrowStart(allSettings: seq<seq<int>>)
    requires |allSettings| > 0 && LongEnough(allSettings) && PositiveEntries(allSettings)
    ensures Narrowing(allSettings, allSettings, 0) && AtLeast(allSettings, 0, 1)
  {
  }

  /** No labelling has c at p: the next colour may be tried, and it is still within reach. */
  lemma NarrowColor(allSettings: seq<seq<int>>, list: seq<seq<int>>, p: nat, c: int)
    requires |allSettings| > 0 && LongEnough(allSettings)
    requires Narrowing(allSettings, list, p) && p < StickerCount && AtLeast(list, p, c)
    requires Survivors(list, p, c) == []
    ensures AtLeast(list, p, c + 1) && list[0][p] > c
  {
    forall k | 0 <= k < |list| ensures list[k][p] != c {
      if list[k][p] == c {
        SurvivorsComplete(list, p, c, k);
      }
    }
  }

  /** Several labellings have c at p: they are what is left for position p + 1. */
  lemma NarrowPosition(allSettings: seq<seq<int>>, list: seq<seq<int>>, p: nat, c: int)
    requires |allSettings| > 0 && LongEnough(allSettings)
    requires Narrowing(allSettings, list, p) && p < StickerCount && AtLeast(list, p, c)
    requires |Survivors(list, p, c)| > 0
    ensures Narrowing(allSettings, Survivors(list, p, c), p + 1)
    ensures p + 1 < StickerCount ==> AtLeast(Survivors(list, p, c), p + 1, 1)
  {
    var prefix := list[0][..p];
    LexMinOfSurvivors(list, prefix, p, c);
    var s := Survivors(list, p, c);
    forall k | 0 <= k < |s| ensures s[k][..p + 1] == prefix + [c] {
      var x := s[k];
      var j :| 0 <= j < |list| && list[j] == x;
      assert x[..p + 1] == x[..p] + [x[p]];
    }
  }

  /** A single labelling has c at p: it is the least of the whole list. */
  lemma NarrowSingle(allSettings: seq<seq<int>>, list: seq<seq<int>>, p: nat, c: int)
    requires |allSettings| > 0 && LongEnough(allSettings)
    requires Narrowing(allSettings, list, p) && p < StickerCount && AtLeast(list, p, c)
    requires |Survivors(list, p, c)| == 1
    ensures Survivors(list, p, c)[0] == LexMinOf(allSettings)
  {
    NarrowPosition(allSettings, list, p, c);
  }

  /** Once every labelling agrees on all 54 entries, the first is the least. */
  lemma NarrowDone(allSettings: seq<seq<int>>, list: seq<seq<int>>)
    requires |allSettings| > 0 && LongEnough(allSettings)
    requires Narrowing(allSettings, list, StickerCount)
    ensures list[0] == LexMinOf(allSettings)
  {
    forall k | 0 <= k < |list| ensures Key(list[k]) == Key(list[0]) {
      assert list[k][..StickerCount] == list[0][..StickerCount];
    }
    LexMinOfEqualKeys(list);
  }

  /** The inner loop of compute_canonical_form: keep the labellings with currentColor at currentElemIndex. */
  method FilterSettings(settingsList: seq<seq<int>>, currentElemIndex: nat, currentColor: int)
    returns (filteredSettingsList: seq<seq<int>>)
    requires forall k :: 0 <= k < |settingsList| ==> |settingsList[k]| > currentElemIndex
    ensures filteredSettingsList == Survivors(settingsList, currentElemIndex, currentColor)
  {
    filteredSettingsList := [];
    for i := 0 to |settingsList|
      invariant filteredSettingsList == Survivors(settingsList[..i], currentElemIndex, currentColor)
    {
      assert settingsList[..i + 1] == settingsList[..i] + [settingsList[i]];
      if settingsList[i][currentElemIndex] == currentColor {
        filteredSettingsList := filteredSettingsList + [settingsList[i]];
      }
    }
    assert settingsList[..|settingsList|] == settingsList;
  }

  /**
   * compute_canonical_form: narrow the list down position by position, trying
   * colours 1, 2, ... at each position until some labelling has it; stop when
   * one labelling is left or all 54 positions are fixed.
   */
  method ComputeCanonicalForm(allSettings: seq<seq<int>>) returns (canonicalForm: seq<int>)
    requires |allSettings| > 0 && LongEnough(allSettings) && PositiveEntries(allSettings)
    ensures canonicalForm == LexMinOf(allSettings)
  {
    var settingsList := allSettings;
    var currentColor := 1;
    var currentElemIndex := 0;
    var filteredSettingsList: seq<seq<int>> := [];
    NarrowStart(allSettings);
    while currentElemIndex < StickerCount
      invariant Narrowing(allSettings, settingsList, currentElemIndex)
      invariant |settingsList| <= |allSettings| && forall k :: 0 <= k < |settingsList| ==> settingsList[k] in allSettings
      invariant currentElemIndex < StickerCount ==> AtLeast(settingsList, currentElemIndex, currentColor)
      invariant currentElemIndex == StickerCount ==> filteredSettingsList == settingsList
      decreases StickerCount - currentElemIndex,
        if currentElemIndex < StickerCount then settingsList[0][currentElemIndex] - currentColor else 0
    {
      filteredSettingsList := FilterSettings(settingsList, currentElemIndex, currentColor);
      if |filteredSettingsList| == 0 {
        NarrowColor(allSettings, settingsList, currentElemIndex, currentColor);
        currentColor := currentColor + 1;
      } else if |filteredSettingsList| == 1 {
        NarrowSingle(allSettings, settingsList, currentElemIndex, currentColor);
        return filteredSettingsList[0];
      } else {
        NarrowPosition(allSettings, settingsList, currentElemIndex, currentColor);
        currentColor := 1;
        currentElemIndex := currentElemIndex + 1;
        settingsList := filteredSettingsList;
      }
    }
    NarrowDone(allSettings, settingsList);
    canonicalForm := filteredSettingsList[0];
  }
}
