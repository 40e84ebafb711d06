/** `BestTrio` of the oldest package (rd2weekly/src/scoring/bestTrio.py): the points of
    the best three distinct scores, each tier holding every score tied at its level. */
module Rd2Trio {

  /** The three tiers and the direction: with `reverse` set, lower points are better. */
  datatype Trio = Trio(first: seq<real>, second: seq<real>, third: seq<real>, reverse: bool)

  /** `BestTrio(reverse)`: three empty tiers. */
  function NewTrio(reverse: bool): Trio
  {
    Trio([], [], [], reverse)
  }

  /** A spot, 1 to 3. */
  type Spot = s: int | 1 <= s <= 3 witness 1

  /** The tier a spot names. */
  function Tier(t: Trio, spot: Spot): seq<real>
  {
    if spot == 1 then t.first else if spot == 2 then t.second else t.third
  }

  /** `a` beats `b` in the trio's direction. */
  predicate Better(t: Trio, a: real, b: real)
  {
    if t.reverse then a < b else a > b
  }

  /** `__pointComparison`: 1 against an empty tier; otherwise the sign of the newcomer
      minus the tier's first score, negated when the trio is reversed. */
  function Comparison(t: Trio, spot: Spot, p: real): (c: int)
    ensures -1 <= c <= 1
    ensures |Tier(t, spot)| == 0 ==> c == 1
    ensures |Tier(t, spot)| > 0 ==>
      && (c == 1 <==> Better(t, p, Tier(t, spot)[0]))
      && (c == 0 <==> p == Tier(t, spot)[0])
      && (c == -1 <==> Better(t, Tier(t, spot)[0], p))
  {
    var tier := Tier(t, spot);
    if |tier| == 0 then 1
    else
      var ours := tier[0];
      var multiplier := if t.reverse then -1 else 1;
      multiplier * ((if p > ours then 1 else 0) - (if p < ours then 1 else 0))
  }

  /** `__jumpSpot`, step by step as its loop runs from 3 down to `spot`: at 3 the third
      tier becomes the newcomer alone; at 2 the second tier moves to third and the
      newcomer takes second; at 1 the first tier moves to second and the newcomer
      takes first. */
  function JumpFrom(t: Trio, i: int, spot: Spot, p: real): Trio
    requires spot <= i + 1 && i <= 3
    decreases i
  {
    if i < spot then t
    else
      var step :=
        if i == 3 then t.(third := [p])
        else if i == 2 then t.(third := t.second, second := [p])
        else t.(second := t.first, first := [p]);
      JumpFrom(step, i - 1, spot, p)
  }

  /** `__jumpSpot`. */
  function JumpSpot(t: Trio, spot: Spot, p: real): Trio
  {
    JumpFrom(t, 3, spot, p)
  }

  /** What a jump does in the end: the newcomer alone takes the spot, the tiers from the
      spot down move one place down, and the old third tier is discarded. */
  lemma JumpSpotEffect(t: Trio, spot: Spot, p: real)
    ensures spot == 1 ==> JumpSpot(t, spot, p) == t.(first := [p], second := t.first, third := t.second)
    ensures spot == 2 ==> JumpSpot(t, spot, p) == t.(second := [p], third := t.second)
    ensures spot == 3 ==> JumpSpot(t, spot, p) == t.(third := [p])
  {
  }

  /** `__addToSpot`: the newcomer joins the end of the spot's tier. */
  function AddToSpot(t: Trio, spot: Spot, p: real): (r: Trio)
    ensures Tier(r, spot) == Tier(t, spot) + [p] && r.reverse == t.reverse
    ensures forall s: Spot :: s != spot ==> Tier(r, s) == Tier(t, s)
  {
    if spot == 1 then t.(first := t.first + [p])
    else if spot == 2 then t.(second := t.second + [p])
    else t.(third := t.third + [p])
  }

  /** `__pruneToTopThree`: more than three in first clears second; more than three in
      first and second together clears third. */
  function Prune(t: Trio): (r: Trio)
    ensures r.first == t.first && r.reverse == t.reverse
    ensures r.second == (if |t.first| > 3 then [] else t.second)
    ensures r.third == (if |t.first| + |r.second| > 3 then [] else t.third)
  {
    var t1 := if |t.first| > 3 then t.(second := []) else t;
    if |t1.first| + |t1.second| > 3 then t1.(third := []) else t1
  }

  /** Pruning keeps no tier whose scores rank below third place: whenever a tier
      survives, fewer than four scores beat it. */
  lemma PruneKeepsTopThree(t: Trio)
    ensures |Prune(t).second| > 0 ==> |Prune(t).first| <= 3
    ensures |Prune(t).third| > 0 ==> |Prune(t).first| + |Prune(t).second| <= 3
    ensures Prune(Prune(t)) == Prune(t)
  {
  }

  /** `__jumpSpotIfAllowed`: a newcomer that beats the spot's tier jumps into it, one
      that ties joins it; either way the answer is yes. A worse one changes nothing. */
  function JumpSpotIfAllowed(t: Trio, spot: Spot, p: real): (r: (Trio, bool))
    ensures r.1 <==> Comparison(t, spot, p) >= 0
    ensures !r.1 ==> r.0 == t
  {
    var c := Comparison(t, spot, p);
    if c > 0 then (JumpSpot(t, spot, p), true)
    else if c == 0 then (AddToSpot(t, spot, p), true)
    else (t, false)
  }

  /** `addIfTopThree` as written: its loop tries spot 1 and never moves on. It returns
      only when the newcomer ties or beats the first tier; the requirement says so. */
  function AddIfTopThree(t: Trio, p: real): (r: Trio)
    requires Comparison(t, 1, p) >= 0
    ensures r.reverse == t.reverse
    ensures Comparison(t, 1, p) == 0 ==>
      && r.first == t.first + [p]
      && r.second == (if |t.first| + 1 > 3 then [] else t.second)
      && r.third == (if |t.first| + 1 + |r.second| > 3 then [] else t.third)
    ensures Comparison(t, 1, p) > 0 ==>
      r.first == [p] && r.second == t.first && r.third == (if |t.first| > 2 then [] else t.second)
  {
    JumpSpotEffect(t, 1, p);
    Prune(JumpSpotIfAllowed(t, 1, p).0)
  }

  /** A newcomer worse than the first tier leaves the loop's state exactly as it was,
      so the loop repeats the same step forever: with [5] first, 3 is never placed. */
  lemma AddIfTopThreeStalls(t: Trio, p: real)
    requires Comparison(t, 1, p) < 0
    ensures JumpSpotIfAllowed(t, 1, p) == (t, false)
    ensures Comparison(Trio([5.0], [], [], false), 1, 3.0) < 0
  {
  }

  /** The placement `addIfTopThree` sets out to make: try spots 1, 2 and 3 in turn,
      stopping at the first the newcomer ties or beats, then prune. */
  function TryFrom(t: Trio, spot: int, p: real): Trio
    requires 1 <= spot <= 4
    decreases 4 - spot
  {
    if spot == 4 then t
    else
      var (next, placed) := JumpSpotIfAllowed(t, spot, p);
      if placed then Prune(next) else TryFrom(t, spot + 1, p)
  }

  /** `addIfTopThree` with the spot advancing. */
  function AddIfTopThreeIntended(t: Trio, p: real): Trio
  {
    TryFrom(t, 1, p)
  }

  /** Wherever the written loop finishes, the intended placement agrees with it. */
  lemma IntendedAgreesAsWritten(t: Trio, p: real)
    requires Comparison(t, 1, p) >= 0
    ensures AddIfTopThreeIntended(t, p) == AddIfTopThree(t, p)
  {
  }

  /** Every score of the tier equals its first. */
  predicate Uniform(tier: seq<real>)
  {
    forall i :: 0 <= i < |tier| ==> tier[i] == tier[0]
  }

  /** What a trio keeps: every tier holds one score, repeated for ties; tiers fill from
      the top; and each tier's score beats the next one's. */
  predicate Tiered(t: Trio)
  {
    && Uniform(t.first) && Uniform(t.second) && Uniform(t.third)
    && (|t.first| == 0 ==> |t.second| == 0)
    && (|t.second| == 0 ==> |t.third| == 0)
    && (|t.second| > 0 ==> Better(t, t.first[0], t.second[0]))
    && (|t.third| > 0 ==> Better(t, t.second[0], t.third[0]))
  }

  /** Pruning keeps the layout. */
  lemma PruneTiered(t: Trio)
    requires Tiered(t)
    ensures Tiered(Prune(t))
  {
  }

  /** Placing a newcomer keeps the layout: the tiers stay uniform, are filled from the
      top, and each tier's score beats the next one's. */
  lemma IntendedKeepsTiered(t: Trio, p: real)
    requires Tiered(t)
    ensures Tiered(AddIfTopThreeIntended(t, p))
  {
    var c1 := Comparison(t, 1, p);
    if c1 > 0 {
      JumpSpotEffect(t, 1, p);
      PruneTiered(JumpSpot(t, 1, p));
    } else if c1 == 0 {
      PruneTiered(AddToSpot(t, 1, p));
    } else {
      var c2 := Comparison(t, 2, p);
      if c2 > 0 {
        JumpSpotEffect(t, 2, p);
        PruneTiered(JumpSpot(t, 2, p));
      } else if c2 == 0 {
        PruneTiered(AddToSpot(t, 2, p));
      } else {
        var c3 := Comparison(t, 3, p);
        if c3 > 0 {
          JumpSpotEffect(t, 3, p);
          PruneTiered(JumpSpot(t, 3, p));
        } else if c3 == 0 {
          PruneTiered(AddToSpot(t, 3, p));
        }
      }
    }
  }

  /** A newcomer worse than a held third tier changes nothing; one that ties or beats
      the first tier, or finds it empty, ends up in the first tier. */
  lemma IntendedPlacement(t: Trio, p: real)
    requires Tiered(t)
    ensures |t.third| > 0 && Better(t, t.third[0], p) ==> AddIfTopThreeIntended(t, p) == t
    ensures |t.first| == 0 || !Better(t, t.first[0], p) ==> p in AddIfTopThreeIntended(t, p).first
  {
    if Comparison(t, 1, p) > 0 {
      JumpSpotEffect(t, 1, p);
    } else if |t.third| > 0 && Better(t, t.third[0], p) {
      assert Comparison(t, 3, p) < 0;
    }
  }
}
