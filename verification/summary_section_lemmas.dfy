/** Why the loop of `section_bullets` (summary/markdown_formatter.py) writes the ranked
    lines of the groups its cut keeps, and the ranks a section can show. */
module SummarySectionLemmas {
  import opened Grouping
  import opened SummarySections

  /** The loop writes the ranked lines of the groups up to the cut after the bullets it
      already holds, whatever the label. */
  lemma {:induction false} SectionBulletsFromRanked<T>(gs: seq<Group<T>>, index: nat, adjustment: int,
                                                       bullets: seq<string>, describe: (T, real) -> string,
                                                       tieLabel: nat -> string)
    requires |bullets| < 3 && index + adjustment == |bullets| + 1
    ensures SectionBulletsFrom(gs, index, adjustment, bullets, describe, tieLabel)
         == bullets + RankedLines(gs[..BulletCut(gs, 3 - |bullets|)], |bullets|, describe, tieLabel)
    decreases |gs|
  {
    if |gs| == 0 {
      assert gs[..0] == [];
      assert bullets + [] == bullets;
    } else if |bullets| + |gs[0].members| >= 3 {
      SectionBulletsStop(gs, index, adjustment, bullets, describe, tieLabel);
    } else {
      var held := bullets + MemberLines(gs[0], describe, TieTag(gs[0], |bullets|, tieLabel));
      assert |held| == |bullets| + |gs[0].members|;
      SectionBulletsFromRanked(gs[1..], index + 1, adjustment + |gs[0].members| - 1, held, describe, tieLabel);
      SectionBulletsGoOn(gs, index, adjustment, bullets, held, describe, tieLabel);
    }
  }

  /** A group that leaves the count below three is followed by the rest's bullets;
      `held` is what the bullets are after that group. */
  lemma SectionBulletsGoOn<T>(gs: seq<Group<T>>, index: nat, adjustment: int, bullets: seq<string>,
                              held: seq<string>, describe: (T, real) -> string, tieLabel: nat -> string)
    requires |gs| > 0 && |bullets| < 3 && index + adjustment == |bullets| + 1
    requires |bullets| + |gs[0].members| < 3
    requires held == bullets + MemberLines(gs[0], describe, TieTag(gs[0], |bullets|, tieLabel))
    requires SectionBulletsFrom(gs[1..], index + 1, adjustment + |gs[0].members| - 1, held, describe, tieLabel)
          == held + RankedLines(gs[1..][..BulletCut(gs[1..], 3 - |held|)], |held|, describe, tieLabel)
    ensures SectionBulletsFrom(gs, index, adjustment, bullets, describe, tieLabel)
         == bullets + RankedLines(gs[..BulletCut(gs, 3 - |bullets|)], |bullets|, describe, tieLabel)
  {
    var lines := MemberLines(gs[0], describe, TieTag(gs[0], |bullets|, tieLabel));
    var k := BulletCut(gs, 3 - |bullets|);
    var cut := BulletCut(gs[1..], 3 - |held|);
    assert |held| == |bullets| + |gs[0].members|;
    BulletCutStep(gs, 3 - |bullets|, 3 - |held|);
    var rest := RankedLines(gs[1..][..cut], |held|, describe, tieLabel);
    SectionBulletsStep(gs, index, adjustment, bullets, held, describe, tieLabel);
    RankedLinesPrefix(gs, k, cut, |bullets|, |held|, describe, tieLabel);
    AppendAssoc(bullets, lines, rest);
  }

  /** The group that brings the count to three is the last one shown. */
  lemma SectionBulletsStop<T>(gs: seq<Group<T>>, index: nat, adjustment: int,
                              bullets: seq<string>, describe: (T, real) -> string, tieLabel: nat -> string)
    requires |gs| > 0 && |bullets| < 3 && index + adjustment == |bullets| + 1
    requires |bullets| + |gs[0].members| >= 3
    ensures SectionBulletsFrom(gs, index, adjustment, bullets, describe, tieLabel)
         == bullets + RankedLines(gs[..BulletCut(gs, 3 - |bullets|)], |bullets|, describe, tieLabel)
  {
    var lines := MemberLines(gs[0], describe, TieTag(gs[0], |bullets|, tieLabel));
    assert BulletCut(gs, 3 - |bullets|) == 1;
    RankedLinesPrefix(gs, 1, 0, |bullets|, |bullets| + |gs[0].members|, describe, tieLabel);
    assert gs[1..][..0] == [];
    assert RankedLines(gs[..1], |bullets|, describe, tieLabel) == lines + [];
  }

  /** A group that leaves the count below three is one pass of the loop: its members'
      lines, labelled with the rank one past the bullets held, join the bullets. */
  lemma SectionBulletsStep<T>(gs: seq<Group<T>>, index: nat, adjustment: int,
                              bullets: seq<string>, held: seq<string>, describe: (T, real) -> string, tieLabel: nat -> string)
    requires |gs| > 0 && index + adjustment == |bullets| + 1
    requires |bullets| + |gs[0].members| < 3
    requires held == bullets + MemberLines(gs[0], describe, TieTag(gs[0], |bullets|, tieLabel))
    ensures SectionBulletsFrom(gs, index, adjustment, bullets, describe, tieLabel)
         == SectionBulletsFrom(gs[1..], index + 1, adjustment + |gs[0].members| - 1, held, describe, tieLabel)
  {
  }

  /** A first group smaller than the need is shown, and the rest is cut for what remains. */
  lemma BulletCutStep<T>(gs: seq<Group<T>>, need: int, restNeed: int)
    requires |gs| > 0 && |gs[0].members| < need && restNeed == need - |gs[0].members|
    ensures BulletCut(gs, need) == 1 + BulletCut(gs[1..], restNeed)
  {
  }

  lemma AppendAssoc<T>(a: seq<T>, b: seq<T>, c: seq<T>)
    ensures a + (b + c) == (a + b) + c
  {
  }

  /** The ranked lines of a non-empty prefix: the first group's, then the rest's. */
  lemma RankedLinesPrefix<T>(gs: seq<Group<T>>, k: int, cut: int, earlier: nat, later: nat,
                             describe: (T, real) -> string, tieLabel: nat -> string)
    requires 0 < k <= |gs| && cut == k - 1 && later == earlier + |gs[0].members|
    ensures RankedLines(gs[..k], earlier, describe, tieLabel)
         == MemberLines(gs[0], describe, TieTag(gs[0], earlier, tieLabel))
            + RankedLines(gs[1..][..cut], later, describe, tieLabel)
  {
    assert gs[..k][1..] == gs[1..][..cut] by {
      assert forall i :: 0 <= i < cut ==> gs[..k][1..][i] == gs[i + 1] == gs[1..][..cut][i];
    }
    assert gs[..k][0] == gs[0];
  }

  /** Every group a section shows starts with fewer than three bullets before it, so
      every tie rank it writes is 1, 2 or 3 and the "th" fallback of
      `tied_at_rank_string` is never reached from a section. */
  lemma SectionRanksAtMostThree<T>(gs: seq<Group<T>>, j: int)
    requires 0 <= j < BulletCut(gs, 3)
    ensures 1 <= Count(gs[..j]) + 1 <= 3
  {
    CountMonotone(gs, j, BulletCut(gs, 3) - 1);
  }

  /** A longer prefix holds at least as many members. */
  lemma {:induction false} CountMonotone<T>(gs: seq<Group<T>>, i: nat, j: nat)
    requires i <= j <= |gs|
    ensures Count(gs[..i]) <= Count(gs[..j])
    decreases j - i
  {
    if i < j {
      CountMonotone(gs, i + 1, j);
      CountLast(gs, i + 1);
    }
  }

  /** The members of a prefix one group longer. */
  lemma {:induction false} CountLast<T>(gs: seq<Group<T>>, k: nat)
    requires 0 < k <= |gs|
    ensures Count(gs[..k]) == Count(gs[..k - 1]) + |gs[k - 1].members|
    decreases k
  {
    if k > 1 {
      CountPrefix(gs, k);
      CountPrefix(gs, k - 1);
      CountLast(gs[1..], k - 1);
      assert gs[1..][..k - 1 - 1] == gs[1..][..k - 2];
    } else {
      assert gs[..1][1..] == [] && gs[..0] == [];
    }
  }
}
