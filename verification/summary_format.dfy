/** Sections of the older summary package's markdown (summary/markdown_formatter.py):
    tie labels, the three-bullet sections, the team rankings behind them, the mirrored
    matchup filter and the division record column. */
module SummaryFormat {
  import opened Outcomes
  import opened Text
  import opened Grouping
  import opened WeeklyRanking
  import opened SummaryScoring
  import opened SummarySections
  import opened SummarySectionLemmas

  /** `tied_at_rank_string`: "(tied for 1st)", "2nd" and "3rd" spelled out, and "th"
      after every other rank. */
  function TiedAtRankString(rank: int): (r: string)
    ensures rank < 1 || rank > 3 ==> r == "(tied for " + IntString(rank) + "th)"
  {
    if rank == 1 then "(tied for 1st)"
    else if rank == 2 then "(tied for 2nd)"
    else if rank == 3 then "(tied for 3rd)"
    else "(tied for " + IntString(rank) + "th)"
  }

  /** For the ranks up to twenty the label is the proper English ordinal, the same label
      the current script writes. */
  lemma TiedAtRankAgrees(rank: int)
    requires 1 <= rank <= 20
    ensures " " + TiedAtRankString(rank) == TiedFor(rank)
  {
    if rank <= 3 {
      TiedLowRanks(rank);
    } else {
      OrdinalSuffixPastThree(rank);
      TieLabelShape(NatString(rank), "th");
    }
  }

  /** The labels of the first three ranks. */
  lemma TiedLowRanks(rank: nat)
    requires 1 <= rank <= 3
    ensures " " + TiedAtRankString(rank) == TiedFor(rank)
  {
    if rank == 1 {
      TiedLowRank(1, "1", "st", "(tied for 1st)");
    } else if rank == 2 {
      TiedLowRank(2, "2", "nd", "(tied for 2nd)");
    } else {
      TiedLowRank(3, "3", "rd", "(tied for 3rd)");
    }
  }

  /** One of the first three ranks, given its digit, suffix and spelled-out label. */
  lemma TiedLowRank(rank: nat, digit: string, suffix: string, text: string)
    requires 1 <= rank <= 3 && TiedAtRankString(rank) == text
    requires NatString(rank) == digit && OrdinalSuffix(rank) == suffix
    requires text == "(tied for " + digit + suffix + ")"
    ensures " " + TiedAtRankString(rank) == TiedFor(rank)
  {
    TieLabelShape(digit, suffix);
  }

  /** From 4 to 20 the ordinal suffix is "th". */
  lemma OrdinalSuffixPastThree(rank: nat)
    requires 4 <= rank <= 20
    ensures OrdinalSuffix(rank) == "th"
  {
    if rank < 10 {
      assert rank / 10 == 0 && rank % 10 == rank;
    } else if rank < 20 {
      assert rank / 10 == 1;
    } else {
      assert rank / 10 == 2 && rank % 10 == 0;
    }
  }

  /** A tie label read both ways: after the space, or with the space inside. */
  lemma TieLabelShape(digits: string, suffix: string)
    ensures " " + ("(tied for " + digits + suffix + ")") == " (tied for " + digits + suffix + ")"
    ensures "(tied for " + digits + "th)" == "(tied for " + digits + "th" + ")"
  {
  }

  /** What `markdown_for_section` writes before each bullet. */
  const BulletMark: string := "\n\n  * "

  /** `markdown_for_section`: a level-three header followed by every bullet, each after
      its own bullet mark, in order. With no bullets a lone empty bullet is written. */
  function MarkdownForSection(header: string, bullets: seq<string>): (r: string)
    ensures |bullets| > 0 ==> r == "### " + header + PrefixEach(bullets, BulletMark)
    ensures |bullets| == 0 ==> r == "### " + header + BulletMark
  {
    if |bullets| > 0 then JoinPrefixed(bullets, BulletMark); "### " + header + BulletMark + Join(bullets, BulletMark)
    else "### " + header + BulletMark + Join(bullets, BulletMark)
  }

  /** The label after a tied scorer's bullet. */
  function SummaryTieLabel(rank: nat): string
  {
    " " + TiedAtRankString(rank)
  }

  /** `section_bullets`: the bullets of the groups up to and including the first one that
      brings the count to three or more, never part of a group; each member of a group
      of two or more is labelled with its rank, one more than the number of bullets
      from earlier groups. */
  function SectionBullets<T>(gs: seq<Group<T>>, describe: (T, real) -> string): (bullets: seq<string>)
    ensures bullets == RankedLines(gs[..BulletCut(gs, 3)], 0, describe, SummaryTieLabel)
  {
    SectionBulletsFromRanked(gs, 0, 1, [], describe, SummaryTieLabel);
    SectionBulletsFrom(gs, 0, 1, [], describe, SummaryTieLabel)
  }

  /** The sections of the team formatter that rank best first. */
  predicate ReverseSort(section: string)
  {
    section in ["Top Three Teams of the Week", "Offensive Powerhouses", "Pitching Factories"]
  }

  /** The points a team section ranks by: hitting, pitching, or the total. */
  function SectionKey(section: string): Team -> real
  {
    if section in ["Offensive Powerhouses", "Forgot Their Bats"] then (t: Team) => t.hittingPoints
    else if section in ["Pitching Factories", "Burned Down Factories"] then (t: Team) => t.pitchingPoints
    else TotalPoints
  }

  /** `TeamSectionFormatter.sort_scorers`: the teams sorted by the section's key (best first
      only for the three "top" sections) and grouped by equal key. The groups are in
      strictly that order, each holds every team at its key in the given order, and
      every team is in one of them. */
  function SortScorers(teams: seq<Team>, section: string): (gs: seq<Group<Team>>)
    ensures forall i :: 0 <= i < |gs| ==> Uniform(gs[i], SectionKey(section))
    ensures StrictlyOrdered(gs, ReverseSort(section))
    ensures WholeKeys(gs, teams, SectionKey(section))
    ensures forall i :: 0 <= i < |teams| ==> KeyKept(gs, SectionKey(section)(teams[i]))
  {
    var key := SectionKey(section);
    var sorted := Sort(teams, key, ReverseSort(section));
    SortedGroupsWhole(teams, key, ReverseSort(section));
    GroupRuns(sorted, key)
  }

  lemma SortedGroupsWhole<T>(s: seq<T>, key: T -> real, descending: bool)
    ensures var gs := GroupRuns(Sort(s, key, descending), key);
      && StrictlyOrdered(gs, descending)
      && WholeKeys(gs, s, key)
      && forall i :: 0 <= i < |s| ==> KeyKept(gs, key(s[i]))
  {
    var sorted := Sort(s, key, descending);
    var gs := GroupRuns(sorted, key);
    GroupRunsOfSorted(sorted, key, descending);
    forall i | 0 <= i < |gs|
      ensures gs[i].members == KeyFilter(s, key, gs[i].key)
    {
      SortIsStable(s, key, descending, gs[i].key);
    }
    forall i | 0 <= i < |s|
      ensures KeyKept(gs, key(s[i]))
    {
      assert s[i] in multiset(sorted);
      GroupRunsCoverKeys(sorted, key, s[i]);
    }
  }

  /** A matchup entry: the team it is listed under and its opponent. */
  type Pairing = (string, string)

  function Mirror(p: Pairing): Pairing
  {
    (p.1, p.0)
  }

  /** No entry is the mirror of another. */
  predicate NoMirrors(s: seq<Pairing>)
  {
    forall i, j :: 0 <= i < |s| && 0 <= j < |s| && i != j ==> s[j] != Mirror(s[i])
  }

  /** The deduplication in `_comparison_matchup_bullets` from a state holding `kept`: an
      entry is kept unless its mirror is already kept. */
  function DedupFrom(pairs: seq<Pairing>, kept: seq<Pairing>): seq<Pairing>
    decreases |pairs|
  {
    if |pairs| == 0 then kept
    else DedupFrom(pairs[1..], if Mirror(pairs[0]) in kept then kept else kept + [pairs[0]])
  }

  /** `_comparison_matchup_bullets`' deduplication: a game listed from both sides is
      reported once, from the side seen first. */
  function Dedup(pairs: seq<Pairing>): (r: seq<Pairing>)
    ensures NoMirrors(r)
    ensures forall i :: 0 <= i < |r| ==> r[i] in pairs
    ensures forall i :: 0 <= i < |pairs| ==> pairs[i] in r || Mirror(pairs[i]) in r
  {
    DedupKeeps(pairs, []);
    DedupFrom(pairs, [])
  }

  lemma {:induction false} DedupKeeps(pairs: seq<Pairing>, kept: seq<Pairing>)
    requires NoMirrors(kept)
    ensures NoMirrors(DedupFrom(pairs, kept))
    ensures forall i :: 0 <= i < |DedupFrom(pairs, kept)| ==> DedupFrom(pairs, kept)[i] in kept + pairs
    ensures forall i :: 0 <= i < |kept| ==> kept[i] in DedupFrom(pairs, kept)
    ensures forall i :: 0 <= i < |pairs| ==> pairs[i] in DedupFrom(pairs, kept) || Mirror(pairs[i]) in DedupFrom(pairs, kept)
    decreases |pairs|
  {
    if |pairs| > 0 {
      var p := pairs[0];
      var next := if Mirror(p) in kept then kept else kept + [p];
      if Mirror(p) !in kept {
        forall i, j | 0 <= i < |next| && 0 <= j < |next| && i != j
          ensures next[j] != Mirror(next[i])
        {
          if i == |kept| {
            assert next[j] == kept[j];
          } else if j == |kept| {
            assert next[i] == kept[i];
            assert Mirror(p) != kept[i];
          }
        }
      }
      assert forall i :: 0 <= i < |kept| ==> kept[i] in next;
      DedupKeeps(pairs[1..], next);
      var r := DedupFrom(pairs, kept);
      assert Mirror(p) in kept ==> Mirror(p) in r;
      assert Mirror(p) !in kept ==> next[|kept|] == p && p in r;
      forall i | 0 <= i < |r|
        ensures r[i] in kept + pairs
      {
        assert r[i] in next + pairs[1..];
      }
      forall i | 1 <= i < |pairs|
        ensures pairs[i] in r || Mirror(pairs[i]) in r
      {
        assert pairs[i] == pairs[1..][i - 1];
      }
    }
  }

  /** The record column of `_division_stats`: empty for the league row, and otherwise
      wins and losses, with ties after them when there are any. */
  function RecordString(wins: nat, losses: nat, ties: nat, useRecord: bool): string
  {
    if !useRecord then ""
    else if ties == 0 then NatString(wins) + "-" + NatString(losses)
    else NatString(wins) + "-" + NatString(losses) + "-" + NatString(ties)
  }

  /** Reading a record column back: "W-L" or "W-L-T" with decimal counts. */
  function ParseRecord(s: string): Option<(nat, nat, nat)>
  {
    var i := IndexOf(s, '-');
    if i == |s| || !AllDigits(s[..i]) then None
    else
      var rest := s[i + 1..];
      var j := IndexOf(rest, '-');
      if !AllDigits(rest[..j]) then None
      else if j == |rest| then Some((NatValue(s[..i]), NatValue(rest), 0))
      else if AllDigits(rest[j + 1..]) then Some((NatValue(s[..i]), NatValue(rest[..j]), NatValue(rest[j + 1..])))
      else None
  }

  /** The record column states the counts it was made from: reading it back gives the
      wins, losses and ties, so a record without a third part means no ties. */
  lemma RecordRoundTrip(wins: nat, losses: nat, ties: nat)
    ensures ParseRecord(RecordString(wins, losses, ties, true)) == Some((wins, losses, ties))
  {
    if ties == 0 {
      RecordRoundTripTwo(wins, losses);
    } else {
      RecordRoundTripThree(wins, losses, ties);
    }
  }

  /** "W-L" reads back as W wins, L losses and no ties. */
  lemma RecordRoundTripTwo(wins: nat, losses: nat)
    ensures ParseRecord(NatString(wins) + "-" + NatString(losses)) == Some((wins, losses, 0))
  {
    ParseTwoParts(NatString(wins), NatString(losses));
    NatValueOfNatString(wins);
    NatValueOfNatString(losses);
  }

  /** "W-L-T" reads back as its three counts. */
  lemma RecordRoundTripThree(wins: nat, losses: nat, ties: nat)
    ensures ParseRecord(NatString(wins) + "-" + NatString(losses) + "-" + NatString(ties))
         == Some((wins, losses, ties))
  {
    ParseThreeParts(NatString(wins), NatString(losses), NatString(ties));
    NatValueOfNatString(wins);
    NatValueOfNatString(losses);
    NatValueOfNatString(ties);
  }

  /** Two runs of digits joined by a dash parse as their values and no ties. */
  lemma ParseTwoParts(w: string, l: string)
    requires AllDigits(w) && AllDigits(l)
    ensures ParseRecord(w + "-" + l) == Some((NatValue(w), NatValue(l), 0))
  {
    IndexAfterDigits(w, '-', l);
    IndexInDigits(l, '-');
    assert l[..|l|] == l;
  }

  /** Three runs of digits joined by dashes parse as their values. */
  lemma ParseThreeParts(w: string, l: string, t: string)
    requires AllDigits(w) && AllDigits(l) && AllDigits(t)
    ensures ParseRecord(w + "-" + l + "-" + t) == Some((NatValue(w), NatValue(l), NatValue(t)))
  {
    assert w + "-" + l + "-" + t == w + ['-'] + (l + ['-'] + t);
    IndexAfterDigits(w, '-', l + ['-'] + t);
    IndexAfterDigits(l, '-', t);
  }

  /** The teams of a division's row: every team for the league row. */
  function DivisionTeams(teams: seq<Team>, division: string): (r: seq<Team>)
    ensures division == "League" ==> r == teams
    ensures division != "League" ==> forall i :: 0 <= i < |r| ==> r[i] in teams && r[i].division == division
    ensures division != "League" ==> forall i :: 0 <= i < |teams| && teams[i].division == division ==> teams[i] in r
  {
    if division == "League" then teams else Filter(teams, (t: Team) => t.division == division)
  }

  function SumWins(teams: seq<Team>): nat
  {
    if |teams| == 0 then 0 else |teams[0].wins| + SumWins(teams[1..])
  }

  function SumLosses(teams: seq<Team>): nat
  {
    if |teams| == 0 then 0 else |teams[0].losses| + SumLosses(teams[1..])
  }

  function SumTies(teams: seq<Team>): nat
  {
    if |teams| == 0 then 0 else |teams[0].ties| + SumTies(teams[1..])
  }

  /** The record column of a division's row in the stats table. */
  function DivisionRecord(teams: seq<Team>, division: string): string
  {
    var members := DivisionTeams(teams, division);
    RecordString(SumWins(members), SumLosses(members), SumTies(members), division != "League")
  }

  /** A division's record column reads back as its teams' summed wins, losses and ties;
      the league row has none. */
  lemma DivisionRecordCounts(teams: seq<Team>, division: string)
    ensures division == "League" ==> DivisionRecord(teams, division) == ""
    ensures division != "League" ==>
      var members := DivisionTeams(teams, division);
      ParseRecord(DivisionRecord(teams, division)) == Some((SumWins(members), SumLosses(members), SumTies(members)))
  {
    var members := DivisionTeams(teams, division);
    RecordRoundTrip(SumWins(members), SumLosses(members), SumTies(members));
  }
}
