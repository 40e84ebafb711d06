/** Superlative sections of the current weekly-summary script (src/main.py): point groups
    ranked without splitting ties, the lines that report them with "tied for" ranks,
    English ordinals and the markdown section wrapper. */
module WeeklyRanking {
  import opened Outcomes
  import opened Text
  import opened Grouping

  /** The English ordinal suffix of `n`, by the usual rule: "th" for a tens digit of one,
      otherwise "st", "nd", "rd" for a last digit of one, two, three, and "th" for the rest. */
  function OrdinalSuffix(n: nat): string
  {
    if (n / 10) % 10 == 1 then "th"
    else if n % 10 == 1 then "st"
    else if n % 10 == 2 then "nd"
    else if n % 10 == 3 then "rd"
    else "th"
  }

  /** `rank_string`: the rank with its ordinal suffix, read off the last two characters
      of `str(rank)`; ranks below one raise `ValueError`. */
  function RankString(rank: int): (r: Result<string>)
    ensures r.Ok? <==> rank >= 1
    ensures r.Ok? ==> r.value == NatString(rank) + OrdinalSuffix(rank)
  {
    if rank < 1 then Raise(ValueError)
    else
      var s := NatString(rank);
      NatStringLastDigits(rank);
      DigitsDistinct(rank);
      if rank > 10 && s[|s| - 2] == '1' then Ok(s + "th")
      else if s[|s| - 1] == '1' then Ok(s + "st")
      else if s[|s| - 1] == '2' then Ok(s + "nd")
      else if s[|s| - 1] == '3' then Ok(s + "rd")
      else Ok(s + "th")
  }

  /** A digit character names its digit. */
  lemma DigitsDistinct(n: nat)
    ensures DigitChar(n % 10) == '1' <==> n % 10 == 1
    ensures DigitChar(n % 10) == '2' <==> n % 10 == 2
    ensures DigitChar(n % 10) == '3' <==> n % 10 == 3
    ensures DigitChar((n / 10) % 10) == '1' <==> (n / 10) % 10 == 1
  {
  }

  /** The label a tied scorer gets in `top_scorers`. */
  function TiedFor(rank: nat): string
  {
    " (tied for " + NatString(rank) + OrdinalSuffix(rank) + ")"
  }

  /** `points_string`: the rendered value followed by "point" when it is exactly one and
      "points" otherwise. How a float is rendered is left to `render`. */
  function PointsString(points: real, render: real -> string): (r: string)
    ensures |r| > |render(points)| && r[..|render(points)|] == render(points)
    ensures r[|render(points)|..] == " point" <==> points == 1.0
    ensures points != 1.0 ==> r[|render(points)|..] == " points"
    ensures |r| == |render(points)| + (if points == 1.0 then 6 else 7)
  {
    var unit := if points == 1.0 then " point" else " points";
    assert (render(points) + unit)[|render(points)|..] == unit;
    render(points) + unit
  }

  datatype MarkdownType = Bullet | Table

  /** The text written between the header and each line. */
  function Delimiter(kind: MarkdownType): string
  {
    "\n" + (if kind == Bullet then "* " else "")
  }

  /** `markdown_section`: empty when there are no lines; otherwise a level-three header
      and every line preceded by a newline, and by a bullet marker in a bullet section. */
  function MarkdownSection(header: string, kind: MarkdownType, lines: seq<string>): (r: string)
    ensures |lines| == 0 ==> r == ""
    ensures |lines| > 0 ==> r == "### " + header + PrefixEach(lines, Delimiter(kind))
  {
    if |lines| == 0 then ""
    else
      var delimiter := Delimiter(kind);
      JoinPrefixed(lines, delimiter);
      "### " + header + delimiter + Join(lines, delimiter)
  }

  /** `ranked_scorers`: sort by key, group equal keys, order the groups (ascending, or
      reversed when descending; the groups' keys are distinct, so sorting the
      `(points, group)` pairs is exactly this), and keep the first `numScorers` groups. */
  function RankedScorers<T>(scorers: seq<T>, descending: bool, numScorers: nat, key: T -> real): (r: seq<Group<T>>)
    ensures |r| <= numScorers
    ensures forall i :: 0 <= i < |r| ==> Uniform(r[i], key)
    ensures StrictlyOrdered(r, descending)
    ensures WholeKeys(r, scorers, key)
    ensures forall i :: 0 <= i < |scorers| ==>
      KeyKept(r, key(scorers[i]))
      || (|r| == numScorers && forall j :: 0 <= j < |r| ==> StrictlyBefore(descending, r[j].key, key(scorers[i])))
  {
    RankedScorersFacts(scorers, descending, numScorers, key);
    Take(OrderedGroups(scorers, descending, key), numScorers)
  }

  /** The sorted, grouped and ordered scorers before truncation. */
  function OrderedGroups<T>(scorers: seq<T>, descending: bool, key: T -> real): seq<Group<T>>
  {
    var groups := GroupRuns(Sort(scorers, key, false), key);
    if descending then Reverse(groups) else groups
  }

  lemma OrderedGroupsFacts<T>(scorers: seq<T>, descending: bool, key: T -> real)
    ensures var ordered := OrderedGroups(scorers, descending, key);
      && (forall i :: 0 <= i < |ordered| ==> Uniform(ordered[i], key))
      && StrictlyOrdered(ordered, descending)
      && WholeKeys(ordered, scorers, key)
      && (forall i :: 0 <= i < |scorers| ==> KeyKept(ordered, key(scorers[i])))
  {
    OrderedGroupsStrict(scorers, descending, key);
    OrderedGroupsWhole(scorers, descending, key);
    OrderedGroupsCover(scorers, descending, key);
  }

  lemma OrderedGroupsStrict<T>(scorers: seq<T>, descending: bool, key: T -> real)
    ensures StrictlyOrdered(OrderedGroups(scorers, descending, key), descending)
  {
    var sorted := Sort(scorers, key, false);
    var groups := GroupRuns(sorted, key);
    var ordered := OrderedGroups(scorers, descending, key);
    GroupRunsOfSorted(sorted, key, false);
    if descending {
      ReverseStrict(groups);
    }
  }

  /** Groups strictly ascending by key are strictly descending once reversed. */
  lemma ReverseStrict<T>(groups: seq<Group<T>>)
    requires StrictlyOrdered(groups, false)
    ensures StrictlyOrdered(Reverse(groups), true)
  {
    var ordered := Reverse(groups);
    forall i, j | 0 <= i < j < |ordered|
      ensures StrictlyBefore(true, ordered[i].key, ordered[j].key)
    {
      assert ordered[i] == groups[|groups| - 1 - i] && ordered[j] == groups[|groups| - 1 - j];
    }
  }

  lemma OrderedGroupsWhole<T>(scorers: seq<T>, descending: bool, key: T -> real)
    ensures var ordered := OrderedGroups(scorers, descending, key);
      && (forall i :: 0 <= i < |ordered| ==> Uniform(ordered[i], key))
      && WholeKeys(ordered, scorers, key)
  {
    var sorted := Sort(scorers, key, false);
    var groups := GroupRuns(sorted, key);
    var ordered := OrderedGroups(scorers, descending, key);
    GroupRunsOfSorted(sorted, key, false);
    forall i | 0 <= i < |ordered|
      ensures Uniform(ordered[i], key)
      ensures ordered[i].members == KeyFilter(scorers, key, ordered[i].key)
    {
      var p := if descending then |groups| - 1 - i else i;
      assert ordered[i] == groups[p];
      SortIsStable(scorers, key, false, ordered[i].key);
    }
  }

  lemma OrderedGroupsCover<T>(scorers: seq<T>, descending: bool, key: T -> real)
    ensures forall i :: 0 <= i < |scorers| ==> KeyKept(OrderedGroups(scorers, descending, key), key(scorers[i]))
  {
    forall i | 0 <= i < |scorers|
      ensures KeyKept(OrderedGroups(scorers, descending, key), key(scorers[i]))
    {
      OrderedGroupsKeep(scorers, descending, key, scorers[i]);
    }
  }

  /** The key of every scorer is the key of some ordered group. */
  lemma OrderedGroupsKeep<T>(scorers: seq<T>, descending: bool, key: T -> real, x: T)
    requires x in scorers
    ensures KeyKept(OrderedGroups(scorers, descending, key), key(x))
  {
    var sorted := Sort(scorers, key, false);
    assert x in multiset(scorers);
    RunsKeep(sorted, descending, key, x);
  }

  /** The key of every element is the key of some run, in either order of the runs. */
  lemma RunsKeep<T>(s: seq<T>, descending: bool, key: T -> real, x: T)
    requires x in s
    ensures var groups := GroupRuns(s, key);
      KeyKept(if descending then Reverse(groups) else groups, key(x))
  {
    var groups := GroupRuns(s, key);
    var g := RunOf(s, key, x);
    if descending {
      var r := Reverse(groups);
      assert r[|groups| - 1 - g] == groups[g];
      assert KeyKept(r, key(x));
    } else {
      assert KeyKept(groups, key(x));
    }
  }

  /** A run holding an element's key. */
  lemma RunOf<T>(s: seq<T>, key: T -> real, x: T) returns (g: int)
    requires x in s
    ensures 0 <= g < |GroupRuns(s, key)| && GroupRuns(s, key)[g].key == key(x)
  {
    GroupRunsCoverKeys(s, key, x);
    g :| 0 <= g < |GroupRuns(s, key)| && GroupRuns(s, key)[g].key == key(x);
  }

  lemma RankedScorersFacts<T>(scorers: seq<T>, descending: bool, numScorers: nat, key: T -> real)
    ensures var r := Take(OrderedGroups(scorers, descending, key), numScorers);
      && (forall i :: 0 <= i < |r| ==> Uniform(r[i], key))
      && StrictlyOrdered(r, descending)
      && WholeKeys(r, scorers, key)
      && (forall i :: 0 <= i < |scorers| ==>
        KeyKept(r, key(scorers[i]))
        || (|r| == numScorers && forall j :: 0 <= j < |r| ==> StrictlyBefore(descending, r[j].key, key(scorers[i]))))
  {
    OrderedGroupsFacts(scorers, descending, key);
    TakeKeepsFacts(OrderedGroups(scorers, descending, key), scorers, descending, numScorers, key);
  }

  /** Cutting groups that are uniform, strictly ordered, whole and cover every scorer
      keeps them uniform, strictly ordered and whole; a scorer whose key is cut off comes
      after every kept group, and then the cut is full. */
  lemma TakeKeepsFacts<T>(ordered: seq<Group<T>>, scorers: seq<T>, descending: bool, numScorers: nat, key: T -> real)
    requires forall i :: 0 <= i < |ordered| ==> Uniform(ordered[i], key)
    requires StrictlyOrdered(ordered, descending) && WholeKeys(ordered, scorers, key)
    requires forall i :: 0 <= i < |scorers| ==> KeyKept(ordered, key(scorers[i]))
    ensures var r := Take(ordered, numScorers);
      && (forall i :: 0 <= i < |r| ==> Uniform(r[i], key))
      && StrictlyOrdered(r, descending)
      && WholeKeys(r, scorers, key)
      && (forall i :: 0 <= i < |scorers| ==>
        KeyKept(r, key(scorers[i]))
        || (|r| == numScorers && forall j :: 0 <= j < |r| ==> StrictlyBefore(descending, r[j].key, key(scorers[i]))))
  {
    var r := Take(ordered, numScorers);
    forall i | 0 <= i < |scorers|
      ensures KeyKept(r, key(scorers[i]))
        || (|r| == numScorers && forall j :: 0 <= j < |r| ==> StrictlyBefore(descending, r[j].key, key(scorers[i])))
    {
      var p :| 0 <= p < |ordered| && ordered[p].key == key(scorers[i]);
      if p < numScorers {
        assert r[p].key == key(scorers[i]);
      } else {
        forall j | 0 <= j < |r|
          ensures StrictlyBefore(descending, r[j].key, key(scorers[i]))
        {
          assert r[j] == ordered[j];
        }
      }
    }
  }

  /** The loop of `top_scorers` as written: `index` counts groups, `adjustment` starts at
      one and grows by the size of each group less one, and a tied member's rank is
      `index + adjustment`, passed to `rank_string`. */
  function TopScorerLines<T>(gs: seq<Group<T>>, index: nat, adjustment: int,
                             describe: (T, real) -> string): Result<seq<string>>
    decreases |gs|
  {
    if |gs| == 0 then Ok([])
    else
      var g := gs[0];
      var tie :- TieLabel(g, index + adjustment);
      var rest :- TopScorerLines(gs[1..], index + 1, adjustment + |g.members| - 1, describe);
      Ok(MemberLines(g, describe, tie) + rest)
  }

  /** The label `top_scorers` writes after each member of `g`: none for a lone scorer,
      and the ordinal of `rank` for a tie. */
  function TieLabel<T>(g: Group<T>, rank: int): Result<string>
  {
    if |g.members| > 1 then
      var ordinal :- RankString(rank);
      Ok(" (tied for " + ordinal + ")")
    else Ok("")
  }

  /** The loop's rank is one more than the number of scorers in earlier groups, so
      `rank_string` never raises and the lines are the reference ranked lines. */
  lemma {:induction false} TopScorerLinesAreRanked<T>(gs: seq<Group<T>>, index: nat, adjustment: int, earlier: nat,
                                                       describe: (T, real) -> string)
    requires index + adjustment == earlier + 1
    ensures TopScorerLines(gs, index, adjustment, describe) == Ok(RankedLines(gs, earlier, describe, TiedFor))
    decreases |gs|
  {
    if |gs| > 0 {
      var later := earlier + |gs[0].members|;
      var tag := if |gs[0].members| > 1 then TiedFor(earlier + 1) else "";
      TieLabelRanked(gs[0], earlier + 1);
      TopScorerLinesAreRanked(gs[1..], index + 1, adjustment + |gs[0].members| - 1, later, describe);
      TopScorerLinesStep(gs, index, adjustment, earlier + 1, describe, tag, RankedLines(gs[1..], later, describe, TiedFor));
      RankedLinesStep(gs, earlier, describe, TiedFor);
    }
  }

  /** One pass of the loop: the first group's lines, then the rest's. */
  lemma TopScorerLinesStep<T>(gs: seq<Group<T>>, index: nat, adjustment: int, rank: int, describe: (T, real) -> string,
                              tie: string, rest: seq<string>)
    requires |gs| > 0 && rank == index + adjustment && TieLabel(gs[0], rank) == Ok(tie)
    requires TopScorerLines(gs[1..], index + 1, adjustment + |gs[0].members| - 1, describe) == Ok(rest)
    ensures TopScorerLines(gs, index, adjustment, describe) == Ok(MemberLines(gs[0], describe, tie) + rest)
  {
  }

  /** The reference lines of non-empty groups: the first group's, then the rest's. */
  lemma RankedLinesStep<T>(gs: seq<Group<T>>, earlier: nat, describe: (T, real) -> string, tieLabel: nat -> string)
    requires |gs| > 0
    ensures RankedLines(gs, earlier, describe, tieLabel)
         == MemberLines(gs[0], describe, if |gs[0].members| > 1 then tieLabel(earlier + 1) else "")
            + RankedLines(gs[1..], earlier + |gs[0].members|, describe, tieLabel)
  {
  }

  /** A tie label at a positive rank never raises. */
  lemma TieLabelRanked<T>(g: Group<T>, rank: int)
    requires rank >= 1
    ensures TieLabel(g, rank) == Ok(if |g.members| > 1 then TiedFor(rank) else "")
  {
    if |g.members| > 1 {
      var digits := NatString(rank);
      assert " (tied for " + (digits + OrdinalSuffix(rank)) + ")" == TiedFor(rank);
    }
  }

  /** `top_scorers`: one line per member of the kept groups, in rank order; members of a
      tied group carry "(tied for <rank>)" with rank one more than the number of
      scorers in earlier groups. It never raises. */
  function TopScorers<T>(scorers: seq<T>, descending: bool, numScorers: nat, key: T -> real,
                         describe: (T, real) -> string): (r: Result<seq<string>>)
    ensures r == Ok(RankedLines(RankedScorers(scorers, descending, numScorers, key), 0, describe, TiedFor))
  {
    TopScorerLinesAreRanked(RankedScorers(scorers, descending, numScorers, key), 0, 1, 0, describe);
    TopScorerLines(RankedScorers(scorers, descending, numScorers, key), 0, 1, describe)
  }
}
