/** The matchup superlatives of the oldest package (rd2weekly/src/summary/matchupSummary.py):
    closest and most lopsided matchups, and the strongest losses and weakest wins
    among teams with one or two results of a kind, every tied matchup included. */
module Rd2Matchups {
  import opened Outcomes
  import opened Rd2Scoring

  /** A matchup between two teams, in the order the matchup holds them. */
  datatype Rd2Matchup = Rd2Matchup(team1: Team, team2: Team)

  /** `pointDifference`: the first team's total points minus the second's. */
  function Difference(m: Rd2Matchup): real
  {
    TotalPoints(m.team1.points) - TotalPoints(m.team2.points)
  }

  /** The category names. */
  const ClosestMatchup := "Closest Matchup"
  const BiggestBlowout := "Blowout of the Week"
  const StrongestOneLoss := "Strongest Loss"
  const StrongestTwoLosses := "Strongest 0-2"
  const WeakestOneWin := "Weakest Win"
  const WeakestTwoWins := "Weakest 2-0"

  /** `k` is the greatest key (`descending`) or the least. */
  ghost predicate IsExtreme(ms: seq<Rd2Matchup>, key: Rd2Matchup -> real, descending: bool, k: real)
  {
    forall n :: n in ms ==> if descending then key(n) <= k else key(n) >= k
  }

  /** The key of the first matchup after sorting by `key`, reversed when `descending`:
      the greatest key or the least, held by some matchup. */
  function ExtremeKey(ms: seq<Rd2Matchup>, key: Rd2Matchup -> real, descending: bool): (k: real)
    requires |ms| > 0
    ensures exists i :: 0 <= i < |ms| && key(ms[i]) == k
    ensures IsExtreme(ms, key, descending, k)
  {
    if |ms| == 1 then key(ms[0])
    else
      var rest := ExtremeKey(ms[1..], key, descending);
      assert forall n :: n in ms ==> n == ms[0] || n in ms[1..];
      var here := key(ms[0]);
      if (descending && here > rest) || (!descending && here < rest) then here
      else
        var i :| 0 <= i < |ms[1..]| && key(ms[1..][i]) == rest;
        assert key(ms[i + 1]) == rest;
        rest
  }

  /** The loops of `__getMostExtremeMatchup` and `__getMostExtremePoints`: sort by the
      key, then keep every matchup whose key equals the first sorted matchup's. */
  function Extremes(ms: seq<Rd2Matchup>, key: Rd2Matchup -> real, descending: bool): (r: set<Rd2Matchup>)
    ensures |ms| == 0 ==> r == {}
    ensures forall m :: m in r <==> m in ms && IsExtreme(ms, key, descending, key(m))
  {
    if |ms| == 0 then {}
    else
      var k := ExtremeKey(ms, key, descending);
      var r := set m | m in ms && key(m) == k;
      assert forall m :: m in ms && IsExtreme(ms, key, descending, key(m)) ==> key(m) == k by {
        var i :| 0 <= i < |ms| && key(ms[i]) == k;
        assert ms[i] in ms;
      }
      r
  }

  /** The selected matchups all share one key, and they come from a nonempty list. */
  lemma ExtremesShareKey(ms: seq<Rd2Matchup>, key: Rd2Matchup -> real, descending: bool, a: Rd2Matchup, b: Rd2Matchup)
    requires a in Extremes(ms, key, descending) && b in Extremes(ms, key, descending)
    ensures key(a) == key(b)
    ensures |ms| > 0
  {
  }

  /** `__getMostExtremeMatchup`: the matchups with the greatest point difference
      (`descending`) or the least. */
  function MostExtremeMatchup(ms: seq<Rd2Matchup>, descending: bool): (r: set<Rd2Matchup>)
    ensures |ms| > 0 <==> |r| > 0
    ensures forall m :: m in r <==> m in ms && IsExtreme(ms, Difference, descending, Difference(m))
  {
    var r := Extremes(ms, Difference, descending);
    if |ms| > 0 then
      var k := ExtremeKey(ms, Difference, descending);
      var i :| 0 <= i < |ms| && Difference(ms[i]) == k;
      assert ms[i] in r;
      r
    else r
  }

  /** The wins of the first team, or the losses of the second. */
  function Results(m: Rd2Matchup, isWin: bool): nat
  {
    if isWin then |m.team1.record.wins| else |m.team2.record.losses|
  }

  /** `__getTeamsWithNWinsOrLosses`: the matchups, in order, whose first team has at
      least `n` wins (`isWin`) or whose second team has at least `n` losses, leaving out
      those with no point difference. */
  function TeamsWithNResults(ms: seq<Rd2Matchup>, n: int, isWin: bool): (r: seq<Rd2Matchup>)
    ensures forall m :: m in r <==> m in ms && Results(m, isWin) >= n && Difference(m) != 0.0
    ensures |r| <= |ms|
  {
    if |ms| == 0 then []
    else
      var rest := TeamsWithNResults(ms[1..], n, isWin);
      assert forall m :: m in ms <==> m == ms[0] || m in ms[1..];
      if Results(ms[0], isWin) >= n && Difference(ms[0]) != 0.0 then [ms[0]] + rest else rest
  }

  /** The team `__getTotalPoints` reads: the first for wins, the second otherwise. */
  function Side(m: Rd2Matchup, isWin: bool): Team
  {
    if isWin then m.team1 else m.team2
  }

  /** `__getTotalPoints` when the team's `points` is its totals record: the total. */
  function SideTotal(isWin: bool): Rd2Matchup -> real
  {
    (m: Rd2Matchup) => TotalPoints(Side(m, isWin).points)
  }

  /** Some matchup's team in question has a number-valued point mode, so its `points` is
      a number and `totalPoints` is not there to read. */
  predicate SomeScalarSide(eligible: seq<Rd2Matchup>, isWin: bool)
  {
    exists i :: 0 <= i < |eligible| && ScalarMode(Side(eligible[i], isWin).pointMode)
  }

  /** `__getMostExtremePoints`: sorting reads `__getTotalPoints` of every eligible
      matchup, which raises `AttributeError` when the team in question has a
      number-valued point mode; otherwise the matchups whose total is the greatest
      (`descending`) or least. */
  function MostExtremePoints(eligible: seq<Rd2Matchup>, descending: bool, isWin: bool): (r: Result<set<Rd2Matchup>>)
    ensures r.Raise? <==> exists m :: m in eligible && ScalarMode(Side(m, isWin).pointMode)
    ensures r.Raise? ==> r.error == AttributeError
    ensures r.Ok? ==> forall m :: m in r.value <==>
      m in eligible && IsExtreme(eligible, SideTotal(isWin), descending, SideTotal(isWin)(m))
  {
    if SomeScalarSide(eligible, isWin) then Raise(AttributeError)
    else Ok(Extremes(eligible, SideTotal(isWin), descending))
  }

  /** What `getMatchupString` selects before rendering: the matchups and whether they
      are told as wins. */
  datatype Selection = Selection(matchups: set<Rd2Matchup>, isWin: bool)

  /** A selection of matchups, or the failure that prevented it. */
  function Selected(chosen: Result<set<Rd2Matchup>>, isWin: bool): Result<Selection>
  {
    var ms :- chosen;
    Ok(Selection(ms, isWin))
  }

  /** The dispatch of `getMatchupString`: closest and blowout pick the least and greatest
      point difference; the strongest losses and weakest wins pick, among matchups with
      at least one or two losses (second team) or wins (first team) and a nonzero
      difference, the highest losing total or the lowest winning total, and fail when
      one of those teams has a number-valued point mode. Any other category is a
      `ValueError`. */
  function Select(category: string, ms: seq<Rd2Matchup>): (r: Result<Selection>)
    ensures r == Raise(ValueError) <==> category !in [ClosestMatchup, BiggestBlowout, StrongestOneLoss, StrongestTwoLosses, WeakestOneWin, WeakestTwoWins]
    ensures r.Raise? ==> r.error == ValueError || r.error == AttributeError
    ensures r.Ok? ==> (r.value.isWin <==> category !in [StrongestOneLoss, StrongestTwoLosses])
    ensures category == ClosestMatchup ==> r == Ok(Selection(MostExtremeMatchup(ms, false), true))
    ensures category == BiggestBlowout ==> r == Ok(Selection(MostExtremeMatchup(ms, true), true))
    ensures category == StrongestOneLoss ==> r == Selected(MostExtremePoints(TeamsWithNResults(ms, 1, false), true, false), false)
    ensures category == StrongestTwoLosses ==> r == Selected(MostExtremePoints(TeamsWithNResults(ms, 2, false), true, false), false)
    ensures category == WeakestOneWin ==> r == Selected(MostExtremePoints(TeamsWithNResults(ms, 1, true), false, true), true)
    ensures category == WeakestTwoWins ==> r == Selected(MostExtremePoints(TeamsWithNResults(ms, 2, true), false, true), true)
  {
    if category in [ClosestMatchup, BiggestBlowout] then
      Ok(Selection(MostExtremeMatchup(ms, category == BiggestBlowout), true))
    else if category in [StrongestOneLoss, StrongestTwoLosses, WeakestOneWin, WeakestTwoWins] then
      var isWin := category !in [StrongestOneLoss, StrongestTwoLosses];
      var numResults := if category in [StrongestOneLoss, WeakestOneWin] then 1 else 2;
      Selected(MostExtremePoints(TeamsWithNResults(ms, numResults, isWin), !isWin, isWin), isWin)
    else
      Raise(ValueError)
  }

  /** The strongest losses fail exactly when some matchup with a losing second team and
      a nonzero difference has that team in a number-valued point mode. Otherwise they
      are the matchups with a losing second team and a nonzero difference whose second
      team's total no such matchup beats. */
  lemma StrongestLossMeans(ms: seq<Rd2Matchup>, m: Rd2Matchup)
    ensures Select(StrongestOneLoss, ms).Raise? <==>
      exists n :: n in ms && |n.team2.record.losses| >= 1 && Difference(n) != 0.0 && ScalarMode(n.team2.pointMode)
    ensures Select(StrongestOneLoss, ms).Ok? ==>
      (m in Select(StrongestOneLoss, ms).value.matchups <==>
        && m in ms && |m.team2.record.losses| >= 1 && Difference(m) != 0.0
        && forall n :: n in ms && |n.team2.record.losses| >= 1 && Difference(n) != 0.0 ==>
             TotalPoints(n.team2.points) <= TotalPoints(m.team2.points))
  {
    var eligible := TeamsWithNResults(ms, 1, false);
    assert forall n :: n in eligible ==> SideTotal(false)(n) == TotalPoints(n.team2.points);
  }

  /** The weakest 2-0 wins fail exactly when some matchup with a first team of two wins
      and a nonzero difference has that team in a number-valued point mode. Otherwise
      they are the matchups with a first team of two wins and a nonzero difference whose
      first team's total no such matchup undercuts. */
  lemma WeakestTwoWinsMeans(ms: seq<Rd2Matchup>, m: Rd2Matchup)
    ensures Select(WeakestTwoWins, ms).Raise? <==>
      exists n :: n in ms && |n.team1.record.wins| >= 2 && Difference(n) != 0.0 && ScalarMode(n.team1.pointMode)
    ensures Select(WeakestTwoWins, ms).Ok? ==>
      (m in Select(WeakestTwoWins, ms).value.matchups <==>
        && m in ms && |m.team1.record.wins| >= 2 && Difference(m) != 0.0
        && forall n :: n in ms && |n.team1.record.wins| >= 2 && Difference(n) != 0.0 ==>
             TotalPoints(n.team1.points) >= TotalPoints(m.team1.points))
  {
    var eligible := TeamsWithNResults(ms, 2, true);
    assert forall n :: n in eligible ==> SideTotal(true)(n) == TotalPoints(n.team1.points);
  }

  /** `getMatchupString`: after the selection it calls a `getMatchupString` of the
      formatter module, which that module does not define; every known category
      therefore ends in an `AttributeError`, every other in the `ValueError`. */
  function GetMatchupString(category: string, ms: seq<Rd2Matchup>): (r: Result<string>)
    ensures r.Raise?
    ensures r.error == ValueError <==> Select(category, ms) == Raise(ValueError)
    ensures r.error == (if Select(category, ms).Raise? then Select(category, ms).error else AttributeError)
  {
    var _ :- Select(category, ms);
    Raise(AttributeError)
  }
}
