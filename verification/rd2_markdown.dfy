/** The line builders of the oldest package's formatter
    (rd2weekly/src/summary/markdownFormatter.py). */
module Rd2Markdown {
  import opened Outcomes
  import opened Rd2Scoring
  import WeeklyRanking

  /** `getHeaderString`: the category in bold as a top-level bullet. */
  function HeaderString(category: string): (r: string)
    ensures |r| == |category| + 7
    ensures r[..5] == " * **" && r[5..|r| - 2] == category && r[|r| - 2..] == "**"
  {
    " * **" + category + "**"
  }

  /** Different categories give different headers. */
  lemma HeaderInjective(a: string, b: string)
    requires HeaderString(a) == HeaderString(b)
    ensures a == b
  {
    assert a == HeaderString(a)[5..|HeaderString(a)| - 2];
  }

  /** A `PointScorer`: a player or a team. */
  datatype Scorer = PlayerScorer(player: Player) | TeamScorer(team: Team)

  function ScorerName(s: Scorer): string
  {
    match s
    case PlayerScorer(p) => p.name
    case TeamScorer(t) => t.name
  }

  /** `getSingleScorerString` as written: a player's line reads the player's `team`,
      an attribute players do not have, so every player fails; a team reads
      "  <bullet> <name>, <points>". How `str.format` renders the points is `render`. */
  function SingleScorerStringAsWritten(scorer: Scorer, bullet: string, render: Scorer -> string): (r: Result<string>)
    ensures r.Raise? <==> scorer.PlayerScorer?
    ensures r.Raise? ==> r.error == AttributeError
  {
    match scorer
    case PlayerScorer(_) => Raise(AttributeError)
    case TeamScorer(t) => Ok("  " + bullet + " " + t.name + ", " + render(scorer))
  }

  /** `getSingleScorerString` as its player branch means it: "  <bullet> <name>, <team>,
      <points>" for a player, whose team `teamOf` names, and "  <bullet> <name>,
      <points>" for a team. */
  function SingleScorerString(scorer: Scorer, bullet: string, teamOf: Player -> string, render: Scorer -> string): (r: string)
    ensures var lead := "  " + bullet + " " + ScorerName(scorer) + ", ";
      && |lead| <= |r| && r[..|lead|] == lead
      && |render(scorer)| <= |r| && r[|r| - |render(scorer)|..] == render(scorer)
    ensures scorer.PlayerScorer? ==>
      r == "  " + bullet + " " + ScorerName(scorer) + ", " + teamOf(scorer.player) + ", " + render(scorer)
  {
    match scorer
    case PlayerScorer(p) => "  " + bullet + " " + p.name + ", " + teamOf(p) + ", " + render(scorer)
    case TeamScorer(t) => "  " + bullet + " " + t.name + ", " + render(scorer)
  }

  /** For teams the written line is the intended one; for players only the intended
      one exists. */
  lemma SingleScorerAgrees(scorer: Scorer, bullet: string, teamOf: Player -> string, render: Scorer -> string)
    ensures scorer.TeamScorer? ==>
      SingleScorerStringAsWritten(scorer, bullet, render) == Ok(SingleScorerString(scorer, bullet, teamOf, render))
    ensures scorer.PlayerScorer? ==> SingleScorerStringAsWritten(scorer, bullet, render).Raise?
  {
  }

  /** `getTiedScorerString`: the scorer's line followed by "(tied for 1st)", "2nd" or
      "3rd"; any other rank is a `ValueError`. */
  function TiedScorerString(scorer: Scorer, bullet: string, rank: int, teamOf: Player -> string, render: Scorer -> string): (r: Result<string>)
    ensures r.Raise? <==> !(1 <= rank <= 3)
    ensures r.Raise? ==> r.error == ValueError
    ensures r.Ok? ==> r.value == SingleScorerString(scorer, bullet, teamOf, render) + WeeklyRanking.TiedFor(rank)
  {
    var base := SingleScorerString(scorer, bullet, teamOf, render);
    assert WeeklyRanking.TiedFor(1) == " (tied for 1st)";
    assert WeeklyRanking.TiedFor(2) == " (tied for 2nd)";
    assert WeeklyRanking.TiedFor(3) == " (tied for 3rd)";
    if rank == 1 then Ok(base + " (tied for 1st)")
    else if rank == 2 then Ok(base + " (tied for 2nd)")
    else if rank == 3 then Ok(base + " (tied for 3rd)")
    else Raise(ValueError)
  }

  /** For the three ranks it handles, the tie label is the one the newest generation
      writes for the same rank. */
  lemma TiedLabelAgreesWithNewest(scorer: Scorer, bullet: string, rank: int, teamOf: Player -> string, render: Scorer -> string)
    requires 1 <= rank <= 3
    ensures TiedScorerString(scorer, bullet, rank, teamOf, render)
      == Ok(SingleScorerString(scorer, bullet, teamOf, render) + WeeklyRanking.TiedFor(rank))
  {
    assert WeeklyRanking.TiedFor(1) == " (tied for 1st)";
    assert WeeklyRanking.TiedFor(2) == " (tied for 2nd)";
    assert WeeklyRanking.TiedFor(3) == " (tied for 3rd)";
  }

  /** `getPlayerScoringString`: the player's line, with " (from the bench)" after it
      exactly when the player was not active. */
  function PlayerScoringString(p: Player, bullet: string, teamOf: Player -> string, render: Scorer -> string): (r: string)
    ensures var base := SingleScorerString(PlayerScorer(p), bullet, teamOf, render);
      && |base| <= |r| && r[..|base|] == base
      && (|r| > |base| <==> !p.active)
      && (!p.active ==> r[|base|..] == " (from the bench)")
  {
    var base := SingleScorerString(PlayerScorer(p), bullet, teamOf, render);
    if !p.active then base + " (from the bench)" else base
  }
}
