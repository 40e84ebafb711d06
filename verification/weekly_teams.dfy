/** Teams and matchups of the current weekly-summary script (src/main.py). */
module WeeklyTeams {
  import opened Text
  import opened Outcomes

  /** A rostered player as read from a matchup page: the points that counted for the
      team, and whether they counted as hitting or as pitching. */
  datatype RosteredPlayer = RosteredPlayer(
    name: string,
    id: int,
    activePoints: real,
    activeBatter: bool,
    activePitcher: bool)

  /** A fantasy team with its split point totals and its results for the week. */
  datatype Team = Team(
    name: string,
    hittingPoints: real,
    pitchingPoints: real,
    players: set<RosteredPlayer>,
    wins: seq<string>,
    losses: seq<string>,
    ties: seq<string>)
  {
    /** The team's total for the week. */
    function Points(): real
    {
      hittingPoints + pitchingPoints
    }

    /** Every opponent: the teams it lost to, tied and beat, in that order. */
    function Opponents(): seq<string>
    {
      losses + ties + wins
    }
  }

  /** `Team(name)`: no points, no players, no results. */
  function NewTeam(name: string): Team
  {
    Team(name, 0.0, 0.0, {}, [], [], [])
  }

  /** The points a player adds to its team: once for counting as a batter and once
      for counting as a pitcher. */
  function Contribution(p: RosteredPlayer): real
  {
    (if p.activeBatter then p.activePoints else 0.0)
    + (if p.activePitcher then p.activePoints else 0.0)
  }

  /** `Team.add`: records the player and credits its active points to hitting when it
      was an active batter and to pitching when it was an active pitcher. */
  function Add(t: Team, p: RosteredPlayer): (r: Team)
    ensures r.players == t.players + {p}
    ensures r.name == t.name && r.wins == t.wins && r.losses == t.losses && r.ties == t.ties
    ensures r.hittingPoints == t.hittingPoints + (if p.activeBatter then p.activePoints else 0.0)
    ensures r.pitchingPoints == t.pitchingPoints + (if p.activePitcher then p.activePoints else 0.0)
    ensures r.Points() == t.Points() + Contribution(p)
  {
    var withPlayer := t.(players := t.players + {p});
    var batted := if p.activeBatter
      then withPlayer.(hittingPoints := withPlayer.hittingPoints + p.activePoints)
      else withPlayer;
    if p.activePitcher
    then batted.(pitchingPoints := batted.pitchingPoints + p.activePoints)
    else batted
  }

  /** Adding a roster one player at a time, as the matchup loader does. */
  function AddAll(t: Team, roster: seq<RosteredPlayer>): Team
    decreases |roster|
  {
    if |roster| == 0 then t else AddAll(Add(t, roster[0]), roster[1..])
  }

  /** The sum of the roster's contributions. */
  function RosterPoints(roster: seq<RosteredPlayer>): real
  {
    if |roster| == 0 then 0.0 else Contribution(roster[0]) + RosterPoints(roster[1..])
  }

  /** A team's total is what it started with plus every added player's active points,
      and its results and name are untouched by loading the roster. */
  lemma {:induction false} AddAllPoints(t: Team, roster: seq<RosteredPlayer>)
    ensures AddAll(t, roster).Points() == t.Points() + RosterPoints(roster)
    ensures AddAll(t, roster).name == t.name
    ensures AddAll(t, roster).Opponents() == t.Opponents()
    decreases |roster|
  {
    if |roster| > 0 {
      AddAllPoints(Add(t, roster[0]), roster[1..]);
    }
  }

  /** `Team.__lt__`: the pair (points, name) compared lexicographically. */
  predicate TeamLess(a: Team, b: Team)
  {
    a.Points() < b.Points() || (a.Points() == b.Points() && StrLess(a.name, b.name))
  }

  /** `TeamLess` is a strict order on (points, name) keys. */
  lemma TeamLessOrder(a: Team, b: Team)
    ensures !TeamLess(a, a)
    ensures !(TeamLess(a, b) && TeamLess(b, a))
    ensures a.Points() != b.Points() || a.name != b.name ==> TeamLess(a, b) || TeamLess(b, a)
  {
    StrLessTrichotomy(a.name, b.name);
  }

  datatype MatchupMode = Blowout | Closest | StrongestLoss | WeakestWin | Luckiest | Unluckiest

  /** A pairing of two teams; `teams` and `mode` take no part in comparisons. */
  datatype Matchup = Matchup(
    team1: Team,
    team2: Team,
    teams: map<string, Team>,
    mode: Option<MatchupMode>)
  {
    /** The point differential. */
    function Points(): real
    {
      team1.Points() - team2.Points()
    }
  }

  /** `Matchup(a, b, teams, mode)`: `__post_init__` sorts the pair in reverse, so the
      greater (points, name) key becomes `team1`; the sort is stable, so equal keys
      keep their given order. */
  function NewMatchup(a: Team, b: Team, teams: map<string, Team>, mode: Option<MatchupMode>): (m: Matchup)
    ensures !TeamLess(m.team1, m.team2)
    ensures multiset{m.team1, m.team2} == multiset{a, b}
    ensures m.Points() >= 0.0
    ensures m.teams == teams && m.mode == mode
  {
    TeamLessOrder(a, b);
    if TeamLess(a, b) then Matchup(b, a, teams, mode) else Matchup(a, b, teams, mode)
  }

  /** The canonical order does not depend on the order the two teams are given in,
      as long as two different teams differ in name or points. */
  lemma MatchupIsCanonical(a: Team, b: Team, teams: map<string, Team>, mode: Option<MatchupMode>)
    requires a == b || a.name != b.name || a.Points() != b.Points()
    ensures NewMatchup(a, b, teams, mode).team1 == NewMatchup(b, a, teams, mode).team1
    ensures NewMatchup(a, b, teams, mode).team2 == NewMatchup(b, a, teams, mode).team2
  {
    TeamLessOrder(a, b);
  }

  /** `Matchup.with_mode`: the luckiest and unluckiest views pair the winner, respectively
      the loser, with itself; every other mode keeps the pairing. */
  function WithMode(m: Matchup, mode: MatchupMode): (r: Matchup)
    ensures mode == Luckiest ==> r.team1 == r.team2 == m.team1
    ensures mode == Unluckiest ==> r.team1 == r.team2 == m.team2
    ensures mode in {Luckiest, Unluckiest} ==> r.Points() == 0.0
    ensures mode !in {Luckiest, Unluckiest} && !TeamLess(m.team1, m.team2) ==>
      r.team1 == m.team1 && r.team2 == m.team2
    ensures r.mode == Some(mode) && r.teams == m.teams
  {
    if mode == Luckiest then NewMatchup(m.team1, m.team1, m.teams, Some(mode))
    else if mode == Unluckiest then NewMatchup(m.team2, m.team2, m.teams, Some(mode))
    else NewMatchup(m.team1, m.team2, m.teams, Some(mode))
  }
}
