/** Teams and weekly records of the older summary package (summary/scoring.py). */
module SummaryScoring {
  import opened Text

  /** A rostered player: whether it was in the lineup and whether it pitched actively. */
  datatype Player = Player(name: string, id: int, inLineup: bool, activePitcher: bool)

  /** A fantasy team: its division, roster, results and split point totals. */
  datatype Team = Team(
    name: string,
    division: string,
    players: seq<Player>,
    wins: seq<string>,
    losses: seq<string>,
    ties: seq<string>,
    hittingPoints: real,
    pitchingPoints: real)

  /** `Team(name, division)`: nothing played, nothing scored. */
  function NewTeam(name: string, division: string): Team
  {
    Team(name, division, [], [], [], [], 0.0, 0.0)
  }

  /** `total_points`. */
  function TotalPoints(t: Team): real
  {
    t.hittingPoints + t.pitchingPoints
  }

  /** The number of results a team holds. */
  function Games(t: Team): nat
  {
    |t.wins| + |t.losses| + |t.ties|
  }

  /** `update_records`: the team with the higher total records a win over the other and
      the other a loss to it; equal totals record a tie on both sides. Exactly one list
      of each team grows, by the other team's name, and nothing else changes. */
  function UpdateRecords(away: Team, home: Team): (r: (Team, Team))
    ensures TotalPoints(away) > TotalPoints(home) ==>
      r.0 == away.(wins := away.wins + [home.name]) && r.1 == home.(losses := home.losses + [away.name])
    ensures TotalPoints(away) < TotalPoints(home) ==>
      r.0 == away.(losses := away.losses + [home.name]) && r.1 == home.(wins := home.wins + [away.name])
    ensures TotalPoints(away) == TotalPoints(home) ==>
      r.0 == away.(ties := away.ties + [home.name]) && r.1 == home.(ties := home.ties + [away.name])
    ensures Games(r.0) == Games(away) + 1 && Games(r.1) == Games(home) + 1
  {
    if TotalPoints(away) > TotalPoints(home) then
      (away.(wins := away.wins + [home.name]), home.(losses := home.losses + [away.name]))
    else if TotalPoints(away) < TotalPoints(home) then
      (away.(losses := away.losses + [home.name]), home.(wins := home.wins + [away.name]))
    else
      (away.(ties := away.ties + [home.name]), home.(ties := home.ties + [away.name]))
  }

  /** Which side is home does not matter: swapping the two teams swaps the results. And
      the two records agree: one side's new win is the other side's new loss, a tie is
      a tie on both sides. */
  lemma RecordsSymmetric(away: Team, home: Team)
    ensures UpdateRecords(home, away) == (UpdateRecords(away, home).1, UpdateRecords(away, home).0)
    ensures var r := UpdateRecords(away, home);
      && (|r.0.wins| > |away.wins| <==> |r.1.losses| > |home.losses|)
      && (|r.0.losses| > |away.losses| <==> |r.1.wins| > |home.wins|)
      && (|r.0.ties| > |away.ties| <==> |r.1.ties| > |home.ties|)
  {
  }

  /** `is_blank_team_name`: the placeholder names of an empty schedule slot or a free agent. */
  predicate IsBlankTeamName(name: string)
  {
    name in ["TBA", "BYE", "FA"]
  }

  /** The blank names are exactly the three placeholders. */
  lemma BlankNames(name: string)
    ensures IsBlankTeamName(name) <==> name == "TBA" || name == "BYE" || name == "FA"
  {
  }

  /** `Team.__eq__`: teams are the same team when name and division agree. */
  predicate TeamEq(a: Team, b: Team)
  {
    a.name == b.name && a.division == b.division
  }

  /** What `Team.__hash__` hashes. */
  function HashKey(t: Team): (string, string)
  {
    (t.name, t.division)
  }

  /** Equality is an equivalence that ignores results and points, and equal teams
      hash alike; teams hashing alike are equal. */
  lemma TeamEqualityHash(a: Team, b: Team, c: Team)
    ensures TeamEq(a, a)
    ensures TeamEq(a, b) ==> TeamEq(b, a)
    ensures TeamEq(a, b) && TeamEq(b, c) ==> TeamEq(a, c)
    ensures TeamEq(a, b) <==> HashKey(a) == HashKey(b)
    ensures TeamEq(a, UpdateRecords(a, b).0)
  {
  }
}
