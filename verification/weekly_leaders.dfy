/** Point leaders of the current weekly-summary script (src/main.py): the bounded,
    tie-extending leader list and the pitcher filter applied to the stats page. */
module WeeklyLeaders {
  import opened Outcomes
  import opened Text
  import opened Grouping

  /** A player read from a stats page. Its fantasy team is filled in after the whole
      page has been read, so it starts out unset. */
  datatype ScoringPlayer = ScoringPlayer(name: string, id: int, points: real, team: Option<string>)

  function PlayerPoints(p: ScoringPlayer): real
  {
    p.points
  }

  /** The leaders of one position: at most `maxScorers` players unless ties extend it. */
  datatype PointLeaders = PointLeaders(
    position: string,
    maxScorers: int,
    descending: bool,
    players: seq<ScoringPlayer>)

  /** `PointLeaders.add` may be called: either the list is not empty, or the bound lets
      the first player in without looking at `players[-1]`. */
  predicate CanAdd(leaders: PointLeaders)
  {
    |leaders.players| > 0 || leaders.maxScorers > 0
  }

  /** `PointLeaders.add`: a player is always accepted while fewer than `maxScorers` are
      held; after that it is accepted exactly when its points are at least (descending)
      or at most (ascending) the last entry's. An accepted player is appended, and a
      rejected one leaves the leaders unchanged. */
  function AddLeader(leaders: PointLeaders, p: ScoringPlayer): (r: (PointLeaders, bool))
    requires CanAdd(leaders)
    ensures |leaders.players| < leaders.maxScorers ==> r.1
    ensures |leaders.players| >= leaders.maxScorers ==>
      (r.1 <==> InOrder(leaders.descending, p.points, leaders.players[|leaders.players| - 1].points))
    ensures r.1 ==> r.0 == leaders.(players := leaders.players + [p])
    ensures !r.1 ==> r.0 == leaders
  {
    if |leaders.players| < leaders.maxScorers then
      (leaders.(players := leaders.players + [p]), true)
    else
      var last := leaders.players[|leaders.players| - 1];
      var accepts := if leaders.descending then p.points >= last.points else p.points <= last.points;
      if accepts then (leaders.(players := leaders.players + [p]), true) else (leaders, false)
  }

  /** One row of the stats table: the name and id link, the points cell, and the games
      and games-started columns that pitching positions are filtered on. */
  datatype LeaderRow = LeaderRow(name: string, id: int, points: real, games: int, gamesStarted: int)

  /** The rows `point_leaders` passes over for a pitching position (any position whose
      name contains "P"). */
  predicate SkipsRow(position: string, row: LeaderRow)
  {
    Contains(position, "P")
    && (row.games == 0
        || (position == "2SP" && row.gamesStarted < 2)
        || (position == "1SP" && row.gamesStarted != 1)
        || (Contains(position, "SP") && row.gamesStarted == 0)
        || (position == "RP" && row.gamesStarted > 0))
  }

  /** Which pitchers each list admits: none that did not appear; SP needs a start, 2SP
      two or more, 1SP exactly one, RP none; non-pitching positions keep every row. */
  lemma PitcherEligibility(row: LeaderRow)
    ensures !SkipsRow("SP", row) <==> row.games != 0 && row.gamesStarted != 0
    ensures !SkipsRow("2SP", row) <==> row.games != 0 && row.gamesStarted >= 2
    ensures !SkipsRow("1SP", row) <==> row.games != 0 && row.gamesStarted == 1
    ensures !SkipsRow("RP", row) <==> row.games != 0 && row.gamesStarted <= 0
    ensures forall position :: !Contains(position, "P") ==> !SkipsRow(position, row)
  {
    assert Contains("SP", "P") && Contains("SP", "SP") by { assert "SP"[1..] == "P"; }
    assert Contains("2SP", "P") && Contains("2SP", "SP") by {
      assert "2SP"[1..] == "SP" && "SP"[1..] == "P";
    }
    assert Contains("1SP", "P") && Contains("1SP", "SP") by {
      assert "1SP"[1..] == "SP" && "SP"[1..] == "P";
    }
    assert Contains("RP", "P") by { assert "RP"[1..] == "P"; }
    assert !Contains("RP", "SP") by {
      assert "RP"[..2][0] == 'R';
      assert "RP"[1..] == "P";
      assert !Contains("P", "SP");
    }
  }

  /** The player a row reads as: its name, id and points, with no team yet. */
  function RowPlayer(row: LeaderRow): ScoringPlayer
  {
    ScoringPlayer(row.name, row.id, row.points, None)
  }

  /** The players read from the rows that pass the filter, in row order: a player is
      there exactly when some kept row reads as it, and none is lost exactly when no row
      is skipped. */
  function Eligible(rows: seq<LeaderRow>, position: string): (players: seq<ScoringPlayer>)
    ensures |players| <= |rows|
    ensures forall x :: x in players <==>
      exists i :: 0 <= i < |rows| && !SkipsRow(position, rows[i]) && x == RowPlayer(rows[i])
    ensures |players| == |rows| <==> forall i :: 0 <= i < |rows| ==> !SkipsRow(position, rows[i])
  {
    if |rows| == 0 then []
    else
      var rest := Eligible(rows[1..], position);
      if SkipsRow(position, rows[0]) then rest
      else [RowPlayer(rows[0])] + rest
  }

  /** The loop of `point_leaders` from some state on: skipped rows are passed over, and
      the first rejected player ends it. */
  function Collect(rows: seq<LeaderRow>, leaders: PointLeaders): PointLeaders
    requires CanAdd(leaders)
    decreases |rows|
  {
    if |rows| == 0 then leaders
    else if SkipsRow(leaders.position, rows[0]) then Collect(rows[1..], leaders)
    else
      var added := AddLeader(leaders, RowPlayer(rows[0]));
      if added.1 then Collect(rows[1..], added.0) else added.0
  }

  /** The players held so far respect the tie rule past the bound. */
  ghost predicate TiesExtend(players: seq<ScoringPlayer>, max: int, descending: bool)
  {
    forall i :: max <= i < |players| && 0 < i ==> InOrder(descending, players[i].points, players[i - 1].points)
  }

  lemma {:induction false} CollectCut(rows: seq<LeaderRow>, leaders: PointLeaders)
    requires CanAdd(leaders)
    requires TiesExtend(leaders.players, leaders.maxScorers, leaders.descending)
    ensures var r := Collect(rows, leaders);
      && r.position == leaders.position && r.maxScorers == leaders.maxScorers
      && r.descending == leaders.descending
      && |r.players| >= |leaders.players|
      && LeaderCut(leaders.players + Eligible(rows, leaders.position), r.players,
                   leaders.maxScorers, leaders.descending, PlayerPoints)
    decreases |rows|
  {
    var acc := leaders.players;
    if |rows| == 0 {
      assert acc + [] == acc;
    } else if SkipsRow(leaders.position, rows[0]) {
      CollectCut(rows[1..], leaders);
    } else {
      var p := RowPlayer(rows[0]);
      var added := AddLeader(leaders, p);
      assert acc + Eligible(rows, leaders.position) == acc + [p] + Eligible(rows[1..], leaders.position);
      if added.1 {
        CollectCut(rows[1..], added.0);
      } else {
        var e := acc + Eligible(rows, leaders.position);
        assert e[..|acc|] == acc;
        assert e[|acc|] == p;
      }
    }
  }

  /** `point_leaders`: walk the page best first for a descending list and from the
      bottom for an ascending one, skip filtered rows, and stop at the first rejected
      player. What is kept is the cut of the eligible players described by `LeaderCut`. */
  function PointLeadersOf(rows: seq<LeaderRow>, position: string, maxScorers: int, descending: bool): (r: PointLeaders)
    requires maxScorers > 0
    ensures r.position == position && r.maxScorers == maxScorers && r.descending == descending
    ensures LeaderCut(Eligible(if descending then rows else Reverse(rows), position), r.players,
                      maxScorers, descending, PlayerPoints)
  {
    var start := PointLeaders(position, maxScorers, descending, []);
    var order := if descending then rows else Reverse(rows);
    CollectCut(order, start);
    assert [] + Eligible(order, position) == Eligible(order, position);
    Collect(order, start)
  }

  /** On a page whose eligible players come best first, a tie with the last of the
      `maxScorers` best is never split. */
  lemma PointLeadersKeepTies(rows: seq<LeaderRow>, position: string, maxScorers: int, descending: bool)
    requires maxScorers > 0
    requires SortedBy(Eligible(if descending then rows else Reverse(rows), position), PlayerPoints, descending)
    ensures var e := Eligible(if descending then rows else Reverse(rows), position);
      var kept := PointLeadersOf(rows, position, maxScorers, descending).players;
      forall i :: 0 <= i < |e| ==>
        (i < |kept| <==> i < maxScorers || e[i].points == e[maxScorers - 1].points)
  {
    var e := Eligible(if descending then rows else Reverse(rows), position);
    var kept := PointLeadersOf(rows, position, maxScorers, descending).players;
    TiesNeverSplit(e, kept, maxScorers, descending, PlayerPoints);
  }
}
