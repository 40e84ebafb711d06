/** Position leaders of the older summary package (summary/point_leaders.py): which rows
    are read as leaders, how many are kept, and how the lists are split by position. */
module SummaryLeaders {
  import opened Outcomes
  import opened Text
  import opened Grouping
  import opened WeeklyLeaders

  /** A leader as the summary package keeps it: the fantasy team is resolved on read. */
  datatype PointLeader = PointLeader(name: string, id: int, teamName: string, points: real)

  function LeaderPoints(p: PointLeader): real
  {
    p.points
  }

  /** The rows `_read_row_as_point_leader` turns away: for a position whose name contains
      "P", a pitcher with no appearance, or one whose starts do not fit the list. */
  predicate Rejects(position: string, row: LeaderRow)
  {
    Contains(position, "P")
    && (row.games == 0
        || (position == "SP" && row.gamesStarted == 0)
        || (position == "2SP" && row.gamesStarted < 2)
        || (position == "1SP" && row.gamesStarted != 1)
        || (position == "RP" && row.gamesStarted != 0))
  }

  /** `_read_row_as_point_leader`: nothing for a rejected row; otherwise the leader, with
      the fantasy team looked up by id in `playersToTeam` and "FA" when it is absent. */
  function ReadRow(row: LeaderRow, position: string, playersToTeam: map<int, string>): (r: Option<PointLeader>)
    ensures r.None? <==> Rejects(position, row)
    ensures r.Some? ==> r.value.name == row.name && r.value.id == row.id && r.value.points == row.points
    ensures r.Some? && row.id in playersToTeam ==> r.value.teamName == playersToTeam[row.id]
    ensures r.Some? && row.id !in playersToTeam ==> r.value.teamName == "FA"
  {
    if Rejects(position, row) then None
    else
      var team := if row.id in playersToTeam then playersToTeam[row.id] else "FA";
      Some(PointLeader(row.name, row.id, team, row.points))
  }

  /** Which pitchers each list admits: none without an appearance; SP needs a start,
      2SP two or more, 1SP exactly one, RP none; the other positions admit every row. */
  lemma StartFilter(row: LeaderRow, playersToTeam: map<int, string>)
    ensures ReadRow(row, "SP", playersToTeam).Some? <==> row.games != 0 && row.gamesStarted != 0
    ensures ReadRow(row, "2SP", playersToTeam).Some? <==> row.games != 0 && row.gamesStarted >= 2
    ensures ReadRow(row, "1SP", playersToTeam).Some? <==> row.games != 0 && row.gamesStarted == 1
    ensures ReadRow(row, "RP", playersToTeam).Some? <==> row.games != 0 && row.gamesStarted == 0
    ensures forall position :: !Contains(position, "P") ==> ReadRow(row, position, playersToTeam).Some?
  {
    PitcherEligibility(row);
  }

  /** The leaders read from the rows that are not turned away, in row order. */
  function Readable(rows: seq<LeaderRow>, position: string, playersToTeam: map<int, string>): (r: seq<PointLeader>)
    ensures |r| <= |rows|
  {
    if |rows| == 0 then []
    else
      var rest := Readable(rows[1..], position, playersToTeam);
      match ReadRow(rows[0], position, playersToTeam)
      case None => rest
      case Some(p) => [p] + rest
  }

  /** The loop of `_get_scorers_by_position` from a state holding `scorers`: a row read as
      nothing is passed over; once `numScorers` are held, a leader that `should_exclude`
      puts behind the last one held ends the loop. Top lists exclude with `<` and worst
      lists with `>`, so `top` decides which. */
  function Gather(rows: seq<LeaderRow>, position: string, playersToTeam: map<int, string>,
                  numScorers: int, top: bool, scorers: seq<PointLeader>): seq<PointLeader>
    requires |scorers| > 0 || numScorers > 0
    decreases |rows|
  {
    if |rows| == 0 then scorers
    else match ReadRow(rows[0], position, playersToTeam)
      case None => Gather(rows[1..], position, playersToTeam, numScorers, top, scorers)
      case Some(p) =>
        if |scorers| >= numScorers
           && (if top then p.points < scorers[|scorers| - 1].points else p.points > scorers[|scorers| - 1].points)
        then scorers
        else Gather(rows[1..], position, playersToTeam, numScorers, top, scorers + [p])
  }

  lemma {:induction false} GatherCut(rows: seq<LeaderRow>, position: string, playersToTeam: map<int, string>,
                                     numScorers: int, top: bool, scorers: seq<PointLeader>)
    requires |scorers| > 0 || numScorers > 0
    requires forall i :: numScorers <= i < |scorers| && 0 < i ==>
      InOrder(top, scorers[i].points, scorers[i - 1].points)
    ensures LeaderCut(scorers + Readable(rows, position, playersToTeam),
                      Gather(rows, position, playersToTeam, numScorers, top, scorers),
                      numScorers, top, LeaderPoints)
    decreases |rows|
  {
    var e := scorers + Readable(rows, position, playersToTeam);
    if |rows| == 0 {
      assert e == scorers;
    } else {
      match ReadRow(rows[0], position, playersToTeam)
      case None =>
        GatherCut(rows[1..], position, playersToTeam, numScorers, top, scorers);
      case Some(p) =>
        assert e == scorers + [p] + Readable(rows[1..], position, playersToTeam);
        if |scorers| >= numScorers
           && (if top then p.points < scorers[|scorers| - 1].points else p.points > scorers[|scorers| - 1].points) {
          assert e[..|scorers|] == scorers;
          assert e[|scorers|] == p;
        } else {
          GatherCut(rows[1..], position, playersToTeam, numScorers, top, scorers + [p]);
        }
    }
  }

  /** `_get_scorers_by_position`: the accepted leaders are the cut of the readable rows
      that `LeaderCut` describes (rows read as nothing do not count toward `numScorers`,
      and ties with the last one held extend the list), and the groups returned are
      that list's runs of equal points, which concatenate back to it. */
  function ScorersByPosition(rows: seq<LeaderRow>, position: string, playersToTeam: map<int, string>,
                             numScorers: int, top: bool): (gs: seq<Group<PointLeader>>)
    requires numScorers > 0
    ensures LeaderCut(Readable(rows, position, playersToTeam), Flatten(gs), numScorers, top, LeaderPoints)
    ensures forall i :: 0 <= i < |gs| ==> Uniform(gs[i], LeaderPoints)
    ensures forall i :: 0 < i < |gs| ==> gs[i - 1].key != gs[i].key
  {
    GatherCut(rows, position, playersToTeam, numScorers, top, []);
    assert [] + Readable(rows, position, playersToTeam) == Readable(rows, position, playersToTeam);
    GroupRuns(Gather(rows, position, playersToTeam, numScorers, top, []), LeaderPoints)
  }

  /** On a page whose readable rows are already ranked, the groups are ordered strictly
      best first, each holds every readable leader at its points, and a tie with the
      `numScorers`-th leader is never split. */
  lemma ScorersByPositionRanked(rows: seq<LeaderRow>, position: string, playersToTeam: map<int, string>,
                                numScorers: int, top: bool)
    requires numScorers > 0
    requires SortedBy(Readable(rows, position, playersToTeam), LeaderPoints, top)
    ensures var gs := ScorersByPosition(rows, position, playersToTeam, numScorers, top);
      StrictlyOrdered(gs, top) && WholeKeys(gs, Flatten(gs), LeaderPoints)
    ensures var e := Readable(rows, position, playersToTeam);
      var kept := Flatten(ScorersByPosition(rows, position, playersToTeam, numScorers, top));
      forall i :: 0 <= i < |e| ==> (i < |kept| <==> i < numScorers || e[i].points == e[numScorers - 1].points)
  {
    var e := Readable(rows, position, playersToTeam);
    var gs := ScorersByPosition(rows, position, playersToTeam, numScorers, top);
    var kept := Flatten(gs);
    TiesNeverSplit(e, kept, numScorers, top, LeaderPoints);
    PrefixSorted(e, |kept|, LeaderPoints, top);
    assert e[..|kept|] == kept;
    GroupRunsOfSorted(kept, LeaderPoints, top);
  }

  /** A prefix of a sorted sequence is sorted. */
  lemma PrefixSorted<T>(s: seq<T>, n: int, key: T -> real, descending: bool)
    requires SortedBy(s, key, descending) && 0 <= n <= |s|
    ensures SortedBy(s[..n], key, descending)
  {
  }

  /** The positions with a page of their own. */
  const HittingPositions: seq<string> := ["C", "1B", "2B", "3B", "SS", "CF", "OF", "U"]

  /** One entry of `point_gathering_settings`. */
  datatype PositionPoints = PositionPoints(position: string, numScorers: int, hasWorst: bool)

  /** `point_gathering_settings`: the hitting positions keep ten and have no worst list;
      the combined pitching page keeps three and also has worst lists. */
  function Settings(): (r: seq<PositionPoints>)
    ensures |r| == 9
    ensures forall i :: 0 <= i < |r| ==> r[i].numScorers > 0
    ensures forall i :: 0 <= i < |r| ==>
      (if r[i].position == "SP:RP" then r[i].numScorers == 3 && r[i].hasWorst
       else r[i].numScorers == 10 && !r[i].hasWorst)
  {
    seq(|HittingPositions|, i requires 0 <= i < |HittingPositions| => PositionPoints(HittingPositions[i], 10, false))
    + [PositionPoints("SP:RP", 3, true)]
  }

  /** The lists a page yields in `_load_top_scorers`: the combined pitching page is split
      by starts, every other page is its own list. */
  function TopPositions(position: string): seq<string>
  {
    if position == "SP:RP" then ["1SP", "2SP", "RP"] else [position]
  }

  /** The lists a page yields in `_load_worst_scorers`. */
  function WorstPositions(position: string): seq<string>
  {
    if position == "SP:RP" then ["SP", "RP"] else [position]
  }

  /** `_load_top_scorers`: one list per position of the page, read top down. Each list
      is the tie-preserving cut, best first, of the rows readable for its position, in
      runs of equal points. */
  function LoadTopScorers(rows: seq<LeaderRow>, position: string, playersToTeam: map<int, string>,
                          numScorers: int): (r: map<string, seq<Group<PointLeader>>>)
    requires numScorers > 0
    ensures forall p :: p in r <==> p in TopPositions(position)
    ensures forall p :: p in r ==> r[p] == ScorersByPosition(rows, p, playersToTeam, numScorers, true)
    ensures forall p :: p in r ==>
      && LeaderCut(Readable(rows, p, playersToTeam), Flatten(r[p]), numScorers, true, LeaderPoints)
      && (forall i :: 0 <= i < |r[p]| ==> Uniform(r[p][i], LeaderPoints))
      && (forall i :: 0 < i < |r[p]| ==> r[p][i - 1].key != r[p][i].key)
  {
    map p | p in TopPositions(position) :: ScorersByPosition(rows, p, playersToTeam, numScorers, true)
  }

  /** `_load_worst_scorers`: one list per position of the page, read bottom up. Each
      list is the tie-preserving cut, worst first, of the reversed rows readable for its
      position, in runs of equal points. */
  function LoadWorstScorers(rows: seq<LeaderRow>, position: string, playersToTeam: map<int, string>,
                            numScorers: int): (r: map<string, seq<Group<PointLeader>>>)
    requires numScorers > 0
    ensures forall p :: p in r <==> p in WorstPositions(position)
    ensures forall p :: p in r ==> r[p] == ScorersByPosition(Reverse(rows), p, playersToTeam, numScorers, false)
    ensures forall p :: p in r ==>
      && LeaderCut(Readable(Reverse(rows), p, playersToTeam), Flatten(r[p]), numScorers, false, LeaderPoints)
      && (forall i :: 0 <= i < |r[p]| ==> Uniform(r[p][i], LeaderPoints))
      && (forall i :: 0 < i < |r[p]| ==> r[p][i - 1].key != r[p][i].key)
  {
    map p | p in WorstPositions(position) :: ScorersByPosition(Reverse(rows), p, playersToTeam, numScorers, false)
  }

  /** Where a list comes from: the page of the setting that produced it, and how many
      leaders that setting keeps. */
  datatype Source = Source(page: string, numScorers: int)

  /** The top lists the settings produce, each with its source: every setting adds its
      page's `TopPositions`, and a later setting replaces an earlier list of the same
      position, as `dict.update` does. */
  function TopPlan(settings: seq<PositionPoints>): map<string, Source>
  {
    if |settings| == 0 then map[]
    else
      var s := settings[|settings| - 1];
      TopPlan(settings[..|settings| - 1]) + map p | p in TopPositions(s.position) :: Source(s.position, s.numScorers)
  }

  /** The worst lists the settings produce: only settings with `hasWorst` add any. */
  function WorstPlan(settings: seq<PositionPoints>): map<string, Source>
  {
    if |settings| == 0 then map[]
    else
      var s := settings[|settings| - 1];
      var before := WorstPlan(settings[..|settings| - 1]);
      if s.hasWorst then before + map p | p in WorstPositions(s.position) :: Source(s.position, s.numScorers)
      else before
  }

  /** The loop of `create_with_settings`: each setting in turn loads its page's top
      lists into the top map, and its worst lists into the worst map when it has any;
      `dict.update` lets a later list replace an earlier one of the same position. */
  function LoadAll(settings: seq<PositionPoints>, pages: string -> seq<LeaderRow>,
                   playersToTeam: map<int, string>): (r: (map<string, seq<Group<PointLeader>>>, map<string, seq<Group<PointLeader>>>))
    requires forall i :: 0 <= i < |settings| ==> settings[i].numScorers > 0
  {
    if |settings| == 0 then (map[], map[])
    else
      var s := settings[|settings| - 1];
      var before := LoadAll(settings[..|settings| - 1], pages, playersToTeam);
      var top := before.0 + LoadTopScorers(pages(s.position), s.position, playersToTeam, s.numScorers);
      var worst := if s.hasWorst
        then before.1 + LoadWorstScorers(pages(s.position), s.position, playersToTeam, s.numScorers)
        else before.1;
      (top, worst)
  }

  /** The update loop produces the planned lists: a position has a top (worst) list
      exactly when the plan gives it a source, and that list is read from the source's
      page, top down (bottom up), keeping as many leaders as the source's setting says. */
  lemma {:induction false} LoadAllByPlan(settings: seq<PositionPoints>, pages: string -> seq<LeaderRow>,
                                         playersToTeam: map<int, string>)
    requires forall i :: 0 <= i < |settings| ==> settings[i].numScorers > 0
    ensures var r := LoadAll(settings, pages, playersToTeam);
      && r.0.Keys == TopPlan(settings).Keys && r.1.Keys == WorstPlan(settings).Keys
      && TopMatches(r.0, TopPlan(settings), pages, playersToTeam)
      && WorstMatches(r.1, WorstPlan(settings), pages, playersToTeam)
  {
    if |settings| > 0 {
      var n := |settings| - 1;
      var s := settings[n];
      LoadAllByPlan(settings[..n], pages, playersToTeam);
      TopUpdate(LoadAll(settings[..n], pages, playersToTeam).0, TopPlan(settings[..n]),
                pages, playersToTeam, s, LoadTopScorers(pages(s.position), s.position, playersToTeam, s.numScorers));
      if s.hasWorst {
        WorstUpdate(LoadAll(settings[..n], pages, playersToTeam).1, WorstPlan(settings[..n]),
                    pages, playersToTeam, s, LoadWorstScorers(pages(s.position), s.position, playersToTeam, s.numScorers));
      }
    }
  }

  /** Lists agree with a plan of sources: the same positions, and each list is one that
      `ok` accepts for its position and planned source. */
  ghost predicate Matches<T>(lists: map<string, T>, plan: map<string, Source>, ok: (string, Source, T) -> bool)
  {
    && lists.Keys == plan.Keys
    && forall p :: p in lists ==> ok(p, plan[p], lists[p])
  }

  /** A top list read from its source's page, top down, with its source's count. */
  ghost function TopFrom(pages: string -> seq<LeaderRow>, playersToTeam: map<int, string>)
    : (string, Source, seq<Group<PointLeader>>) -> bool
  {
    (p: string, src: Source, l: seq<Group<PointLeader>>) =>
      src.numScorers > 0 && l == ScorersByPosition(pages(src.page), p, playersToTeam, src.numScorers, true)
  }

  /** A worst list read from its source's page, bottom up, with its source's count. */
  ghost function WorstFrom(pages: string -> seq<LeaderRow>, playersToTeam: map<int, string>)
    : (string, Source, seq<Group<PointLeader>>) -> bool
  {
    (p: string, src: Source, l: seq<Group<PointLeader>>) =>
      src.numScorers > 0 && l == ScorersByPosition(Reverse(pages(src.page)), p, playersToTeam, src.numScorers, false)
  }

  /** The top lists agree with a plan of sources. */
  ghost predicate TopMatches(lists: map<string, seq<Group<PointLeader>>>, plan: map<string, Source>,
                             pages: string -> seq<LeaderRow>, playersToTeam: map<int, string>)
  {
    Matches(lists, plan, TopFrom(pages, playersToTeam))
  }

  /** The worst lists agree with a plan of sources. */
  ghost predicate WorstMatches(lists: map<string, seq<Group<PointLeader>>>, plan: map<string, Source>,
                               pages: string -> seq<LeaderRow>, playersToTeam: map<int, string>)
  {
    Matches(lists, plan, WorstFrom(pages, playersToTeam))
  }

  /** Merging lists read for some positions from one source into lists that agree with
      a plan leaves lists that agree with the plan updated with that source. */
  lemma MergeKeeps<T>(lists: map<string, T>, plan: map<string, Source>, loaded: map<string, T>,
                      added: seq<string>, src: Source, ok: (string, Source, T) -> bool)
    requires Matches(lists, plan, ok)
    requires forall p :: p in loaded <==> p in added
    requires forall p :: p in loaded ==> ok(p, src, loaded[p])
    ensures Matches(lists + loaded, plan + map p | p in added :: src, ok)
  {
  }

  /** Loading one setting's top lists over lists that match a plan matches the plan
      updated with that setting's sources. */
  lemma TopUpdate(lists: map<string, seq<Group<PointLeader>>>, plan: map<string, Source>,
                  pages: string -> seq<LeaderRow>, playersToTeam: map<int, string>, s: PositionPoints,
                  loaded: map<string, seq<Group<PointLeader>>>)
    requires s.numScorers > 0 && TopMatches(lists, plan, pages, playersToTeam)
    requires forall p :: p in loaded <==> p in TopPositions(s.position)
    requires forall p :: p in loaded ==> loaded[p] == ScorersByPosition(pages(s.position), p, playersToTeam, s.numScorers, true)
    ensures TopMatches(lists + loaded, plan + map p | p in TopPositions(s.position) :: Source(s.position, s.numScorers),
                       pages, playersToTeam)
  {
    var src := Source(s.position, s.numScorers);
    assert forall p :: p in loaded ==> TopFrom(pages, playersToTeam)(p, src, loaded[p]);
    MergeKeeps(lists, plan, loaded, TopPositions(s.position), src, TopFrom(pages, playersToTeam));
  }

  /** Loading one setting's worst lists over lists that match a plan matches the plan
      updated with that setting's sources. */
  lemma WorstUpdate(lists: map<string, seq<Group<PointLeader>>>, plan: map<string, Source>,
                    pages: string -> seq<LeaderRow>, playersToTeam: map<int, string>, s: PositionPoints,
                    loaded: map<string, seq<Group<PointLeader>>>)
    requires s.numScorers > 0 && WorstMatches(lists, plan, pages, playersToTeam)
    requires forall p :: p in loaded <==> p in WorstPositions(s.position)
    requires forall p :: p in loaded ==>
      loaded[p] == ScorersByPosition(Reverse(pages(s.position)), p, playersToTeam, s.numScorers, false)
    ensures WorstMatches(lists + loaded, plan + map p | p in WorstPositions(s.position) :: Source(s.position, s.numScorers),
                         pages, playersToTeam)
  {
    var src := Source(s.position, s.numScorers);
    assert forall p :: p in loaded ==> WorstFrom(pages, playersToTeam)(p, src, loaded[p]);
    MergeKeeps(lists, plan, loaded, WorstPositions(s.position), src, WorstFrom(pages, playersToTeam));
  }

  /** `parse_points_leaders` for given settings: the top and worst maps have exactly the
      planned positions, and each list is read from its source page with its setting's
      count. */
  function ParsePointsLeaders(settings: seq<PositionPoints>, pages: string -> seq<LeaderRow>,
                              playersToTeam: map<int, string>): (r: (map<string, seq<Group<PointLeader>>>, map<string, seq<Group<PointLeader>>>))
    requires forall i :: 0 <= i < |settings| ==> settings[i].numScorers > 0
    ensures r.0.Keys == TopPlan(settings).Keys && r.1.Keys == WorstPlan(settings).Keys
    ensures forall p :: p in r.0 ==>
      (TopPlan(settings)[p].numScorers > 0
       && r.0[p] == ScorersByPosition(pages(TopPlan(settings)[p].page), p, playersToTeam, TopPlan(settings)[p].numScorers, true))
    ensures forall p :: p in r.1 ==>
      (WorstPlan(settings)[p].numScorers > 0
       && r.1[p] == ScorersByPosition(Reverse(pages(WorstPlan(settings)[p].page)), p, playersToTeam, WorstPlan(settings)[p].numScorers, false))
  {
    LoadAllByPlan(settings, pages, playersToTeam);
    LoadAll(settings, pages, playersToTeam)
  }

  /** One more setting for a page of its own adds one list, under the page's position. */
  lemma PlanStep(settings: seq<PositionPoints>, k: int)
    requires 0 <= k < |settings| && settings[k].position != "SP:RP"
    ensures TopPlan(settings[..k + 1]) == TopPlan(settings[..k])[settings[k].position := Source(settings[k].position, settings[k].numScorers)]
    ensures !settings[k].hasWorst ==> WorstPlan(settings[..k + 1]) == WorstPlan(settings[..k])
  {
    assert settings[..k + 1][..k] == settings[..k];
    var s := settings[k];
    var added := map p | p in TopPositions(s.position) :: Source(s.position, s.numScorers);
    assert added == map[s.position := Source(s.position, s.numScorers)];
  }

  /** Settings that each give a page of its own a top list of ten and no worst list
      produce, after `k` of them, one such list per page so far and no worst list. */
  lemma {:induction false} HittingPlan(s: seq<PositionPoints>, positions: seq<string>, k: nat)
    requires k <= |positions| <= |s|
    requires forall i :: 0 <= i < |positions| ==> s[i] == PositionPoints(positions[i], 10, false)
    requires forall i :: 0 <= i < |positions| ==> positions[i] != "SP:RP"
    ensures TopPlan(s[..k]) == map p | p in positions[..k] :: Source(p, 10)
    ensures WorstPlan(s[..k]) == map[]
  {
    if k == 0 {
      assert s[..0] == [];
    } else {
      HittingPlan(s, positions, k - 1);
      PlanStep(s, k - 1);
      TenMoreOf(positions, k);
    }
  }

  /** The lists of ten for one more page are the earlier ones with that page's added. */
  lemma TenMoreOf(positions: seq<string>, k: nat)
    requires 0 < k <= |positions|
    ensures (map p | p in positions[..k - 1] :: Source(p, 10))[positions[k - 1] := Source(positions[k - 1], 10)]
         == map p | p in positions[..k] :: Source(p, 10)
  {
    assert positions[..k] == positions[..k - 1] + [positions[k - 1]];
  }

  /** Settings of hitting pages of their own followed by the combined pitching page
      keeping three: a top list of ten per hitting page, the 1SP, 2SP and RP top lists of
      three and the SP and RP worst lists of three, both from the pitching page. */
  lemma PlanOfSettings(s: seq<PositionPoints>, positions: seq<string>)
    requires |s| == |positions| + 1
    requires forall i :: 0 <= i < |positions| ==> s[i] == PositionPoints(positions[i], 10, false)
    requires forall i :: 0 <= i < |positions| ==> positions[i] != "SP:RP"
    requires s[|positions|] == PositionPoints("SP:RP", 3, true)
    ensures TopPlan(s) == (map p | p in positions :: Source(p, 10))
      + (map p | p in ["1SP", "2SP", "RP"] :: Source("SP:RP", 3))
    ensures WorstPlan(s) == map p | p in ["SP", "RP"] :: Source("SP:RP", 3)
  {
    var n := |positions|;
    HittingPlan(s, positions, n);
    assert positions[..n] == positions;
    PitchingStep(s);
    EmptyUpdate(map p | p in ["SP", "RP"] :: Source("SP:RP", 3));
  }

  /** The combined pitching page keeping three, as the last setting, adds the 1SP, 2SP
      and RP top lists and the SP and RP worst lists. */
  lemma PitchingStep(s: seq<PositionPoints>)
    requires |s| > 0 && s[|s| - 1] == PositionPoints("SP:RP", 3, true)
    ensures TopPlan(s) == TopPlan(s[..|s| - 1]) + map p | p in ["1SP", "2SP", "RP"] :: Source("SP:RP", 3)
    ensures WorstPlan(s) == WorstPlan(s[..|s| - 1]) + map p | p in ["SP", "RP"] :: Source("SP:RP", 3)
  {
    var last := s[|s| - 1];
    assert TopPositions(last.position) == ["1SP", "2SP", "RP"];
    assert WorstPositions(last.position) == ["SP", "RP"];
    assert Source(last.position, last.numScorers) == Source("SP:RP", 3);
  }

  /** Updating an empty map with another gives the other. */
  lemma EmptyUpdate<K, V>(m: map<K, V>)
    ensures map[] + m == m
  {
  }

  /** The hitting positions are none of the pitching list names. */
  lemma HittingApartFromPitching(i: int)
    requires 0 <= i < |HittingPositions|
    ensures HittingPositions[i] != "SP:RP"
    ensures HittingPositions[i] !in ["1SP", "2SP", "RP"] && HittingPositions[i] !in ["SP", "RP"]
  {
  }

  /** With the real settings: each hitting position gets a top list of ten from its own
      page; the combined pitching page is split into 1SP, 2SP and RP top lists of three
      and SP and RP worst lists of three; no hitting position gets a worst list. */
  lemma SettingsSplit()
    ensures TopPlan(Settings()) == (map p | p in HittingPositions :: Source(p, 10))
      + (map p | p in ["1SP", "2SP", "RP"] :: Source("SP:RP", 3))
    ensures WorstPlan(Settings()) == map p | p in ["SP", "RP"] :: Source("SP:RP", 3)
  {
    var s := Settings();
    forall i | 0 <= i < |HittingPositions|
      ensures s[i] == PositionPoints(HittingPositions[i], 10, false) && HittingPositions[i] != "SP:RP"
    {
      HittingApartFromPitching(i);
    }
    PlanOfSettings(s, HittingPositions);
  }

  /** What the real settings load for a hitting position: a top-ten list from its own page. */
  lemma ParsedHitting(pages: string -> seq<LeaderRow>, playersToTeam: map<int, string>, i: int)
    requires 0 <= i < |HittingPositions|
    ensures var r := ParsePointsLeaders(Settings(), pages, playersToTeam);
      var p := HittingPositions[i];
      p in r.0 && p !in r.1 && r.0[p] == ScorersByPosition(pages(p), p, playersToTeam, 10, true)
  {
    SettingsSplit();
    HittingApartFromPitching(i);
    assert TopPlan(Settings())[HittingPositions[i]] == Source(HittingPositions[i], 10);
  }

  /** What the real settings load for the start classes: top-three lists from the
      combined pitching page. */
  lemma ParsedPitchingTop(pages: string -> seq<LeaderRow>, playersToTeam: map<int, string>, p: string)
    requires p in ["1SP", "2SP", "RP"]
    ensures var r := ParsePointsLeaders(Settings(), pages, playersToTeam);
      p in r.0 && r.0[p] == ScorersByPosition(pages("SP:RP"), p, playersToTeam, 3, true)
  {
    SettingsSplit();
    assert TopPlan(Settings())[p] == Source("SP:RP", 3);
  }

  /** The only worst lists are SP and RP, worst-three lists read from the bottom of the
      combined pitching page. */
  lemma ParsedWorst(pages: string -> seq<LeaderRow>, playersToTeam: map<int, string>)
    ensures var r := ParsePointsLeaders(Settings(), pages, playersToTeam);
      && (forall p :: p in r.1 <==> p in ["SP", "RP"])
      && (forall p :: p in r.1 ==> r.1[p] == ScorersByPosition(Reverse(pages("SP:RP")), p, playersToTeam, 3, false))
  {
    SettingsSplit();
  }
}
