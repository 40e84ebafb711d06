/** The all-star lineup of the current weekly-summary script (src/main.py): index the
    hitting leaders by id and position, grow per-position candidate lists a whole point
    group at a time until every position can be filled, then enumerate every lineup and
    keep the best. */
module WeeklyAllStars {
  import opened Outcomes
  import opened Grouping
  import opened Lineups
  import opened WeeklyLeaders
  import opened WeeklyRanking

  /** The lineup's positions and their slot counts. */
  const AllStarPositions: map<string, nat> :=
    map["C" := 1, "1B" := 1, "2B" := 1, "3B" := 1, "SS" := 1, "CF" := 1, "OF" := 2, "U" := 2]

  /** The positions in the order the lineup lists them. */
  const PositionOrder: seq<string> := ["C", "1B", "2B", "3B", "SS", "CF", "OF", "U"]

  /** One entry per slot: each position repeated by its slot count. */
  const SlotPositions: seq<string> := ["C", "1B", "2B", "3B", "SS", "CF", "OF", "OF", "U", "U"]

  /** The slot list is the position list expanded by the slot counts. */
  lemma SlotPositionsExpand()
    ensures forall p :: p in AllStarPositions <==> p in PositionOrder
    ensures forall p :: p in AllStarPositions ==>
      |set i | 0 <= i < |SlotPositions| && SlotPositions[i] == p| == AllStarPositions[p]
  {
    assert forall p :: p in AllStarPositions <==> p in PositionOrder;
    forall p | p in AllStarPositions
      ensures |set i | 0 <= i < |SlotPositions| && SlotPositions[i] == p| == AllStarPositions[p]
    {
      if p in {"C", "1B", "2B", "3B"} {
        FirstPositionSlots(p);
      } else {
        LastPositionSlots(p);
      }
    }
  }

  /** The one slot of each of the first four positions. */
  lemma FirstPositionSlots(p: string)
    requires p in {"C", "1B", "2B", "3B"}
    ensures |set i | 0 <= i < |SlotPositions| && SlotPositions[i] == p| == 1
  {
    var slots := set i | 0 <= i < |SlotPositions| && SlotPositions[i] == p;
    if p == "C" { assert slots == {0}; }
    else if p == "1B" { assert slots == {1}; }
    else if p == "2B" { assert slots == {2}; }
    else { assert slots == {3}; }
  }

  /** The slots of the last four positions. */
  lemma LastPositionSlots(p: string)
    requires p in {"SS", "CF", "OF", "U"}
    ensures |set i | 0 <= i < |SlotPositions| && SlotPositions[i] == p| == AllStarPositions[p]
  {
    var slots := set i | 0 <= i < |SlotPositions| && SlotPositions[i] == p;
    if p == "SS" { assert slots == {4}; }
    else if p == "CF" { assert slots == {5}; }
    else if p == "OF" { assert slots == {6, 7}; }
    else { assert slots == {8, 9}; }
  }

  /** The three lookups built from the leader lists: the player per id, the positions
      each id leads at, and the ids leading at each position. */
  datatype Index = Index(
    scorers: map<int, ScoringPlayer>,
    scorerPositions: map<int, set<string>>,
    positionScorers: map<string, set<int>>)

  /** `scorer_positions[id]` of the defaulting dictionary. */
  function PositionsOf(idx: Index, id: int): set<string>
  {
    if id in idx.scorerPositions then idx.scorerPositions[id] else {}
  }

  /** `position_scorers[position]` of the defaulting dictionary. */
  function ScorersAt(idx: Index, position: string): set<int>
  {
    if position in idx.positionScorers then idx.positionScorers[position] else {}
  }

  /** The lookups agree with each other: every indexed player is filed under its own id,
      an id leads at a position exactly when the position lists it, and only lineup
      positions and indexed players appear. */
  ghost predicate WellIndexed(idx: Index)
  {
    && (forall id :: id in idx.scorers ==> idx.scorers[id].id == id)
    && (forall id, position :: id in ScorersAt(idx, position) <==> position in PositionsOf(idx, id))
    && (forall id, position :: id in ScorersAt(idx, position) ==> id in idx.scorers && position in AllStarPositions)
  }

  /** Filing one leader: the last player seen under an id wins, and the id and position
      are linked both ways. */
  function AddScorer(idx: Index, position: string, p: ScoringPlayer): (r: Index)
    requires WellIndexed(idx) && position in AllStarPositions
    ensures WellIndexed(r)
    ensures r.scorers == idx.scorers[p.id := p]
    ensures PositionsOf(r, p.id) == PositionsOf(idx, p.id) + {position}
    ensures forall id :: id != p.id ==> PositionsOf(r, id) == PositionsOf(idx, id)
  {
    var r := Index(
      idx.scorers[p.id := p],
      idx.scorerPositions[p.id := PositionsOf(idx, p.id) + {position}],
      idx.positionScorers[position := ScorersAt(idx, position) + {p.id}]);
    forall id, q
      ensures id in ScorersAt(r, q) <==> q in PositionsOf(r, id)
      ensures id in ScorersAt(r, q) ==> id in r.scorers && q in AllStarPositions
    {
      if q == position {
        assert ScorersAt(r, q) == ScorersAt(idx, q) + {p.id};
      } else {
        assert ScorersAt(r, q) == ScorersAt(idx, q);
      }
      if id == p.id {
        assert PositionsOf(r, id) == PositionsOf(idx, id) + {position};
      } else {
        assert PositionsOf(r, id) == PositionsOf(idx, id);
      }
    }
    r
  }

  /** Filing every player of one position's list, in order. */
  function AddPlayers(idx: Index, position: string, players: seq<ScoringPlayer>): (r: Index)
    requires WellIndexed(idx) && position in AllStarPositions
    ensures WellIndexed(r)
    ensures forall j :: 0 <= j < |players| ==> position in PositionsOf(r, players[j].id)
    ensures forall id :: PositionsOf(idx, id) <= PositionsOf(r, id)
    decreases |players|
  {
    if |players| == 0 then idx
    else AddPlayers(AddScorer(idx, position, players[0]), position, players[1..])
  }

  /** The indexing loop of `all_star_lineup` from some state on: lists of positions
      outside the lineup (the pitching lists) are passed over. */
  function AddLeaders(idx: Index, allStars: seq<PointLeaders>): (r: Index)
    requires WellIndexed(idx)
    ensures WellIndexed(r)
    ensures forall k, j :: (0 <= k < |allStars| && allStars[k].position in AllStarPositions
      && 0 <= j < |allStars[k].players|) ==> allStars[k].position in PositionsOf(r, allStars[k].players[j].id)
    ensures forall id :: PositionsOf(idx, id) <= PositionsOf(r, id)
    decreases |allStars|
  {
    if |allStars| == 0 then idx
    else
      var leaders := allStars[0];
      var next := if leaders.position in AllStarPositions
        then AddPlayers(idx, leaders.position, leaders.players) else idx;
      var r := AddLeaders(next, allStars[1..]);
      assert forall k :: 0 < k < |allStars| ==> allStars[k] == allStars[1..][k - 1];
      r
  }

  /** The lookups `all_star_lineup` builds: consistent, and every player of every lineup
      position's list leads at that position. */
  function IndexLeaders(allStars: seq<PointLeaders>): (r: Index)
    ensures WellIndexed(r)
    ensures forall k, j :: (0 <= k < |allStars| && allStars[k].position in AllStarPositions
      && 0 <= j < |allStars[k].players|) ==> allStars[k].position in PositionsOf(r, allStars[k].players[j].id)
    ensures forall id :: id in r.scorers <==> LastFiled(Filings(allStars), id).Some?
    ensures forall id :: id in r.scorers ==> r.scorers[id] == LastFiled(Filings(allStars), id).value
    ensures forall id, q :: q in PositionsOf(r, id) <==> q in AllStarPositions && Leads(allStars, q, id)
  {
    var empty := Index(map[], map[], map[]);
    AddLeadersFilings(empty, allStars);
    AddFilingsLast(empty, Filings(allStars));
    FilingsLead(allStars);
    AddLeaders(empty, allStars)
  }

  /** One player filed under one position. */
  datatype Filing = Filing(position: string, player: ScoringPlayer)

  /** The filings of one leader list, in list order. */
  function Pairs(position: string, players: seq<ScoringPlayer>): seq<Filing>
  {
    seq(|players|, j requires 0 <= j < |players| => Filing(position, players[j]))
  }

  /** Every filing the indexing loop makes, in the order it makes them: the players of
      each lineup position's list, list after list. */
  function Filings(allStars: seq<PointLeaders>): (fs: seq<Filing>)
    ensures forall i :: 0 <= i < |fs| ==> fs[i].position in AllStarPositions
  {
    if |allStars| == 0 then []
    else
      var head := if allStars[0].position in AllStarPositions
        then Pairs(allStars[0].position, allStars[0].players) else [];
      head + Filings(allStars[1..])
  }

  /** Some list for `position` holds a player with this id. */
  ghost predicate Leads(allStars: seq<PointLeaders>, position: string, id: int)
  {
    exists k, j :: 0 <= k < |allStars| && allStars[k].position == position
      && 0 <= j < |allStars[k].players| && allStars[k].players[j].id == id
  }

  /** The player filed last under `id`, if any. */
  function LastFiled(fs: seq<Filing>, id: int): Option<ScoringPlayer>
  {
    if |fs| == 0 then None
    else
      var later := LastFiled(fs[1..], id);
      if later.Some? then later
      else if fs[0].player.id == id then Some(fs[0].player)
      else None
  }

  /** The positions `id` has been filed under. */
  function FiledPositions(fs: seq<Filing>, id: int): set<string>
  {
    set i | 0 <= i < |fs| && fs[i].player.id == id :: fs[i].position
  }

  /** The filings from some index on, one `AddScorer` after the other. */
  function AddFilings(idx: Index, fs: seq<Filing>): (r: Index)
    requires WellIndexed(idx)
    requires forall i :: 0 <= i < |fs| ==> fs[i].position in AllStarPositions
    ensures WellIndexed(r)
    decreases |fs|
  {
    if |fs| == 0 then idx
    else AddFilings(AddScorer(idx, fs[0].position, fs[0].player), fs[1..])
  }

  /** `LastFiled` finds a filing under `id` that no later filing under `id` follows, and
      finds none only when no filing is under `id`. */
  lemma {:induction false} LastFiledMeans(fs: seq<Filing>, id: int)
    ensures LastFiled(fs, id).None? <==> forall i :: 0 <= i < |fs| ==> fs[i].player.id != id
    ensures LastFiled(fs, id).Some? ==> exists i ::
      && 0 <= i < |fs| && fs[i].player == LastFiled(fs, id).value && fs[i].player.id == id
      && (forall j :: i < j < |fs| ==> fs[j].player.id != id)
    decreases |fs|
  {
    if |fs| > 0 {
      LastFiledMeans(fs[1..], id);
      var later := LastFiled(fs[1..], id);
      if later.Some? {
        var i :| 0 <= i < |fs[1..]| && fs[1..][i].player == later.value
          && fs[1..][i].player.id == id && forall j :: i < j < |fs[1..]| ==> fs[1..][j].player.id != id;
        assert fs[i + 1] == fs[1..][i];
        forall j | i + 1 < j < |fs|
          ensures fs[j].player.id != id
        {
          assert fs[j] == fs[1..][j - 1];
        }
      } else {
        forall j | 0 < j < |fs|
          ensures fs[j].player.id != id
        {
          assert fs[j] == fs[1..][j - 1];
        }
      }
    }
  }

  /** Filing one more player before the rest adds its position to its own id's set. */
  lemma FiledPositionsCons(fs: seq<Filing>, id: int)
    requires |fs| > 0
    ensures FiledPositions(fs, id) ==
      (if fs[0].player.id == id then {fs[0].position} else {}) + FiledPositions(fs[1..], id)
  {
    var rest := fs[1..];
    forall q | q in FiledPositions(fs, id)
      ensures q in (if fs[0].player.id == id then {fs[0].position} else {}) + FiledPositions(rest, id)
    {
      var i :| 0 <= i < |fs| && fs[i].player.id == id && fs[i].position == q;
      if i > 0 {
        assert rest[i - 1] == fs[i];
      }
    }
    forall q | q in FiledPositions(rest, id)
      ensures q in FiledPositions(fs, id)
    {
      var i :| 0 <= i < |rest| && rest[i].player.id == id && rest[i].position == q;
      assert fs[i + 1] == rest[i];
    }
  }

  /** Filing a list from some index: an id is known when it was or has been filed, its
      player is the last filed under it (else the one it had), and its positions gain
      exactly those it was filed under. */
  lemma {:induction false} AddFilingsLast(idx: Index, fs: seq<Filing>)
    requires WellIndexed(idx)
    requires forall i :: 0 <= i < |fs| ==> fs[i].position in AllStarPositions
    ensures forall id :: id in AddFilings(idx, fs).scorers <==> id in idx.scorers || LastFiled(fs, id).Some?
    ensures forall id :: id in AddFilings(idx, fs).scorers ==>
      (AddFilings(idx, fs).scorers[id] == if LastFiled(fs, id).Some? then LastFiled(fs, id).value else idx.scorers[id])
    ensures forall id :: PositionsOf(AddFilings(idx, fs), id) == PositionsOf(idx, id) + FiledPositions(fs, id)
    decreases |fs|
  {
    if |fs| == 0 {
      assert forall id :: FiledPositions(fs, id) == {};
    } else {
      var next := AddScorer(idx, fs[0].position, fs[0].player);
      AddFilingsLast(next, fs[1..]);
      forall id {
        AddFilingsLastStep(idx, fs, next, AddFilings(idx, fs), id);
      }
    }
  }

  /** One id across the first filing of `AddFilingsLast`, given the rest. */
  lemma AddFilingsLastStep(idx: Index, fs: seq<Filing>, next: Index, r: Index, id: int)
    requires WellIndexed(idx) && |fs| > 0 && fs[0].position in AllStarPositions
    requires next == AddScorer(idx, fs[0].position, fs[0].player)
    requires id in r.scorers <==> id in next.scorers || LastFiled(fs[1..], id).Some?
    requires id in r.scorers ==>
      (r.scorers[id] == if LastFiled(fs[1..], id).Some? then LastFiled(fs[1..], id).value else next.scorers[id])
    requires PositionsOf(r, id) == PositionsOf(next, id) + FiledPositions(fs[1..], id)
    ensures id in r.scorers <==> id in idx.scorers || LastFiled(fs, id).Some?
    ensures id in r.scorers ==>
      (r.scorers[id] == if LastFiled(fs, id).Some? then LastFiled(fs, id).value else idx.scorers[id])
    ensures PositionsOf(r, id) == PositionsOf(idx, id) + FiledPositions(fs, id)
  {
    FiledPositionsCons(fs, id);
  }

  /** Filing two lists is filing the first, then the second. */
  lemma {:induction false} AddFilingsAppend(idx: Index, a: seq<Filing>, b: seq<Filing>)
    requires WellIndexed(idx)
    requires forall i :: 0 <= i < |a| ==> a[i].position in AllStarPositions
    requires forall i :: 0 <= i < |b| ==> b[i].position in AllStarPositions
    ensures AddFilings(idx, a + b) == AddFilings(AddFilings(idx, a), b)
    decreases |a|
  {
    if |a| == 0 {
      assert a + b == b;
    } else {
      assert (a + b)[1..] == a[1..] + b;
      AddFilingsAppend(AddScorer(idx, a[0].position, a[0].player), a[1..], b);
    }
  }

  /** Filing a leader list player by player is filing its pairs. */
  lemma {:induction false} AddPlayersFilings(idx: Index, position: string, players: seq<ScoringPlayer>)
    requires WellIndexed(idx) && position in AllStarPositions
    ensures AddPlayers(idx, position, players) == AddFilings(idx, Pairs(position, players))
    decreases |players|
  {
    if |players| > 0 {
      assert Pairs(position, players)[1..] == Pairs(position, players[1..]);
      AddPlayersFilings(AddScorer(idx, position, players[0]), position, players[1..]);
    }
  }

  /** The indexing loop makes exactly the filings of `Filings`, in that order. */
  lemma {:induction false} AddLeadersFilings(idx: Index, allStars: seq<PointLeaders>)
    requires WellIndexed(idx)
    ensures AddLeaders(idx, allStars) == AddFilings(idx, Filings(allStars))
    decreases |allStars|
  {
    if |allStars| > 0 {
      var leaders := allStars[0];
      var head := if leaders.position in AllStarPositions then Pairs(leaders.position, leaders.players) else [];
      var next := if leaders.position in AllStarPositions
        then AddPlayers(idx, leaders.position, leaders.players) else idx;
      if leaders.position in AllStarPositions {
        AddPlayersFilings(idx, leaders.position, leaders.players);
      }
      AddFilingsAppend(idx, head, Filings(allStars[1..]));
      AddLeadersFilings(next, allStars[1..]);
    }
  }

  /** An id is filed under a position exactly when some list for that lineup position
      holds it. */
  lemma {:induction false} FilingsLead(allStars: seq<PointLeaders>)
    ensures forall id, q :: q in FiledPositions(Filings(allStars), id) <==>
      q in AllStarPositions && Leads(allStars, q, id)
    decreases |allStars|
  {
    if |allStars| > 0 {
      FilingsLead(allStars[1..]);
      forall id, q
        ensures q in FiledPositions(Filings(allStars), id) <==> q in AllStarPositions && Leads(allStars, q, id)
      {
        FiledLeads(allStars, id, q);
        LeadsFiled(allStars, id, q);
      }
    }
  }

  /** A filing of the whole sequence comes from the first list or from the rest. */
  lemma FiledLeads(allStars: seq<PointLeaders>, id: int, q: string)
    requires |allStars| > 0
    requires q in FiledPositions(Filings(allStars[1..]), id) ==> Leads(allStars[1..], q, id)
    ensures q in FiledPositions(Filings(allStars), id) ==> q in AllStarPositions && Leads(allStars, q, id)
  {
    var leaders := allStars[0];
    var head := if leaders.position in AllStarPositions then Pairs(leaders.position, leaders.players) else [];
    var rest := Filings(allStars[1..]);
    var fs := Filings(allStars);
    assert fs == head + rest;
    if q in FiledPositions(fs, id) {
      var i :| 0 <= i < |fs| && fs[i].player.id == id && fs[i].position == q;
      if i < |head| {
        assert fs[i] == head[i] == Filing(leaders.position, leaders.players[i]);
        assert allStars[0].position == q && allStars[0].players[i].id == id;
      } else {
        assert rest[i - |head|] == fs[i];
        assert rest[i - |head|].player.id == id && rest[i - |head|].position == q;
        var k, j :| 0 <= k < |allStars[1..]| && allStars[1..][k].position == q
          && 0 <= j < |allStars[1..][k].players| && allStars[1..][k].players[j].id == id;
        assert allStars[k + 1] == allStars[1..][k];
        assert allStars[k + 1].position == q && allStars[k + 1].players[j].id == id;
      }
    }
  }

  /** A lineup list holding the id files it, whether it is the first list or later. */
  lemma LeadsFiled(allStars: seq<PointLeaders>, id: int, q: string)
    requires |allStars| > 0
    requires q in AllStarPositions && Leads(allStars[1..], q, id) ==> q in FiledPositions(Filings(allStars[1..]), id)
    ensures q in AllStarPositions && Leads(allStars, q, id) ==> q in FiledPositions(Filings(allStars), id)
  {
    var leaders := allStars[0];
    var head := if leaders.position in AllStarPositions then Pairs(leaders.position, leaders.players) else [];
    var rest := Filings(allStars[1..]);
    var fs := Filings(allStars);
    assert fs == head + rest;
    if q in AllStarPositions && Leads(allStars, q, id) {
      var k, j :| 0 <= k < |allStars| && allStars[k].position == q
        && 0 <= j < |allStars[k].players| && allStars[k].players[j].id == id;
      if k == 0 {
        assert fs[j] == head[j] == Filing(q, allStars[0].players[j]);
        assert fs[j].player.id == id && fs[j].position == q;
      } else {
        assert allStars[1..][k - 1] == allStars[k];
        assert allStars[1..][k - 1].players[j].id == id;
        var i :| 0 <= i < |rest| && rest[i].player.id == id && rest[i].position == q;
        assert fs[|head| + i] == rest[i];
        assert fs[|head| + i].player.id == id && fs[|head| + i].position == q;
      }
    }
  }


  /** A player's points, looked up by id. */
  function Value(idx: Index): int -> real
  {
    id => if id in idx.scorers then idx.scorers[id].points else 0.0
  }

  /** `lineup_candidates`, with every lineup position present (the source's dictionary
      defaults a missing position to an empty list). */
  type Candidates = map<string, seq<int>>

  /** Every id on some candidate list: `set(itertools.chain(*lineup_candidates.values()))`. */
  function AllCandidates(c: Candidates): set<int>
  {
    set position, id | position in c && id in c[position] :: id
  }

  /** Candidate lists are well kept: one per lineup position, no id twice in a list,
      only ids leading at that position, and a candidate is on the list of every
      position it leads at. */
  ghost predicate CandidatesOk(idx: Index, c: Candidates)
  {
    && c.Keys == AllStarPositions.Keys
    && (forall position :: position in c ==> Distinct(c[position]))
    && (forall position, i :: position in c && 0 <= i < |c[position]| ==> c[position][i] in ScorersAt(idx, position))
    && (forall position, id :: position in c && id in AllCandidates(c) && position in PositionsOf(idx, id) ==> id in c[position])
  }

  /** The ids of `base` not yet among the candidates. */
  function FreshIds(base: seq<int>, c: Candidates): seq<int>
  {
    var taken := AllCandidates(c);
    Filter(base, id => id !in taken)
  }

  /** The groups `add_new_scorers` promotes: the best `number` point groups of the unpicked
      ids. The source ranks the players `scorers[id]` of those ids; ranking the ids by
      their players' points is the same, since every player is filed under its own id. */
  function Promoted(idx: Index, c: Candidates, base: seq<int>, number: nat): seq<Group<int>>
  {
    RankedScorers(FreshIds(base, c), true, number, Value(idx))
  }

  /** `add_new_scorers(base, number)`: every id of the promoted groups, in rank order,
      is appended to the list of each position it leads at. */
  function AddNewScorers(idx: Index, c: Candidates, base: seq<int>, number: nat): (r: Candidates)
    ensures r.Keys == c.Keys
    ensures forall position :: position in c ==> |r[position]| >= |c[position]| && r[position][..|c[position]|] == c[position]
  {
    map position | position in c :: c[position] + Appended(idx, c, base, number, position)
  }

  /** The ids `add_new_scorers` appends to one position's list. */
  function Appended(idx: Index, c: Candidates, base: seq<int>, number: nat, position: string): seq<int>
  {
    Filter(Flatten(Promoted(idx, c, base, number)), id => position in PositionsOf(idx, id))
  }

  /** What `add_new_scorers` appends to a position: exactly the unpicked ids of `base` that
      lead at it and whose point group is promoted, each once; so a group is promoted
      whole or not at all, and no candidate is added again. */
  lemma AddNewScorersAppends(idx: Index, c: Candidates, base: seq<int>, number: nat, position: string)
    requires Distinct(base) && position in c
    ensures var added := AddNewScorers(idx, c, base, number)[position][|c[position]|..];
      && Distinct(added)
      && (forall i :: 0 <= i < |added| ==> added[i] in base && added[i] !in AllCandidates(c) && position in PositionsOf(idx, added[i]))
      && (forall i :: 0 <= i < |added| ==> KeyKept(Promoted(idx, c, base, number), Value(idx)(added[i])))
      && (forall i :: (0 <= i < |base| && base[i] !in AllCandidates(c) && position in PositionsOf(idx, base[i])
            && KeyKept(Promoted(idx, c, base, number), Value(idx)(base[i]))) ==> base[i] in added)
  {
    var unpicked := FreshIds(base, c);
    var groups := Promoted(idx, c, base, number);
    var promoted := Flatten(groups);
    var keep := id => position in PositionsOf(idx, id);
    var added := AddNewScorers(idx, c, base, number)[position][|c[position]|..];
    assert AddNewScorers(idx, c, base, number)[position] == c[position] + Appended(idx, c, base, number, position);
    assert added == Filter(promoted, keep);
    FilterDistinct(base, id => id !in AllCandidates(c));
    FlattenDistinct(groups, unpicked, Value(idx), true);
    FilterDistinct(promoted, keep);
    forall i | 0 <= i < |base| && base[i] !in AllCandidates(c) && position in PositionsOf(idx, base[i])
        && KeyKept(groups, Value(idx)(base[i]))
      ensures base[i] in added
    {
      var j :| 0 <= j < |unpicked| && unpicked[j] == base[i];
      assert unpicked[j] in promoted;
      var m :| 0 <= m < |promoted| && promoted[m] == base[i];
    }
  }

  /** `add_new_scorers` keeps the candidate lists well kept. */
  lemma AddNewScorersOk(idx: Index, c: Candidates, base: seq<int>, number: nat)
    requires WellIndexed(idx) && CandidatesOk(idx, c) && Distinct(base)
    ensures CandidatesOk(idx, AddNewScorers(idx, c, base, number))
    ensures AllCandidates(c) <= AllCandidates(AddNewScorers(idx, c, base, number))
  {
    var r := AddNewScorers(idx, c, base, number);
    forall position | position in c
      ensures Distinct(r[position])
      ensures forall i :: 0 <= i < |r[position]| ==> r[position][i] in ScorersAt(idx, position)
    {
      var before := c[position];
      var added := r[position][|before|..];
      assert r[position] == before + added;
      AddNewScorersAppends(idx, c, base, number, position);
      forall i | 0 <= i < |before|
        ensures before[i] in ScorersAt(idx, position) && before[i] in AllCandidates(c)
      {
        InAllCandidates(c, position, before[i]);
      }
      AppendFresh(before, added, ScorersAt(idx, position), AllCandidates(c));
    }
    CandidatesGrow(idx, c, base, number);
    forall position, id | position in r && id in AllCandidates(r) && position in PositionsOf(idx, id)
      ensures id in r[position]
    {
      CandidateEverywhere(idx, c, base, number, position, id);
    }
  }

  lemma InAllCandidates(c: Candidates, position: string, id: int)
    requires position in c && id in c[position]
    ensures id in AllCandidates(c)
  {
  }

  /** Appending ids not yet taken to a list of taken ones keeps it free of repeats. */
  lemma AppendFresh(before: seq<int>, added: seq<int>, allowed: set<int>, taken: set<int>)
    requires Distinct(before) && Distinct(added)
    requires forall i :: 0 <= i < |before| ==> before[i] in allowed && before[i] in taken
    requires forall i :: 0 <= i < |added| ==> added[i] in allowed && added[i] !in taken
    ensures Distinct(before + added)
    ensures forall i :: 0 <= i < |before + added| ==> (before + added)[i] in allowed
  {
    var l := before + added;
    forall i, j | 0 <= i < j < |l|
      ensures l[i] != l[j]
    {
      if i < |before| <= j {
        assert l[j] == added[j - |before|];
      } else if |before| <= i {
        assert l[i] == added[i - |before|] && l[j] == added[j - |before|];
      }
    }
    forall i | 0 <= i < |l|
      ensures l[i] in allowed
    {
      if i >= |before| {
        assert l[i] == added[i - |before|];
      }
    }
  }

  lemma CandidatesGrow(idx: Index, c: Candidates, base: seq<int>, number: nat)
    ensures AllCandidates(c) <= AllCandidates(AddNewScorers(idx, c, base, number))
  {
    var r := AddNewScorers(idx, c, base, number);
    forall id | id in AllCandidates(c)
      ensures id in AllCandidates(r)
    {
      var position :| position in c && id in c[position];
      var i :| 0 <= i < |c[position]| && c[position][i] == id;
      assert r[position][..|c[position]|][i] == id;
      InAllCandidates(r, position, id);
    }
  }

  lemma CandidateEverywhere(idx: Index, c: Candidates, base: seq<int>, number: nat, position: string, id: int)
    requires WellIndexed(idx) && CandidatesOk(idx, c) && Distinct(base)
    requires position in c && position in PositionsOf(idx, id)
    requires id in AllCandidates(AddNewScorers(idx, c, base, number))
    ensures id in AddNewScorers(idx, c, base, number)[position]
  {
    var r := AddNewScorers(idx, c, base, number);
    var p2 :| p2 in r && id in r[p2];
    var i :| 0 <= i < |r[p2]| && r[p2][i] == id;
    if i < |c[p2]| {
      assert r[p2][..|c[p2]|][i] == id;
      InAllCandidates(c, p2, id);
      assert id in c[position];
      var k :| 0 <= k < |c[position]| && c[position][k] == id;
      assert r[position][..|c[position]|][k] == id;
    } else {
      WasAppended(idx, c, base, number, p2, id);
      AddNewScorersAppends(idx, c, base, number, position);
      var added := r[position][|c[position]|..];
      assert id in added;
      var k :| 0 <= k < |added| && added[k] == id;
      assert r[position][|c[position]| + k] == id;
    }
  }

  /** An id appended to some list is a promoted, fresh id of `base`. */
  lemma WasAppended(idx: Index, c: Candidates, base: seq<int>, number: nat, position: string, id: int)
    requires Distinct(base) && position in c
    requires id in AddNewScorers(idx, c, base, number)[position][|c[position]|..]
    ensures id in base && id !in AllCandidates(c)
    ensures KeyKept(Promoted(idx, c, base, number), Value(idx)(id))
  {
    AddNewScorersAppends(idx, c, base, number, position);
    var added := AddNewScorers(idx, c, base, number)[position][|c[position]|..];
    var k :| 0 <= k < |added| && added[k] == id;
  }

  /** The positions still short of their slot count. */
  function Lacking(c: Candidates): set<string>
  {
    set position | position in AllStarPositions && position in c && |c[position]| < AllStarPositions[position]
  }

  /** Every id leading at a lacking position. */
  function LackingScorers(idx: Index, c: Candidates): set<int>
  {
    set position, id | position in Lacking(c) && id in ScorersAt(idx, position) :: id
  }

  /** Some position has fewer leaders than slots. */
  ghost predicate ShortPosition(idx: Index)
  {
    exists position :: position in AllStarPositions && |ScorersAt(idx, position)| < AllStarPositions[position]
  }

  /** The ids of a set in some order: the order Python iterates a set in is not
      specified, and nothing below depends on it. */
  method SetToSeq(s: set<int>) returns (xs: seq<int>)
    ensures Distinct(xs)
    ensures forall i :: 0 <= i < |xs| ==> xs[i] in s
    ensures forall x :: x in s ==> x in xs
  {
    xs := [];
    var rest := s;
    while rest != {}
      invariant Distinct(xs)
      invariant forall i :: 0 <= i < |xs| ==> xs[i] in s && xs[i] !in rest
      invariant forall x :: x in s ==> x in xs || x in rest
      invariant rest <= s
      decreases |rest|
    {
      // A non-empty set has an element.
      if forall y :: y !in rest {
        assert false;
      }
      var x :| x in rest;
      xs := xs + [x];
      rest := rest - {x};
    }
  }

  /** A lacking position all of whose leaders are already candidates has fewer leaders
      than slots. */
  lemma ExhaustedIsShort(idx: Index, c: Candidates, position: string)
    requires WellIndexed(idx) && CandidatesOk(idx, c)
    requires position in Lacking(c)
    requires ScorersAt(idx, position) <= AllCandidates(c)
    ensures |ScorersAt(idx, position)| < AllStarPositions[position]
  {
    var list := c[position];
    assert ScorersAt(idx, position) <= Members(list) by {
      forall id | id in ScorersAt(idx, position)
        ensures id in Members(list)
      {
        assert id in list;
        var i :| 0 <= i < |list| && list[i] == id;
      }
    }
    MembersCount(list);
    SubsetCard(ScorersAt(idx, position), Members(list));
  }

  /** A well-kept list never holds more ids than lead at its position. */
  lemma FilledIsNotShort(idx: Index, c: Candidates, position: string)
    requires CandidatesOk(idx, c) && position in c
    ensures |c[position]| <= |ScorersAt(idx, position)|
  {
    var list := c[position];
    assert Members(list) <= ScorersAt(idx, position);
    MembersCount(list);
    SubsetCard(Members(list), ScorersAt(idx, position));
  }

  lemma SubsetCard<T>(a: set<T>, b: set<T>)
    requires a <= b
    ensures |a| <= |b|
  {
    assert b == a + (b - a);
  }

  /** A fill step whose base has a fresh id adds at least one candidate, and only
      indexed players. */
  lemma FillStepProgresses(idx: Index, c: Candidates, base: seq<int>)
    requires WellIndexed(idx) && CandidatesOk(idx, c) && AllCandidates(c) <= idx.scorers.Keys
    requires Distinct(base)
    requires forall i :: 0 <= i < |base| ==> base[i] in LackingScorers(idx, c)
    requires |FreshIds(base, c)| > 0
    ensures AllCandidates(AddNewScorers(idx, c, base, 1)) <= idx.scorers.Keys
    ensures idx.scorers.Keys - AllCandidates(AddNewScorers(idx, c, base, 1)) < idx.scorers.Keys - AllCandidates(c)
  {
    var next := AddNewScorers(idx, c, base, 1);
    AddNewScorersOk(idx, c, base, 1);
    FillStepIndexed(idx, next);
    var top := FillStepFresh(idx, c, base);
    Shrinks(idx.scorers.Keys, AllCandidates(c), AllCandidates(next), top);
  }

  /** Well-kept candidate lists hold only indexed players. */
  lemma FillStepIndexed(idx: Index, next: Candidates)
    requires WellIndexed(idx) && CandidatesOk(idx, next)
    ensures AllCandidates(next) <= idx.scorers.Keys
  {
    forall id | id in AllCandidates(next)
      ensures id in idx.scorers
    {
      var position :| position in next && id in next[position];
      var i :| 0 <= i < |next[position]| && next[position][i] == id;
    }
  }

  /** A fill step whose base has a fresh id makes some fresh id a candidate. */
  lemma FillStepFresh(idx: Index, c: Candidates, base: seq<int>) returns (top: int)
    requires WellIndexed(idx) && CandidatesOk(idx, c)
    requires Distinct(base)
    requires forall i :: 0 <= i < |base| ==> base[i] in LackingScorers(idx, c)
    requires |FreshIds(base, c)| > 0
    ensures top in AllCandidates(AddNewScorers(idx, c, base, 1)) && top !in AllCandidates(c)
  {
    var next := AddNewScorers(idx, c, base, 1);
    var unpicked := FreshIds(base, c);
    var groups := Promoted(idx, c, base, 1);
    assert |groups| > 0 by {
      assert unpicked[0] in unpicked;
    }
    assert Uniform(groups[0], Value(idx));
    top := groups[0].members[0];
    KeyFilterMembers(unpicked, Value(idx), groups[0].key);
    assert top in unpicked;
    var t :| 0 <= t < |base| && base[t] == top;
    assert top in LackingScorers(idx, c);
    var position :| position in Lacking(c) && top in ScorersAt(idx, position);
    AddNewScorersAppends(idx, c, base, 1, position);
    assert KeyKept(groups, Value(idx)(top));
    assert top in next[position];
  }

  /** Growing a subset of `keys` by a new member of `keys` shrinks what is left. */
  lemma Shrinks<K>(keys: set<K>, before: set<K>, after: set<K>, x: K)
    requires before <= after <= keys && x in after && x !in before
    ensures keys - after < keys - before
  {
    assert x in keys - before;
  }

  /** The fill loop of `all_star_lineup`: seed the lists with the ten best point groups,
      then, while some position is short of its slot count, promote the best group of
      the unpicked leaders of the short positions. When the short positions have no unpicked
      leader left the source loops forever; that outcome is `None`, and it happens
      exactly when some position has fewer leaders than slots. Otherwise every list
      reaches its slot count. */
  method FillCandidates(idx: Index) returns (r: Option<Candidates>)
    requires WellIndexed(idx)
    ensures r.None? <==> ShortPosition(idx)
    ensures r.Some? ==> CandidatesOk(idx, r.value)
    ensures r.Some? ==> forall position :: position in AllStarPositions ==> |r.value[position]| >= AllStarPositions[position]
  {
    var empty: Candidates := map position | position in AllStarPositions :: [];
    EmptyOk(idx, empty);
    var keys := SetToSeq(idx.scorers.Keys);
    AddNewScorersOk(idx, empty, keys, 10);
    var c := AddNewScorers(idx, empty, keys, 10);
    CandidatesIndexed(idx, c);
    while Lacking(c) != {}
      invariant CandidatesOk(idx, c)
      invariant AllCandidates(c) <= idx.scorers.Keys
      decreases |idx.scorers.Keys - AllCandidates(c)|
    {
      var base := SetToSeq(LackingScorers(idx, c));
      if |FreshIds(base, c)| == 0 {
        NoFreshIsShort(idx, c, base);
        return None;
      }
      var next := AddNewScorers(idx, c, base, 1);
      AddNewScorersOk(idx, c, base, 1);
      FillStepProgresses(idx, c, base);
      StrictSubsetCard(idx.scorers.Keys - AllCandidates(next), idx.scorers.Keys - AllCandidates(c));
      c := next;
    }
    FilledNotShort(idx, c);
    return Some(c);
  }

  lemma EmptyOk(idx: Index, empty: Candidates)
    requires empty == map position | position in AllStarPositions :: []
    ensures CandidatesOk(idx, empty) && AllCandidates(empty) == {}
  {
  }

  /** Candidates are indexed players. */
  lemma CandidatesIndexed(idx: Index, c: Candidates)
    requires WellIndexed(idx) && CandidatesOk(idx, c)
    ensures AllCandidates(c) <= idx.scorers.Keys
  {
    forall id | id in AllCandidates(c)
      ensures id in idx.scorers
    {
      var position :| position in c && id in c[position];
      var i :| 0 <= i < |c[position]| && c[position][i] == id;
    }
  }

  /** When no leader of a lacking position is fresh, that position has fewer leaders
      than slots: the source's loop can make no more progress. */
  lemma NoFreshIsShort(idx: Index, c: Candidates, base: seq<int>)
    requires WellIndexed(idx) && CandidatesOk(idx, c) && Lacking(c) != {}
    requires forall id :: id in LackingScorers(idx, c) ==> id in base
    requires |FreshIds(base, c)| == 0
    ensures ShortPosition(idx)
  {
    var position :| position in Lacking(c);
    forall id | id in ScorersAt(idx, position)
      ensures id in AllCandidates(c)
    {
      assert id in LackingScorers(idx, c);
      var i :| 0 <= i < |base| && base[i] == id;
    }
    ExhaustedIsShort(idx, c, position);
  }

  /** Once no position lacks candidates, every list reaches its slot count and no
      position has fewer leaders than slots. */
  lemma FilledNotShort(idx: Index, c: Candidates)
    requires CandidatesOk(idx, c) && Lacking(c) == {}
    ensures !ShortPosition(idx)
    ensures forall position :: position in AllStarPositions ==> |c[position]| >= AllStarPositions[position]
  {
    forall position | position in AllStarPositions
      ensures |c[position]| >= AllStarPositions[position]
      ensures |ScorersAt(idx, position)| >= AllStarPositions[position]
    {
      assert position !in Lacking(c);
      FilledIsNotShort(idx, c, position);
    }
  }

  lemma StrictSubsetCard<T>(a: set<T>, b: set<T>)
    requires a < b
    ensures |a| < |b|
  {
    assert b == a + (b - a);
    assert b - a != {};
  }

  /** `lineup_options`: each slot's position's candidate list. */
  function SlotOptions(c: Candidates): (options: seq<seq<int>>)
    requires c.Keys == AllStarPositions.Keys
    ensures |options| == |SlotPositions|
    ensures forall s :: 0 <= s < |options| ==> options[s] == c[SlotPositions[s]]
  {
    seq(|SlotPositions|, s requires 0 <= s < |SlotPositions| => c[SlotPositions[s]])
  }

  /** The member sets the enumeration has met in its first `n` lineups, each mapped to
      where it was first met: that lineup repeats no id and has those members; every
      earlier repeat-free lineup's set is recorded, and so is every kept lineup's. */
  ghost predicate SeenSets(ps: seq<seq<int>>, n: int, lineups: seq<seq<int>>, seenAt: map<set<int>, int>)
    requires 0 <= n <= |ps|
  {
    && (forall m :: m in seenAt ==> 0 <= seenAt[m] < n && Distinct(ps[seenAt[m]]) && Members(ps[seenAt[m]]) == m)
    && (forall j :: 0 <= j < n && Distinct(ps[j]) ==> Members(ps[j]) in seenAt)
    && (forall k :: 0 <= k < |lineups| ==> Members(lineups[k]) in seenAt)
  }

  /** A lineup that repeats an id, or whose set was met before, adds no set. */
  lemma SeenSkip(ps: seq<seq<int>>, n: int, lineups: seq<seq<int>>, seenAt: map<set<int>, int>)
    requires 0 <= n < |ps| && SeenSets(ps, n, lineups, seenAt)
    requires !Distinct(ps[n]) || Members(ps[n]) in seenAt
    ensures SeenSets(ps, n + 1, lineups, seenAt)
  {
  }

  /** A repeat-free lineup with a new set records it, whether it is then dropped, kept
      beside the others, or kept alone. */
  lemma SeenAdd(ps: seq<seq<int>>, n: int, lineups: seq<seq<int>>, seenAt: map<set<int>, int>)
    requires 0 <= n < |ps| && SeenSets(ps, n, lineups, seenAt)
    requires Distinct(ps[n]) && Members(ps[n]) !in seenAt
    ensures SeenSets(ps, n + 1, lineups, seenAt[Members(ps[n]) := n])
    ensures SeenSets(ps, n + 1, lineups + [ps[n]], seenAt[Members(ps[n]) := n])
    ensures SeenSets(ps, n + 1, [ps[n]], seenAt[Members(ps[n]) := n])
  {
    var next := lineups + [ps[n]];
    forall k | 0 <= k < |next|
      ensures Members(next[k]) in seenAt[Members(ps[n]) := n]
    {
      if k < |lineups| {
        assert next[k] == lineups[k];
      }
    }
  }

  /** A kept lineup never shares its members with a lineup met for the first time. */
  lemma SeenKeptDiffer(ps: seq<seq<int>>, n: int, lineups: seq<seq<int>>, seenAt: map<set<int>, int>)
    requires 0 <= n < |ps| && SeenSets(ps, n, lineups, seenAt)
    requires Members(ps[n]) !in seenAt
    ensures forall k :: 0 <= k < |lineups| ==> Members(lineups[k]) != Members(ps[n])
  {
  }

  /** The enumeration of `all_star_lineup`: walk `product(*lineup_options)`, skip a
      lineup repeating an id or whose member set was already seen, and keep the lineups
      at the best total, starting from a best of zero. What is returned is `Optimal`. */
  method BestLineups(options: seq<seq<int>>, value: int -> real) returns (lineups: seq<seq<int>>)
    ensures Optimal(lineups, options, value)
  {
    var ps := Product(options);
    var points := 0.0;
    lineups := [];
    ghost var seenAt: map<set<int>, int> := map[];
    var known: set<set<int>> := {};
    for n := 0 to |ps|
      invariant ScanInvariant(ps, n, lineups, points, value)
      invariant SeenSets(ps, n, lineups, seenAt)
      invariant known == seenAt.Keys
    {
      var lineup := ps[n];
      var lineupSet := Members(lineup);
      MembersCount(lineup);
      if |lineupSet| != |lineup| {
        ScanSkipRepeat(ps, n, lineups, points, value);
        SeenSkip(ps, n, lineups, seenAt);
        continue;
      }
      if lineupSet in known {
        ScanSkipSeen(ps, n, lineups, points, value, seenAt[lineupSet]);
        SeenSkip(ps, n, lineups, seenAt);
        continue;
      }
      SeenAdd(ps, n, lineups, seenAt);
      SeenKeptDiffer(ps, n, lineups, seenAt);
      known := known + {lineupSet};
      seenAt := seenAt[lineupSet := n];
      var lineupPoints := Total(lineup, value);
      if lineupPoints < points {
        ScanSkipLower(ps, n, lineups, points, value);
      } else if lineupPoints == points {
        ScanAppendTie(ps, n, lineups, points, value);
        lineups := lineups + [lineup];
      } else {
        ScanReplace(ps, n, lineups, points, value);
        points := lineupPoints;
        lineups := [lineup];
      }
    }
    ScanIsOptimal(options, lineups, points, value);
  }

  /** The text of one lineup: a line per slot, the slot's position, a colon, and the
      player as `describe` renders it. */
  function LineupLines(lineup: seq<int>, describe: int -> string): (lines: seq<string>)
    requires |lineup| == |SlotPositions|
    ensures |lines| == |SlotPositions|
    ensures forall s :: 0 <= s < |lines| ==> lines[s] == SlotPositions[s] + ": " + describe(lineup[s])
  {
    seq(|SlotPositions|, s requires 0 <= s < |SlotPositions| => SlotPositions[s] + ": " + describe(lineup[s]))
  }

  /** The lines of every returned lineup, one lineup after the other. */
  function AllLines(lineups: seq<seq<int>>, describe: int -> string): (lines: seq<string>)
    requires forall k :: 0 <= k < |lineups| ==> |lineups[k]| == |SlotPositions|
    ensures |lines| == |SlotPositions| * |lineups|
  {
    if |lineups| == 0 then [] else LineupLines(lineups[0], describe) + AllLines(lineups[1..], describe)
  }

  /** Line `s` of lineup `i` sits at `i * |SlotPositions| + s` and names slot `s`'s
      position and the player lineup `i` puts there. */
  lemma {:induction false} AllLinesDescribe(lineups: seq<seq<int>>, describe: int -> string)
    requires forall k :: 0 <= k < |lineups| ==> |lineups[k]| == |SlotPositions|
    ensures forall i, s {:trigger lineups[i][s]} :: 0 <= i < |lineups| && 0 <= s < |SlotPositions| ==>
      AllLines(lineups, describe)[i * |SlotPositions| + s] == SlotPositions[s] + ": " + describe(lineups[i][s])
  {
    if |lineups| > 0 {
      var n := |SlotPositions|;
      var head := LineupLines(lineups[0], describe);
      var rest := AllLines(lineups[1..], describe);
      AllLinesDescribe(lineups[1..], describe);
      forall i, s | 0 <= i < |lineups| && 0 <= s < n
        ensures AllLines(lineups, describe)[i * n + s] == SlotPositions[s] + ": " + describe(lineups[i][s])
      {
        if i == 0 {
          assert AllLines(lineups, describe)[s] == head[s];
        } else {
          assert i * n == (i - 1) * n + n;
          assert lineups[1..][i - 1][s] == lineups[i][s];
          assert AllLines(lineups, describe)[i * n + s] == rest[(i - 1) * n + s];
        }
      }
    }
  }

  /** The outcome of `all_star_lineup`: the candidate lists, the best lineups drawn from
      them and their lines; or the fill loop never ends. */
  datatype AllStarOutcome =
    | Lineups(candidates: Candidates, lineups: seq<seq<int>>, lines: seq<string>)
    | FillDiverges

  /** `all_star_lineup`: it never ends exactly when some position has fewer leaders than
      slots. Otherwise every candidate list reaches its slot count, each list holds
      distinct ids leading at its position, and the lineups returned are `Optimal` over
      the slots' candidate lists: one id per slot and none twice, a shared total that is
      not negative and is not beaten, distinct member sets, every best set present. */
  method AllStarLineup(allStars: seq<PointLeaders>, describe: int -> string) returns (r: AllStarOutcome)
    ensures r.FillDiverges? <==> ShortPosition(IndexLeaders(allStars))
    ensures r.Lineups? ==> CandidatesOk(IndexLeaders(allStars), r.candidates)
    ensures r.Lineups? ==> forall position :: position in AllStarPositions ==>
      |r.candidates[position]| >= AllStarPositions[position]
    ensures r.Lineups? ==> Optimal(r.lineups, SlotOptions(r.candidates), Value(IndexLeaders(allStars)))
    ensures r.Lineups? ==> |r.lines| == |SlotPositions| * |r.lineups|
    ensures r.Lineups? ==> r.lines == AllLines(r.lineups, describe)
    ensures r.Lineups? ==> forall i, s {:trigger r.lineups[i][s]} :: 0 <= i < |r.lineups| && 0 <= s < |SlotPositions| ==>
      r.lines[i * |SlotPositions| + s] == SlotPositions[s] + ": " + describe(r.lineups[i][s])
  {
    var idx := IndexLeaders(allStars);
    var filled := FillCandidates(idx);
    if filled.None? {
      return FillDiverges;
    }
    var options := SlotOptions(filled.value);
    var lineups := BestLineups(options, Value(idx));
    AllLinesDescribe(lineups, describe);
    return Lineups(filled.value, lineups, AllLines(lineups, describe));
  }
}
