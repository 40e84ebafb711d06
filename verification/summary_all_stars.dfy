/** The all-star lineup of the older summary package (summary/markdown_formatter.py,
    `AllStarFormatter`): candidate lists per position from the top lists, cut down to a
    fixed point by the unique-player rule, then every co-optimal lineup enumerated. */
module SummaryAllStars {
  import opened Outcomes
  import opened Text
  import opened Grouping
  import opened Lineups
  import opened WeeklyAllStars
  import opened SummaryLeaders
  import opened SummaryFormat

  /** The candidate ids per position, `_position_dict`. */
  type PositionDict = map<string, seq<int>>

  /** The ids of some leaders, in order. */
  function Ids(ps: seq<PointLeader>): (ids: seq<int>)
    ensures |ids| == |ps|
    ensures forall i :: 0 <= i < |ps| ==> ids[i] == ps[i].id
  {
    seq(|ps|, i requires 0 <= i < |ps| => ps[i].id)
  }

  /** Leaders by id, a later leader with the same id replacing an earlier one. */
  function ById(ps: seq<PointLeader>): (r: map<int, PointLeader>)
    ensures forall i :: 0 <= i < |ps| ==> ps[i].id in r
    ensures forall id :: id in r ==> exists i :: 0 <= i < |ps| && ps[i] == r[id] && ps[i].id == id
  {
    if |ps| == 0 then map[]
    else
      var before := ById(ps[..|ps| - 1]);
      assert forall i :: 0 <= i < |ps| - 1 ==> ps[..|ps| - 1][i] == ps[i];
      before[ps[|ps| - 1].id := ps[|ps| - 1]]
  }

  /** The `AllStarFormatter` constructor's loop over the top lists: pitching lists are
      passed over; every other list's leaders are recorded by id and appended, in rank
      order, to their position's candidates. A position gets an entry only once it
      has a leader, as a `defaultdict` does. */
  function IndexTop(top: seq<(string, seq<Group<PointLeader>>)>): (r: (map<int, PointLeader>, PositionDict))
    ensures forall p :: p in r.1 ==> !Contains(p, "P") && |r.1[p]| > 0
    ensures forall p :: p in r.1 ==> exists i :: 0 <= i < |top| && top[i].0 == p
    ensures forall p, i :: p in r.1 && 0 <= i < |r.1[p]| ==> r.1[p][i] in r.0
  {
    if |top| == 0 then (map[], map[])
    else
      var before := IndexTop(top[..|top| - 1]);
      var position := top[|top| - 1].0;
      var players := Flatten(top[|top| - 1].1);
      assert forall i :: 0 <= i < |top| - 1 ==> top[..|top| - 1][i] == top[i];
      if Contains(position, "P") || |players| == 0 then before
      else
        var held := if position in before.1 then before.1[position] else [];
        var r := (before.0 + ById(players), before.1[position := held + Ids(players)]);
        StepSources(top, before.1, r.1, position, held + Ids(players));
        StepRecorded(before, ById(players), held, Ids(players), position, r);
        r
  }

  /** A list filed under the last list's position names a position some list has. */
  lemma StepSources(top: seq<(string, seq<Group<PointLeader>>)>, before: PositionDict, after: PositionDict,
                    position: string, ids: seq<int>)
    requires |top| > 0 && position == top[|top| - 1].0
    requires forall p :: p in before ==> exists i :: 0 <= i < |top| - 1 && top[i].0 == p
    requires after == before[position := ids]
    ensures forall p :: p in after ==> exists i :: 0 <= i < |top| && top[i].0 == p
  {
    forall p | p in after
      ensures exists i :: 0 <= i < |top| && top[i].0 == p
    {
      if p == position {
        assert top[|top| - 1].0 == p;
      }
    }
  }

  /** Ids appended under a position, each recorded, keep every listed id recorded. */
  lemma StepRecorded(before: (map<int, PointLeader>, PositionDict), added: map<int, PointLeader>,
                     held: seq<int>, appended: seq<int>, position: string, r: (map<int, PointLeader>, PositionDict))
    requires forall p, i :: p in before.1 && 0 <= i < |before.1[p]| ==> before.1[p][i] in before.0
    requires held == if position in before.1 then before.1[position] else []
    requires forall i :: 0 <= i < |appended| ==> appended[i] in added
    requires r == (before.0 + added, before.1[position := held + appended])
    ensures forall p, i :: p in r.1 && 0 <= i < |r.1[p]| ==> r.1[p][i] in r.0
  {
    var ids := held + appended;
    forall p, i | p in r.1 && 0 <= i < |r.1[p]|
      ensures r.1[p][i] in r.0
    {
      if p == position {
        if i < |held| {
          assert ids[i] == held[i];
        } else {
          assert ids[i] == appended[i - |held|];
        }
      } else {
        assert r.1[p] == before.1[p];
      }
    }
  }


  /** Every leader the constructor's loop records, in the order it records them: the
      flattened groups of each list whose position has no "P". */
  function TopLeaders(top: seq<(string, seq<Group<PointLeader>>)>): seq<PointLeader>
  {
    if |top| == 0 then []
    else
      var last := top[|top| - 1];
      TopLeaders(top[..|top| - 1]) + (if Contains(last.0, "P") then [] else Flatten(last.1))
  }

  /** The ids listed under position `p`: those of every list for `p`, one list after
      the other, none when `p` contains "P". */
  function PositionIds(top: seq<(string, seq<Group<PointLeader>>)>, p: string): seq<int>
  {
    if |top| == 0 then []
    else
      var last := top[|top| - 1];
      PositionIds(top[..|top| - 1], p)
        + (if last.0 == p && !Contains(p, "P") then Ids(Flatten(last.1)) else [])
  }

  /** The last leader of `ps` carrying `id`, if any. */
  function LastWith(ps: seq<PointLeader>, id: int): Option<PointLeader>
  {
    if |ps| == 0 then None
    else if ps[|ps| - 1].id == id then Some(ps[|ps| - 1])
    else LastWith(ps[..|ps| - 1], id)
  }

  /** `LastWith` finds a leader carrying `id` that no later leader with `id` follows,
      and finds none only when no leader carries `id`. */
  lemma {:induction false} LastWithMeans(ps: seq<PointLeader>, id: int)
    ensures LastWith(ps, id).None? <==> forall i :: 0 <= i < |ps| ==> ps[i].id != id
    ensures LastWith(ps, id).Some? ==> exists i ::
      && 0 <= i < |ps| && ps[i] == LastWith(ps, id).value && ps[i].id == id
      && (forall j :: i < j < |ps| ==> ps[j].id != id)
    decreases |ps|
  {
    if |ps| > 0 {
      var n := |ps| - 1;
      var front := ps[..n];
      if ps[n].id != id {
        LastWithMeans(front, id);
        assert forall i :: 0 <= i < n ==> ps[i] == front[i];
      }
    }
  }

  /** The last leader with an id in two runs is the second run's, else the first's. */
  lemma {:induction false} LastWithAppend(a: seq<PointLeader>, b: seq<PointLeader>)
    ensures forall id :: LastWith(a + b, id) == if LastWith(b, id).Some? then LastWith(b, id) else LastWith(a, id)
    decreases |b|
  {
    if |b| == 0 {
      assert a + b == a;
    } else {
      var n := |b| - 1;
      assert (a + b)[..|a + b| - 1] == a + b[..n];
      assert (a + b)[|a + b| - 1] == b[n];
      LastWithAppend(a, b[..n]);
    }
  }

  /** `ById` holds an id exactly when some leader carries it, and maps it to the last
      such leader. */
  lemma {:induction false} ByIdIsLast(ps: seq<PointLeader>)
    ensures forall id :: id in ById(ps) <==> LastWith(ps, id).Some?
    ensures forall id :: id in ById(ps) ==> ById(ps)[id] == LastWith(ps, id).value
    decreases |ps|
  {
    if |ps| > 0 {
      ByIdIsLast(ps[..|ps| - 1]);
    }
  }

  /** A position's ids are non-empty exactly when it has no "P" and some list for it
      holds a leader. */
  lemma {:induction false} PositionIdsNonEmpty(top: seq<(string, seq<Group<PointLeader>>)>, p: string)
    ensures |PositionIds(top, p)| > 0 <==>
      !Contains(p, "P") && exists i :: 0 <= i < |top| && top[i].0 == p && |Flatten(top[i].1)| > 0
    decreases |top|
  {
    if |top| > 0 {
      var n := |top| - 1;
      var front := top[..n];
      PositionIdsNonEmpty(front, p);
      assert forall i :: 0 <= i < n ==> front[i] == top[i];
      if exists i :: 0 <= i < |top| && top[i].0 == p && |Flatten(top[i].1)| > 0 {
        var i :| 0 <= i < |top| && top[i].0 == p && |Flatten(top[i].1)| > 0;
        if i < n {
          assert front[i].0 == p && |Flatten(front[i].1)| > 0;
        }
      }
    }
  }

  /** The candidate lists the constructor builds: a position has one exactly when it
      has no "P" and some list for it holds a leader, and its list is the ids of every
      list for it, in order. */
  lemma {:induction false} IndexTopLists(top: seq<(string, seq<Group<PointLeader>>)>)
    ensures forall p :: p in IndexTop(top).1 <==> !Contains(p, "P") && |PositionIds(top, p)| > 0
    ensures forall p :: p in IndexTop(top).1 ==> IndexTop(top).1[p] == PositionIds(top, p)
    decreases |top|
  {
    if |top| > 0 {
      var front := top[..|top| - 1];
      var position := top[|top| - 1].0;
      var players := Flatten(top[|top| - 1].1);
      IndexTopLists(front);
      if !Contains(position, "P") && |players| == 0 {
        assert Ids(players) == [];
      }
    }
  }

  /** The scorers the constructor records: an id is known exactly when some leader of a
      list without "P" carries it, and it maps to the last such leader in list order. */
  lemma {:induction false} IndexTopLeaders(top: seq<(string, seq<Group<PointLeader>>)>)
    ensures forall id :: id in IndexTop(top).0 <==> LastWith(TopLeaders(top), id).Some?
    ensures forall id :: id in IndexTop(top).0 ==> IndexTop(top).0[id] == LastWith(TopLeaders(top), id).value
    decreases |top|
  {
    if |top| > 0 {
      var front := top[..|top| - 1];
      var position := top[|top| - 1].0;
      var players := Flatten(top[|top| - 1].1);
      IndexTopLeaders(front);
      var before := IndexTop(front);
      var r := IndexTop(top);
      var all := TopLeaders(top);
      if Contains(position, "P") || |players| == 0 {
        assert r == before;
        assert all == TopLeaders(front) by {
          if !Contains(position, "P") {
            assert all == TopLeaders(front) + players && players == [];
          }
        }
      } else {
        assert r.0 == before.0 + ById(players);
        assert all == TopLeaders(front) + players;
        LastWithAppend(TopLeaders(front), players);
        ByIdIsLast(players);
        forall id
          ensures id in r.0 <==> LastWith(all, id).Some?
          ensures id in r.0 ==> r.0[id] == LastWith(all, id).value
        {
        }
      }
    }
  }

  /** The number of ids of `s` that are not in `others`. */
  function UniqueCount(s: seq<int>, others: set<int>): nat
  {
    if |s| == 0 then 0 else (if s[0] in others then 0 else 1) + UniqueCount(s[1..], others)
  }

  lemma {:induction false} UniqueCountAppend(a: seq<int>, b: seq<int>, others: set<int>)
    ensures UniqueCount(a + b, others) == UniqueCount(a, others) + UniqueCount(b, others)
  {
    if |a| > 0 {
      UniqueCountAppend(a[1..], b, others);
      assert (a + b)[1..] == a[1..] + b;
    } else {
      assert a + b == b;
    }
  }

  /** Flattening a prefix of groups: the first group, then the rest's prefix. */
  lemma FlattenPrefixStep<T>(gs: seq<Group<T>>, k: int)
    requires 0 < k <= |gs|
    ensures Flatten(gs[..k]) == gs[0].members + Flatten(gs[1..][..k - 1])
  {
    assert gs[..k][1..] == gs[1..][..k - 1];
    assert gs[..k][0] == gs[0];
  }

  /** The members of a prefix of the groups are a prefix of all members. */
  lemma {:induction false} FlattenPrefix<T>(gs: seq<Group<T>>, k: int)
    requires 0 <= k <= |gs|
    ensures |Flatten(gs[..k])| <= |Flatten(gs)|
    ensures Flatten(gs)[..|Flatten(gs[..k])|] == Flatten(gs[..k])
  {
    if k == 0 {
      assert gs[..0] == [];
    } else {
      FlattenPrefixStep(gs, k);
      FlattenPrefix(gs[1..], k - 1);
      var rest := Flatten(gs[1..][..k - 1]);
      assert Flatten(gs) == gs[0].members + Flatten(gs[1..]);
      assert (gs[0].members + Flatten(gs[1..]))[..|gs[0].members| + |rest|] == gs[0].members + rest;
    }
  }

  /** The scan over `groupby(scorers, points)` in `_reduce_search_space`: unique players
      are counted group by group, and the scan stops in the group where the count
      reaches `need`, answering how many groups are kept. */
  function CutRuns(gs: seq<Group<int>>, others: set<int>, need: int): (r: Option<nat>)
    requires need >= 1
    ensures r.Some? <==> UniqueCount(Flatten(gs), others) >= need
    ensures r.Some? ==> (1 <= r.value <= |gs|
      && UniqueCount(Flatten(gs[..r.value - 1]), others) < need
      && UniqueCount(Flatten(gs[..r.value]), others) >= need)
    decreases |gs|
  {
    if |gs| == 0 then None
    else
      var u := UniqueCount(gs[0].members, others);
      UniqueCountAppend(gs[0].members, Flatten(gs[1..]), others);
      if u >= need then
        FlattenPrefixStep(gs, 1);
        assert gs[..0] == [] && gs[1..][..0] == [];
        UniqueCountAppend(gs[0].members, [], others);
        assert gs[0].members + [] == gs[0].members;
        Some(1)
      else
        match CutRuns(gs[1..], others, need - u)
        case None => None
        case Some(k) =>
          FlattenPrefixStep(gs, k + 1);
          UniqueCountAppend(gs[0].members, Flatten(gs[1..][..k]), others);
          if k > 1 then
            FlattenPrefixStep(gs, k);
            UniqueCountAppend(gs[0].members, Flatten(gs[1..][..k - 1]), others);
            Some(k + 1)
          else
            assert gs[1..][..0] == [];
            FlattenPrefixStep(gs, 1);
            UniqueCountAppend(gs[0].members, [], others);
            assert gs[0].members + [] == gs[0].members;
            Some(k + 1)
  }

  /** Keeping the first `k` groups reaches `count` unique players, and keeping one
      group fewer would not. */
  predicate CutAt(gs: seq<Group<int>>, others: set<int>, count: int, k: int)
  {
    1 <= k <= |gs| && UniqueCount(Flatten(gs[..k - 1]), others) < count <= UniqueCount(Flatten(gs[..k]), others)
  }

  /** One position's cut in a reduction pass: if the count of its players found at no
      other position reaches its slot count, the list ends with the point group holding
      the player that reached it; otherwise it stays as it is. Either way the result
      is a prefix. */
  function Truncate(scorers: seq<int>, others: set<int>, count: int, value: int -> real): (r: seq<int>)
    requires count >= 1
    ensures |r| <= |scorers| && r == scorers[..|r|]
    ensures UniqueCount(scorers, others) < count ==> r == scorers
    ensures UniqueCount(scorers, others) >= count ==>
      exists k :: CutAt(GroupRuns(scorers, value), others, count, k) && r == Flatten(GroupRuns(scorers, value)[..k])
  {
    var gs := GroupRuns(scorers, value);
    assert Flatten(gs) == scorers;
    match CutRuns(gs, others, count)
    case None => scorers
    case Some(k) =>
      FlattenPrefix(gs, k);
      assert CutAt(gs, others, count, k);
      Flatten(gs[..k])
  }

  /** The ids every other position lists. */
  function Others(d: PositionDict, position: string): set<int>
  {
    set q, i | q in d && q != position && 0 <= i < |d[q]| :: d[q][i]
  }

  /** Every all-star position has at least one slot. */
  lemma SlotCountsPositive()
    ensures forall p :: p in AllStarPositions ==> AllStarPositions[p] >= 1
  {
  }

  /** What a pass makes of one position: positions with "P" in their name are left
      alone, every other one is cut against the lists as they were before the pass. */
  function Cut(d: PositionDict, p: string, value: int -> real): (r: seq<int>)
    requires p in d && d.Keys <= AllStarPositions.Keys
    ensures |r| <= |d[p]| && r == d[p][..|r|]
  {
    SlotCountsPositive();
    if Contains(p, "P") then d[p] else Truncate(d[p], Others(d, p), AllStarPositions[p], value)
  }

  /** One pass of `_reduce_search_space`. */
  function ReducePass(d: PositionDict, value: int -> real): (r: PositionDict)
    requires d.Keys <= AllStarPositions.Keys
    ensures r.Keys == d.Keys
    ensures forall p :: p in d ==> |r[p]| <= |d[p]| && r[p] == d[p][..|r[p]|]
  {
    map p | p in d :: Cut(d, p, value)
  }

  /** A pass cuts a position exactly when its players found nowhere else reach its slot
      count, and then keeps whole point groups up to the one that reaches it. */
  lemma ReducePassCuts(d: PositionDict, value: int -> real, p: string)
    requires d.Keys <= AllStarPositions.Keys && p in d && !Contains(p, "P")
    ensures UniqueCount(d[p], Others(d, p)) < AllStarPositions[p] ==> ReducePass(d, value)[p] == d[p]
    ensures UniqueCount(d[p], Others(d, p)) >= AllStarPositions[p] ==>
      exists k :: CutAt(GroupRuns(d[p], value), Others(d, p), AllStarPositions[p], k)
        && ReducePass(d, value)[p] == Flatten(GroupRuns(d[p], value)[..k])
  {
    SlotCountsPositive();
    assert ReducePass(d, value)[p] == Cut(d, p, value);
  }

  /** The total length of the candidate lists. */
  function Size(d: PositionDict): nat
  {
    SizeOver(PositionOrder, d)
  }

  function SizeOver(ps: seq<string>, d: PositionDict): nat
  {
    if |ps| == 0 then 0 else (if ps[0] in d then |d[ps[0]]| else 0) + SizeOver(ps[1..], d)
  }

  /** Shortening lists never grows the size, and shortening one that is counted shrinks it. */
  lemma {:induction false} SizeOverShrinks(ps: seq<string>, d: PositionDict, n: PositionDict, shorter: string)
    requires n.Keys == d.Keys && forall p :: p in d ==> |n[p]| <= |d[p]|
    ensures SizeOver(ps, n) <= SizeOver(ps, d)
    ensures shorter in ps && shorter in d && |n[shorter]| < |d[shorter]| ==> SizeOver(ps, n) < SizeOver(ps, d)
  {
    if |ps| > 0 {
      SizeOverShrinks(ps[1..], d, n, shorter);
      if shorter in ps && ps[0] != shorter {
        assert shorter in ps[1..];
      }
    }
  }

  /** `_reduce_search_space`: passes repeat while one changes something. Each changing
      pass shortens some list, so this ends; the result keeps every position, each list
      a prefix of its original, and a further pass would change nothing. */
  function ReduceSearchSpace(d: PositionDict, value: int -> real): (r: PositionDict)
    requires d.Keys <= AllStarPositions.Keys
    ensures r.Keys == d.Keys
    ensures forall p :: p in d ==> |r[p]| <= |d[p]| && r[p] == d[p][..|r[p]|]
    ensures ReducePass(r, value) == r
    decreases Size(d)
  {
    var n := ReducePass(d, value);
    if n == d then d
    else
      PassShrinks(d, value);
      var r := ReduceSearchSpace(n, value);
      PrefixOfPrefix(d, n, r);
      r
  }

  /** A pass that changes something shortens the candidate lists. */
  lemma PassShrinks(d: PositionDict, value: int -> real)
    requires d.Keys <= AllStarPositions.Keys
    requires ReducePass(d, value) != d
    ensures Size(ReducePass(d, value)) < Size(d)
  {
    var n := ReducePass(d, value);
    var shorter :| shorter in d && n[shorter] != d[shorter];
    SlotPositionsExpand();
    assert shorter in PositionOrder;
    SizeOverShrinks(PositionOrder, d, n, shorter);
  }

  /** A prefix of a prefix is a prefix. */
  lemma PrefixOfPrefix(d: PositionDict, n: PositionDict, r: PositionDict)
    requires n.Keys == d.Keys && r.Keys == n.Keys
    requires forall p :: p in d ==> |n[p]| <= |d[p]| && n[p] == d[p][..|n[p]|]
    requires forall p :: p in n ==> |r[p]| <= |n[p]| && r[p] == n[p][..|r[p]|]
    ensures forall p :: p in d ==> |r[p]| <= |d[p]| && r[p] == d[p][..|r[p]|]
  {
  }

  /** The candidate list behind each slot, `_optimize`'s `players`: a position without
      an entry has none. */
  function SlotLists(d: PositionDict): (options: seq<seq<int>>)
    ensures |options| == |SlotPositions|
    ensures forall s :: 0 <= s < |options| && SlotPositions[s] in d ==> options[s] == d[SlotPositions[s]]
    ensures forall s :: 0 <= s < |options| && SlotPositions[s] !in d ==> options[s] == []
  {
    seq(|SlotPositions|, s requires 0 <= s < |SlotPositions| =>
      if SlotPositions[s] in d then d[SlotPositions[s]] else [])
  }

  /** `sets` holds the member set of each kept lineup, in order. */
  ghost predicate SetsOf(sets: seq<set<int>>, lineups: seq<seq<int>>)
  {
    |sets| == |lineups| && forall k :: 0 <= k < |sets| ==> sets[k] == Members(lineups[k])
  }

  /** Keeping one more lineup records its member set after the others. */
  lemma SetsOfAppend(sets: seq<set<int>>, lineups: seq<seq<int>>, lineup: seq<int>)
    requires SetsOf(sets, lineups)
    ensures SetsOf(sets + [Members(lineup)], lineups + [lineup])
  {
    var s', l' := sets + [Members(lineup)], lineups + [lineup];
    forall k | 0 <= k < |s'|
      ensures s'[k] == Members(l'[k])
    {
      if k < |sets| {
        assert s'[k] == sets[k] && l'[k] == lineups[k];
      }
    }
  }

  /** A recorded set is that of some kept lineup. */
  lemma SetsOfFind(sets: seq<set<int>>, lineups: seq<seq<int>>, m: set<int>) returns (k: int)
    requires SetsOf(sets, lineups) && m in sets
    ensures 0 <= k < |lineups| && Members(lineups[k]) == m
  {
    k :| 0 <= k < |sets| && sets[k] == m;
  }

  /** `_optimal_lineups`: walk the product of the slot lists, skip lineups repeating an
      id, replace everything on a strictly higher total, and append on an equal total
      unless the same set is already kept; the running best starts at zero. What is
      returned is `Optimal`. */
  method OptimalLineups(players: seq<seq<int>>, value: int -> real) returns (lineups: seq<seq<int>>)
    ensures Optimal(lineups, players, value)
  {
    var ps := Product(players);
    var points := 0.0;
    lineups := [];
    var sets: seq<set<int>> := [];
    for n := 0 to |ps|
      invariant ScanInvariant(ps, n, lineups, points, value)
      invariant SetsOf(sets, lineups)
    {
      var lineup := ps[n];
      var asSet := Members(lineup);
      MembersCount(lineup);
      if |lineup| != |asSet| {
        ScanSkipRepeat(ps, n, lineups, points, value);
        continue;
      }
      var total := Total(lineup, value);
      if total > points {
        ScanReplace(ps, n, lineups, points, value);
        points := total;
        lineups := [lineup];
        sets := [asSet];
      } else if total == points && asSet !in sets {
        ScanAppendTie(ps, n, lineups, points, value);
        SetsOfAppend(sets, lineups, lineup);
        lineups := lineups + [lineup];
        sets := sets + [asSet];
      } else if total == points {
        var k := SetsOfFind(sets, lineups, asSet);
        ScanSkipKept(ps, n, lineups, points, value, k);
      } else {
        ScanSkipLower(ps, n, lineups, points, value);
      }
    }
    ScanIsOptimal(players, lineups, points, value);
  }

  /** The points of a recorded id. */
  function Points(scorers: map<int, PointLeader>): int -> real
  {
    (id: int) => if id in scorers then scorers[id].points else 0.0
  }

  /** `AllStarFormatter.markdown`: index the top lists, reduce the candidates to a fixed
      point, and write one "All Stars" section per co-optimal lineup, a bullet per slot
      naming its position. The lineups are `Optimal` over the reduced candidate lists,
      and each reduced list is a prefix of the list the top lists gave. */
  method AllStarMarkdown(top: seq<(string, seq<Group<PointLeader>>)>, describe: int -> string)
    returns (lineups: seq<seq<int>>, sections: seq<string>)
    requires forall i :: 0 <= i < |top| ==> Contains(top[i].0, "P") || top[i].0 in AllStarPositions
    ensures var index := IndexTop(top);
      var reduced := ReduceSearchSpace(index.1, Points(index.0));
      && Optimal(lineups, SlotLists(reduced), Points(index.0))
      && (forall p :: p in index.1 ==> reduced[p] == index.1[p][..|reduced[p]|])
    ensures |sections| == |lineups|
    ensures forall k :: 0 <= k < |lineups| ==>
      sections[k] == MarkdownForSection("All Stars", LineupLines(lineups[k], describe))
  {
    var index := IndexTop(top);
    IndexTopPositions(top);
    var value := Points(index.0);
    var reduced := ReduceSearchSpace(index.1, value);
    lineups := OptimalLineups(SlotLists(reduced), value);
    forall k | 0 <= k < |lineups|
      ensures |lineups[k]| == |SlotPositions|
    {
      assert InProduct(lineups[k], SlotLists(reduced));
    }
    sections := AllStarSections(lineups, describe);
  }

  /** Every list indexed from top lists whose positions are pitching or all-star
      positions is under an all-star position. */
  lemma IndexTopPositions(top: seq<(string, seq<Group<PointLeader>>)>)
    requires forall i :: 0 <= i < |top| ==> Contains(top[i].0, "P") || top[i].0 in AllStarPositions
    ensures IndexTop(top).1.Keys <= AllStarPositions.Keys
  {
  }

  /** The loop of `AllStarFormatter.markdown` over the lineups: one "All Stars" section
      per lineup, in order. */
  method AllStarSections(lineups: seq<seq<int>>, describe: int -> string) returns (sections: seq<string>)
    requires forall k :: 0 <= k < |lineups| ==> |lineups[k]| == |SlotPositions|
    ensures |sections| == |lineups|
    ensures forall k :: 0 <= k < |lineups| ==>
      sections[k] == MarkdownForSection("All Stars", LineupLines(lineups[k], describe))
  {
    sections := [];
    for k := 0 to |lineups|
      invariant |sections| == k
      invariant forall j :: 0 <= j < k ==> sections[j] == MarkdownForSection("All Stars", LineupLines(lineups[j], describe))
    {
      sections := sections + [MarkdownForSection("All Stars", LineupLines(lineups[k], describe))];
    }
  }
}
