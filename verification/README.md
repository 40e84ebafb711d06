# Fantasy-baseball weekly summary: ranking, matchup and lineup rules

This project models the rules behind a fantasy-baseball league's weekly summary. The
repository holds three generations of the code side by side. Each generation is modelled
on its own terms and they are not unified:

- the current script, `src/main.py`;
- the older `summary/` package;
- the oldest `rd2weekly/` package.

What the model covers:

- Tie-aware superlatives. The best or worst N point groups are kept and a tie is never
  split. Tied members are labelled with their rank ("tied for 2nd").
- Bounded leader lists. These are read from a stats page, with the pitcher start filter
  and with ties past the bound kept.
- Team totals and matchups. This covers win/loss/tie bookkeeping and the canonical
  order of a matchup's two teams.
- The extremal matchup selections of the oldest package: blowout, closest, strongest
  loss and weakest win, each returning every tied matchup.
- The two all-star lineup optimisers:
  - the current one fills candidate pools and enumerates their product;
  - the older one reduces each position's list to a fixed point before enumerating.
  Both return every co-optimal, repeat-free lineup, one per member set.
- The three-tier `BestTrio` of the oldest package.
- The unused simplex tableau builder and pivot of the older package.

Modelling conventions:

- Points are `real`. Python float sums are taken as exact.
- How a float is printed is a function parameter (`render`, `describe`).
- Python exceptions become `Outcomes.Result.Raise` with the exception's class.
- Mutable objects become immutable datatypes, and methods become state-to-state
  functions.
- Where the source iterates a Python `set`, the order is a sequence chosen by the
  model (`WeeklyAllStars.SetToSeq`). No stated property depends on that order.
- Stats-page rows are records holding the name, id, points, games and games started.

Files:

| file | module | covers |
|---|---|---|
| outcomes.dfy | Outcomes | `Result`, `Option`, the exception classes |
| text.dfy | Text | decimal strings, joining, digit parsing |
| grouping.dfy | Grouping | stable sort, `groupby` runs, tie-preserving cuts |
| lineups.dfy | Lineups | `itertools.product`, lineup totals, the optimality of an enumerated maximum |
| weekly_teams.dfy | WeeklyTeams | `Team`, `Matchup` of src/main.py |
| weekly_ranking.dfy | WeeklyRanking | `ranked_scorers`, `top_scorers`, `rank_string`, `points_string`, `markdown_section` |
| weekly_leaders.dfy | WeeklyLeaders | `PointLeaders.add`, `point_leaders` |
| weekly_all_stars.dfy | WeeklyAllStars | `all_star_lineup` |
| summary_scoring.dfy | SummaryScoring | summary/scoring.py |
| summary_leaders.dfy | SummaryLeaders | summary/point_leaders.py |
| summary_sections.dfy | SummarySections | which groups a three-bullet section shows, and its loop for any tie label |
| summary_section_lemmas.dfy | SummarySectionLemmas | the section loop writes the reference ranked lines |
| summary_format.dfy | SummaryFormat | tie labels, three-bullet sections, team sorting, matchup dedup, division records |
| summary_all_stars.dfy | SummaryAllStars | `AllStarFormatter` |
| summary_simplex.dfy | SummarySimplex | summary/all_star_simplex.py |
| rd2_scoring.dfy | Rd2Scoring | `TeamPoints`, `WinLossTie`, `Team`, player membership |
| rd2_trio.dfy | Rd2Trio | `BestTrio` |
| rd2_matchups.dfy | Rd2Matchups | `matchupSummary` |
| rd2_markdown.dfy | Rd2Markdown | `markdownFormatter` |

## Model

| member | source | states |
|---|---|---|
| WeeklyTeams.Add | src/main.py:115-120 | The player is recorded. Hitting grows by its active points exactly when it batted actively, and pitching exactly when it pitched actively. The name and results stay. |
| WeeklyTeams.AddAllPoints | src/main.py:107-120 | After adding a roster, the total is the starting total plus each player's active points, counted once per active role. The total is always hitting plus pitching. |
| WeeklyTeams.TeamLessOrder | src/main.py:122-123 | On (points, name) keys, `<` on teams is irreflexive and asymmetric. Any two teams whose keys differ are ordered one way or the other. |
| WeeklyTeams.NewMatchup | src/main.py:166-173 | The constructed matchup holds the two given teams with team1 not below team2 in (points, name) order. The differential is never negative. |
| WeeklyTeams.MatchupIsCanonical | src/main.py:166-169 | For two teams that differ in name or points, constructing from (a, b) and from (b, a) gives the same team1 and team2. |
| WeeklyTeams.WithMode | src/main.py:175-181 | The luckiest view pairs the winner with itself and the unluckiest view pairs the loser with itself. Any other mode keeps the pair. The teams map is kept and the mode is set. |
| WeeklyRanking.RankString | src/main.py:636-648 | A rank below 1 raises ValueError. Otherwise the result is the decimal rank followed by "th" when the tens digit is 1 (rank over 10), else "st", "nd" or "rd" for a last digit of 1, 2 or 3, else "th". |
| WeeklyRanking.PointsString | src/main.py:651-652 | The rendered value comes first. What follows it is " point" exactly when the value is 1, and " points" otherwise, so the text is 6 or 7 characters longer than the value. |
| WeeklyRanking.MarkdownSection | src/main.py:550-556 | Empty exactly when there are no lines. Otherwise "### header" followed by each line, each after a newline plus "* " for bullets or a bare newline for tables. |
| WeeklyRanking.RankedScorers | src/main.py:585-597 | At most `num_scorers` groups. Each group has one key, and the keys strictly decrease (descending) or increase. Each kept group holds every scorer with its key, so no tie is split. A scorer is left out only when `num_scorers` groups all rank ahead of it. |
| WeeklyRanking.TopScorerLinesAreRanked | src/main.py:568-582 | The loop never raises, and its lines are the reference ranked lines. The rank `index + adjustment` is 1 plus the number of scorers in earlier groups. |
| WeeklyRanking.TieLabelRanked | src/main.py:576-578 | A member of a tied group at a positive rank gets " (tied for <rank string>)", and a lone member gets no label. Neither raises. |
| WeeklyRanking.TopScorers | src/main.py:562-582 | Never raises. One line per member of the kept groups, in rank order. A member of a tied group is labelled "tied for" rank 1 plus the number of scorers in earlier groups. |
| WeeklyLeaders.AddLeader | src/main.py:141-151 | Always accepted while fewer than `max_scorers` are held. After that, accepted exactly when the points are at least (descending) or at most (ascending) the last held player's. The list only grows by appending the player. |
| WeeklyLeaders.Eligible | src/main.py:525-543 | A player is among those read exactly when some row the pitcher filter keeps carries its name, id and points. No player is lost exactly when no row is skipped. |
| WeeklyLeaders.PitcherEligibility | src/main.py:526-540 | For a pitching position, a row is skipped when the player did not appear. SP needs a start, 2SP at least two, 1SP exactly one, and RP none. Other positions skip nothing. |
| WeeklyLeaders.CollectCut | src/main.py:523-547 | From a state whose players past the bound keep the tie rule, the loop ends holding a prefix of the held players followed by the eligible players of the remaining rows. That prefix holds all of them or at least the bound. Past the bound, each kept player is level with or better than the one before, and the first one left out is strictly worse than the last kept. |
| WeeklyLeaders.PointLeadersOf | src/main.py:520-547 | The list keeps its position, bound and direction. Its players are a prefix of the eligible players, walked best first or from the bottom, holding all of them or at least `max_scorers`. Each player kept past the bound is level with or better than the one before. The first one left out is strictly worse than the last kept. |
| WeeklyLeaders.PointLeadersKeepTies | src/main.py:520-547 | On a ranked page, an eligible player is kept exactly when it is among the first `max_scorers` or level with the `max_scorers`-th. |
| WeeklyAllStars.SlotPositionsExpand | src/main.py:721-725 | The slot list names exactly the lineup positions, each as many times as its slot count. |
| WeeklyAllStars.AddScorer | src/main.py:665-668 | Filing one leader records it under its id and adds the position to that id's positions. Other ids keep their positions, and the lookups stay consistent. |
| WeeklyAllStars.AddLeaders | src/main.py:661-668 | Every player of a lineup-position list is filed under that position. Earlier filings are kept, and the lookups stay consistent. |
| WeeklyAllStars.AddLeadersFilings | src/main.py:661-668 | The loop makes exactly the filings of the lineup-position lists, list after list, skipping the other lists. |
| WeeklyAllStars.AddFilingsLast | src/main.py:665-668 | After a run of filings, an id is known exactly when it was known or filed. Its player is the last one filed under it, or else the one it had. Its positions gain exactly those it was filed under. |
| WeeklyAllStars.LastFiledMeans | src/main.py:666 | The last filing under an id is one that no later filing under that id follows. None is found only when no filing is under that id. |
| WeeklyAllStars.FilingsLead | src/main.py:661-668 | An id is filed under a position exactly when that position is a lineup position and some list for it holds the id. |
| WeeklyAllStars.IndexLeaders | src/main.py:656-668 | The lookups are consistent. An id is indexed exactly when some lineup-position list holds it, and its player is the last one filed under it. Its positions are exactly the lineup positions whose lists hold it. |
| WeeklyAllStars.AddNewScorers | src/main.py:670-680 | Candidate lists keep their positions, and each old list is a prefix of the new one. |
| WeeklyAllStars.AddNewScorersAppends | src/main.py:670-680 | A position's list gains exactly the not-yet-picked ids of the base that are in the best `number` point groups and lead at that position, in rank order. |
| WeeklyAllStars.AddNewScorersOk | src/main.py:670-680 | After the step, no list repeats an id, every listed id leads at its position, and an id picked anywhere is on every list of its positions. |
| WeeklyAllStars.CandidateEverywhere | src/main.py:678-680 | An id appended anywhere is appended to the list of every position it leads at. |
| WeeklyAllStars.FillStepProgresses | src/main.py:689-694 | A fill step whose base has an unpicked id picks at least one new id. |
| WeeklyAllStars.NoFreshIsShort | src/main.py:684-694 | When no leader of a lacking position is unpicked, some position has fewer leaders than slots. |
| WeeklyAllStars.FillCandidates | src/main.py:682-694 | The fill loop fails to end exactly when some position has fewer leaders than slots. Otherwise every list reaches its slot count and the lists stay well kept. |
| WeeklyAllStars.BestLineups | src/main.py:702-719 | The lineups returned take one candidate per slot with no id twice. They share one non-negative total that no repeat-free choice beats, and have pairwise different member sets. Every best member set is present. |
| WeeklyAllStars.SlotOptions | src/main.py:697-701 | Slot s offers the candidate list of the position slot s is for. |
| WeeklyAllStars.LineupLines | src/main.py:727-731 | Line s of a lineup is slot s's position, ": ", and the description of the player the lineup puts in slot s. |
| WeeklyAllStars.AllLinesDescribe | src/main.py:727-731 | In the lines of all lineups, line i * 10 + s is slot s's position, ": ", and the description of lineup i's player in slot s. |
| WeeklyAllStars.AllStarLineup | src/main.py:655-731 | The whole routine diverges exactly when some position has fewer leaders than slots. Otherwise it returns full, well-kept candidate lists and optimal lineups over them. Line i * 10 + s names slot s's position and describes lineup i's player in that slot. |
| Lineups.ProductMembers | src/main.py:705 | The enumeration of `product(*options)` yields exactly the lineups that take one entry from each slot's list. |
| Lineups.MembersCount | src/main.py:706-707 | A lineup's member set has as many elements as the lineup exactly when no id repeats. |
| Lineups.SameMembersSameTotal | src/main.py:708-712 | Two repeat-free lineups with the same member set have the same total, so skipping a seen set loses nothing. |
| Lineups.ScanIsOptimal | src/main.py:702-719 | A completed scan of the whole enumeration yields optimal lineups. |
| Lineups.ScanReplace | src/main.py:717-719 | A lineup beating the best so far replaces every kept lineup, and the scan's facts hold after it. |
| Lineups.ScanAppendTie | src/main.py:715-716 | A new member set scoring exactly the best so far is appended, and the scan's facts hold after it. |
| Lineups.ScanSkipLower | src/main.py:713-714 | A lineup scoring below the best so far changes nothing. |
| Lineups.ScanSkipSeen | src/main.py:708-709 | A lineup whose member set was seen before changes nothing. |
| SummaryScoring.UpdateRecords | summary/scoring.py:21-30 | The higher total records a win over the other team's name and the lower records a loss to the winner's. Equal totals record a tie on both. Each team gains exactly one result, and nothing else changes. |
| SummaryScoring.RecordsSymmetric | summary/scoring.py:21-30 | Swapping home and away swaps the results. Away beat home exactly when home lost to away, and likewise for ties. |
| SummaryScoring.BlankNames | summary/scoring.py:33-34 | A team name is blank exactly when it is "TBA", "BYE" or "FA". |
| SummaryScoring.TeamEqualityHash | summary/scoring.py:37-48 | Equality is an equivalence on (name, division). Equal teams hash alike, and a team stays equal to itself after its record is updated. |
| SummaryLeaders.ReadRow | summary/point_leaders.py:116-138 | A row is rejected exactly by the pitcher filter. Otherwise the leader keeps the row's name, id and points, with the team looked up by id or "FA". |
| SummaryLeaders.StartFilter | summary/point_leaders.py:117-131 | No appearance rejects a pitcher. SP needs a start, 2SP at least two, 1SP exactly one, and RP none. Positions without "P" accept every row. |
| SummaryLeaders.GatherCut | summary/point_leaders.py:98-108 | The loop keeps a tie-preserving cut of the readable rows: at least `num_scorers` when available, then every row up to the first one `should_exclude` rejects against the last kept score. |
| SummaryLeaders.ScorersByPosition | summary/point_leaders.py:93-114 | The groups flatten to that cut. Each is a run of one score, and adjacent runs differ. |
| SummaryLeaders.ScorersByPositionRanked | summary/point_leaders.py:104-114 | On a ranked page, the groups' scores strictly decrease (top) or increase (worst). Every readable row tying the last kept score is kept. |
| SummaryLeaders.LoadTopScorers | summary/point_leaders.py:78-91 | One top list per position the page yields: 1SP, 2SP and RP for "SP:RP", else the page's own position. Each list is a tie-preserving cut of the rows readable for its position, top down, in runs of one score with adjacent runs differing. |
| SummaryLeaders.LoadWorstScorers | summary/point_leaders.py:140-154 | One worst list per position the page yields: SP and RP for "SP:RP". Each list is the tie-preserving cut, worst first, of the reversed readable rows, in runs of one score with adjacent runs differing. |
| SummaryLeaders.LoadAllByPlan | summary/point_leaders.py:59-76 | Running the settings in order, each updating the maps with its page's lists, leaves a list for exactly the planned positions. Each list comes from the last setting whose page yields that position. |
| SummaryLeaders.ParsePointsLeaders | summary/point_leaders.py:18-76 | The top and worst maps have exactly the positions the settings plan. Each list is read from the page of the last setting that yields its position, with that setting's count. |
| SummaryLeaders.SettingsSplit | summary/point_leaders.py:19-25 | Each hitting position gets a top list of ten from its own page and no worst list. 1SP, 2SP and RP get top lists of three, and SP and RP get worst lists of three, from the "SP:RP" page. |
| SummaryLeaders.ParsedWorst | summary/point_leaders.py:140-154 | With the real settings, the only worst lists are SP and RP, read bottom up from the combined pitching page. |
| SummaryFormat.TiedAtRankString | summary/markdown_formatter.py:32-42 | Every rank other than 1, 2 and 3 gets the "th" form "(tied for nth)", including 21, 22 and ranks below 1. |
| SummaryFormat.TiedAtRankAgrees | summary/markdown_formatter.py:32-42 | For ranks 1 to 20 the label, after a space, is the current script's tie label for the same rank: 1st, 2nd, 3rd spelled out and "th" from 4 to 20. |
| SummaryFormat.MarkdownForSection | summary/markdown_formatter.py:45-53 | "### header" followed by each bullet after "\n\n  * ". With no bullets, one empty bullet. |
| SummarySections.BulletCut | summary/markdown_formatter.py:97-109 | The cut keeps whole groups and ends right after the first group that brings the count to at least the bound, or keeps everything. |
| SummaryFormat.SectionBullets | summary/markdown_formatter.py:93-111 | The bullets are the ranked lines of the groups up to that cut. Tied members are labelled with rank 1 plus the number of earlier bullets. |
| SummarySectionLemmas.SectionRanksAtMostThree | summary/markdown_formatter.py:97-109 | Every shown group starts at rank 1 to 3. |
| SummaryFormat.SortScorers | summary/markdown_formatter.py:128-149 | The groups are runs of one key (hitting, pitching or total by section). Their keys strictly decrease for the three top sections and increase otherwise. Each holds every team with its key, and every team's key is present. |
| SummaryFormat.Dedup | summary/markdown_formatter.py:491-496 | No kept entry is the mirror of another. Every kept entry is an input entry, and every input entry is kept or has its mirror kept. |
| SummaryFormat.RecordRoundTrip | summary/markdown_formatter.py:595-598 | The record column "W-L" or "W-L-T" reads back as the counts it was made from. |
| SummaryFormat.DivisionTeams | summary/markdown_formatter.py:585-588 | The league row uses every team. A division's row uses exactly the teams of that division. |
| SummaryFormat.DivisionRecordCounts | summary/markdown_formatter.py:589-599 | The league's record column is empty. A division's column reads back as its teams' summed wins, losses and ties. |
| SummaryAllStars.IndexTop | summary/markdown_formatter.py:232-239 | Only positions without "P" that appear among the top lists get a list, and each list is non-empty. Every listed id has a recorded leader. |
| SummaryAllStars.IndexTopLists | summary/markdown_formatter.py:232-239 | A position has a candidate list exactly when it has no "P" and its ids are non-empty. The list is the ids of every top list for that position, concatenated in order. |
| SummaryAllStars.PositionIdsNonEmpty | summary/markdown_formatter.py:232-239 | A position's ids are non-empty exactly when it has no "P" and some top list for it holds a leader. |
| SummaryAllStars.IndexTopLeaders | summary/markdown_formatter.py:236-238 | An id is recorded exactly when some leader of a list without "P" carries it. It maps to the last such leader in list order. |
| SummaryAllStars.LastWithMeans | summary/markdown_formatter.py:238 | The last leader with an id is one that no later leader with that id follows. None is found only when no leader carries the id. |
| SummaryAllStars.ByIdIsLast | summary/markdown_formatter.py:236-238 | Recording leaders by id, later over earlier, keeps exactly the ids that occur, each mapped to its last leader. |
| SummaryAllStars.CutRuns | summary/markdown_formatter.py:276-296 | The scan finds a cut exactly when the position's players found nowhere else reach the slot count. The cut is the first group at which they do. |
| SummaryAllStars.Truncate | summary/markdown_formatter.py:276-307 | The new list is a prefix. It is unchanged when too few unique players exist. Otherwise it ends with the point group in which the unique count reaches the slot count. |
| SummaryAllStars.ReducePassCuts | summary/markdown_formatter.py:263-307 | For a position without "P", a pass leaves the list as it is when its players absent from every other position fall short of the slot count. Otherwise it keeps whole point groups up to the one in which that count reaches the slot count. |
| SummaryAllStars.ReducePass | summary/markdown_formatter.py:263-307 | A pass keeps the positions, and each new list is a prefix of the old. |
| SummaryAllStars.PassShrinks | summary/markdown_formatter.py:308-310 | A pass that changes something shortens the total length of the lists, which bounds the recursion. |
| SummaryAllStars.ReduceSearchSpace | summary/markdown_formatter.py:263-310 | The reduction keeps the positions, and each list is a prefix of the original. The result is a fixed point of a pass. |
| SummaryAllStars.SlotLists | summary/markdown_formatter.py:321-325 | Slot s offers the list the position dictionary holds for slot s's position, and an empty list when it holds none. |
| SummaryAllStars.OptimalLineups | summary/markdown_formatter.py:331-355 | The lineups share a non-negative total that no repeat-free choice beats. They are repeat-free, have pairwise different member sets, and every best member set is present. |
| SummaryAllStars.AllStarMarkdown | summary/markdown_formatter.py:312-329 | The lineups are optimal over the slot lists of the reduced candidates, and each reduced list is a prefix of the indexed one. There is one "All Stars" section per lineup, holding its slot lines. |
| SummarySimplex.AddConstraint | summary/all_star_simplex.py:37-51 | A constraint of the wrong length raises AssertionError. Otherwise every old row gains a trailing zero, and the new row is the constraint, zeros and a one. The value is recorded and the slack count grows by one. |
| SummarySimplex.AddConstraintShaped | summary/all_star_simplex.py:43-51 | Adding a constraint keeps every row at length variables plus slack, with the slack block the identity. |
| SummarySimplex.AddAllLayout | summary/all_star_simplex.py:37-51 | After k constraints, every row has length variables plus k and the slack block is the identity. Row i is constraint i followed by that block. Any constraint of the wrong length raises AssertionError. |
| SummarySimplex.BuildLayout | summary/all_star_simplex.py:53-62 | The tableau is rectangular. Each constraint row is its stored row plus its value, and the objective row is the coefficients followed by k+1 zeros. |
| SummarySimplex.CanImprove | summary/all_star_simplex.py:77-78 | True exactly when some objective-row entry other than the last is negative. |
| SummarySimplex.BuiltCanImprove | summary/all_star_simplex.py:53-78 | A freshly built tableau can improve exactly when some objective coefficient is negative. |
| SummarySimplex.PivotAsWritten | summary/all_star_simplex.py:109-128 | A zero pivot cell raises ZeroDivisionError. Otherwise the pivot row is divided by the cell, making it 1, and every other row becomes its own values minus themselves times its pivot-column entry. The shape is kept. |
| SummarySimplex.AsWrittenCounterexample | summary/all_star_simplex.py:117-128 | Pivoting [[1,1],[2,1]] at (0,0) as written gives [[1,1],[-2,-1]], leaving -2 in the pivot column. The corrected pivot gives [[1,1],[0,-1]]. |
| SummarySimplex.Pivot | summary/all_star_simplex.py:109-128 | With the pivot row used for elimination: the pivot row is scaled to 1 at the cell, and every other row subtracts its pivot-column entry times the scaled pivot row. |
| SummarySimplex.PivotClearsColumn | summary/all_star_simplex.py:109-128 | After the corrected pivot the pivot column is the unit vector of the pivot row. |
| Rd2Scoring.NewTeamPoints | rd2weekly/src/scoring/teamPoints.py:5-6 | A new record keeps its name with zero hitting, zero pitching and a zero total. |
| Rd2Scoring.AddHittingPoints | rd2weekly/src/scoring/teamPoints.py:24-25 | Hitting grows by the argument, and so does the total; pitching and the name stay. |
| Rd2Scoring.AsWrittenPitchingLandsInHitting | rd2weekly/src/scoring/teamPoints.py:27-28 | As written, adding pitching points is the same as adding hitting points. Pitching never moves: a new record plus 5 gives hitting 5, pitching 0. |
| Rd2Scoring.AddPitchingPoints | rd2weekly/src/scoring/teamPoints.py:27-28 | Pitching grows by the argument, and so does the total; hitting and the name stay. |
| Rd2Scoring.AddsKeepSplit | rd2weekly/src/scoring/teamPoints.py:20-28 | With the corrected pitching add, the two additions commute and each lands in its own total. |
| Rd2Scoring.NewWinLossTie | rd2weekly/src/scoring/winLossTie.py:5-6 | A new record has three empty lists. |
| Rd2Scoring.AddWin | rd2weekly/src/scoring/winLossTie.py:20-21 | The name is appended to the wins, and losses and ties stay. The record holds exactly one more result. |
| Rd2Scoring.AddLoss | rd2weekly/src/scoring/winLossTie.py:23-24 | The name is appended to the losses, and wins and ties stay. The record holds exactly one more result. |
| Rd2Scoring.AddTie | rd2weekly/src/scoring/winLossTie.py:26-27 | The name is appended to the ties, and wins and losses stay. The record holds exactly one more result. |
| Rd2Scoring.AddsCommute | rd2weekly/src/scoring/winLossTie.py:20-27 | Additions to different lists commute: the order in which two results arrive does not change the record. |
| Rd2Scoring.NewTeam | rd2weekly/src/scoring/team.py:5-11 | A new team has the name, fresh totals under that name, an empty record, no players and no point mode. |
| Rd2Scoring.Points | rd2weekly/src/scoring/team.py:17-26 | The modes "total", "hitting" and "pitching" give the total, hitting or pitching number. Any other mode gives the totals record. |
| Rd2Scoring.PointModesAdd | rd2weekly/src/scoring/team.py:17-26 | The total mode reads the sum of the hitting and pitching modes. |
| Rd2Scoring.PlayerIn | rd2weekly/src/scoring/player.py:33-34 | Membership in the player list answers no for an empty list and yes when the player is found first. Meeting any other player raises AttributeError from the player's equality. |
| Rd2Scoring.AddPlayer | rd2weekly/src/scoring/team.py:44-49 | A listed player changes nothing. A non-empty list whose first player is another player raises AttributeError from the membership test. For an unlisted player, a number-valued point mode raises AttributeError, and nothing else raises. The player list, name, record and mode never change. |
| Rd2Scoring.AddPlayerAllHitting | rd2weekly/src/scoring/team.py:44-49 | As written, a new player's points all go to hitting, pitcher or not. Pitching never moves, and the total grows by the points. |
| Rd2Scoring.AddPlayerIntended | rd2weekly/src/scoring/team.py:44-49 | The corrected addition fails and keeps the team exactly as the written one does, including the AttributeError when the list's first player is another player. |
| Rd2Scoring.AddPlayerRoutes | rd2weekly/src/scoring/team.py:44-49 | With the corrected pitching addition, a new player's points go to pitching exactly when "P" is one of its listed positions, and to hitting otherwise. The test is list membership, so players listed as "SP" or "RP" go to hitting. The total grows by them either way. |
| Rd2Scoring.AddPlayerAgrees | rd2weekly/src/scoring/team.py:44-49 | The written and corrected additions raise alike and reach the same total. They give the same team exactly when "P" is not one of the player's listed positions or the player scored 0. |
| Rd2Scoring.TeamLessOrder | rd2weekly/src/scoring/team.py:51-55 | `<` is irreflexive and asymmetric and never holds between teams of equal name. Between different teams it is `<` on their points. |
| Rd2Trio.Comparison | rd2weekly/src/scoring/bestTrio.py:37-46 | An empty tier gives 1. Otherwise the result is 1, 0 or -1 exactly when the newcomer beats, ties or loses to the tier's first score, with lower beating higher when reversed. |
| Rd2Trio.JumpSpotEffect | rd2weekly/src/scoring/bestTrio.py:48-59 | Jumping into spot 1 makes first [new], second the old first and third the old second. Spot 2 keeps first, makes second [new] and third the old second. Spot 3 replaces third only. |
| Rd2Trio.AddToSpot | rd2weekly/src/scoring/bestTrio.py:62-65 | The newcomer is appended to the spot's tier, and the other tiers stay. |
| Rd2Trio.Prune | rd2weekly/src/scoring/bestTrio.py:67-71 | First never changes. Second is cleared when first holds more than three, and third when first and second together hold more than three. |
| Rd2Trio.PruneKeepsTopThree | rd2weekly/src/scoring/bestTrio.py:67-71 | A tier survives pruning only when at most three scores are above it, and pruning is idempotent. |
| Rd2Trio.JumpSpotIfAllowed | rd2weekly/src/scoring/bestTrio.py:28-34 | The answer is yes exactly when the newcomer ties or beats the spot's tier. A no changes nothing. |
| Rd2Trio.AddIfTopThree | rd2weekly/src/scoring/bestTrio.py:21-26 | The loop returns only when the newcomer ties or beats the first tier. A tie appends to first, empties second once first holds more than three, and empties third once first and second together hold more than three. A win makes first [new] and second the old first, with third the old second unless the old first held more than two. |
| Rd2Trio.AddIfTopThreeStalls | rd2weekly/src/scoring/bestTrio.py:21-26 | A newcomer worse than the first tier leaves the loop's state unchanged, so the loop never ends: 3 against first tier [5]. |
| Rd2Trio.IntendedAgreesAsWritten | rd2weekly/src/scoring/bestTrio.py:21-26 | Wherever the written loop ends, the corrected placement gives the same trio. |
| Rd2Trio.IntendedKeepsTiered | rd2weekly/src/scoring/bestTrio.py:21-71 | The corrected placement keeps the layout: uniform tiers filled from the top, each tier's score beating the next. |
| Rd2Trio.IntendedPlacement | rd2weekly/src/scoring/bestTrio.py:21-71 | A newcomer worse than a held third tier changes nothing. One tying or beating the first tier, or meeting an empty one, lands in the first tier. |
| Rd2Matchups.ExtremeKey | rd2weekly/src/summary/matchupSummary.py:35-41 | The first key after sorting is some matchup's key, and it is the greatest (descending) or least. |
| Rd2Matchups.Extremes | rd2weekly/src/summary/matchupSummary.py:51-60 | A matchup is selected exactly when it is in the list and its key is extreme. Empty input selects nothing. |
| Rd2Matchups.MostExtremeMatchup | rd2weekly/src/summary/matchupSummary.py:35-41 | Every matchup whose difference is the greatest (blowout) or least (closest) is selected, and no other. The result is non-empty exactly when the input is. |
| Rd2Matchups.TeamsWithNResults | rd2weekly/src/summary/matchupSummary.py:43-49 | A matchup is kept exactly when its difference is not zero and its first team has at least n wins (win case) or its second team at least n losses. |
| Rd2Matchups.MostExtremePoints | rd2weekly/src/summary/matchupSummary.py:51-65 | Reading a side team's total raises AttributeError exactly when some eligible side team has a number-valued point mode. Otherwise, keyed on the first team's total for wins and the second's otherwise, every matchup with the extreme key is selected. |
| Rd2Matchups.Select | rd2weekly/src/summary/matchupSummary.py:23-32 | An unknown category raises ValueError, and only it does. The point categories may raise AttributeError from a team's totals. The strongest categories are told as losses. The one-result categories need one result and "0-2"/"2-0" need two, with the extremal selection each names. |
| Rd2Matchups.StrongestLossMeans | rd2weekly/src/summary/matchupSummary.py:23-65 | Raises AttributeError exactly when some eligible loss has a second team with a number-valued point mode. Otherwise the strongest losses are the matchups with a losing second team and a nonzero difference whose second team's total no such matchup beats. |
| Rd2Matchups.WeakestTwoWinsMeans | rd2weekly/src/summary/matchupSummary.py:23-65 | Raises AttributeError exactly when some eligible win has a first team with a number-valued point mode. Otherwise the weakest 2-0 wins are the matchups with a first team of two wins and a nonzero difference whose first team's total no such matchup undercuts. |
| Rd2Matchups.GetMatchupString | rd2weekly/src/summary/matchupSummary.py:23-33 | With matchups taken as hashable values, every call raises. ValueError comes exactly for unknown categories, and AttributeError otherwise, because the formatter module has no `getMatchupString`. |
| Rd2Markdown.HeaderString | rd2weekly/src/summary/markdownFormatter.py:9-10 | The header is " * **", the category, then "**". |
| Rd2Markdown.HeaderInjective | rd2weekly/src/summary/markdownFormatter.py:9-10 | Different categories give different headers. |
| Rd2Markdown.SingleScorerStringAsWritten | rd2weekly/src/summary/markdownFormatter.py:12-16 | As written, a player's line raises AttributeError, because players have no `team`. A team's line is "  bullet name, points". |
| Rd2Markdown.SingleScorerString | rd2weekly/src/summary/markdownFormatter.py:12-16 | Every line starts "  bullet name, " and ends with the rendered points. A player's line has its team between them. |
| Rd2Markdown.SingleScorerAgrees | rd2weekly/src/summary/markdownFormatter.py:12-16 | For teams the written and the corrected line coincide. For players only the corrected one exists. |
| Rd2Markdown.TiedScorerString | rd2weekly/src/summary/markdownFormatter.py:18-27 | Ranks 1 to 3 give the line followed by the newest generation's tie label for that rank. Any other rank raises ValueError. |
| Rd2Markdown.TiedLabelAgreesWithNewest | rd2weekly/src/summary/markdownFormatter.py:18-27 | For ranks 1 to 3 the tie label is the one the current script writes for the same rank. |
| Rd2Markdown.PlayerScoringString | rd2weekly/src/summary/markdownFormatter.py:30-34 | The player's line, extended by " (from the bench)" exactly when the player was not active. |

## Left out

- Scraping and I/O are left out: Selenium, Docker, login, BeautifulSoup extraction, the
  regex name/id parsing, JSON files and the command line. Stats-page rows are records,
  and pages are a function from position to rows (`pages`).
- Float rendering, `statistics.mean`/`stdev` and the points, average and deviation
  columns of the division tables are left out. Points are exact reals and their text is
  a parameter.
- `scorer_string` of src/main.py is a parameter (`describe`). Its matchup, luckiest and
  unluckiest wordings are not modelled.
- `division_table` of src/main.py and `summary_string`, `PitcherSectionFormatter`,
  `MatchupSectionFormatter._sort_matchups` and `_multi_matchup_bullets` of the older
  package are not modelled beyond the deduplication and record column listed above.
  They are presentation over the modelled rankings.
- `SimplexTableauSolver._find_pivot` and `solve` are left out. `_find_pivot` compares
  tuples with numbers, so it never returns normally, and the module is not imported
  anywhere.
- The broken files of the oldest package are not part of this model: matchup.py,
  scoreboard.py, trioSummary.py, allStarSummary.py and the performer dictionaries. The
  `Trio` base class (trio.py) is not part of this model either. The tiers and totals are
  plain fields; the lines below say what that assumes.
- Rd2Scoring.AddWin, Rd2Scoring.AddLoss and Rd2Scoring.AddTie: assume the win, loss
  and tie lists can be read. winLossTie.py:10-18 reads `self.__first`, `__second` and
  `__third`, which Python renames to `_WinLossTie__first` and so on. teamPoints.py:10-28
  reads `self._first` instead. trio.py is not part of this model, but one `Trio`
  constructor is unlikely to set both spellings. As written, at least one of
  `TeamPoints`, `WinLossTie` and `BestTrio` then raises AttributeError on its first
  read. The model treats the tiers as plain fields that all three classes can read.
- Rd2Trio.AddIfTopThree: makes the same assumption for `_BestTrio__first`, `__second`
  and `__third` (bestTrio.py:11-19 and 28-46). If `Trio` sets only the plain names, every
  call raises AttributeError before any comparison. The stall recorded under Findings
  needs these reads to succeed.
- Rd2Matchups.Difference: uses the teams' total points whatever their point mode,
  because the matchup's own difference lives in matchup.py, which is not part of this
  model.
- Rd2Matchups.GetMatchupString, Rd2Matchups.Extremes, Rd2Matchups.MostExtremeMatchup,
  Rd2Matchups.TeamsWithNResults and Rd2Matchups.MostExtremePoints: treat matchups as
  hashable values with structural equality, held in sets. The source cannot do that.
  The rd2 `Team` defines `__eq__` without `__hash__`
  (rd2weekly/src/scoring/team.py:51-52), so it is unhashable. Building
  `{ team1, team2 }` in the `Matchup` constructor
  (rd2weekly/src/scoring/matchup.py:6) therefore raises TypeError. `Matchup.__hash__`
  (rd2weekly/src/scoring/matchup.py:27-28) hashes a set, which raises TypeError too,
  and `Matchup.__eq__` (rd2weekly/src/scoring/matchup.py:21-22) is always true. As
  written, any non-empty selection raises TypeError at the set insertions
  (rd2weekly/src/summary/matchupSummary.py:40, 48 and 59). Only an empty matchup set
  reaches the AttributeError of `getMatchupString`.
- Rd2Scoring.TeamLess: requires number-valued point modes on both teams, because
  comparing two totals records depends on the `Trio` base class.
- Rd2Scoring.PlayerIn: player objects are identified by value, so the identity check
  that precedes `__eq__` in a list search is modelled as value equality.
- Rd2Markdown.TiedScorerString and Rd2Markdown.PlayerScoringString: built on the
  corrected single-scorer line. As written, every player line raises AttributeError
  before the rank is looked at.
- SummaryAllStars.AllStarMarkdown: requires every top list's position to contain "P" or
  to be a lineup position, because any other position is a KeyError on the slot
  counts.
- SummaryAllStars.ReduceSearchSpace: proves termination, the prefix property and the
  fixed point. It does not prove that the reduction keeps every optimal lineup.
- WeeklyLeaders.PointLeadersOf: requires a positive bound or a non-empty list where the
  source would index an empty list, which is an IndexError.
- Python exceptions raised by malformed pages (missing cells, non-numeric text) are not
  modelled.

## Findings

| source | as written | input that shows it | evidently intended | confidence | as-written member | corrected member |
|---|---|---|---|---|---|---|
| rd2weekly/src/scoring/teamPoints.py:27-28 | `addPitchingPoints` adds to the hitting slot | a new record plus 5 pitching points gives hitting 5, pitching 0 | pitching grows, hitting stays | high; not executed | Rd2Scoring.AsWrittenPitchingLandsInHitting | Rd2Scoring.AddPitchingPoints |
| summary/all_star_simplex.py:117-128 | each non-pivot row subtracts its own values times its pivot-column entry | pivoting [[1,1],[2,1]] at (0,0) leaves -2 in the pivot column | subtract the pivot-column entry times the scaled pivot row, clearing the column | high; not executed | SummarySimplex.AsWrittenCounterexample | SummarySimplex.PivotClearsColumn |
| rd2weekly/src/scoring/bestTrio.py:21-26 | the loop never advances `spot`, so a newcomer worse than the first tier repeats the same step forever | first tier [5], newcomer 3 | try spots 1, 2 and 3 in turn | high; not executed | Rd2Trio.AddIfTopThreeStalls | Rd2Trio.IntendedKeepsTiered |
| rd2weekly/src/summary/markdownFormatter.py:12-16 | a player's line reads `scorer.team`, which players do not have (rd2weekly/src/scoring/player.py) | any player | "name, team, points", as the TODO at line 29 says | medium; not executed | Rd2Markdown.SingleScorerStringAsWritten | Rd2Markdown.SingleScorerString |
