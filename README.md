# mlb2026 win-loss wheel: a Dafny model of its data logic

The mlb2026 site draws a baseball team's season as a wheel. Each game is a
marker around a circle. Opponents are grouped by division. The team's record
sits in the middle, and arcs mark each opponent and each division. This
project models the data side of that wheel. Geometry and rendering are not
modelled.

- **Game selection** (`docs/js/utils.js`): initially scheduled games,
  completed statuses, the opponent of a game, the games of a team.
- **The chart pass** (`docs/js/record-chart.js`): the opponent order around
  the circle (`byDivision`). Also the target team's scheduled games, tagged
  with the opponent index, sorted by it and positioned. Then `numSeries` and
  `numInterLeague`, one marker per game, and the winner/loser stamps of
  `add_winner`. Finally the `win-loss` record text and the grouping,
  counting and large-arc flag of `update_arcs`. The drawing is a `Chart`
  class. Its fields are what the pass writes: the markers, the record text
  and the arcs.
- **The team selector** (`docs/js/team-selector.js`): the in-place sort of
  the season's teams, from AL East to NL West. One tile per team, and a
  click that looks the tile's club up in the sorted list.
- **The season selector** (`docs/js/season-selector.js`):
  - the duplicate guard on strict equality;
  - the fallback to 2026 and the update of `current`;
  - the in-place merge of the day's live scores into the game list;
  - the short-circuit of `get_today`.
- **The PNG export** (`docs/js/download-svg.js`): the file name
  `season-team-record.png`, where only the first space is removed from the
  club name. The 1600 by 1600 size of the exported copy, and the clone a failed
  export leaves in the document, which later exports pick up first. The
  button whose pointer events are off while an export runs and back on
  afterwards.

How JavaScript values are modelled:

- `undefined` is `Option.None`.
- An exception thrown by a property access on `undefined` is an explicit
  error result: `None`, `thrown` or `Failed`.
- `Array.prototype.sort` is a stable insertion sort over a comparator. For a
  consistent comparator (antisymmetric and transitive) it is proved sorted
  and a permutation.
- String `<` is lexicographic order on characters. JavaScript compares UTF-16
  code units; the two orders agree on the club, league and division names the
  schedule uses, but not on characters outside the Basic Multilingual Plane.
- `String(n)` is the decimal digits, and `split`, `indexOf`, `at(-1)` and
  both forms of `replace` are written out in `Js`.

## Model

| member | source | states |
|---|---|---|
| Js.IndexOf | docs/js/record-chart.js:105 | `indexOf`: -1 exactly when absent, otherwise the first index holding the value |
| Js.LastWord | docs/js/record-chart.js:105 | `split(" ").at(-1)`: the space-free suffix after the last space, or the whole string when it has no space |
| Js.RemoveSpaces | docs/js/record-chart.js:137 | `replace(/ /g, "")`: no space is left, every other character is kept with its count, and a space-free string is unchanged |
| Js.RemoveSpacesAppend | docs/js/record-chart.js:137 | removing the spaces of a concatenation concatenates the results, so the kept characters stay in their order |
| Js.RemoveFirstSpace | docs/js/download-svg.js:219 | `replace(" ", "")`: a space-free string is unchanged, otherwise exactly the character at the first space's index is removed |
| Js.NatToString | docs/js/record-chart.js:20 | `String(n)`: nonempty decimal digits with no leading zero |
| Js.NatToStringRoundTrip | docs/js/record-chart.js:20 | reading the digits of `String(n)` back gives `n` |
| Js.NatToStringInjective | docs/js/record-chart.js:20 | different counts print differently |
| Js.StrLessIrreflexive | docs/js/record-chart.js:112-113 | string `<` is irreflexive |
| Js.StrLessAsymmetric | docs/js/record-chart.js:112-113 | string `<` is asymmetric |
| Js.StrLessTotal | docs/js/record-chart.js:112-113 | two different strings are ordered one way or the other |
| Js.StrLessTransitive | docs/js/record-chart.js:112-113 | string `<` is transitive |
| Js.StrLessCommonPrefix | docs/js/team-selector.js:114-117 | a shared prefix does not change the order |
| Js.StrLessAtFirstDifference | docs/js/team-selector.js:114-117 | the first differing character decides the order |
| Js.StrLessEqualLengthPrefix | docs/js/team-selector.js:114-117 | two different prefixes of equal length decide the order of whatever follows them |
| Js.Split | docs/js/record-chart.js:20 | `split(sep)`: at least one piece, and no piece holds the separator |
| Js.SplitAfterPiece | docs/js/record-chart.js:20 | a separator-free piece before a separator comes out as the first piece |
| Js.SplitJoin | docs/js/record-chart.js:20 | separator-free parts joined by the separator split back into exactly those parts |
| Sorting.Insert | docs/js/record-chart.js:331 | one insertion step of the sort: one element longer, and a permutation of the input plus the element |
| Sorting.SortBy | docs/js/record-chart.js:331 | `sort(cmp)` keeps the length and is a permutation of its input |
| Sorting.InsertSorted | docs/js/record-chart.js:331 | inserting into a sorted list under a consistent comparator keeps it sorted |
| Sorting.SortBySorted | docs/js/record-chart.js:331 | the result of `sort` under a consistent comparator is sorted |
| Sorting.Map | docs/js/record-chart.js:350-352 | `map`: one result per element, the function applied to the element at the same index |
| Sorting.MapAppend | docs/js/record-chart.js:350-352 | mapping a concatenation concatenates the mapped parts |
| Sorting.MapPermutation | docs/js/record-chart.js:343-352 | a permutation stays a permutation after every element is mapped, so fields copied after the sort describe the same entries as before it |
| Utils.InitiallyScheduled | docs/js/utils.js:8-10 | holds exactly when the game has neither a `rescheduledFrom` nor a `resumedFrom` field; RecordChart.RescheduledCopiesSkipped shows such copies are never drawn |
| Utils.CompletedStatusCases | docs/js/utils.js:19-21 | `isCompleted` holds exactly for Final, Completed Early, Game Over and Cancelled |
| Utils.IsGameOfSides | docs/js/utils.js:43-48 | `isGameOf` holds exactly when the target's club is the away or the home side |
| Utils.GetOpponentOf | docs/js/utils.js:29-35 | the away club when it is not the target's, else the home club when that is not the target's, else undefined; never the target's own club |
| Utils.Me | docs/js/record-chart.js:340 | the side of a game that is the target's, away first |
| Utils.FindClub | docs/js/record-chart.js:326 | `teams.find` by club name: undefined exactly when no team has the club, otherwise the first team that has it |
| RecordChart.DivisionRank | docs/js/record-chart.js:101-109 | East, Central, West rank 0, 1, 2 in the target's league; West, Central, East rank 5, 6, 7 in the other league; an unknown division ranks -1 or 4 |
| RecordChart.SameLeagueFirst | docs/js/record-chart.js:99-116 | every opponent of the target's league sorts before every other-league opponent |
| RecordChart.ByDivisionTies | docs/js/record-chart.js:110-114 | at equal rank the names decide by `<`, and only equal rank and name compare as equal |
| RecordChart.ByDivisionAntisymmetric | docs/js/record-chart.js:99-116 | swapping the arguments negates the comparison |
| RecordChart.ByDivisionTransitive | docs/js/record-chart.js:99-116 | the comparison is transitive |
| RecordChart.ByDivisionConsistent | docs/js/record-chart.js:99-116 | `byDivision(team)` is a consistent comparator |
| RecordChart.OtherTeams | docs/js/record-chart.js:329-330 | the teams whose name differs from the target's, and only those |
| RecordChart.Opponents | docs/js/record-chart.js:329-332 | a permutation of the other teams, sorted by `byDivision(target)` |
| RecordChart.Annotate | docs/js/record-chart.js:337-341 | the copy of a game carries the game and the target's own side |
| RecordChart.ScheduledGames | docs/js/record-chart.js:334-341 | exactly the target's initially scheduled games, each annotated with its opponent and the target's side, each as often as it occurs in the game list |
| RecordChart.RescheduledCopiesSkipped | docs/js/record-chart.js:334-336 | a rescheduled or resumed copy of a game is never among the scheduled games |
| RecordChart.ScheduledGamesAppend | docs/js/record-chart.js:334-341 | the filters keep the order of the games: the selection of a concatenation is the concatenation of the selections |
| RecordChart.OpIndex | docs/js/record-chart.js:84-89 | `findIndex` on the opponent club: the first matching index, or -1 when there is none |
| RecordChart.AddOpIdx | docs/js/record-chart.js:84-89 | every element of the array gets its opponent index, and nothing else changes |
| RecordChart.CompareOpIdxConsistent | docs/js/record-chart.js:343 | `(a, b) => a.opIdx - b.opIdx` is a consistent comparator |
| RecordChart.Prepared | docs/js/record-chart.js:334-352 | the list `draw_chart` lays out has one entry per scheduled game; PreparedOrder gives its order and its entries |
| RecordChart.Indexed | docs/js/record-chart.js:342 | every entry gets the index of its own opponent, in place |
| RecordChart.Positioned | docs/js/record-chart.js:350-352 | every entry's `pos` becomes its chart position, in place |
| RecordChart.AssignPos | docs/js/record-chart.js:350-352 | every element's `pos` becomes its chart position, and nothing else changes |
| RecordChart.PreparedOrder | docs/js/record-chart.js:334-352 | the prepared list is a permutation of the scheduled games with their opponent index and position set, in non-decreasing opponent index, and each entry has its own opponent's index and its own chart position |
| RecordChart.PositionedOrder | docs/js/record-chart.js:343-352 | copying the chart positions keeps the order by opponent index |
| RecordChart.PrepareGames | docs/js/record-chart.js:334-352 | the array pass gives the prepared list, and `numSeries` is the maximum chart position taken before the `pos` loop |
| RecordChart.NumSeries | docs/js/record-chart.js:349 | `Math.max` of the chart positions: -Infinity (None) for no games, otherwise an upper bound that some game attains |
| RecordChart.NumSeriesSameChartPos | docs/js/record-chart.js:349-352 | the maximum depends only on the chart positions, so the `pos` loop does not change it |
| RecordChart.OtherLeagueClubs | docs/js/record-chart.js:354 | the clubs of the teams outside the target's league |
| RecordChart.InterLeagueOpeners | docs/js/record-chart.js:355-358 | exactly the scheduled games that open a series (game 1) against an other-league club, each as often as it is scheduled; `numInterLeague` is their count |
| RecordChart.InterLeagueOpenersAppend | docs/js/record-chart.js:355-358 | the openers keep the order of the scheduled games |
| RecordChart.NumInterLeague | docs/js/record-chart.js:355-358 | `numInterLeague` is the number of InterLeagueOpeners, at most the number of scheduled games |
| RecordChart.RadialFactorIncreasing | docs/js/record-chart.js:366-367 | a later game of a series sits farther from the centre |
| RecordChart.WithOpponent | docs/js/record-chart.js:363 | exactly the scheduled games against the given club |
| RecordChart.MarkerGames | docs/js/record-chart.js:360-386 | each marker stands for a scheduled game against one of the season's clubs |
| RecordChart.Markers | docs/js/record-chart.js:360-386 | one marker per marker game, in order, carrying that game's identifier, opponent, position and series game number, with no winner, loser or `lost` class yet |
| RecordChart.KnownOpponent | docs/js/record-chart.js:360-386 | exactly the scheduled games whose opponent is a club of the season |
| RecordChart.KnownOpponentSplit | docs/js/record-chart.js:360-386 | the games against a list of clubs are those against its first club plus those against the rest |
| RecordChart.MarkersOnePerGame | docs/js/record-chart.js:360-386 | with distinct club names, every game against a known club has exactly one marker |
| RecordChart.KnownOpponentNone | docs/js/record-chart.js:360-386 | no club means no game |
| RecordChart.KnownOpponentCount | docs/js/record-chart.js:360-386 | how often a game is selected depends only on how often it occurs |
| RecordChart.KnownOpponentPermutation | docs/js/record-chart.js:343 | sorting keeps the known-opponent games as a multiset, and so their number |
| RecordChart.KnownOpponentSameOpponents | docs/js/record-chart.js:342-352 | setting `opIdx` or `pos` does not change how many games have a known opponent |
| RecordChart.MarkerCountMatchesGames | docs/js/record-chart.js:334-386 | the chart draws as many markers as the target has initially scheduled games against a club of the season |
| RecordChart.KnownOpponentSameGames | docs/js/record-chart.js:342-352 | entries that agree on game and opponent select the same games whatever their `opIdx` and `pos` |
| RecordChart.MarkerGamesAreScheduledGames | docs/js/record-chart.js:334-386 | with distinct club names, the games behind the markers are, as a multiset, the target's initially scheduled games against a club of the season |
| RecordChart.ScheduledGameIsKnown | docs/js/record-chart.js:334-341 | an initially scheduled game of the target against a listed club is among the known-opponent games |
| RecordChart.MarkerOfDrawnGame | docs/js/record-chart.js:360-386 | a game among the marker games has a marker with its identifier |
| RecordChart.EveryGameHasMarker | docs/js/record-chart.js:334-386 | with distinct club names, every initially scheduled game of the target against a club of the season has a marker with its identifier |
| RecordChart.MarkerFromEntry | docs/js/record-chart.js:342-386 | a marker drawn from the sorted, positioned entries carries the identifier and opponent of one of the scheduled entries |
| RecordChart.EveryMarkerHasGame | docs/js/record-chart.js:334-386 | every marker carries the identifier of an initially scheduled game of the target, and its opponent is that game's opponent and a club of the season |
| RecordChart.MarkerPosWithinSeries | docs/js/record-chart.js:349-352 | no marker's position exceeds `numSeries` |
| RecordChart.WinnerSide | docs/js/record-chart.js:55 | the first side with `isWinner`, away first; undefined when neither side won |
| RecordChart.LoserSide | docs/js/record-chart.js:56 | the first side without `isWinner`, away first; undefined when both sides are marked winners |
| RecordChart.WinnerAndLoserAreTheTwoSides | docs/js/record-chart.js:55-56 | with exactly one winning side, winner and loser are the two sides of the game |
| RecordChart.Stampable | docs/js/record-chart.js:51-53 | exactly the completed games that were not cancelled |
| RecordChart.DotIndex | docs/js/record-chart.js:57 | the first marker of the game, or -1 when the game has none |
| RecordChart.StampOne | docs/js/record-chart.js:54-60 | throws exactly when the winner, the loser or the marker is missing; a missing winner or marker leaves every marker as it was, a missing loser leaves the away club written as the marker's winner; otherwise only that marker changes: it gets the winner and loser clubs, is marked lost exactly when it already was or the target lost, and keeps its place |
| RecordChart.GamesOf | docs/js/record-chart.js:392 | exactly the target's games, rescheduled and resumed copies included |
| RecordChart.StampAll | docs/js/record-chart.js:50-68 | the `forEach` over the stampable games, stopping at the first throw; keeps the number of markers (its other properties are in the lemmas below) |
| RecordChart.StampAllKeepsLayout | docs/js/record-chart.js:50-68 | stamping changes no marker's game, opponent, index or position |
| RecordChart.StampAllUntouched | docs/js/record-chart.js:50-68 | a marker whose game is not stamped is left as it was |
| RecordChart.UnstampedIsConsistent | docs/js/record-chart.js:360-387 | freshly drawn markers satisfy both marker invariants |
| RecordChart.StampAllKeepsInvariants | docs/js/record-chart.js:50-68 | stamping keeps "every loss of the target is marked lost", and, when no game has one club on both sides, "no marker has its winner as its loser" |
| RecordChart.Wins | docs/js/record-chart.js:18 | the count of markers won by the club, at most the number of markers |
| RecordChart.Losses | docs/js/record-chart.js:19 | the count of markers lost by the club, at most the number of markers |
| RecordChart.WinsPlusLosses | docs/js/record-chart.js:17-21 | wins plus losses never exceed the markers |
| RecordChart.RecordText | docs/js/record-chart.js:20 | the text `win-loss`; RecordTextRoundTrip shows it splits back into both counts |
| RecordChart.RecordTextRoundTrip | docs/js/record-chart.js:20 | the record text `win-loss` splits at '-' back into the two counts |
| RecordChart.ForClub | docs/js/record-chart.js:135 | exactly the markers of the opponent club, each as often as it is drawn |
| RecordChart.ForClubAppend | docs/js/record-chart.js:135 | an opponent's markers keep their order in the drawing |
| RecordChart.OuterGroup | docs/js/record-chart.js:132-141 | an opponent's outer arc: id `arc` and the club name without spaces, filled with the club, around exactly that club's markers |
| RecordChart.InnerGroup | docs/js/record-chart.js:142-144 | the `inner` copy of an opponent's arc, over the same markers |
| RecordChart.OpponentGroups | docs/js/record-chart.js:132-144 | one outer and one `inner` group for every opponent that has a marker, and only for those; each holds exactly that club's markers |
| RecordChart.PairedPrepend | docs/js/record-chart.js:142-144 | putting an outer/inner pair in front keeps the list paired |
| RecordChart.OpponentGroupsPaired | docs/js/record-chart.js:142-144 | the opponent arcs come as an outer arc followed by its `inner` twin |
| RecordChart.InDivision | docs/js/record-chart.js:154-157 | exactly the markers whose opponent plays in that league and in a division named with that last word, each as often as it is drawn |
| RecordChart.DivisionGroups | docs/js/record-chart.js:145-167 | six groups in the order AL West, Central, East, then NL West, Central, East; each is filled with its league and holds exactly that division's markers |
| RecordChart.NonEmpty | docs/js/record-chart.js:169 | exactly the groups that have markers |
| RecordChart.MaxPos | docs/js/record-chart.js:173-174 | `Math.max` of the positions: an upper bound that a marker attains |
| RecordChart.MinPos | docs/js/record-chart.js:173-174 | `Math.min` of the positions: a lower bound that a marker attains |
| RecordChart.LargeArcFlag | docs/js/record-chart.js:177 | 1 exactly when the span divided by `numSeries` exceeds one half (real division); for a zero `numSeries`, 1 exactly when the span is not zero (Infinity against NaN); 0 for a missing or negative `numSeries` |
| RecordChart.HalfOfSeries | docs/js/record-chart.js:177 | the span exceeds half of the series exactly when twice the span exceeds it |
| RecordChart.Summarize | docs/js/record-chart.js:170-185 | the arc's games, the target's wins and losses in it, `start` the largest and `end` the smallest position, and its large-arc flag |
| RecordChart.Arcs | docs/js/record-chart.js:128-188 | throws exactly when some marker's opponent is not an opponent; otherwise every arc has games and `end <= start` |
| RecordChart.GroupsWithinDots | docs/js/record-chart.js:132-169 | every arc is drawn around markers of the chart |
| RecordChart.ArcRecordWithinGames | docs/js/record-chart.js:170-184 | in every arc, wins plus losses are at most the arc's games |
| RecordChart.SubgroupKeepsNoSelfDecision | docs/js/record-chart.js:132-169 | a group of chart markers keeps the winner-is-not-loser invariant |
| RecordChart.GroupHasArc | docs/js/record-chart.js:132-188 | every opponent or division group that has markers is summarized into an arc |
| RecordChart.OpponentArcsDrawn | docs/js/record-chart.js:132-144 | every opponent with a marker has its outer and its `inner` arc among the drawn arcs |
| RecordChart.DivisionArcsDrawn | docs/js/record-chart.js:145-169 | every (league, division) block with a marker has its arc among the drawn arcs |
| RecordChart.ArcsOnlyFromGroups | docs/js/record-chart.js:128-188 | nothing else is drawn: every arc summarizes an opponent or division group that has markers |
| RecordChart.DrawnArcsWithinGames | docs/js/record-chart.js:50-188 | after the deferred pass, every stored arc counts at most as many wins and losses as games, when no game has one club on both sides |
| RecordChart.Chart.constructor | docs/js/record-chart.js:260-282 | the empty template: no markers, record 0-0, no arcs |
| RecordChart.Chart.UpdateRecord | docs/js/record-chart.js:17-21 | the record text becomes the target's wins and losses over all markers |
| RecordChart.Chart.AddWinner | docs/js/record-chart.js:50-70 | the markers become the stamping of every stampable game, stopping at the first error; the record is updated only when nothing was thrown |
| RecordChart.Chart.UpdateArcs | docs/js/record-chart.js:128-188 | the arcs are replaced by the computed arcs, or stay as they were when the computation throws |
| RecordChart.Chart.DrawChart | docs/js/record-chart.js:323-396 | a missing target throws: the markers are emptied when there are no teams and no games (nothing reads the target before `#gGames` is replaced) and kept otherwise, and the record and the arcs are kept; a found target gives `numSeries` and `numInterLeague` of the prepared list, the stamped markers of that list, a record updated unless stamping threw, and arcs updated unless stamping or the arcs threw |
| RecordChart.Chart.DrawFor | docs/js/record-chart.js:326-396 | once the target is found: `numSeries` and `numInterLeague` of the prepared list, then the deferred pass over its markers |
| RecordChart.Chart.DeferredPass | docs/js/record-chart.js:391-395 | `add_winner` and then `update_arcs`; a throw in `add_winner` leaves the record and the arcs as they were |
| TeamSelector.DivisionIndex | docs/js/team-selector.js:112-114 | the index of the division's last word in East, Central, West, or -1 |
| TeamSelector.TileKey | docs/js/team-selector.js:113-115 | the key `league + divisionIndex + name`; LeagueDecides, DivisionDecides and NameDecides give its order |
| TeamSelector.CompareTiles | docs/js/team-selector.js:111-119 | the comparator returns -1, 0 or 1 |
| TeamSelector.CompareTilesTies | docs/js/team-selector.js:113-118 | two teams compare as equal exactly when their keys are equal, and swapping negates the result |
| TeamSelector.ByTileConsistent | docs/js/team-selector.js:111-119 | the selector's comparator is consistent |
| TeamSelector.LeagueDecides | docs/js/team-selector.js:114-117 | between league names of equal length, the league names alone decide |
| TeamSelector.AmericanBeforeNational | docs/js/team-selector.js:111-119 | every American League team comes before every National League team |
| TeamSelector.IndexCharOrdered | docs/js/team-selector.js:114 | the division index's first character is ordered like the index |
| TeamSelector.DivisionDecides | docs/js/team-selector.js:111-119 | within a league East precedes Central precedes West, and an unknown division comes first |
| TeamSelector.NameDecides | docs/js/team-selector.js:111-119 | within a league and division, the names decide by `<` |
| TeamSelector.SortedTeams | docs/js/team-selector.js:110-119 | the sorted teams are a permutation of the input, in the selector's order |
| TeamSelector.TilesOf | docs/js/team-selector.js:120-135 | one tile per team, in order, carrying its club, league and division |
| TeamSelector.ClickTarget | docs/js/team-selector.js:139-147 | a click selects the first team of the list with the tile's club, and none exactly when no team has that club |
| TeamSelector.ClickSelectsTile | docs/js/team-selector.js:139-147 | with distinct club names, clicking the i-th tile selects the i-th team |
| TeamSelector.TeamSelectorElement.constructor | docs/js/team-selector.js:42-48 | the selector starts with no tiles |
| TeamSelector.TeamSelectorElement.RenderTeams | docs/js/team-selector.js:106-137 | the team array is sorted in place, and the tiles are those of the sorted array |
| SeasonSelector.ToNumber | docs/js/season-selector.js:92 | `Number(season)` for undefined, numbers, the empty string and digit strings |
| SeasonSelector.Offered | docs/js/season-selector.js:92 | `targetSeasons.includes(Number(season))`; OfferedRange gives the exact range |
| SeasonSelector.Defaulted | docs/js/season-selector.js:92 | an offered season is kept, any other becomes 2026, and the result is always offered |
| SeasonSelector.OfferedRange | docs/js/season-selector.js:92 | a season is offered exactly when it reads as a year from 2018 to 2026 |
| SeasonSelector.SeasonLabels | docs/js/season-selector.js:68-75 | the cells carry the texts of the nine offered seasons |
| SeasonSelector.FallbackHasCell | docs/js/season-selector.js:117 | the fallback season has a cell to mark active |
| SeasonSelector.FindPk | docs/js/season-selector.js:105 | `find` by game identifier: the first match, or none |
| SeasonSelector.Greater | docs/js/season-selector.js:110-111 | `a > b` on two scores, false when either is missing (NaN); MergeGameWinners draws the consequences |
| SeasonSelector.MergeGame | docs/js/season-selector.js:106-112 | the status and both scores are overwritten; a side becomes winner when its score is greater and a flag is never cleared; nothing else changes |
| SeasonSelector.MergeGameWinners | docs/js/season-selector.js:110-111 | a tie or a missing score sets no flag, and the two sides are never both ahead |
| SeasonSelector.MergeOne | docs/js/season-selector.js:104-112 | one live game updates the first season game with its identifier, and only that one, or nothing when none matches |
| SeasonSelector.MergeAll | docs/js/season-selector.js:104-113 | the merge keeps the length and every identifier, and never clears a winner flag |
| SeasonSelector.FindPkSameIdentifiers | docs/js/season-selector.js:105 | lists with the same identifiers find the same index |
| SeasonSelector.MergeAllUnmatched | docs/js/season-selector.js:104-106 | a season game that no live game names is unchanged |
| SeasonSelector.MergeAllLastWins | docs/js/season-selector.js:104-109 | when several live games share an identifier, the last one's status and scores remain |
| SeasonSelector.MergeNothing | docs/js/season-selector.js:104 | an empty live list changes nothing |
| SeasonSelector.GetToday | docs/js/season-selector.js:132-145 | an empty list unless the season reads as 92026, where the list is empty too or the fetch fails |
| SeasonSelector.TodayIsEmptyForDispatchedSeasons | docs/js/season-selector.js:132-133 | every season the dispatch can load gets no live games, so the merge is a no-op |
| SeasonSelector.SeasonSelectorElement.constructor | docs/js/season-selector.js:8-14 | no current season and no active cell |
| SeasonSelector.SeasonSelectorElement.Dispatch | docs/js/season-selector.js:87-97 | a season strictly equal to the current one changes nothing; otherwise the fallback applies, no cell stays active, and the season becomes current |
| SeasonSelector.SeasonSelectorElement.Loaded | docs/js/season-selector.js:102-118 | the live games are merged into the game array, and the season's cell is marked active, or the lookup throws when no cell has exactly that text |
| SeasonSelector.MergeToday | docs/js/season-selector.js:104-113 | the in-place loop leaves the array equal to the merge of the live games in order |
| DownloadSvg.Filename | docs/js/download-svg.js:219 | a club name without spaces appears unchanged; the length is the parts plus the separators and suffix, minus one for a removed space |
| DownloadSvg.RemoveFirstSpaceAt | docs/js/download-svg.js:219 | only the first space is removed; a later space stays |
| DownloadSvg.FilenameOfSpacedClub | docs/js/download-svg.js:219 | a club name of several words loses only its first space in the file name |
| DownloadSvg.BlueJays | docs/js/download-svg.js:219 | "Blue Jays" becomes "BlueJays" |
| DownloadSvg.RemoveFirstSpaceKeepsOut | docs/js/download-svg.js:219 | removing the space adds no character |
| DownloadSvg.NoDashInDigits | docs/js/record-chart.js:20 | the digits of a count hold no '-' |
| DownloadSvg.FilenameAsJoin | docs/js/download-svg.js:218-219 | the file name is the season, the club, the wins and the losses with `.png` joined by '-' |
| DownloadSvg.FilenameFields | docs/js/download-svg.js:218-219 | with a season and club free of '-', the file name splits into season, club, wins and losses, and both counts are recovered |
| DownloadSvg.DownloadHandler | docs/js/download-svg.js:210-238 | a missing club throws before the guarded part, unlogged, and leaves the document as it was; a failed export is logged and rethrown and leaves its clone in the document; a success makes a 1600 by 1600 clone named after the season, the club and the record text, and exports the first clone in the document, which is an older one when an earlier export failed |
| DownloadSvg.ChartRecordInFilename | docs/js/download-svg.js:218-219 | the download of a chart showing `win-loss` is named after those two counts |
| DownloadSvg.FailedCloneExportedNext | docs/js/download-svg.js:229-233 | after a failed export, the next successful one saves the failed export's chart under the new file name, and the old clone stays |
| DownloadSvg.DownloadButton.constructor | docs/js/download-svg.js:153-154 | the button starts with no inline pointer-events style, no logged error and no clone left in the document |
| DownloadSvg.DownloadButton.HandleClick | docs/js/download-svg.js:160-176 | pointer events are "none" while the handler runs and "auto" after it has succeeded or thrown; the clones left in the document are carried to the next click; a failure is logged by the handler (when it reached the guarded part) and by the click handler |

## Left out

- Geometry is not modelled. The angles, `Math.sin`/`Math.cos` coordinates, `Math.trunc`, the arc path string and its `ext` offsets (`create_arc`, docs/js/record-chart.js:118-126) are floating-point layout. Only the integer radial factor is kept.
- Opponent logos are not modelled: `update_opLogos`, `update_teamLogo` and `get_logos`. They are layout and images.
- RecordChart.Chart.DrawChart: assumes the logo code (docs/js/record-chart.js:388-389) never throws. Any throw there comes after `#gGames` is replaced and before the `setTimeout` is registered, so no marker is stamped and the record and the arcs keep their old values; the model always runs the deferred pass. Two such throws: a club without a logo makes `setAttribute` throw, and after a chart in which no opponent had a marker, `#opLogo` has no `g` child left (docs/js/record-chart.js:48), so the next chart with a marker throws at `querySelector("#opLogo g").cloneNode` (docs/js/record-chart.js:33).
- Dates are not modelled: the Los Angeles date formatting (`Intl.DateTimeFormat`), the `date`, `venue` and `officialDate` dataset copies, the `data-score` and `data-doubleheader` strings.
- `update_season` (the season text) and `update_divRecords` with `add_win_loss_to_arc` (the per-division record labels) are not modelled. They only copy strings already modelled into the drawing.
- Fetches and browser APIs are not modelled: `get_season`, the fetch inside `get_today`, `svgdownload`, `loadCssRules` and `waitFor`, with their Blob, FileReader, canvas and MutationObserver use. A failed export and a failed fetch are Boolean parameters.
- Custom-element lifecycle, events and timing are not modelled: the ROUTED, SeasonDataLoaded, TeamSelected and SeriesSelected events, the `setTimeout` that defers the stamping pass, and listener removal. `DrawChart` runs the deferred pass immediately. A second drawing that starts before the first deferred pass has run (so that the pass would stamp the newer markers) is not modelled.
- The team array shared between the selector (which sorts it in place) and the chart (which reads it) is passed to each as a value. The model does not capture that a later sort changes the order in which the chart lays out its markers.
- The series panel (docs/js/series-results.js) and the CSS and SVG templates are not part of this model.
- SeasonSelector.ToNumber: reads only the empty string and strings of decimal digits. Strings with a sign, surrounding whitespace, a decimal point, an exponent or a hexadecimal prefix, which JavaScript also converts, read as NaN here. A `Num` season is an integer.
- RecordChart.LargeArcFlag: states the division `span / numSeries` exactly, in real arithmetic. The floating-point rounding of that division is not modelled.
- RecordChart.Chart.AddWinner: the `#Record text` lookup and the property reads on the stamped marker are assumed to find their targets. Only a missing winner, loser or marker throws.
- DownloadSvg.DownloadButton.HandleClick: an export either succeeds or throws. `loadCssRules` (docs/js/utils.js:88-96) can stay pending when the stylesheet never loads; then `finally` never runs and the button keeps "none". That outcome is not modelled.
- DownloadSvg.DownloadHandler: a failed export is a rejected `svgdownload`, the only failure left once the lookups below succeed, so its clone is always in the document. Whether the export takes the new or an old clone is modelled; what `svgdownload` draws from it is not.
- DownloadSvg.DownloadHandler: the `#Record text` and `style[data-css="external"]` lookups on the clone are assumed to succeed. The season's text is its `${season}` rendering.
