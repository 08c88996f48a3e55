/**
 * The season selector of docs/js/season-selector.js: choosing a season
 * (with its duplicate guard and its fallback to 2026), and merging the day's
 * live results into the loaded season before the chart is told about it.
 */
module SeasonSelector {
  import opened Js
  import opened Utils

  /** A season as the event detail carries it: absent, a string or a number. */
  datatype JsValue = Undefined | Str(s: string) | Num(n: int)

  /** The seasons the selector offers. */
  const TargetSeasons: seq<int> := [2018, 2019, 2020, 2021, 2022, 2023, 2024, 2025, 2026]

  /** The season used when the requested one is not offered. */
  const FallbackSeason: int := 2026

  /**
   * `Number(v)`, None standing for NaN. Strings are read as decimal digits,
   * the empty string as 0.
   */
  function ToNumber(v: JsValue): (r: Option<int>)
    ensures v.Undefined? ==> r == None
    ensures v.Num? ==> r == Some(v.n)
    ensures v.Str? && v.s == "" ==> r == Some(0)
    ensures v.Str? && v.s != "" && (forall i :: 0 <= i < |v.s| ==> IsDigit(v.s[i])) ==> r == Some(DigitsValue(v.s))
    ensures v.Str? && (exists i :: 0 <= i < |v.s| && !IsDigit(v.s[i])) ==> r == None
  {
    match v
    case Undefined => None
    case Num(n) => Some(n)
    case Str(s) => if forall i :: 0 <= i < |s| ==> IsDigit(s[i]) then Some(DigitsValue(s)) else None
  }

  /** `targetSeasons.includes(Number(season))`. */
  predicate Offered(v: JsValue)
  {
    var n := ToNumber(v);
    n.Some? && n.value in TargetSeasons
  }

  /** The season after the fallback. */
  function Defaulted(season: JsValue): (r: JsValue)
    ensures Offered(r)
    ensures Offered(season) ==> r == season
    ensures !Offered(season) ==> r == Num(FallbackSeason)
  {
    if Offered(season) then season else Num(FallbackSeason)
  }

  /** An offered season is a year from 2018 to 2026. */
  lemma OfferedRange(v: JsValue)
    ensures Offered(v) <==> ToNumber(v).Some? && 2018 <= ToNumber(v).value <= 2026
  {
  }

  /** `${season}`: the text a season turns into inside a template string. */
  function SeasonText(v: JsValue): string
  {
    match v
    case Undefined => "undefined"
    case Str(s) => s
    case Num(n) => IntToString(n)
  }

  /** The `data-season` values of the selector's cells. */
  function SeasonLabels(): (r: seq<string>)
    ensures |r| == |TargetSeasons|
    ensures forall i :: 0 <= i < |r| ==> r[i] == IntToString(TargetSeasons[i])
  {
    seq(|TargetSeasons|, i requires 0 <= i < |TargetSeasons| => IntToString(TargetSeasons[i]))
  }

  /** The fallback season always has a cell to mark. */
  lemma FallbackHasCell()
    ensures SeasonText(Num(FallbackSeason)) in SeasonLabels()
  {
    assert SeasonLabels()[8] == IntToString(2026);
  }

  /** A live game of the day: its identifier, detailed status and the two scores. */
  datatype LiveGame = LiveGame(gamePk: int, detailedState: string, awayScore: Option<int>, homeScore: Option<int>)

  /** `a > b` on two scores; an absent score compares as NaN, which is never greater. */
  predicate Greater(a: Option<int>, b: Option<int>)
  {
    a.Some? && b.Some? && a.value > b.value
  }

  /** `data.games.find((game) => game.gamePk === pk)`, as an index (-1 when absent). */
  function FindPk(games: seq<Game>, pk: int): (r: int)
    ensures -1 <= r < |games|
    ensures r == -1 <==> forall i :: 0 <= i < |games| ==> games[i].gamePk != pk
    ensures 0 <= r ==> games[r].gamePk == pk && forall i :: 0 <= i < r ==> games[i].gamePk != pk
  {
    if games == [] then -1
    else if games[0].gamePk == pk then 0
    else
      var k := FindPk(games[1..], pk);
      if k < 0 then -1 else k + 1
  }

  /** One live result written over the matching season game. */
  function MergeGame(g: Game, live: LiveGame): (r: Game)
    ensures r.gamePk == g.gamePk && r.away.team == g.away.team && r.home.team == g.home.team
    ensures r.status == live.detailedState
    ensures r.away.score == live.awayScore && r.home.score == live.homeScore
    ensures r.away.isWinner <==> g.away.isWinner || Greater(live.awayScore, live.homeScore)
    ensures r.home.isWinner <==> g.home.isWinner || Greater(live.homeScore, live.awayScore)
    ensures r.away.chartPos == g.away.chartPos && r.home.chartPos == g.home.chartPos
    ensures r.seriesGameNumber == g.seriesGameNumber
    ensures r.rescheduledFrom == g.rescheduledFrom && r.resumedFrom == g.resumedFrom
  {
    var away := g.away.(score := live.awayScore);
    var home := g.home.(score := live.homeScore);
    var away := if Greater(live.awayScore, live.homeScore) then away.(isWinner := true) else away;
    var home := if Greater(live.homeScore, live.awayScore) then home.(isWinner := true) else home;
    g.(status := live.detailedState, away := away, home := home)
  }

  /** A tie, or a missing score, sets no winner flag, and at most one side is newly made winner. */
  lemma MergeGameWinners(g: Game, live: LiveGame)
    ensures !Greater(live.awayScore, live.homeScore) && !Greater(live.homeScore, live.awayScore) ==>
      MergeGame(g, live).away.isWinner == g.away.isWinner && MergeGame(g, live).home.isWinner == g.home.isWinner
    ensures !(Greater(live.awayScore, live.homeScore) && Greater(live.homeScore, live.awayScore))
  {
  }

  /** One step of the merge loop: the first game with the live game's identifier is updated. */
  function MergeOne(games: seq<Game>, live: LiveGame): (r: seq<Game>)
    ensures |r| == |games|
    ensures FindPk(games, live.gamePk) == -1 ==> r == games
    ensures 0 <= FindPk(games, live.gamePk) ==>
      var k := FindPk(games, live.gamePk);
      r == games[k := MergeGame(games[k], live)]
  {
    var k := FindPk(games, live.gamePk);
    if k < 0 then games else games[k := MergeGame(games[k], live)]
  }

  /** The whole merge loop, the live games taken in order. */
  function MergeAll(games: seq<Game>, cur: seq<LiveGame>): (r: seq<Game>)
    ensures |r| == |games|
    ensures forall i :: 0 <= i < |games| ==> r[i].gamePk == games[i].gamePk
    ensures forall i :: 0 <= i < |games| && games[i].away.isWinner ==> r[i].away.isWinner
    ensures forall i :: 0 <= i < |games| && games[i].home.isWinner ==> r[i].home.isWinner
    decreases |cur|
  {
    if cur == [] then games
    else MergeOne(MergeAll(games, cur[..|cur| - 1]), cur[|cur| - 1])
  }

  /** The merge keeps every game's identifier, so the lookup lands on the same game. */
  lemma FindPkSameIdentifiers(games: seq<Game>, merged: seq<Game>, pk: int)
    requires |merged| == |games| && forall i :: 0 <= i < |games| ==> merged[i].gamePk == games[i].gamePk
    ensures FindPk(merged, pk) == FindPk(games, pk)
  {
  }

  /** A season game no live game names is left as it was. */
  lemma {:induction false} MergeAllUnmatched(games: seq<Game>, cur: seq<LiveGame>, i: nat)
    requires i < |games|
    requires forall j :: 0 <= j < |cur| ==> cur[j].gamePk != games[i].gamePk
    ensures MergeAll(games, cur)[i] == games[i]
    decreases |cur|
  {
    if cur != [] {
      var prefix := cur[..|cur| - 1];
      MergeAllUnmatched(games, prefix, i);
    }
  }

  /**
   * When several live games share an identifier the last one wins: the
   * first season game with that identifier carries its status and scores.
   */
  lemma {:induction false} MergeAllLastWins(games: seq<Game>, cur: seq<LiveGame>, j: nat)
    requires j < |cur| && 0 <= FindPk(games, cur[j].gamePk)
    requires forall l :: j < l < |cur| ==> cur[l].gamePk != cur[j].gamePk
    ensures
      var k := FindPk(games, cur[j].gamePk);
      var r := MergeAll(games, cur);
      r[k].status == cur[j].detailedState && r[k].away.score == cur[j].awayScore && r[k].home.score == cur[j].homeScore
    decreases |cur|
  {
    var k := FindPk(games, cur[j].gamePk);
    var prefix := cur[..|cur| - 1];
    var before := MergeAll(games, prefix);
    FindPkSameIdentifiers(games, before, cur[|cur| - 1].gamePk);
    if j < |cur| - 1 {
      assert prefix[j] == cur[j];
      MergeAllLastWins(games, prefix, j);
    } else {
      FindPkSameIdentifiers(games, before, cur[j].gamePk);
    }
  }

  /** With no live games the merge changes nothing. */
  lemma MergeNothing(games: seq<Game>)
    ensures MergeAll(games, []) == games
  {
  }

  /**
   * `get_today(season)`: an empty list unless the season reads as 92026; in
   * that branch the fetched schedule is also answered with an empty list,
   * or the fetch fails (None).
   */
  function GetToday(season: JsValue, fetchSucceeds: bool): (r: Option<seq<LiveGame>>)
    ensures ToNumber(season) != Some(92026) ==> r == Some([])
    ensures r.Some? ==> r.value == []
    ensures r == None <==> ToNumber(season) == Some(92026) && !fetchSucceeds
  {
    if ToNumber(season) != Some(92026) then Some([])
    else if fetchSucceeds then Some([])
    else None
  }

  /** Every season the dispatch can load gets an empty live list, so the merge is a no-op. */
  lemma TodayIsEmptyForDispatchedSeasons(season: JsValue, fetchSucceeds: bool, games: seq<Game>)
    ensures GetToday(Defaulted(season), fetchSucceeds) == Some([])
    ensures MergeAll(games, GetToday(Defaulted(season), fetchSucceeds).value) == games
  {
  }

  /** The `<season-selector>` element: the season last dispatched and the cells marked active. */
  class SeasonSelectorElement {
    var current: JsValue
    var active: set<string>

    constructor()
      ensures current == Undefined && active == {}
    {
      current := Undefined;
      active := {};
    }

    /**
     * `dispatch({ season })` up to the start of the loads: a season strictly
     * equal to the current one is ignored; otherwise the fallback applies,
     * every cell loses "active", and the season becomes current. `load` is
     * the season the two loads are started for.
     */
    method Dispatch(season: JsValue) returns (load: Option<JsValue>)
      modifies this
      ensures old(current) == season ==> load == None && current == old(current) && active == old(active)
      ensures old(current) != season ==>
        load == Some(Defaulted(season)) && current == Defaulted(season) && active == {}
    {
      if current == season {
        return None;
      }
      var s := Defaulted(season);
      active := {};
      current := s;
      load := Some(s);
    }

    /**
     * The continuation once both loads have answered: the live games are
     * merged into the season's game list, the chart is told (left out), and
     * the season's cell is marked active. The cell lookup throws when no
     * cell has exactly the season's text.
     */
    method Loaded(season: JsValue, cur: seq<LiveGame>, games: array<Game>) returns (thrown: bool)
      modifies this, games
      ensures games[..] == MergeAll(old(games[..]), cur)
      ensures current == old(current)
      ensures thrown <==> SeasonText(season) !in SeasonLabels()
      ensures thrown ==> active == old(active)
      ensures !thrown ==> active == old(active) + {SeasonText(season)}
    {
      MergeToday(cur, games);
      if SeasonText(season) in SeasonLabels() {
        active := active + {SeasonText(season)};
        thrown := false;
      } else {
        thrown := true;
      }
    }
  }

  /** The merge loop of `dispatch`, applied to the season's game array in place. */
  method MergeToday(cur: seq<LiveGame>, games: array<Game>)
    modifies games
    ensures games[..] == MergeAll(old(games[..]), cur)
  {
    for j := 0 to |cur|
      invariant games[..] == MergeAll(old(games[..]), cur[..j])
    {
      assert cur[..j + 1][..j] == cur[..j];
      var k := FindPk(games[..], cur[j].gamePk);
      if k >= 0 {
        games[k] := MergeGame(games[k], cur[j]);
      }
    }
    assert cur[..|cur|] == cur;
  }
}
