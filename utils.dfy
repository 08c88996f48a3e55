/**
 * The season data the chart is drawn from (a team list and a game list as
 * the per-season JSON schedule gives them) and the game-selection predicates
 * of docs/js/utils.js.
 */
module Utils {
  import opened Js

  /** An entry of the season's `teams` list. */
  datatype Team = Team(clubName: string, name: string, league: string, division: string)

  /**
   * One side of a game (`game.teams.away` or `game.teams.home`): the club
   * name, the `isWinner` flag (absent reads as false), the score once known,
   * and the side's slot on the chart.
   */
  datatype Side = Side(team: string, isWinner: bool, score: Option<int>, chartPos: int)

  /**
   * An entry of the season's `games` list. `rescheduledFrom` and
   * `resumedFrom` are present only on the copy of a postponed or suspended
   * game.
   */
  datatype Game = Game(
    gamePk: int,
    away: Side,
    home: Side,
    status: string,
    seriesGameNumber: int,
    rescheduledFrom: Option<string>,
    resumedFrom: Option<string>)

  /** The statuses `isCompleted` accepts. */
  const CompletedStatuses: seq<string> := ["Final", "Completed Early", "Game Over", "Cancelled"]

  /** `initially_scheduled`: neither a rescheduled nor a resumed copy. */
  predicate InitiallyScheduled(g: Game)
  {
    g.rescheduledFrom.None? && g.resumedFrom.None?
  }

  /** `isCompleted`: the status is one of the four final statuses. */
  predicate IsCompleted(g: Game)
  {
    g.status in CompletedStatuses
  }

  lemma CompletedStatusCases(g: Game)
    ensures IsCompleted(g) <==>
      g.status == "Final" || g.status == "Completed Early" || g.status == "Game Over" || g.status == "Cancelled"
  {
  }

  /** `isGameOf(target)(g)`: the target's club plays on one side. */
  predicate IsGameOf(target: Team, g: Game)
  {
    target.clubName in [g.away.team, g.home.team]
  }

  lemma IsGameOfSides(target: Team, g: Game)
    ensures IsGameOf(target, g) <==> target.clubName == g.away.team || target.clubName == g.home.team
  {
  }

  /** The club names of a list of sides with the target's own name filtered out. */
  function WithoutClub(names: seq<string>, club: string): (r: seq<string>)
    ensures |r| <= |names|
    ensures forall n :: n in r <==> n in names && n != club
  {
    if names == [] then []
    else (if names[0] == club then [] else [names[0]]) + WithoutClub(names[1..], club)
  }

  /** `array.at(0)`: the first element, or undefined for an empty array. */
  function First<T>(s: seq<T>): Option<T>
  {
    if s == [] then None else Some(s[0])
  }

  /**
   * `getOpponentOf(target)(g)`: the first of away, home whose club is not
   * the target's.
   */
  function GetOpponentOf(target: Team, g: Game): (r: Option<string>)
    ensures g.away.team != target.clubName ==> r == Some(g.away.team)
    ensures g.away.team == target.clubName && g.home.team != target.clubName ==> r == Some(g.home.team)
    ensures r == None <==> g.away.team == target.clubName && g.home.team == target.clubName
    ensures r != Some(target.clubName)
  {
    var sides := [g.away.team, g.home.team];
    assert sides[1..] == [g.home.team] && sides[1..][1..] == [];
    assert WithoutClub(sides[1..], target.clubName)
      == if g.home.team == target.clubName then [] else [g.home.team];
    First(WithoutClub(sides, target.clubName))
  }

  /** The side whose club is the target's (`me` in the chart code), away first. */
  function Me(target: Team, g: Game): (r: Side)
    requires IsGameOf(target, g)
    ensures r.team == target.clubName
    ensures r == g.away || r == g.home
    ensures g.away.team == target.clubName ==> r == g.away
  {
    if g.away.team == target.clubName then g.away else g.home
  }

  /** The club names of a team list, in order. */
  function ClubNames(teams: seq<Team>): (r: seq<string>)
    ensures |r| == |teams|
    ensures forall i :: 0 <= i < |teams| ==> r[i] == teams[i].clubName
  {
    seq(|teams|, i requires 0 <= i < |teams| => teams[i].clubName)
  }

  /** No two entries are equal. */
  predicate Distinct<T(==)>(s: seq<T>)
  {
    forall i, j :: 0 <= i < j < |s| ==> s[i] != s[j]
  }

  /** `teams.find((t) => t.clubName === club)`: the first team of that club. */
  function FindClub(teams: seq<Team>, club: string): (r: Option<Team>)
    ensures r == None <==> club !in ClubNames(teams)
    ensures r.Some? ==> r.value.clubName == club && r.value in teams
    ensures r.Some? ==> r.value == teams[IndexOf(ClubNames(teams), club)]
  {
    if teams == [] then None
    else if teams[0].clubName == club then Some(teams[0])
    else
      assert ClubNames(teams) == [teams[0].clubName] + ClubNames(teams[1..]);
      FindClub(teams[1..], club)
  }
}
