/**
 * The team selector of docs/js/team-selector.js: the season's teams are
 * sorted in place from AL East to NL West, one clickable tile is drawn per
 * team, and a click looks the tile's club up in that same sorted list.
 */
module TeamSelector {
  import opened Js
  import opened Utils
  import Sorting

  /** The division words in the order the selector lays them out. */
  const DivisionWords: seq<string> := ["East", "Central", "West"]

  /** The index of a team's division word, -1 when it is none of the three. */
  function DivisionIndex(t: Team): (r: int)
    ensures -1 <= r <= 2
    ensures r == -1 <==> LastWord(t.division) !in DivisionWords
    ensures 0 <= r ==> DivisionWords[r] == LastWord(t.division)
  {
    IndexOf(DivisionWords, LastWord(t.division))
  }

  /** The string the comparator compares: league, division index, then name. */
  function TileKey(t: Team): string
  {
    t.league + (IntToString(DivisionIndex(t)) + t.name)
  }

  /** The comparator of `render_teams`, applied to `a` and `b`. */
  function CompareTiles(a: Team, b: Team): (r: int)
    ensures -1 <= r <= 1
  {
    var ka, kb := TileKey(a), TileKey(b);
    if StrLess(ka, kb) then -1
    else if StrLess(kb, ka) then 1
    else 0
  }

  /** The comparator as the function value handed to `sort`. */
  function ByTile(): (Team, Team) -> int
  {
    (a, b) => CompareTiles(a, b)
  }

  /** Two teams tie exactly when their keys are equal, and never tie on both sides of a pair. */
  lemma CompareTilesTies(a: Team, b: Team)
    ensures CompareTiles(a, b) == 0 <==> TileKey(a) == TileKey(b)
    ensures CompareTiles(a, b) == -CompareTiles(b, a)
  {
    var ka, kb := TileKey(a), TileKey(b);
    if ka == kb {
      StrLessIrreflexive(ka);
    } else {
      StrLessTotal(ka, kb);
      if StrLess(ka, kb) { StrLessAsymmetric(ka, kb); } else { StrLessAsymmetric(kb, ka); }
    }
  }

  /** The comparator is one `sort` can rely on. */
  lemma ByTileConsistent()
    ensures Sorting.Consistent(ByTile())
  {
    var cmp := ByTile();
    forall a, b ensures cmp(a, b) == -cmp(b, a) {
      CompareTilesTies(a, b);
    }
    forall a, b, c | cmp(a, b) <= 0 && cmp(b, c) <= 0 ensures cmp(a, c) <= 0 {
      var ka, kb, kc := TileKey(a), TileKey(b), TileKey(c);
      CompareTilesTies(a, b);
      CompareTilesTies(b, c);
      CompareTilesTies(a, c);
      if StrLess(kc, ka) {
        if ka == kb {
          StrLessAsymmetric(kc, kb);
        } else if kb == kc {
          StrLessAsymmetric(kc, ka);
        } else {
          StrLessTransitive(ka, kb, kc);
          StrLessAsymmetric(kc, ka);
        }
      }
    }
  }

  /** Between two league names of equal length the league name alone decides. */
  lemma LeagueDecides(a: Team, b: Team)
    requires |a.league| == |b.league| && a.league != b.league
    ensures CompareTiles(a, b) == -1 <==> StrLess(a.league, b.league)
    ensures CompareTiles(a, b) != 0
  {
    var sa, sb := IntToString(DivisionIndex(a)) + a.name, IntToString(DivisionIndex(b)) + b.name;
    StrLessEqualLengthPrefix(a.league, b.league, sa, sb);
    StrLessEqualLengthPrefix(b.league, a.league, sb, sa);
    StrLessTotal(a.league, b.league);
    if StrLess(a.league, b.league) { StrLessAsymmetric(a.league, b.league); }
  }

  lemma AmericanBeforeNational(a: Team, b: Team)
    requires a.league == "American League" && b.league == "National League"
    ensures CompareTiles(a, b) == -1 && CompareTiles(b, a) == 1
  {
    LeagueDecides(a, b);
    LeagueDecides(b, a);
    assert StrLess("American League", "National League");
  }

  /** The first character of the division index's text, ordered like the index. */
  function IndexChar(i: int): char
    requires -1 <= i <= 2
  {
    IntToString(i)[0]
  }

  lemma IndexCharOrdered(i: int, j: int)
    requires -1 <= i < j <= 2
    ensures IndexChar(i) < IndexChar(j)
  {
    assert IntToString(-1) == "-1";
    assert IntToString(0) == "0" && IntToString(1) == "1" && IntToString(2) == "2";
  }

  /**
   * Within one league the divisions go East, Central, West, and a team whose
   * division is none of these comes before all of them.
   */
  lemma DivisionDecides(a: Team, b: Team)
    requires a.league == b.league && DivisionIndex(a) < DivisionIndex(b)
    ensures CompareTiles(a, b) == -1 && CompareTiles(b, a) == 1
  {
    var ia, ib := DivisionIndex(a), DivisionIndex(b);
    var sa, sb := IntToString(ia) + a.name, IntToString(ib) + b.name;
    assert StrLess(sa, sb) && !StrLess(sb, sa) by {
      IndexCharOrdered(ia, ib);
      StrLessFirstChar(sa, sb);
    }
    StrLessCommonPrefix(a.league, sa, sb);
    StrLessCommonPrefix(a.league, sb, sa);
  }

  /** Within one league and division the names are in `<` order. */
  lemma NameDecides(a: Team, b: Team)
    requires a.league == b.league && DivisionIndex(a) == DivisionIndex(b)
    ensures CompareTiles(a, b) == -1 <==> StrLess(a.name, b.name)
    ensures CompareTiles(a, b) == 0 <==> a.name == b.name
  {
    var d := IntToString(DivisionIndex(a));
    StrLessCommonPrefix(a.league, d + a.name, d + b.name);
    StrLessCommonPrefix(a.league, d + b.name, d + a.name);
    StrLessCommonPrefix(d, a.name, b.name);
    StrLessCommonPrefix(d, b.name, a.name);
    if a.name != b.name {
      StrLessTotal(a.name, b.name);
      if StrLess(a.name, b.name) { StrLessAsymmetric(a.name, b.name); }
    } else {
      StrLessIrreflexive(a.name);
    }
  }

  /** `teams.sort(...)`: the same teams, in the selector's order. */
  function SortedTeams(teams: seq<Team>): (r: seq<Team>)
    ensures multiset(r) == multiset(teams)
    ensures Sorting.SortedBy(r, ByTile())
  {
    ByTileConsistent();
    Sorting.SortBySorted(teams, ByTile());
    Sorting.SortBy(teams, ByTile())
  }

  /** A tile's dataset: `data-team`, `data-league` and `data-division`. */
  datatype Tile = Tile(team: string, league: string, division: string)

  /** One tile per team, in the order of the teams. */
  function TilesOf(teams: seq<Team>): (r: seq<Tile>)
    ensures |r| == |teams|
    ensures forall i :: 0 <= i < |teams| ==>
      r[i].team == teams[i].clubName && r[i].league == teams[i].league && r[i].division == teams[i].division
  {
    seq(|teams|, i requires 0 <= i < |teams| => Tile(teams[i].clubName, teams[i].league, teams[i].division))
  }

  /** The click handler: `teams.find((t) => team === t.clubName)` on the sorted list. */
  function ClickTarget(teams: seq<Team>, tile: Tile): (r: Option<Team>)
    ensures r.None? <==> tile.team !in ClubNames(teams)
    ensures r.Some? ==> r.value in teams && r.value.clubName == tile.team
    ensures r.Some? ==> r.value == teams[IndexOf(ClubNames(teams), tile.team)]
  {
    FindClub(teams, tile.team)
  }

  /** With distinct club names, clicking the i-th tile selects the i-th team. */
  lemma ClickSelectsTile(teams: seq<Team>, i: nat)
    requires Distinct(ClubNames(teams)) && i < |teams|
    ensures ClickTarget(teams, TilesOf(teams)[i]) == Some(teams[i])
  {
    var names := ClubNames(teams);
    assert names[i] == teams[i].clubName;
    assert IndexOf(names, teams[i].clubName) == i;
  }

  /** The `<team-selector>` element: its tiles, left to right. */
  class TeamSelectorElement {
    var tiles: seq<Tile>

    constructor()
      ensures tiles == []
    {
      tiles := [];
    }

    /**
     * `render_teams`: sorts the season's team array in place (the array the
     * chart reads as well) and replaces the tiles with one per team.
     */
    method RenderTeams(teams: array<Team>)
      modifies this, teams
      ensures teams[..] == SortedTeams(old(teams[..]))
      ensures tiles == TilesOf(teams[..])
    {
      var sorted := SortedTeams(teams[..]);
      forall i | 0 <= i < teams.Length {
        teams[i] := sorted[i];
      }
      assert teams[..] == sorted;
      tiles := TilesOf(teams[..]);
    }
  }
}
