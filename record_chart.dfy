/**
 * The data pass of the win-loss wheel (docs/js/record-chart.js): the order
 * of the opponents around the circle, the selection of the target team's
 * scheduled games, one marker per game, the winner/loser stamps, the
 * season record and the per-opponent and per-division arcs.
 *
 * The drawing surface is a `Chart` whose state is what the data pass writes
 * into it: the game markers, the record text and the arcs.
 */
module RecordChart {
  import opened Js
  import opened Utils
  import Sorting

  // ---------------------------------------------------------------------
  // byDivision
  // ---------------------------------------------------------------------

  const Divisions: seq<string> := ["East", "Central", "West"]

  /**
   * The sort criterion `byDivision(team)` computes for a team `t`: the index
   * of its division in East, Central, West when it plays in the target's
   * league, else five plus the index in West, Central, East.
   */
  function DivisionRank(team: Team, t: Team): (r: int)
    ensures t.league == team.league ==> -1 <= r <= 2
    ensures t.league != team.league ==> 4 <= r <= 7
    ensures t.league == team.league ==>
      (LastWord(t.division) == "East" <==> r == 0) &&
      (LastWord(t.division) == "Central" <==> r == 1) &&
      (LastWord(t.division) == "West" <==> r == 2)
    ensures t.league != team.league ==>
      (LastWord(t.division) == "West" <==> r == 5) &&
      (LastWord(t.division) == "Central" <==> r == 6) &&
      (LastWord(t.division) == "East" <==> r == 7)
  {
    var last := LastWord(t.division);
    if t.league == team.league then IndexOf(Divisions, last)
    else 5 + IndexOf(["West", "Central", "East"], last)
  }

  /** The comparator `byDivision(team)` returns, applied to `a` and `b`. */
  function CompareByDivision(team: Team, a: Team, b: Team): (r: int)
    ensures -1 <= r <= 1
  {
    var ra, rb := DivisionRank(team, a), DivisionRank(team, b);
    if ra > rb then 1
    else if ra < rb then -1
    else if StrLess(b.name, a.name) then 1
    else if StrLess(a.name, b.name) then -1
    else 0
  }

  /** `byDivision(team)`: a comparator for `Array.prototype.sort`. */
  function ByDivision(team: Team): (Team, Team) -> int
  {
    (a, b) => CompareByDivision(team, a, b)
  }

  /** Every opponent of the target's league sorts before every other opponent. */
  lemma SameLeagueFirst(team: Team, a: Team, b: Team)
    requires a.league == team.league && b.league != team.league
    ensures ByDivision(team)(a, b) == -1 && ByDivision(team)(b, a) == 1
  {
    assert DivisionRank(team, a) <= 2 && 4 <= DivisionRank(team, b);
    assert CompareByDivision(team, a, b) == -1 && CompareByDivision(team, b, a) == 1;
  }

  /** Within one rank the names decide, and only equal rank and name compare equal. */
  lemma ByDivisionTies(team: Team, a: Team, b: Team)
    ensures ByDivision(team)(a, b) == 0 <==>
      DivisionRank(team, a) == DivisionRank(team, b) && a.name == b.name
    ensures DivisionRank(team, a) == DivisionRank(team, b) ==>
      (ByDivision(team)(a, b) == -1 <==> StrLess(a.name, b.name))
  {
    if a.name != b.name { StrLessTotal(a.name, b.name); }
    else { StrLessIrreflexive(a.name); }
    if StrLess(a.name, b.name) { StrLessAsymmetric(a.name, b.name); }
  }

  lemma ByDivisionAntisymmetric(team: Team, a: Team, b: Team)
    ensures ByDivision(team)(a, b) == -ByDivision(team)(b, a)
  {
    if StrLess(a.name, b.name) { StrLessAsymmetric(a.name, b.name); }
    if StrLess(b.name, a.name) { StrLessAsymmetric(b.name, a.name); }
  }

  lemma ByDivisionTransitive(team: Team, a: Team, b: Team, c: Team)
    requires ByDivision(team)(a, b) <= 0 && ByDivision(team)(b, c) <= 0
    ensures ByDivision(team)(a, c) <= 0
  {
    var ra, rb, rc := DivisionRank(team, a), DivisionRank(team, b), DivisionRank(team, c);
    assert ByDivision(team)(a, b) == CompareByDivision(team, a, b);
    assert ByDivision(team)(b, c) == CompareByDivision(team, b, c);
    assert ByDivision(team)(a, c) == CompareByDivision(team, a, c);
    assert ra <= rb <= rc;
    if ra == rb == rc {
      ByDivisionTies(team, a, b);
      ByDivisionTies(team, b, c);
      ByDivisionTies(team, a, c);
      if StrLess(a.name, b.name) && StrLess(b.name, c.name) { StrLessTransitive(a.name, b.name, c.name); }
      if StrLess(c.name, a.name) {
        StrLessAsymmetric(c.name, a.name);
        if a.name == b.name { StrLessAsymmetric(c.name, b.name); }
        else if b.name == c.name { StrLessAsymmetric(a.name, b.name); }
        else { StrLessTransitive(c.name, a.name, b.name); StrLessAsymmetric(c.name, b.name); }
      }
    }
  }

  /** The comparator is one `Array.prototype.sort` can rely on. */
  lemma ByDivisionConsistent(team: Team)
    ensures Sorting.Consistent(ByDivision(team))
  {
    forall a, b ensures ByDivision(team)(a, b) == -ByDivision(team)(b, a) {
      ByDivisionAntisymmetric(team, a, b);
    }
    forall a, b, c | ByDivision(team)(a, b) <= 0 && ByDivision(team)(b, c) <= 0
      ensures ByDivision(team)(a, c) <= 0
    {
      ByDivisionTransitive(team, a, b, c);
    }
  }

  // ---------------------------------------------------------------------
  // Opponents
  // ---------------------------------------------------------------------

  /** `teams.filter((t) => t.name !== targetTeam.name)`. */
  function OtherTeams(teams: seq<Team>, target: Team): (r: seq<Team>)
    ensures forall t :: t in r <==> t in teams && t.name != target.name
    ensures multiset(r) <= multiset(teams)
  {
    if teams == [] then []
    else
      assert teams == [teams[0]] + teams[1..];
      (if teams[0].name != target.name then [teams[0]] else []) + OtherTeams(teams[1..], target)
  }

  /** The opponents in their order around the circle. */
  function Opponents(teams: seq<Team>, target: Team): (r: seq<Team>)
    ensures multiset(r) == multiset(OtherTeams(teams, target))
    ensures forall t :: t in r ==> t in teams && t.name != target.name
    ensures Sorting.SortedBy(r, ByDivision(target))
  {
    var others := OtherTeams(teams, target);
    ByDivisionConsistent(target);
    Sorting.SortBySorted(others, ByDivision(target));
    var r := Sorting.SortBy(others, ByDivision(target));
    assert forall t :: t in r ==> t in multiset(others);
    r
  }

  // ---------------------------------------------------------------------
  // Scheduled games
  // ---------------------------------------------------------------------

  /**
   * A scheduled game of the target team as the chart pass annotates it:
   * the game, its opponent (undefined when both sides are the target), the
   * target's own side, and the `opIdx` and `pos` fields the pass fills in
   * later (-1 and 0 until then).
   */
  datatype Scheduled = Scheduled(game: Game, opponent: Option<string>, me: Side, opIdx: int, pos: int)

  function Annotate(target: Team, g: Game): (s: Scheduled)
    requires IsGameOf(target, g)
    ensures s.game == g && s.me.team == target.clubName
  {
    Scheduled(g, GetOpponentOf(target, g), Me(target, g), -1, 0)
  }

  /** `games.filter(isGameOf(targetTeam)).filter(initially_scheduled).map(...)`. */
  function ScheduledGames(games: seq<Game>, target: Team): (r: seq<Scheduled>)
    ensures |r| <= |games|
    ensures forall s :: s in r ==>
      s.game in games && IsGameOf(target, s.game) && InitiallyScheduled(s.game) && s == Annotate(target, s.game)
    ensures forall g :: g in games && IsGameOf(target, g) && InitiallyScheduled(g) ==> Annotate(target, g) in r
    ensures forall g {:trigger multiset(r)[Annotate(target, g)]} :: IsGameOf(target, g) && InitiallyScheduled(g) ==>
      multiset(r)[Annotate(target, g)] == multiset(games)[g]
  {
    if games == [] then []
    else
      var g := games[0];
      assert games == [g] + games[1..];
      (if IsGameOf(target, g) && InitiallyScheduled(g) then [Annotate(target, g)] else [])
        + ScheduledGames(games[1..], target)
  }

  /** Rescheduled and resumed copies of a game are never selected. */
  lemma RescheduledCopiesSkipped(games: seq<Game>, target: Team, g: Game)
    requires g.rescheduledFrom.Some? || g.resumedFrom.Some?
    ensures forall x :: x in ScheduledGames(games, target) ==> x.game != g
  {
  }

  /** The filters keep the order of the games: selecting from a concatenation concatenates the selections. */
  lemma {:induction false} ScheduledGamesAppend(a: seq<Game>, b: seq<Game>, target: Team)
    ensures ScheduledGames(a + b, target) == ScheduledGames(a, target) + ScheduledGames(b, target)
  {
    if a == [] {
      assert a + b == b;
    } else {
      var head := if IsGameOf(target, a[0]) && InitiallyScheduled(a[0]) then [Annotate(target, a[0])] else [];
      assert (a + b)[0] == a[0] && (a + b)[1..] == a[1..] + b;
      ScheduledGamesAppend(a[1..], b, target);
      calc {
        ScheduledGames(a + b, target);
        head + ScheduledGames(a[1..] + b, target);
        head + (ScheduledGames(a[1..], target) + ScheduledGames(b, target));
        (head + ScheduledGames(a[1..], target)) + ScheduledGames(b, target);
        ScheduledGames(a, target) + ScheduledGames(b, target);
      }
    }
  }

  /**
   * `opponents.findIndex((t) => t.clubName === game.opponent)`: the index of
   * the first opponent of that club, or -1.
   */
  function OpIndex(opponents: seq<Team>, opponent: Option<string>): (r: int)
    ensures -1 <= r < |opponents|
    ensures r == -1 <==> forall i :: 0 <= i < |opponents| ==> Some(opponents[i].clubName) != opponent
    ensures 0 <= r ==> Some(opponents[r].clubName) == opponent
    ensures 0 <= r ==> forall i :: 0 <= i < r ==> Some(opponents[i].clubName) != opponent
  {
    if opponents == [] then -1
    else if Some(opponents[0].clubName) == opponent then 0
    else
      var k := OpIndex(opponents[1..], opponent);
      if k < 0 then -1 else k + 1
  }

  /** `add_opIdx(opponents)` applied to every scheduled game, in place. */
  method AddOpIdx(opponents: seq<Team>, a: array<Scheduled>)
    modifies a
    ensures forall i :: 0 <= i < a.Length ==> a[i] == old(a[i]).(opIdx := OpIndex(opponents, old(a[i]).opponent))
  {
    for k := 0 to a.Length
      invariant forall i :: 0 <= i < k ==> a[i] == old(a[i]).(opIdx := OpIndex(opponents, old(a[i]).opponent))
      invariant forall i :: k <= i < a.Length ==> a[i] == old(a[i])
    {
      a[k] := a[k].(opIdx := OpIndex(opponents, a[k].opponent));
    }
  }

  /** `(a, b) => a.opIdx - b.opIdx`. */
  function CompareOpIdx(a: Scheduled, b: Scheduled): int
  {
    a.opIdx - b.opIdx
  }

  lemma CompareOpIdxConsistent()
    ensures Sorting.Consistent(CompareOpIdx)
  {
  }

  /** `scheduled.forEach((g) => { g.pos = g.me.chartPos; })`. */
  method AssignPos(a: array<Scheduled>)
    modifies a
    ensures forall i :: 0 <= i < a.Length ==> a[i] == old(a[i]).(pos := old(a[i]).me.chartPos)
  {
    for k := 0 to a.Length
      invariant forall i :: 0 <= i < k ==> a[i] == old(a[i]).(pos := old(a[i]).me.chartPos)
      invariant forall i :: k <= i < a.Length ==> a[i] == old(a[i])
    {
      a[k] := a[k].(pos := a[k].me.chartPos);
    }
  }

  /** The list `draw_chart` ends with: annotated, sorted by opponent index, positioned. */
  function Prepared(games: seq<Game>, target: Team, opponents: seq<Team>): (r: seq<Scheduled>)
    ensures |r| == |ScheduledGames(games, target)|
  {
    Positioned(Sorting.SortBy(Indexed(ScheduledGames(games, target), opponents), CompareOpIdx))
  }

  /** The list after `.map(add_opIdx(opponents))`. */
  function Indexed(s: seq<Scheduled>, opponents: seq<Team>): (r: seq<Scheduled>)
    ensures |r| == |s|
    ensures forall i :: 0 <= i < |s| ==> r[i] == s[i].(opIdx := OpIndex(opponents, s[i].opponent))
  {
    seq(|s|, i requires 0 <= i < |s| => s[i].(opIdx := OpIndex(opponents, s[i].opponent)))
  }

  /** The list after the `forEach` that copies each chart position into `pos`. */
  function Positioned(s: seq<Scheduled>): (r: seq<Scheduled>)
    ensures |r| == |s|
    ensures forall i :: 0 <= i < |s| ==> r[i] == s[i].(pos := s[i].me.chartPos)
  {
    Sorting.Map(s, WithChartPos)
  }

  /** `g.pos = g.me.chartPos` on one game. */
  function WithChartPos(x: Scheduled): Scheduled
  {
    x.(pos := x.me.chartPos)
  }

  /**
   * The prepared list holds one entry per scheduled game, ordered by
   * opponent index, each entry carrying the index of its own opponent and
   * its own chart position.
   */
  lemma PreparedOrder(games: seq<Game>, target: Team, opponents: seq<Team>)
    ensures |Prepared(games, target, opponents)| == |ScheduledGames(games, target)|
    ensures multiset(Prepared(games, target, opponents))
         == multiset(Positioned(Indexed(ScheduledGames(games, target), opponents)))
    ensures forall i, j :: 0 <= i < j < |Prepared(games, target, opponents)| ==>
      Prepared(games, target, opponents)[i].opIdx <= Prepared(games, target, opponents)[j].opIdx
    ensures forall x :: x in Prepared(games, target, opponents) ==>
      x.opIdx == OpIndex(opponents, x.opponent) && x.pos == x.me.chartPos
  {
    var indexed := Indexed(ScheduledGames(games, target), opponents);
    var sorted := Sorting.SortBy(indexed, CompareOpIdx);
    CompareOpIdxConsistent();
    Sorting.SortBySorted(indexed, CompareOpIdx);
    forall x | x in sorted ensures x.opIdx == OpIndex(opponents, x.opponent) {
      assert x in multiset(indexed);
    }
    PositionedOrder(sorted, opponents);
    Sorting.MapPermutation(sorted, indexed, WithChartPos);
  }

  /** Copying the chart positions keeps the order and the opponent indices. */
  lemma PositionedOrder(sorted: seq<Scheduled>, opponents: seq<Team>)
    requires Sorting.SortedBy(sorted, CompareOpIdx)
    requires forall x :: x in sorted ==> x.opIdx == OpIndex(opponents, x.opponent)
    ensures forall i, j :: 0 <= i < j < |Positioned(sorted)| ==> Positioned(sorted)[i].opIdx <= Positioned(sorted)[j].opIdx
    ensures forall x :: x in Positioned(sorted) ==> x.opIdx == OpIndex(opponents, x.opponent) && x.pos == x.me.chartPos
  {
    var p := Positioned(sorted);
    forall i, j | 0 <= i < j < |p| ensures p[i].opIdx <= p[j].opIdx {
      assert CompareOpIdx(sorted[i], sorted[j]) <= 0;
    }
    forall x | x in p ensures x.opIdx == OpIndex(opponents, x.opponent) && x.pos == x.me.chartPos {
      var i :| 0 <= i < |p| && p[i] == x;
      assert sorted[i] in sorted;
    }
  }

  /**
   * `Math.max(...scheduled.map((g) => g.me.chartPos))`; the maximum of no
   * values is -Infinity, written None.
   */
  function NumSeries(s: seq<Scheduled>): (r: Option<int>)
    ensures r == None <==> s == []
    ensures r.Some? ==> forall i :: 0 <= i < |s| ==> s[i].me.chartPos <= r.value
    ensures r.Some? ==> exists i :: 0 <= i < |s| && s[i].me.chartPos == r.value
  {
    if s == [] then None
    else
      var rest := NumSeries(s[1..]);
      if rest.None? || s[0].me.chartPos >= rest.value then Some(s[0].me.chartPos)
      else
        assert forall i :: 1 <= i < |s| ==> s[i] == s[1..][i - 1];
        rest
  }

  /** `teams.filter((t) => t.league !== targetTeam.league).map((t) => t.clubName)`. */
  function OtherLeagueClubs(teams: seq<Team>, target: Team): (r: seq<string>)
    ensures forall c :: c in r <==> exists t :: t in teams && t.league != target.league && t.clubName == c
  {
    if teams == [] then []
    else
      assert teams == [teams[0]] + teams[1..];
      (if teams[0].league != target.league then [teams[0].clubName] else []) + OtherLeagueClubs(teams[1..], target)
  }

  /** `otherLeagueTeams.includes(g.opponent) && g.seriesGameNumber === 1`. */
  predicate OpensInterLeague(x: Scheduled, otherClubs: seq<string>)
  {
    x.opponent.Some? && x.opponent.value in otherClubs && x.game.seriesGameNumber == 1
  }

  /** The scheduled games that open a series against an other-league opponent. */
  function InterLeagueOpeners(s: seq<Scheduled>, otherClubs: seq<string>): (r: seq<Scheduled>)
    ensures |r| <= |s|
    ensures forall x :: x in r <==>
      x in s && x.opponent.Some? && x.opponent.value in otherClubs && x.game.seriesGameNumber == 1
    ensures forall x {:trigger multiset(r)[x]} :: multiset(r)[x] ==
                 if OpensInterLeague(x, otherClubs) then multiset(s)[x] else 0
  {
    if s == [] then []
    else
      var x := s[0];
      assert s == [x] + s[1..];
      (if OpensInterLeague(x, otherClubs) then [x] else []) + InterLeagueOpeners(s[1..], otherClubs)
  }

  /** The openers keep the order of the scheduled games. */
  lemma {:induction false} InterLeagueOpenersAppend(a: seq<Scheduled>, b: seq<Scheduled>, otherClubs: seq<string>)
    ensures InterLeagueOpeners(a + b, otherClubs) == InterLeagueOpeners(a, otherClubs) + InterLeagueOpeners(b, otherClubs)
  {
    if a == [] {
      assert a + b == b;
    } else {
      var head := if OpensInterLeague(a[0], otherClubs) then [a[0]] else [];
      assert (a + b)[0] == a[0] && (a + b)[1..] == a[1..] + b;
      InterLeagueOpenersAppend(a[1..], b, otherClubs);
      calc {
        InterLeagueOpeners(a + b, otherClubs);
        head + InterLeagueOpeners(a[1..] + b, otherClubs);
        head + (InterLeagueOpeners(a[1..], otherClubs) + InterLeagueOpeners(b, otherClubs));
        (head + InterLeagueOpeners(a[1..], otherClubs)) + InterLeagueOpeners(b, otherClubs);
        InterLeagueOpeners(a, otherClubs) + InterLeagueOpeners(b, otherClubs);
      }
    }
  }

  /** The maximum depends on the chart positions only. */
  lemma {:induction false} NumSeriesSameChartPos(s: seq<Scheduled>, t: seq<Scheduled>)
    requires |s| == |t| && forall i :: 0 <= i < |s| ==> s[i].me.chartPos == t[i].me.chartPos
    ensures NumSeries(s) == NumSeries(t)
  {
    if s != [] {
      NumSeriesSameChartPos(s[1..], t[1..]);
    }
  }

  /** `numInterLeague`. */
  function NumInterLeague(s: seq<Scheduled>, teams: seq<Team>, target: Team): (n: nat)
    ensures n <= |s|
  {
    |InterLeagueOpeners(s, OtherLeagueClubs(teams, target))|
  }

  // ---------------------------------------------------------------------
  // Markers
  // ---------------------------------------------------------------------

  /**
   * A game marker (a `circle` in `#gGames`) with the dataset fields the data
   * pass reads and writes: the winner and loser clubs once stamped, and the
   * `lost` class.
   */
  datatype Marker = Marker(
    gamePk: int,
    opponent: string,
    opIdx: int,
    pos: int,
    seriesGameNumber: int,
    winner: Option<string>,
    loser: Option<string>,
    lost: bool)

  /** The chart's scale `z` and the inner radius `rOffset`. */
  const Z: int := 78
  const ROffset: int := 8

  function MarkerOf(x: Scheduled): Marker
    requires x.opponent.Some?
  {
    Marker(x.game.gamePk, x.opponent.value, x.opIdx, x.pos, x.game.seriesGameNumber, None, None, false)
  }

  /** The radial factor `z * (rOffset + seriesGameNumber)` of a marker. */
  function RadialFactor(m: Marker): int
  {
    Z * (ROffset + m.seriesGameNumber)
  }

  /** Repeat meetings move outwards: a later game of a series sits farther out. */
  lemma RadialFactorIncreasing(m1: Marker, m2: Marker)
    requires m1.seriesGameNumber < m2.seriesGameNumber
    ensures RadialFactor(m1) < RadialFactor(m2)
  {
  }

  /** `scheduled.filter((g) => g.opponent === club)`. */
  function WithOpponent(s: seq<Scheduled>, club: string): (r: seq<Scheduled>)
    ensures |r| <= |s|
    ensures forall x :: x in r <==> x in s && x.opponent == Some(club)
  {
    if s == [] then []
    else
      assert s == [s[0]] + s[1..];
      (if s[0].opponent == Some(club) then [s[0]] else []) + WithOpponent(s[1..], club)
  }

  /** The games behind the markers: for each club in turn, its scheduled games. */
  function MarkerGames(clubs: seq<string>, s: seq<Scheduled>): (r: seq<Scheduled>)
    ensures forall x :: x in r ==> x in s && x.opponent.Some? && x.opponent.value in clubs
  {
    if clubs == [] then []
    else WithOpponent(s, clubs[0]) + MarkerGames(clubs[1..], s)
  }

  /** `teams.map((op) => scheduled.filter(...).map(makeDot)).flat()`. */
  function Markers(teams: seq<Team>, s: seq<Scheduled>): (r: seq<Marker>)
    ensures |r| == |MarkerGames(ClubNames(teams), s)|
    ensures forall i :: 0 <= i < |r| ==>
      var x := MarkerGames(ClubNames(teams), s)[i];
      && r[i].gamePk == x.game.gamePk && r[i].opponent == x.opponent.value
      && r[i].pos == x.pos && r[i].seriesGameNumber == x.game.seriesGameNumber
      && r[i].winner == None && r[i].loser == None && !r[i].lost
  {
    var gs := MarkerGames(ClubNames(teams), s);
    seq(|gs|, i requires 0 <= i < |gs| => MarkerOf(gs[i]))
  }

  /** The scheduled games whose opponent is one of `clubs`. */
  function KnownOpponent(s: seq<Scheduled>, clubs: seq<string>): (r: seq<Scheduled>)
    ensures |r| <= |s|
    ensures forall x :: x in r <==> x in s && x.opponent.Some? && x.opponent.value in clubs
  {
    if s == [] then []
    else
      assert s == [s[0]] + s[1..];
      (if s[0].opponent.Some? && s[0].opponent.value in clubs then [s[0]] else []) + KnownOpponent(s[1..], clubs)
  }

  lemma {:induction false} KnownOpponentSplit(s: seq<Scheduled>, c: string, cs: seq<string>)
    requires c !in cs
    ensures multiset(KnownOpponent(s, [c] + cs)) == multiset(WithOpponent(s, c)) + multiset(KnownOpponent(s, cs))
  {
    if s != [] {
      KnownOpponentSplit(s[1..], c, cs);
    }
  }

  /**
   * With distinct club names every scheduled game whose opponent is a known
   * club gets exactly one marker: the marker games are that list up to order.
   */
  lemma {:induction false} MarkersOnePerGame(clubs: seq<string>, s: seq<Scheduled>)
    requires Distinct(clubs)
    ensures multiset(MarkerGames(clubs, s)) == multiset(KnownOpponent(s, clubs))
  {
    if clubs == [] {
      KnownOpponentNone(s);
    } else {
      assert clubs == [clubs[0]] + clubs[1..];
      assert clubs[0] !in clubs[1..] by {
        forall j | 0 <= j < |clubs[1..]| ensures clubs[1..][j] != clubs[0] {
          assert clubs[1..][j] == clubs[j + 1];
        }
      }
      MarkersOnePerGame(clubs[1..], s);
      KnownOpponentSplit(s, clubs[0], clubs[1..]);
    }
  }

  lemma {:induction false} KnownOpponentNone(s: seq<Scheduled>)
    ensures KnownOpponent(s, []) == []
  {
    if s != [] { KnownOpponentNone(s[1..]); }
  }

  /** How often a game occurs in the filtered list depends only on how often it occurs in `s`. */
  lemma {:induction false} KnownOpponentCount(s: seq<Scheduled>, clubs: seq<string>, x: Scheduled)
    ensures multiset(KnownOpponent(s, clubs))[x] ==
      if x.opponent.Some? && x.opponent.value in clubs then multiset(s)[x] else 0
  {
    if s != [] {
      assert s == [s[0]] + s[1..];
      KnownOpponentCount(s[1..], clubs, x);
    }
  }

  lemma KnownOpponentPermutation(s: seq<Scheduled>, t: seq<Scheduled>, clubs: seq<string>)
    requires multiset(s) == multiset(t)
    ensures multiset(KnownOpponent(s, clubs)) == multiset(KnownOpponent(t, clubs))
    ensures |KnownOpponent(s, clubs)| == |KnownOpponent(t, clubs)|
  {
    forall x ensures multiset(KnownOpponent(s, clubs))[x] == multiset(KnownOpponent(t, clubs))[x] {
      KnownOpponentCount(s, clubs, x);
      KnownOpponentCount(t, clubs, x);
    }
    assert multiset(KnownOpponent(s, clubs)) == multiset(KnownOpponent(t, clubs));
    assert |multiset(KnownOpponent(s, clubs))| == |KnownOpponent(s, clubs)|;
    assert |multiset(KnownOpponent(t, clubs))| == |KnownOpponent(t, clubs)|;
  }

  /** Rewriting fields other than the opponent keeps the count of known-opponent games. */
  lemma {:induction false} KnownOpponentSameOpponents(s: seq<Scheduled>, t: seq<Scheduled>, clubs: seq<string>)
    requires |s| == |t| && forall i :: 0 <= i < |s| ==> s[i].opponent == t[i].opponent
    ensures |KnownOpponent(s, clubs)| == |KnownOpponent(t, clubs)|
  {
    if s != [] {
      KnownOpponentSameOpponents(s[1..], t[1..], clubs);
    }
  }

  /**
   * The chart draws exactly one marker for each game that involves the
   * target, was initially scheduled and is played against a listed club,
   * when the club names are distinct.
   */
  lemma MarkerCountMatchesGames(teams: seq<Team>, games: seq<Game>, target: Team)
    requires Distinct(ClubNames(teams))
    ensures |Markers(teams, Prepared(games, target, Opponents(teams, target)))|
         == |KnownOpponent(ScheduledGames(games, target), ClubNames(teams))|
  {
    var clubs := ClubNames(teams);
    var opponents := Opponents(teams, target);
    var s := ScheduledGames(games, target);
    var indexed := Indexed(s, opponents);
    var sorted := Sorting.SortBy(indexed, CompareOpIdx);
    var p := Prepared(games, target, opponents);
    MarkersOnePerGame(clubs, p);
    assert |MarkerGames(clubs, p)| == |multiset(MarkerGames(clubs, p))|;
    assert |KnownOpponent(p, clubs)| == |multiset(KnownOpponent(p, clubs))|;
    KnownOpponentSameOpponents(p, sorted, clubs);
    KnownOpponentPermutation(sorted, indexed, clubs);
    KnownOpponentSameOpponents(indexed, s, clubs);
  }

  /** The game behind a scheduled entry. */
  function GameOf(x: Scheduled): Game
  {
    x.game
  }

  /**
   * Entries that agree on their games and opponents select the same games,
   * whatever their `opIdx` and `pos`.
   */
  lemma {:induction false} KnownOpponentSameGames(s: seq<Scheduled>, t: seq<Scheduled>, clubs: seq<string>)
    requires |s| == |t|
    requires forall i :: 0 <= i < |s| ==> s[i].game == t[i].game && s[i].opponent == t[i].opponent
    ensures Sorting.Map(KnownOpponent(s, clubs), GameOf) == Sorting.Map(KnownOpponent(t, clubs), GameOf)
  {
    if s != [] {
      KnownOpponentSameGames(s[1..], t[1..], clubs);
      var hs := if s[0].opponent.Some? && s[0].opponent.value in clubs then [s[0]] else [];
      var ht := if t[0].opponent.Some? && t[0].opponent.value in clubs then [t[0]] else [];
      Sorting.MapAppend(hs, KnownOpponent(s[1..], clubs), GameOf);
      Sorting.MapAppend(ht, KnownOpponent(t[1..], clubs), GameOf);
    }
  }

  /**
   * With distinct club names, the games behind the markers are exactly the
   * target's initially scheduled games against a club of the season, each
   * drawn as often as it occurs in the game list.
   */
  lemma MarkerGamesAreScheduledGames(teams: seq<Team>, games: seq<Game>, target: Team)
    requires Distinct(ClubNames(teams))
    ensures
      var p := Prepared(games, target, Opponents(teams, target));
      multiset(Sorting.Map(MarkerGames(ClubNames(teams), p), GameOf))
        == multiset(Sorting.Map(KnownOpponent(ScheduledGames(games, target), ClubNames(teams)), GameOf))
  {
    var clubs := ClubNames(teams);
    var opponents := Opponents(teams, target);
    var s := ScheduledGames(games, target);
    var indexed := Indexed(s, opponents);
    var sorted := Sorting.SortBy(indexed, CompareOpIdx);
    var p := Prepared(games, target, opponents);
    MarkersOnePerGame(clubs, p);
    Sorting.MapPermutation(MarkerGames(clubs, p), KnownOpponent(p, clubs), GameOf);
    KnownOpponentSameGames(p, sorted, clubs);
    KnownOpponentPermutation(sorted, indexed, clubs);
    Sorting.MapPermutation(KnownOpponent(sorted, clubs), KnownOpponent(indexed, clubs), GameOf);
    KnownOpponentSameGames(indexed, s, clubs);
  }

  /** A game whose entry is among the marker games has a marker with its identifier. */
  lemma MarkerOfDrawnGame(teams: seq<Team>, p: seq<Scheduled>, g: Game)
    requires g in multiset(Sorting.Map(MarkerGames(ClubNames(teams), p), GameOf))
    ensures exists m :: m in Markers(teams, p) && m.gamePk == g.gamePk
  {
    var drawn := Sorting.Map(MarkerGames(ClubNames(teams), p), GameOf);
    var i :| 0 <= i < |drawn| && drawn[i] == g;
    assert Markers(teams, p)[i].gamePk == g.gamePk;
  }

  /** A known-opponent game of the target is among the known-opponent games. */
  lemma ScheduledGameIsKnown(games: seq<Game>, target: Team, clubs: seq<string>, g: Game)
    requires g in games && IsGameOf(target, g) && InitiallyScheduled(g)
    requires GetOpponentOf(target, g).Some? && GetOpponentOf(target, g).value in clubs
    ensures g in multiset(Sorting.Map(KnownOpponent(ScheduledGames(games, target), clubs), GameOf))
  {
    var known := KnownOpponent(ScheduledGames(games, target), clubs);
    var x := Annotate(target, g);
    assert x in known;
    var k :| 0 <= k < |known| && known[k] == x;
    assert Sorting.Map(known, GameOf)[k] == g;
  }

  /**
   * With distinct club names, every initially scheduled game of the target
   * against a club of the season has a marker with its identifier.
   */
  lemma EveryGameHasMarker(teams: seq<Team>, games: seq<Game>, target: Team, g: Game)
    requires Distinct(ClubNames(teams))
    requires g in games && IsGameOf(target, g) && InitiallyScheduled(g)
    requires GetOpponentOf(target, g).Some? && GetOpponentOf(target, g).value in ClubNames(teams)
    ensures exists m :: m in Markers(teams, Prepared(games, target, Opponents(teams, target))) && m.gamePk == g.gamePk
  {
    var p := Prepared(games, target, Opponents(teams, target));
    ScheduledGameIsKnown(games, target, ClubNames(teams), g);
    MarkerGamesAreScheduledGames(teams, games, target);
    MarkerOfDrawnGame(teams, p, g);
  }

  /** A marker drawn from a permutation of the positioned entries comes from one of the entries. */
  lemma MarkerFromEntry(teams: seq<Team>, p: seq<Scheduled>, s: seq<Scheduled>, opponents: seq<Team>, m: Marker)
    requires multiset(p) == multiset(Positioned(Indexed(s, opponents)))
    requires m in Markers(teams, p)
    ensures m.opponent in ClubNames(teams)
    ensures exists j :: 0 <= j < |s| && m.gamePk == s[j].game.gamePk && s[j].opponent == Some(m.opponent)
  {
    var gs := MarkerGames(ClubNames(teams), p);
    var i :| 0 <= i < |Markers(teams, p)| && Markers(teams, p)[i] == m;
    var x := gs[i];
    assert x in p;
    assert x in multiset(Positioned(Indexed(s, opponents)));
    var j :| 0 <= j < |s| && Positioned(Indexed(s, opponents))[j] == x;
    assert x.game == s[j].game && x.opponent == s[j].opponent;
  }

  /** Every marker carries the identifier of an initially scheduled game of the target against a club of the season. */
  lemma EveryMarkerHasGame(teams: seq<Team>, games: seq<Game>, target: Team, m: Marker)
    requires m in Markers(teams, Prepared(games, target, Opponents(teams, target)))
    ensures m.opponent in ClubNames(teams)
    ensures exists g :: g in games && IsGameOf(target, g) && InitiallyScheduled(g) && m.gamePk == g.gamePk && GetOpponentOf(target, g) == Some(m.opponent)
  {
    var opponents := Opponents(teams, target);
    var s := ScheduledGames(games, target);
    PreparedOrder(games, target, opponents);
    MarkerFromEntry(teams, Prepared(games, target, opponents), s, opponents, m);
    var j :| 0 <= j < |s| && m.gamePk == s[j].game.gamePk && s[j].opponent == Some(m.opponent);
    assert s[j] in s;
  }

  /** Once positions are assigned, no marker lies beyond `numSeries`. */
  lemma MarkerPosWithinSeries(teams: seq<Team>, s: seq<Scheduled>)
    requires forall x :: x in s ==> x.pos == x.me.chartPos
    requires s != []
    ensures forall m :: m in Markers(teams, s) ==> m.pos <= NumSeries(s).value
  {
    var gs := MarkerGames(ClubNames(teams), s);
    forall m | m in Markers(teams, s) ensures m.pos <= NumSeries(s).value {
      var i :| 0 <= i < |gs| && m == MarkerOf(gs[i]);
      assert gs[i] in s;
      var j :| 0 <= j < |s| && s[j] == gs[i];
    }
  }

  // ---------------------------------------------------------------------
  // add_winner
  // ---------------------------------------------------------------------

  /** `["away", "home"].map(...).find((t) => t.isWinner)`. */
  function WinnerSide(g: Game): (r: Option<Side>)
    ensures r == None <==> !g.away.isWinner && !g.home.isWinner
    ensures r.Some? ==> r.value.isWinner && (r.value == g.away || r.value == g.home)
    ensures g.away.isWinner ==> r == Some(g.away)
  {
    if g.away.isWinner then Some(g.away) else if g.home.isWinner then Some(g.home) else None
  }

  /** `["away", "home"].map(...).find((t) => !t.isWinner)`. */
  function LoserSide(g: Game): (r: Option<Side>)
    ensures r == None <==> g.away.isWinner && g.home.isWinner
    ensures r.Some? ==> !r.value.isWinner && (r.value == g.away || r.value == g.home)
    ensures !g.away.isWinner ==> r == Some(g.away)
  {
    if !g.away.isWinner then Some(g.away) else if !g.home.isWinner then Some(g.home) else None
  }

  /** With exactly one winning side, winner and loser are the two sides of the game. */
  lemma WinnerAndLoserAreTheTwoSides(g: Game)
    requires g.away.isWinner != g.home.isWinner
    ensures WinnerSide(g).Some? && LoserSide(g).Some?
    ensures {WinnerSide(g).value, LoserSide(g).value} == {g.away, g.home}
  {
  }

  /** `myGames.filter(isCompleted).filter((g) => g.status !== "Cancelled")`. */
  function Stampable(games: seq<Game>): (r: seq<Game>)
    ensures |r| <= |games|
    ensures forall g :: g in r <==> g in games && IsCompleted(g) && g.status != "Cancelled"
  {
    if games == [] then []
    else
      assert games == [games[0]] + games[1..];
      (if IsCompleted(games[0]) && games[0].status != "Cancelled" then [games[0]] else [])
        + Stampable(games[1..])
  }

  /** `svg.querySelector(`circle[data-game-pk="${pk}"]`)`: the first marker of that game, or -1. */
  function DotIndex(dots: seq<Marker>, pk: int): (r: int)
    ensures -1 <= r < |dots|
    ensures r == -1 <==> forall i :: 0 <= i < |dots| ==> dots[i].gamePk != pk
    ensures 0 <= r ==> dots[r].gamePk == pk && forall i :: 0 <= i < r ==> dots[i].gamePk != pk
  {
    if dots == [] then -1
    else if dots[0].gamePk == pk then 0
    else
      var k := DotIndex(dots[1..], pk);
      if k < 0 then -1 else k + 1
  }

  /**
   * One round of the `forEach` in `add_winner`: the game's marker gets the
   * winner and loser clubs and, when the target lost, the `lost` class. A
   * missing marker or winner makes the first assignment throw before it
   * writes; a missing loser (both sides marked as winners) throws on the
   * second one, after the away club has been written as the winner.
   */
  function StampOne(dots: seq<Marker>, g: Game, target: Team): (r: Stamped)
    ensures r.thrown <==> WinnerSide(g).None? || LoserSide(g).None? || DotIndex(dots, g.gamePk) < 0
    ensures |r.dots| == |dots|
    ensures WinnerSide(g).None? || DotIndex(dots, g.gamePk) < 0 ==> r.dots == dots
    ensures WinnerSide(g).Some? && LoserSide(g).None? && DotIndex(dots, g.gamePk) >= 0 ==>
      var k := DotIndex(dots, g.gamePk);
      && r.dots[k] == dots[k].(winner := Some(g.away.team))
      && forall i :: 0 <= i < |dots| && i != k ==> r.dots[i] == dots[i]
    ensures !r.thrown ==>
      var k := DotIndex(dots, g.gamePk);
      && r.dots[k].winner == Some(WinnerSide(g).value.team)
      && r.dots[k].loser == Some(LoserSide(g).value.team)
      && (r.dots[k].lost <==> dots[k].lost || LoserSide(g).value.team == target.clubName)
      && SameLayout(r.dots[k], dots[k])
      && forall i :: 0 <= i < |dots| && i != k ==> r.dots[i] == dots[i]
  {
    var w, l, k := WinnerSide(g), LoserSide(g), DotIndex(dots, g.gamePk);
    if w.None? || k < 0 then Stamped(dots, true)
    else
      var d := dots[k].(winner := Some(w.value.team));
      if l.None? then Stamped(dots[k := d], true)
      else
        Stamped(dots[k := d.(loser := Some(l.value.team), lost := d.lost || l.value.team == target.clubName)], false)
  }

  /** Two markers at the same place for the same game. */
  predicate SameLayout(m: Marker, n: Marker)
  {
    m.gamePk == n.gamePk && m.opponent == n.opponent && m.opIdx == n.opIdx
      && m.pos == n.pos && m.seriesGameNumber == n.seriesGameNumber
  }

  /** `games.filter(isGameOf(targetTeam))`: every game of the target, rescheduled copies included. */
  function GamesOf(games: seq<Game>, target: Team): (r: seq<Game>)
    ensures forall g :: g in r <==> g in games && IsGameOf(target, g)
  {
    if games == [] then []
    else
      assert games == [games[0]] + games[1..];
      (if IsGameOf(target, games[0]) then [games[0]] else []) + GamesOf(games[1..], target)
  }

  /** The markers after the `forEach`, and whether it stopped on a thrown error. */
  datatype Stamped = Stamped(dots: seq<Marker>, thrown: bool)

  /** The whole `forEach`: the games in order, stopping at the first error. */
  function StampAll(dots: seq<Marker>, gs: seq<Game>, target: Team): (r: Stamped)
    ensures |r.dots| == |dots|
    decreases |gs|
  {
    if gs == [] then Stamped(dots, false)
    else
      var r := StampOne(dots, gs[0], target);
      if r.thrown then r else StampAll(r.dots, gs[1..], target)
  }

  /** Stamping changes no marker's game, opponent or position. */
  lemma {:induction false} StampAllKeepsLayout(dots: seq<Marker>, gs: seq<Game>, target: Team)
    ensures |StampAll(dots, gs, target).dots| == |dots|
    ensures forall i :: 0 <= i < |dots| ==> SameLayout(StampAll(dots, gs, target).dots[i], dots[i])
    decreases |gs|
  {
    if gs != [] {
      var r := StampOne(dots, gs[0], target);
      if !r.thrown {
        StampAllKeepsLayout(r.dots, gs[1..], target);
      }
    }
  }

  /** A marker whose game matches no stamped game is left as it was. */
  lemma {:induction false} StampAllUntouched(dots: seq<Marker>, gs: seq<Game>, target: Team, i: nat)
    requires i < |dots|
    requires forall g :: g in gs ==> g.gamePk != dots[i].gamePk
    ensures |StampAll(dots, gs, target).dots| == |dots|
    ensures StampAll(dots, gs, target).dots[i] == dots[i]
    decreases |gs|
  {
    StampAllKeepsLayout(dots, gs, target);
    if gs != [] {
      var r := StampOne(dots, gs[0], target);
      assert gs[0] in gs;
      assert r.dots[i] == dots[i];
      if !r.thrown {
        StampAllUntouched(r.dots, gs[1..], target, i);
      }
    }
  }

  /** Every marker whose loser is the target carries the `lost` class. */
  predicate LossMarked(dots: seq<Marker>, target: Team)
  {
    forall i :: 0 <= i < |dots| ==> dots[i].loser == Some(target.clubName) ==> dots[i].lost
  }

  /** No marker names one club as both its winner and its loser. */
  predicate NoSelfDecision(dots: seq<Marker>)
  {
    forall i :: 0 <= i < |dots| ==> dots[i].winner.Some? && dots[i].loser.Some? ==> dots[i].winner != dots[i].loser
  }

  /** Freshly drawn markers carry no result. */
  predicate Unstamped(dots: seq<Marker>)
  {
    forall i :: 0 <= i < |dots| ==> dots[i].winner == None && dots[i].loser == None && !dots[i].lost
  }

  lemma UnstampedIsConsistent(dots: seq<Marker>, target: Team)
    requires Unstamped(dots)
    ensures LossMarked(dots, target) && NoSelfDecision(dots)
  {
  }

  /**
   * Stamping keeps the `lost` marking. When the pass runs to the end it also
   * keeps every marker's winner and loser apart, provided no game is played
   * by one club on both sides; a pass that throws on a game with two winners
   * may already have written a winner that an earlier stamp of the same
   * marker named as its loser.
   */
  lemma {:induction false} StampAllKeepsInvariants(dots: seq<Marker>, gs: seq<Game>, target: Team)
    requires LossMarked(dots, target) && NoSelfDecision(dots)
    requires forall g :: g in gs ==> g.away.team != g.home.team
    ensures LossMarked(StampAll(dots, gs, target).dots, target)
    ensures !StampAll(dots, gs, target).thrown ==> NoSelfDecision(StampAll(dots, gs, target).dots)
    decreases |gs|
  {
    if gs != [] {
      var r := StampOne(dots, gs[0], target);
      var g := gs[0];
      var k := DotIndex(dots, g.gamePk);
      assert LossMarked(r.dots, target) by {
        if k >= 0 {
          assert r.dots[k].loser == dots[k].loser || r.dots[k].loser == Some(LoserSide(g).value.team);
        }
      }
      if !r.thrown {
        assert g in gs;
        assert r.dots[k].winner != r.dots[k].loser;
        assert NoSelfDecision(r.dots);
        StampAllKeepsInvariants(r.dots, gs[1..], target);
      }
    }
  }

  // ---------------------------------------------------------------------
  // update_record
  // ---------------------------------------------------------------------

  /** The markers whose `data-winner` is the club. */
  function Wins(dots: seq<Marker>, club: string): (n: nat)
    ensures n <= |dots|
  {
    if dots == [] then 0 else (if dots[0].winner == Some(club) then 1 else 0) + Wins(dots[1..], club)
  }

  /** The markers whose `data-loser` is the club. */
  function Losses(dots: seq<Marker>, club: string): (n: nat)
    ensures n <= |dots|
  {
    if dots == [] then 0 else (if dots[0].loser == Some(club) then 1 else 0) + Losses(dots[1..], club)
  }

  /** A game is won or lost, never both, so the record never exceeds the games. */
  lemma {:induction false} WinsPlusLosses(dots: seq<Marker>, club: string)
    requires NoSelfDecision(dots)
    ensures Wins(dots, club) + Losses(dots, club) <= |dots|
  {
    if dots != [] {
      assert NoSelfDecision(dots[1..]) by {
        forall i | 0 <= i < |dots[1..]| ensures dots[1..][i] == dots[i + 1] { }
      }
      WinsPlusLosses(dots[1..], club);
    }
  }

  /** The text `${win}-${loss}` of `#Record text`. */
  function RecordText(win: nat, loss: nat): string
  {
    NatToString(win) + "-" + NatToString(loss)
  }

  /** The record text splits back into the two counts it was made from. */
  lemma RecordTextRoundTrip(win: nat, loss: nat)
    ensures Split(RecordText(win, loss), '-') == [NatToString(win), NatToString(loss)]
    ensures DigitsValue(NatToString(win)) == win && DigitsValue(NatToString(loss)) == loss
  {
    var w, l := NatToString(win), NatToString(loss);
    assert forall i :: 0 <= i < |w| ==> w[i] != '-';
    assert forall i :: 0 <= i < |l| ==> l[i] != '-';
    assert RecordText(win, loss) == w + ['-'] + l;
    SplitAfterPiece(w, '-', l);
    NatToStringRoundTrip(win);
    NatToStringRoundTrip(loss);
  }

  // ---------------------------------------------------------------------
  // update_arcs
  // ---------------------------------------------------------------------

  /**
   * An arc path in `#gArcs` with its dataset: the number of games in its
   * group, the target's wins and losses there, the largest and smallest
   * position, and the large-arc flag of its path.
   */
  datatype Arc = Arc(id: string, fill: string, games: nat, win: nat, loss: nat, start: int, end: int, largeArcFlag: int)

  /** The markers an arc is drawn around. */
  datatype Group = Group(id: string, fill: string, dots: seq<Marker>)

  /** `svg.querySelectorAll(`[data-opponent="${club}"]`)`. */
  function ForClub(dots: seq<Marker>, club: string): (r: seq<Marker>)
    ensures |r| <= |dots|
    ensures forall m :: m in r <==> m in dots && m.opponent == club
    ensures forall m {:trigger multiset(r)[m]} :: multiset(r)[m] == if m.opponent == club then multiset(dots)[m] else 0
  {
    if dots == [] then []
    else
      assert dots == [dots[0]] + dots[1..];
      (if dots[0].opponent == club then [dots[0]] else []) + ForClub(dots[1..], club)
  }

  /** An opponent's markers keep their order in `#gGames`. */
  lemma {:induction false} ForClubAppend(a: seq<Marker>, b: seq<Marker>, club: string)
    ensures ForClub(a + b, club) == ForClub(a, club) + ForClub(b, club)
  {
    if a == [] {
      assert a + b == b;
    } else {
      var head := if a[0].opponent == club then [a[0]] else [];
      var ab := a + b;
      assert ab != [] && ab[0] == a[0] && ab[1..] == a[1..] + b;
      ForClubAppend(a[1..], b, club);
      calc {
        ForClub(a + b, club);
        ForClub(ab, club);
        head + ForClub(ab[1..], club);
        head + ForClub(a[1..] + b, club);
        head + (ForClub(a[1..], club) + ForClub(b, club));
        (head + ForClub(a[1..], club)) + ForClub(b, club);
        ForClub(a, club) + ForClub(b, club);
      }
    }
  }

  /** The outer arc of an opponent: `arc` and the club name without spaces. */
  function OuterGroup(dots: seq<Marker>, club: string): Group
  {
    Group("arc" + RemoveSpaces(club), club, ForClub(dots, club))
  }

  /** The `inner` copy of an opponent's arc, over the same markers. */
  function InnerGroup(dots: seq<Marker>, club: string): Group
  {
    var outer := OuterGroup(dots, club);
    outer.(id := "inner" + outer.id)
  }

  /**
   * The outer and the `inner` arc of every opponent that has a marker, in
   * the opponents' order.
   */
  function OpponentGroups(opponents: seq<Team>, dots: seq<Marker>): (r: seq<Group>)
    ensures forall g :: g in r ==> g.fill in ClubNames(opponents) && g.dots == ForClub(dots, g.fill) && g.dots != []
    ensures forall c :: c in ClubNames(opponents) && ForClub(dots, c) != [] ==>
      OuterGroup(dots, c) in r && InnerGroup(dots, c) in r
  {
    if opponents == [] then []
    else
      var c := opponents[0].clubName;
      assert ClubNames(opponents) == [c] + ClubNames(opponents[1..]);
      (if ForClub(dots, c) == [] then [] else [OuterGroup(dots, c), InnerGroup(dots, c)])
        + OpponentGroups(opponents[1..], dots)
  }

  /** Outer arcs at even indices, each followed by its `inner` twin. */
  ghost predicate Paired(r: seq<Group>, dots: seq<Marker>)
  {
    && |r| % 2 == 0
    && forall k :: 0 <= k < |r| / 2 ==>
         r[2 * k] == OuterGroup(dots, r[2 * k].fill) && r[2 * k + 1] == InnerGroup(dots, r[2 * k].fill)
  }

  lemma PairedPrepend(c: string, rest: seq<Group>, dots: seq<Marker>)
    requires Paired(rest, dots)
    ensures Paired([OuterGroup(dots, c), InnerGroup(dots, c)] + rest, dots)
  {
    var r := [OuterGroup(dots, c), InnerGroup(dots, c)] + rest;
    forall k | 1 <= k < |r| / 2
      ensures r[2 * k] == OuterGroup(dots, r[2 * k].fill) && r[2 * k + 1] == InnerGroup(dots, r[2 * k].fill)
    {
      assert r[2 * k] == rest[2 * (k - 1)] && r[2 * k + 1] == rest[2 * (k - 1) + 1];
    }
  }

  /** The opponent arcs come in pairs: an outer arc and then its `inner` twin. */
  lemma {:induction false} OpponentGroupsPaired(opponents: seq<Team>, dots: seq<Marker>)
    ensures Paired(OpponentGroups(opponents, dots), dots)
  {
    if opponents != [] {
      var c := opponents[0].clubName;
      OpponentGroupsPaired(opponents[1..], dots);
      if ForClub(dots, c) != [] {
        PairedPrepend(c, OpponentGroups(opponents[1..], dots), dots);
      }
    }
  }

  /** `(league, division)` pairs in the order the division arcs are drawn. */
  const DivisionArcs: seq<(string, string)> := [
    ("American League", "West"), ("American League", "Central"), ("American League", "East"),
    ("National League", "West"), ("National League", "Central"), ("National League", "East")]

  /** Every marker's opponent is a listed opponent, so `opponents.find` never comes back empty. */
  predicate AllKnown(dots: seq<Marker>, opponents: seq<Team>)
  {
    forall m :: m in dots ==> FindClub(opponents, m.opponent).Some?
  }

  /**
   * The markers of one (league, division) block, by the league and the last
   * word of the division of the marker's club. Every marker's club must be
   * an opponent: otherwise `opponents.find(...).league` throws (see `Arcs`).
   */
  function InDivision(dots: seq<Marker>, opponents: seq<Team>, league: string, division: string): (r: seq<Marker>)
    requires AllKnown(dots, opponents)
    ensures |r| <= |dots|
    ensures forall m :: m in r <==>
      && m in dots
      && FindClub(opponents, m.opponent).value.league == league
      && LastWord(FindClub(opponents, m.opponent).value.division) == division
    ensures forall m {:trigger multiset(r)[m]} :: multiset(r)[m] ==
                 if m in dots && FindClub(opponents, m.opponent).value.league == league
                    && LastWord(FindClub(opponents, m.opponent).value.division) == division
                 then multiset(dots)[m] else 0
  {
    if dots == [] then []
    else
      var t := FindClub(opponents, dots[0].opponent).value;
      assert dots == [dots[0]] + dots[1..];
      (if t.league == league && LastWord(t.division) == division then [dots[0]] else [])
        + InDivision(dots[1..], opponents, league, division)
  }

  function DivisionGroups(dots: seq<Marker>, opponents: seq<Team>): (r: seq<Group>)
    requires AllKnown(dots, opponents)
    ensures |r| == |DivisionArcs|
    ensures forall i :: 0 <= i < |DivisionArcs| ==>
      r[i].fill == DivisionArcs[i].0 && r[i].dots == InDivision(dots, opponents, DivisionArcs[i].0, DivisionArcs[i].1)
    ensures forall g :: g in r ==> forall m :: m in g.dots ==> m in dots
  {
    seq(|DivisionArcs|, i requires 0 <= i < |DivisionArcs| =>
      var (league, division) := DivisionArcs[i];
      Group(RemoveSpaces(league + " " + division), league, InDivision(dots, opponents, league, division)))
  }

  /** `.filter(({ dots }) => dots.length > 0)`. */
  function NonEmpty(gs: seq<Group>): (r: seq<Group>)
    ensures forall g :: g in r <==> g in gs && g.dots != []
  {
    if gs == [] then []
    else
      assert gs == [gs[0]] + gs[1..];
      (if gs[0].dots != [] then [gs[0]] else []) + NonEmpty(gs[1..])
  }

  /** `Math.max(...positions)` of a non-empty group. */
  function MaxPos(dots: seq<Marker>): (r: int)
    requires dots != []
    ensures forall m :: m in dots ==> m.pos <= r
    ensures exists m :: m in dots && m.pos == r
  {
    if |dots| == 1 then dots[0].pos
    else
      var rest := MaxPos(dots[1..]);
      assert forall m :: m in dots ==> m == dots[0] || m in dots[1..];
      if dots[0].pos >= rest then dots[0].pos else rest
  }

  /** `Math.min(...positions)` of a non-empty group. */
  function MinPos(dots: seq<Marker>): (r: int)
    requires dots != []
    ensures forall m :: m in dots ==> r <= m.pos
    ensures exists m :: m in dots && m.pos == r
  {
    if |dots| == 1 then dots[0].pos
    else
      var rest := MinPos(dots[1..]);
      assert forall m :: m in dots ==> m == dots[0] || m in dots[1..];
      if dots[0].pos <= rest then dots[0].pos else rest
  }

  /**
   * `Math.abs(start - end) / numSeries > .5 ? 1 : 0` on the integers the chart
   * uses: a zero `numSeries` divides to Infinity (or NaN for a zero span), a
   * negative one or -Infinity to a value that is not above one half.
   */
  function LargeArcFlag(span: nat, numSeries: Option<int>): (r: int)
    ensures r == 0 || r == 1
    ensures numSeries.Some? && numSeries.value > 0 ==>
      (r == 1 <==> (span as real) / (numSeries.value as real) > 0.5)
    ensures numSeries == Some(0) ==> (r == 1 <==> span > 0)
    ensures numSeries == None || (numSeries.Some? && numSeries.value < 0) ==> r == 0
  {
    match numSeries
    case None => 0
    case Some(n) =>
      if n > 0 then
        HalfOfSeries(span, n);
        if 2 * span > n then 1 else 0
      else if n == 0 then (if span > 0 then 1 else 0)
      else 0
  }

  /** A span is more than half the season exactly when twice the span exceeds it. */
  lemma HalfOfSeries(span: nat, n: int)
    requires n > 0
    ensures (span as real) / (n as real) > 0.5 <==> 2 * span > n
  {
    var nr := n as real;
    var q := (span as real) / nr;
    assert q * nr == span as real;
    assert (q - 0.5) * nr == span as real - 0.5 * nr;
    ProductSign(q - 0.5, nr);
  }

  /** Multiplying by a positive number keeps the sign. */
  lemma ProductSign(a: real, b: real)
    requires b > 0.0
    ensures a > 0.0 <==> a * b > 0.0
  {
    if a > 0.0 {
      assert a * b > 0.0;
    } else {
      assert (-a) * b >= 0.0;
    }
  }

  /** The dataset of one arc. */
  function Summarize(g: Group, club: string, numSeries: Option<int>): (a: Arc)
    requires g.dots != []
    ensures a.id == g.id && a.fill == g.fill && a.games == |g.dots| > 0
    ensures a.win == Wins(g.dots, club) && a.loss == Losses(g.dots, club)
    ensures a.end <= a.start
    ensures forall m :: m in g.dots ==> a.end <= m.pos <= a.start
    ensures (exists m :: m in g.dots && m.pos == a.start) && (exists m :: m in g.dots && m.pos == a.end)
    ensures a.largeArcFlag == LargeArcFlag(a.start - a.end, numSeries)
  {
    var start, end := MaxPos(g.dots), MinPos(g.dots);
    Arc(g.id, g.fill, |g.dots|, Wins(g.dots, club), Losses(g.dots, club), start, end,
        LargeArcFlag(start - end, numSeries))
  }

  /**
   * `update_arcs`: the arcs of the opponents, then of the divisions, with
   * empty groups dropped. A marker whose opponent is not in `opponents` makes
   * `opponents.find(...).league` throw, written None.
   */
  function Arcs(opponents: seq<Team>, dots: seq<Marker>, club: string, numSeries: Option<int>): (r: Option<seq<Arc>>)
    ensures r == None <==> exists m :: m in dots && FindClub(opponents, m.opponent) == None
    ensures r.Some? ==> forall a :: a in r.value ==> a.games > 0 && a.end <= a.start
  {
    if !AllKnown(dots, opponents) then None
    else
      var groups := NonEmpty(OpponentGroups(opponents, dots) + DivisionGroups(dots, opponents));
      Some(seq(|groups|, i requires 0 <= i < |groups| => Summarize(groups[i], club, numSeries)))
  }

  /** Every arc is drawn around markers of the chart. */
  lemma GroupsWithinDots(opponents: seq<Team>, dots: seq<Marker>)
    requires AllKnown(dots, opponents)
    ensures forall g :: g in NonEmpty(OpponentGroups(opponents, dots) + DivisionGroups(dots, opponents)) ==>
      forall m :: m in g.dots ==> m in dots
  {
    var all := OpponentGroups(opponents, dots) + DivisionGroups(dots, opponents);
    forall g | g in NonEmpty(all) ensures forall m :: m in g.dots ==> m in dots {
      assert g in all;
      if g in OpponentGroups(opponents, dots) {
        assert g.dots == ForClub(dots, g.fill);
      }
    }
  }

  /** In every arc the target's wins and losses together are at most the arc's games. */
  lemma ArcRecordWithinGames(opponents: seq<Team>, dots: seq<Marker>, club: string, numSeries: Option<int>)
    requires NoSelfDecision(dots)
    requires Arcs(opponents, dots, club, numSeries).Some?
    ensures forall a :: a in Arcs(opponents, dots, club, numSeries).value ==> a.win + a.loss <= a.games
  {
    var groups := NonEmpty(OpponentGroups(opponents, dots) + DivisionGroups(dots, opponents));
    var arcs := Arcs(opponents, dots, club, numSeries).value;
    GroupsWithinDots(opponents, dots);
    forall a | a in arcs ensures a.win + a.loss <= a.games {
      var i :| 0 <= i < |groups| && arcs[i] == a;
      var g := groups[i];
      assert g in groups;
      SubgroupKeepsNoSelfDecision(dots, g.dots);
      WinsPlusLosses(g.dots, club);
    }
  }

  /** A non-empty group is summarized into one of the arcs. */
  lemma GroupHasArc(opponents: seq<Team>, dots: seq<Marker>, club: string, numSeries: Option<int>, g: Group)
    requires AllKnown(dots, opponents)
    requires g in OpponentGroups(opponents, dots) + DivisionGroups(dots, opponents) && g.dots != []
    ensures Arcs(opponents, dots, club, numSeries).Some?
    ensures Summarize(g, club, numSeries) in Arcs(opponents, dots, club, numSeries).value
  {
    var groups := NonEmpty(OpponentGroups(opponents, dots) + DivisionGroups(dots, opponents));
    var arcs := Arcs(opponents, dots, club, numSeries).value;
    assert g in groups;
    var i :| 0 <= i < |groups| && groups[i] == g;
    assert arcs[i] == Summarize(g, club, numSeries);
  }

  /** Every opponent with a marker has an outer and an `inner` arc. */
  lemma OpponentArcsDrawn(opponents: seq<Team>, dots: seq<Marker>, club: string, numSeries: Option<int>, c: string)
    requires AllKnown(dots, opponents)
    requires c in ClubNames(opponents) && ForClub(dots, c) != []
    ensures Arcs(opponents, dots, club, numSeries).Some?
    ensures Summarize(OuterGroup(dots, c), club, numSeries) in Arcs(opponents, dots, club, numSeries).value
    ensures Summarize(InnerGroup(dots, c), club, numSeries) in Arcs(opponents, dots, club, numSeries).value
  {
    GroupHasArc(opponents, dots, club, numSeries, OuterGroup(dots, c));
    GroupHasArc(opponents, dots, club, numSeries, InnerGroup(dots, c));
  }

  /** Every (league, division) block with a marker has its arc. */
  lemma DivisionArcsDrawn(opponents: seq<Team>, dots: seq<Marker>, club: string, numSeries: Option<int>, i: nat)
    requires AllKnown(dots, opponents)
    requires i < |DivisionArcs| && InDivision(dots, opponents, DivisionArcs[i].0, DivisionArcs[i].1) != []
    ensures Arcs(opponents, dots, club, numSeries).Some?
    ensures Summarize(DivisionGroups(dots, opponents)[i], club, numSeries) in Arcs(opponents, dots, club, numSeries).value
  {
    var g := DivisionGroups(dots, opponents)[i];
    assert g in DivisionGroups(dots, opponents);
    GroupHasArc(opponents, dots, club, numSeries, g);
  }

  /** Nothing else is drawn: every arc summarizes a non-empty opponent or division group. */
  lemma ArcsOnlyFromGroups(opponents: seq<Team>, dots: seq<Marker>, club: string, numSeries: Option<int>, a: Arc)
    requires AllKnown(dots, opponents)
    requires Arcs(opponents, dots, club, numSeries).Some? && a in Arcs(opponents, dots, club, numSeries).value
    ensures exists g ::
      g in OpponentGroups(opponents, dots) + DivisionGroups(dots, opponents) && g.dots != [] && a == Summarize(g, club, numSeries)
  {
    var groups := NonEmpty(OpponentGroups(opponents, dots) + DivisionGroups(dots, opponents));
    var arcs := Arcs(opponents, dots, club, numSeries).value;
    var i :| 0 <= i < |arcs| && arcs[i] == a;
    assert groups[i] in groups;
  }

  /** Every group holds markers of the chart only. */
  lemma SubgroupKeepsNoSelfDecision(dots: seq<Marker>, sub: seq<Marker>)
    requires NoSelfDecision(dots)
    requires forall m :: m in sub ==> m in dots
    ensures NoSelfDecision(sub)
  {
    forall i | 0 <= i < |sub| && sub[i].winner.Some? && sub[i].loser.Some?
      ensures sub[i].winner != sub[i].loser
    {
      assert sub[i] in dots;
      var j :| 0 <= j < |dots| && dots[j] == sub[i];
    }
  }

  /**
   * The array pass of `draw_chart`: the scheduled games get their opponent
   * index, are sorted by it, `numSeries` is taken, and each gets its position.
   */
  method PrepareGames(games: seq<Game>, target: Team, opponents: seq<Team>)
    returns (p: seq<Scheduled>, numSeries: Option<int>)
    ensures p == Prepared(games, target, opponents)
    ensures numSeries == NumSeries(p)
  {
    var s := ScheduledGames(games, target);
    var a := new Scheduled[|s|](i requires 0 <= i < |s| => s[i]);
    AddOpIdx(opponents, a);
    var indexed := Indexed(s, opponents);
    assert a[..] == indexed;
    var sorted := Sorting.SortBy(a[..], CompareOpIdx);
    forall i | 0 <= i < a.Length {
      a[i] := sorted[i];
    }
    assert a[..] == sorted;
    numSeries := NumSeries(a[..]);
    AssignPos(a);
    p := a[..];
    assert p == Prepared(games, target, opponents);
    NumSeriesSameChartPos(sorted, p);
  }

  /**
   * When the deferred pass completes, every arc it stores counts at most as
   * many wins and losses as it has games, provided no game has one club on
   * both sides.
   */
  lemma DrawnArcsWithinGames(teams: seq<Team>, games: seq<Game>, target: Team, numSeries: Option<int>)
    requires forall g :: g in games ==> g.away.team != g.home.team
    ensures
      var opponents := Opponents(teams, target);
      var stamped := StampAll(Markers(teams, Prepared(games, target, opponents)), Stampable(GamesOf(games, target)), target);
      var drawn := Arcs(opponents, stamped.dots, target.clubName, numSeries);
      !stamped.thrown && drawn.Some? ==> forall a :: a in drawn.value ==> a.win + a.loss <= a.games
  {
    var opponents := Opponents(teams, target);
    var dots := Markers(teams, Prepared(games, target, opponents));
    var gs := Stampable(GamesOf(games, target));
    assert Unstamped(dots);
    UnstampedIsConsistent(dots, target);
    StampAllKeepsInvariants(dots, gs, target);
    var stamped := StampAll(dots, gs, target);
    if !stamped.thrown && Arcs(opponents, stamped.dots, target.clubName, numSeries).Some? {
      ArcRecordWithinGames(opponents, stamped.dots, target.clubName, numSeries);
    }
  }

  // ---------------------------------------------------------------------
  // The chart
  // ---------------------------------------------------------------------

  /** Where a drawing stopped: no team of the routed club, or an error thrown by the deferred pass. */
  datatype Failure = TargetMissing | StampFailed | ArcsFailed

  /**
   * The `<record-chart>` graphic as the data pass leaves it: the markers of
   * `#gGames`, the text of `#Record text` and the paths of `#gArcs`.
   */
  class Chart {
    var dots: seq<Marker>
    var record: string
    var arcs: seq<Arc>

    /** The empty template: no markers, a record of 0-0 and no arcs. */
    constructor()
      ensures dots == [] && record == "0-0" && arcs == []
    {
      dots := [];
      record := "0-0";
      arcs := [];
    }

    /** `update_record`: the target's wins and losses over all markers. */
    method UpdateRecord(target: Team)
      modifies this`record
      ensures record == RecordText(Wins(dots, target.clubName), Losses(dots, target.clubName))
    {
      record := RecordText(Wins(dots, target.clubName), Losses(dots, target.clubName));
    }

    /**
     * `add_winner`: stamps every completed, not cancelled game of the target
     * on its marker, then updates the record. A thrown error leaves the
     * markers stamped so far, with the failing game's partial write, and
     * skips the record.
     */
    method AddWinner(myGames: seq<Game>, target: Team) returns (thrown: bool)
      modifies this`dots, this`record
      ensures Stamped(dots, thrown) == StampAll(old(dots), Stampable(myGames), target)
      ensures !thrown ==> record == RecordText(Wins(dots, target.clubName), Losses(dots, target.clubName))
      ensures thrown ==> record == old(record)
    {
      var gs := Stampable(myGames);
      thrown := false;
      var i := 0;
      while i < |gs|
        invariant 0 <= i <= |gs|
        invariant record == old(record)
        invariant StampAll(old(dots), gs, target) == StampAll(dots, gs[i..], target)
      {
        assert gs[i..][0] == gs[i] && gs[i..][1..] == gs[i + 1..];
        var next := StampOne(dots, gs[i], target);
        dots := next.dots;
        if next.thrown {
          thrown := true;
          return;
        }
        i := i + 1;
      }
      assert gs[i..] == [];
      UpdateRecord(target);
    }

    /** `update_arcs`: replaces the arcs, unless a marker's opponent is unknown and it throws. */
    method UpdateArcs(target: Team, opponents: seq<Team>, numSeries: Option<int>) returns (thrown: bool)
      modifies this`arcs
      ensures thrown <==> Arcs(opponents, dots, target.clubName, numSeries) == None
      ensures !thrown ==> arcs == Arcs(opponents, dots, target.clubName, numSeries).value
      ensures thrown ==> arcs == old(arcs)
    {
      var r := Arcs(opponents, dots, target.clubName, numSeries);
      thrown := r.None?;
      if !thrown {
        arcs := r.value;
      }
    }

    /**
     * `draw_chart` followed by its deferred pass: find the target team,
     * order the opponents, prepare the scheduled games, draw one marker per
     * game, then stamp the results, the record and the arcs. Without the
     * target team the first callback that reads it throws; with no teams and
     * no games there is no callback, so `#gGames` is emptied before the logo
     * lookup throws.
     */
    method DrawChart(teams: seq<Team>, games: seq<Game>, clubName: string)
      returns (failure: Option<Failure>, numSeries: Option<int>, numInterLeague: nat)
      modifies this`dots, this`record, this`arcs
      ensures FindClub(teams, clubName) == None ==>
        && failure == Some(TargetMissing)
        && dots == (if teams == [] && games == [] then [] else old(dots))
        && record == old(record) && arcs == old(arcs)
      ensures FindClub(teams, clubName).Some? ==>
        var target := FindClub(teams, clubName).value;
        var opponents := Opponents(teams, target);
        var p := Prepared(games, target, opponents);
        var stamped := StampAll(Markers(teams, p), Stampable(GamesOf(games, target)), target);
        var drawn := Arcs(opponents, stamped.dots, clubName, numSeries);
        && numSeries == NumSeries(p)
        && numInterLeague == NumInterLeague(p, teams, target)
        && dots == stamped.dots
        && (stamped.thrown ==> failure == Some(StampFailed) && record == old(record) && arcs == old(arcs))
        && (!stamped.thrown ==> record == RecordText(Wins(dots, clubName), Losses(dots, clubName)))
        && (!stamped.thrown && drawn == None ==> failure == Some(ArcsFailed) && arcs == old(arcs))
        && (!stamped.thrown && drawn.Some? ==> failure == None && arcs == drawn.value)
    {
      var found := FindClub(teams, clubName);
      if found.None? {
        if teams == [] && games == [] {
          dots := [];
        }
        return Some(TargetMissing), None, 0;
      }
      failure, numSeries, numInterLeague := DrawFor(teams, games, found.value);
    }

    /** `draw_chart` once the target team is found. */
    method DrawFor(teams: seq<Team>, games: seq<Game>, target: Team)
      returns (failure: Option<Failure>, numSeries: Option<int>, numInterLeague: nat)
      modifies this`dots, this`record, this`arcs
      ensures
        var opponents := Opponents(teams, target);
        var p := Prepared(games, target, opponents);
        var stamped := StampAll(Markers(teams, p), Stampable(GamesOf(games, target)), target);
        var drawn := Arcs(opponents, stamped.dots, target.clubName, numSeries);
        && numSeries == NumSeries(p)
        && numInterLeague == NumInterLeague(p, teams, target)
        && dots == stamped.dots
        && (stamped.thrown ==> failure == Some(StampFailed) && record == old(record) && arcs == old(arcs))
        && (!stamped.thrown ==> record == RecordText(Wins(dots, target.clubName), Losses(dots, target.clubName)))
        && (!stamped.thrown && drawn == None ==> failure == Some(ArcsFailed) && arcs == old(arcs))
        && (!stamped.thrown && drawn.Some? ==> failure == None && arcs == drawn.value)
    {
      var opponents := Opponents(teams, target);
      var p;
      p, numSeries := PrepareGames(games, target, opponents);
      numInterLeague := NumInterLeague(p, teams, target);
      dots := Markers(teams, p);
      ghost var stamped := StampAll(dots, Stampable(GamesOf(games, target)), target);
      ghost var drawn := Arcs(opponents, stamped.dots, target.clubName, numSeries);
      ghost var record0, arcs0 := record, arcs;
      failure := DeferredPass(games, target, opponents, numSeries);
      assert dots == stamped.dots;
      assert stamped.thrown ==> failure == Some(StampFailed) && record == record0 && arcs == arcs0;
      assert !stamped.thrown && drawn.Some? ==> failure == None && arcs == drawn.value;
    }

    /**
     * The callback `draw_chart` hands to `setTimeout`: `add_winner` on the
     * target's games, then `update_arcs`, which a throw in `add_winner` skips.
     */
    method DeferredPass(games: seq<Game>, target: Team, opponents: seq<Team>, numSeries: Option<int>)
      returns (failure: Option<Failure>)
      modifies this`dots, this`record, this`arcs
      ensures
        var stamped := StampAll(old(dots), Stampable(GamesOf(games, target)), target);
        var drawn := Arcs(opponents, stamped.dots, target.clubName, numSeries);
        && dots == stamped.dots
        && (stamped.thrown ==> failure == Some(StampFailed) && record == old(record) && arcs == old(arcs))
        && (!stamped.thrown ==> record == RecordText(Wins(dots, target.clubName), Losses(dots, target.clubName)))
        && (!stamped.thrown && drawn == None ==> failure == Some(ArcsFailed) && arcs == old(arcs))
        && (!stamped.thrown && drawn.Some? ==> failure == None && arcs == drawn.value)
    {
      var thrown := AddWinner(GamesOf(games, target), target);
      if thrown {
        return Some(StampFailed);
      }
      thrown := UpdateArcs(target, opponents, numSeries);
      failure := if thrown then Some(ArcsFailed) else None;
    }
  }
}
