/**
 * `getLeagueTable`: one row per team, tallied from the PLAYED matches it took part in, then
 * ranked by points, goal difference and goals scored, all descending.
 */
module LeagueController {
  import opened Wrappers
  import opened Ordering
  import opened Store

  /** A line of the table as the endpoint returns it. */
  datatype Row = Row(
    id: Id, name: string, logoUrl: Option<string>,
    played: int, won: int, drawn: int, lost: int, gf: int, ga: int, gd: int, pts: int)

  /** A played match seen from one side: goals for and against, or no score recorded. */
  datatype View = Unscored | Scored(gf: int, ga: int)

  /** `matchesHome: { where: { status: 'PLAYED' } }`, in stored order. */
  function HomeMatches(id: Id, ms: seq<Match>): (r: seq<Match>)
    ensures |r| <= |ms|
    ensures forall m :: m in r <==> m in ms && m.status == Played && m.homeTeamId == id
  {
    if |ms| == 0 then []
    else
      var rest := HomeMatches(id, ms[1..]);
      assert forall m :: m in ms <==> m == ms[0] || m in ms[1..];
      if ms[0].status == Played && ms[0].homeTeamId == id then [ms[0]] + rest else rest
  }

  /** `matchesAway: { where: { status: 'PLAYED' } }`, in stored order. */
  function AwayMatches(id: Id, ms: seq<Match>): (r: seq<Match>)
    ensures |r| <= |ms|
    ensures forall m :: m in r <==> m in ms && m.status == Played && m.awayTeamId == id
  {
    if |ms| == 0 then []
    else
      var rest := AwayMatches(id, ms[1..]);
      assert forall m :: m in ms <==> m == ms[0] || m in ms[1..];
      if ms[0].status == Played && ms[0].awayTeamId == id then [ms[0]] + rest else rest
  }

  function HomeView(m: Match): View
  {
    if m.homeScore.Some? && m.awayScore.Some? then Scored(m.homeScore.value, m.awayScore.value)
    else Unscored
  }

  /** The away side sees the same match with the goals swapped. */
  function AwayView(m: Match): (v: View)
    ensures v.Scored? <==> HomeView(m).Scored?
    ensures v.Scored? ==> v.gf == HomeView(m).ga && v.ga == HomeView(m).gf
  {
    if m.homeScore.Some? && m.awayScore.Some? then Scored(m.awayScore.value, m.homeScore.value)
    else Unscored
  }

  function HomeViews(ms: seq<Match>): (vs: seq<View>)
    ensures |vs| == |ms|
  {
    seq(|ms|, i requires 0 <= i < |ms| => HomeView(ms[i]))
  }

  function AwayViews(ms: seq<Match>): (vs: seq<View>)
    ensures |vs| == |ms|
  {
    seq(|ms|, i requires 0 <= i < |ms| => AwayView(ms[i]))
  }

  lemma HomeViewsSnoc(ms: seq<Match>, k: nat)
    requires k < |ms|
    ensures HomeViews(ms[..k + 1]) == HomeViews(ms[..k]) + [HomeView(ms[k])]
  {
  }

  lemma AwayViewsSnoc(ms: seq<Match>, k: nat)
    requires k < |ms|
    ensures AwayViews(ms[..k + 1]) == AwayViews(ms[..k]) + [AwayView(ms[k])]
  {
  }

  /** Everything the team played, home matches first, each from the team's side. */
  function Views(id: Id, ms: seq<Match>): seq<View>
  {
    HomeViews(HomeMatches(id, ms)) + AwayViews(AwayMatches(id, ms))
  }

  predicate IsScored(v: View) { v.Scored? }
  predicate IsWin(v: View) { v.Scored? && v.gf > v.ga }
  predicate IsDraw(v: View) { v.Scored? && v.gf == v.ga }
  predicate IsLoss(v: View) { v.Scored? && v.gf < v.ga }
  function GoalsFor(v: View): int { if v.Scored? then v.gf else 0 }
  function GoalsAgainst(v: View): int { if v.Scored? then v.ga else 0 }

  /** How many of `vs` satisfy `p`. */
  function Count(vs: seq<View>, p: View -> bool): nat
  {
    if |vs| == 0 then 0 else Count(vs[..|vs| - 1], p) + (if p(vs[|vs| - 1]) then 1 else 0)
  }

  /** The total of `f` over `vs`. */
  function Sum(vs: seq<View>, f: View -> int): int
  {
    if |vs| == 0 then 0 else Sum(vs[..|vs| - 1], f) + f(vs[|vs| - 1])
  }

  lemma CountSnoc(vs: seq<View>, v: View, p: View -> bool)
    ensures Count(vs + [v], p) == Count(vs, p) + (if p(v) then 1 else 0)
  {
    assert (vs + [v])[..|vs|] == vs;
  }

  lemma SumSnoc(vs: seq<View>, v: View, f: View -> int)
    ensures Sum(vs + [v], f) == Sum(vs, f) + f(v)
  {
    assert (vs + [v])[..|vs|] == vs;
  }

  /** The row the endpoint reports for `team`, defined by what the team's matches say. */
  function Standing(team: Team, ms: seq<Match>): Row
  {
    var vs := Views(team.id, ms);
    var won, drawn := Count(vs, IsWin), Count(vs, IsDraw);
    var gf, ga := Sum(vs, GoalsFor), Sum(vs, GoalsAgainst);
    Row(team.id, team.name, team.logoUrl,
        |vs|, won, drawn, Count(vs, IsLoss), gf, ga, gf - ga, 3 * won + drawn)
  }

  /**
   * A win, a draw and a loss are exclusive outcomes of a scored match, so the three tallies add
   * up to the number of scored matches: at most `played`, and exactly `played` when every
   * PLAYED match carries both scores.
   */
  lemma {:induction false} OutcomesPartition(vs: seq<View>)
    ensures Count(vs, IsWin) + Count(vs, IsDraw) + Count(vs, IsLoss) == Count(vs, IsScored)
    ensures Count(vs, IsScored) <= |vs|
    ensures (forall i :: 0 <= i < |vs| ==> vs[i].Scored?) ==> Count(vs, IsScored) == |vs|
  {
    if |vs| > 0 {
      var init := vs[..|vs| - 1];
      OutcomesPartition(init);
      assert forall i :: 0 <= i < |init| ==> init[i] == vs[i];
    }
  }

  /** With scores on every PLAYED match, wins, draws and losses account for every match played. */
  lemma StandingAccountsForEveryMatch(team: Team, ms: seq<Match>)
    requires forall m :: m in ms && m.status == Played ==> PlayedHasScores(m)
    ensures var r := Standing(team, ms); r.won + r.drawn + r.lost == r.played
  {
    var homes, aways := HomeMatches(team.id, ms), AwayMatches(team.id, ms);
    var vs := Views(team.id, ms);
    forall i | 0 <= i < |vs| ensures vs[i].Scored? {
      if i < |homes| {
        assert homes[i] in homes;
        assert vs[i] == HomeView(homes[i]);
      } else {
        assert aways[i - |homes|] in aways;
        assert vs[i] == AwayView(aways[i - |homes|]);
      }
    }
    OutcomesPartition(vs);
  }

  /** The running counters of one team's row. */
  datatype Tally = Tally(played: int, won: int, drawn: int, lost: int, gf: int, ga: int, pts: int)

  /** What the counters hold after the matches seen as `vs`: three points a win, one a draw. */
  function Summary(vs: seq<View>): Tally
  {
    var won, drawn := Count(vs, IsWin), Count(vs, IsDraw);
    Tally(|vs|, won, drawn, Count(vs, IsLoss), Sum(vs, GoalsFor), Sum(vs, GoalsAgainst), 3 * won + drawn)
  }

  /** `team.matchesHome.forEach(...)`: counts each home match, scoring it when both scores are set. */
  method TallyHome(matchesHome: seq<Match>, ghost before: seq<View>, t0: Tally) returns (t: Tally)
    requires t0 == Summary(before)
    ensures t == Summary(before + HomeViews(matchesHome))
  {
    var played, won, drawn, lost, gf, ga, pts := t0.played, t0.won, t0.drawn, t0.lost, t0.gf, t0.ga, t0.pts;
    ghost var seen := before;
    assert before + HomeViews(matchesHome[..0]) == before;
    for k := 0 to |matchesHome|
      invariant seen == before + HomeViews(matchesHome[..k])
      invariant Tally(played, won, drawn, lost, gf, ga, pts) == Summary(seen)
    {
      var m := matchesHome[k];
      SnocAll(seen, HomeView(m));
      HomeViewsSnoc(matchesHome, k);
      assert seen + [HomeView(m)] == before + HomeViews(matchesHome[..k + 1]);
      seen := seen + [HomeView(m)];
      played := played + 1;
      if m.homeScore.Some? && m.awayScore.Some? {
        gf := gf + m.homeScore.value;
        ga := ga + m.awayScore.value;
        if m.homeScore.value > m.awayScore.value {
          won := won + 1;
          pts := pts + 3;
        } else if m.homeScore.value < m.awayScore.value {
          lost := lost + 1;
        } else {
          drawn := drawn + 1;
          pts := pts + 1;
        }
      }
    }
    assert matchesHome[..|matchesHome|] == matchesHome;
    t := Tally(played, won, drawn, lost, gf, ga, pts);
  }

  /** `team.matchesAway.forEach(...)`: the same with the goals read from the away side. */
  method TallyAway(matchesAway: seq<Match>, ghost before: seq<View>, t0: Tally) returns (t: Tally)
    requires t0 == Summary(before)
    ensures t == Summary(before + AwayViews(matchesAway))
  {
    var played, won, drawn, lost, gf, ga, pts := t0.played, t0.won, t0.drawn, t0.lost, t0.gf, t0.ga, t0.pts;
    ghost var seen := before;
    assert before + AwayViews(matchesAway[..0]) == before;
    for k := 0 to |matchesAway|
      invariant seen == before + AwayViews(matchesAway[..k])
      invariant Tally(played, won, drawn, lost, gf, ga, pts) == Summary(seen)
    {
      var m := matchesAway[k];
      SnocAll(seen, AwayView(m));
      AwayViewsSnoc(matchesAway, k);
      assert seen + [AwayView(m)] == before + AwayViews(matchesAway[..k + 1]);
      seen := seen + [AwayView(m)];
      played := played + 1;
      if m.homeScore.Some? && m.awayScore.Some? {
        gf := gf + m.awayScore.value;
        ga := ga + m.homeScore.value;
        if m.awayScore.value > m.homeScore.value {
          won := won + 1;
          pts := pts + 3;
        } else if m.awayScore.value < m.homeScore.value {
          lost := lost + 1;
        } else {
          drawn := drawn + 1;
          pts := pts + 1;
        }
      }
    }
    assert matchesAway[..|matchesAway|] == matchesAway;
    t := Tally(played, won, drawn, lost, gf, ga, pts);
  }

  /** One team's row: both passes from zero, then `gd: gf - ga`. */
  method TeamRow(team: Team, ms: seq<Match>) returns (r: Row)
    ensures r == Standing(team, ms)
    ensures r.pts == 3 * r.won + r.drawn && r.gd == r.gf - r.ga
    ensures r.played == |HomeMatches(team.id, ms)| + |AwayMatches(team.id, ms)|
  {
    var t := Tally(0, 0, 0, 0, 0, 0, 0);
    t := TallyHome(HomeMatches(team.id, ms), [], t);
    assert [] + HomeViews(HomeMatches(team.id, ms)) == HomeViews(HomeMatches(team.id, ms));
    t := TallyAway(AwayMatches(team.id, ms), HomeViews(HomeMatches(team.id, ms)), t);
    r := Row(team.id, team.name, team.logoUrl, t.played, t.won, t.drawn, t.lost, t.gf, t.ga, t.gf - t.ga, t.pts);
  }

  lemma SnocAll(vs: seq<View>, v: View)
    ensures Count(vs + [v], IsWin) == Count(vs, IsWin) + (if IsWin(v) then 1 else 0)
    ensures Count(vs + [v], IsDraw) == Count(vs, IsDraw) + (if IsDraw(v) then 1 else 0)
    ensures Count(vs + [v], IsLoss) == Count(vs, IsLoss) + (if IsLoss(v) then 1 else 0)
    ensures Sum(vs + [v], GoalsFor) == Sum(vs, GoalsFor) + GoalsFor(v)
    ensures Sum(vs + [v], GoalsAgainst) == Sum(vs, GoalsAgainst) + GoalsAgainst(v)
  {
    CountSnoc(vs, v, IsWin);
    CountSnoc(vs, v, IsDraw);
    CountSnoc(vs, v, IsLoss);
    SumSnoc(vs, v, GoalsFor);
    SumSnoc(vs, v, GoalsAgainst);
  }

  /** Points, then goal difference, then goals scored, each descending. */
  function RowKey(r: Row): seq<int>
  {
    [-r.pts, -r.gd, -r.gf]
  }

  /** The comparator handed to `table.sort`. */
  function Compare(a: Row, b: Row): int
  {
    if b.pts != a.pts then b.pts - a.pts
    else if b.gd != a.gd then b.gd - a.gd
    else b.gf - a.gf
  }

  /** The comparator places `a` first exactly when its key is smaller, and ties exactly on equal keys. */
  lemma CompareIsKeyOrder(a: Row, b: Row)
    ensures Compare(a, b) < 0 <==> LexLt(RowKey(a), RowKey(b))
    ensures Compare(a, b) == 0 <==> RowKey(a) == RowKey(b)
  {
    KeyOrderMeansRanking(a, b);
  }

  /** In key order, a row comes first when it has more points, else a better difference, else more goals. */
  lemma KeyOrderMeansRanking(a: Row, b: Row)
    ensures LexLe(RowKey(a), RowKey(b)) <==>
      a.pts > b.pts || (a.pts == b.pts && (a.gd > b.gd || (a.gd == b.gd && a.gf >= b.gf)))
  {
    assert RowKey(a) == [-a.pts] + ([-a.gd] + [-a.gf]);
    assert RowKey(b) == [-b.pts] + ([-b.gd] + [-b.gf]);
    LexLeCons(-a.pts, [-a.gd] + [-a.gf], -b.pts, [-b.gd] + [-b.gf]);
    LexLeCons(-a.gd, [-a.gf], -b.gd, [-b.gf]);
    LexLeCons(-a.gf, [], -b.gf, []);
    assert [-a.gf] + [] == [-a.gf] && [-b.gf] + [] == [-b.gf];
  }

  function Standings(ts: seq<Team>, ms: seq<Match>): (rows: seq<Row>)
    ensures |rows| == |ts|
  {
    seq(|ts|, i requires 0 <= i < |ts| => Standing(ts[i], ms))
  }

  /**
   * `getLeagueTable`: the rows of all teams, ranked. Every team has its row, and a row above
   * another has more points, or as many and a better goal difference, or both equal and at
   * least as many goals scored.
   */
  method GetLeagueTable(db: Db) returns (table: seq<Row>)
    ensures multiset(table) == multiset(Standings(db.teams, db.matches))
    ensures forall i, j :: 0 <= i < j < |table| ==>
      table[i].pts > table[j].pts
      || (table[i].pts == table[j].pts
          && (table[i].gd > table[j].gd || (table[i].gd == table[j].gd && table[i].gf >= table[j].gf)))
  {
    var rows: seq<Row> := [];
    for i := 0 to |db.teams|
      invariant rows == Standings(db.teams[..i], db.matches)
    {
      var row := TeamRow(db.teams[i], db.matches);
      rows := rows + [row];
    }
    assert db.teams[..|db.teams|] == db.teams;
    table := SortBy(rows, RowKey);
    forall i, j | 0 <= i < j < |table|
      ensures table[i].pts > table[j].pts
        || (table[i].pts == table[j].pts
            && (table[i].gd > table[j].gd || (table[i].gd == table[j].gd && table[i].gf >= table[j].gf)))
    {
      KeyOrderMeansRanking(table[i], table[j]);
    }
  }
}
