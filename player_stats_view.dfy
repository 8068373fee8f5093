/**
 * The statistics page: the league lines filtered by team, then ordered by one of three
 * comparators, and numbered from 1 in display order.
 */
module PlayerStatsView {
  import opened Ordering
  import opened Store
  import opened StatsController

  datatype TeamFilter = AllTeams | OnlyTeam(teamId: Id)

  datatype SortMode = ByMotm | ByGoals | ByAssists

  /** `teamFilter === 'all' || p.team.id === teamFilter`, keeping the order of the lines. */
  function FilterByTeam(lines: seq<PlayerLine>, filter: TeamFilter): (r: seq<PlayerLine>)
    ensures |r| <= |lines|
    ensures filter.AllTeams? ==> r == lines
    ensures forall l :: l in r <==> l in lines && (filter.AllTeams? || l.teamId == filter.teamId)
  {
    if |lines| == 0 then []
    else
      var rest := FilterByTeam(lines[1..], filter);
      assert forall l :: l in lines <==> l == lines[0] || l in lines[1..];
      if filter.AllTeams? || lines[0].teamId == filter.teamId then [lines[0]] + rest else rest
  }

  /** The comparator of each mode, as the page writes it. */
  function Compare(mode: SortMode, a: PlayerLine, b: PlayerLine): int
  {
    var x, y := a.totals, b.totals;
    match mode
    case ByMotm =>
      if y.motmCount != x.motmCount then y.motmCount - x.motmCount
      else if y.goals != x.goals then y.goals - x.goals
      else if y.assists != x.assists then y.assists - x.assists
      else x.redCards - y.redCards
    case ByGoals =>
      if y.goals != x.goals then y.goals - x.goals
      else if y.motmCount != x.motmCount then y.motmCount - x.motmCount
      else y.assists - x.assists
    case ByAssists =>
      if y.assists != x.assists then y.assists - x.assists
      else if y.goals != x.goals then y.goals - x.goals
      else y.motmCount - x.motmCount
  }

  /**
   * The key each comparator orders by: awards, goals, assists descending and red cards
   * ascending; goals, awards, assists descending; assists, goals, awards descending.
   */
  function ModeKey(mode: SortMode): PlayerLine -> seq<int>
  {
    match mode
    case ByMotm => (l: PlayerLine) => [-l.totals.motmCount, -l.totals.goals, -l.totals.assists, l.totals.redCards]
    case ByGoals => (l: PlayerLine) => [-l.totals.goals, -l.totals.motmCount, -l.totals.assists]
    case ByAssists => (l: PlayerLine) => [-l.totals.assists, -l.totals.goals, -l.totals.motmCount]
  }

  /** A comparator of three or four components is lexicographic order on them. */
  lemma Lex4(x0: int, x1: int, x2: int, x3: int, y0: int, y1: int, y2: int, y3: int)
    ensures LexLe([x0, x1, x2, x3], [y0, y1, y2, y3]) <==>
      x0 < y0 || (x0 == y0 && (x1 < y1 || (x1 == y1 && (x2 < y2 || (x2 == y2 && x3 <= y3)))))
  {
    assert [x0, x1, x2, x3] == [x0] + ([x1] + ([x2] + [x3]));
    assert [y0, y1, y2, y3] == [y0] + ([y1] + ([y2] + [y3]));
    LexLeCons(x0, [x1] + ([x2] + [x3]), y0, [y1] + ([y2] + [y3]));
    LexLeCons(x1, [x2] + [x3], y1, [y2] + [y3]);
    LexLeCons(x2, [x3], y2, [y3]);
    LexLeCons(x3, [], y3, []);
    assert [x3] + [] == [x3] && [y3] + [] == [y3];
  }

  lemma Lex3(x0: int, x1: int, x2: int, y0: int, y1: int, y2: int)
    ensures LexLe([x0, x1, x2], [y0, y1, y2]) <==> x0 < y0 || (x0 == y0 && (x1 < y1 || (x1 == y1 && x2 <= y2)))
  {
    assert [x0, x1, x2] == [x0] + ([x1] + [x2]);
    assert [y0, y1, y2] == [y0] + ([y1] + [y2]);
    LexLeCons(x0, [x1] + [x2], y0, [y1] + [y2]);
    LexLeCons(x1, [x2], y1, [y2]);
    LexLeCons(x2, [], y2, []);
    assert [x2] + [] == [x2] && [y2] + [] == [y2];
  }

  /** Each comparator puts `a` no later than `b` exactly when the mode's key of `a` is not larger. */
  lemma CompareIsModeKeyOrder(mode: SortMode, a: PlayerLine, b: PlayerLine)
    ensures Compare(mode, a, b) <= 0 <==> LexLe(ModeKey(mode)(a), ModeKey(mode)(b))
  {
    var x, y := a.totals, b.totals;
    match mode
    case ByMotm =>
      Lex4(-x.motmCount, -x.goals, -x.assists, x.redCards, -y.motmCount, -y.goals, -y.assists, y.redCards);
    case ByGoals =>
      Lex3(-x.goals, -x.motmCount, -x.assists, -y.goals, -y.motmCount, -y.assists);
    case ByAssists =>
      Lex3(-x.assists, -x.goals, -x.motmCount, -y.assists, -y.goals, -y.motmCount);
  }

  /**
   * The rows on screen, numbered `index + 1`: exactly the filtered lines, each once, ordered
   * so that no row is shown below one the mode's comparator places after it.
   */
  function Displayed(lines: seq<PlayerLine>, filter: TeamFilter, mode: SortMode): (rows: seq<RankedLine>)
    ensures |rows| == |FilterByTeam(lines, filter)|
    ensures forall i :: 0 <= i < |rows| ==> rows[i].rank == i + 1
    ensures multiset(seq(|rows|, i requires 0 <= i < |rows| => rows[i].line)) == multiset(FilterByTeam(lines, filter))
    ensures forall i, j :: 0 <= i < j < |rows| ==> Compare(mode, rows[i].line, rows[j].line) <= 0
  {
    var sorted := SortBy(FilterByTeam(lines, filter), ModeKey(mode));
    var rows := seq(|sorted|, i requires 0 <= i < |sorted| => RankedLine(i + 1, sorted[i]));
    assert seq(|rows|, i requires 0 <= i < |rows| => rows[i].line) == sorted;
    forall i, j | 0 <= i < j < |rows| ensures Compare(mode, rows[i].line, rows[j].line) <= 0 {
      CompareIsModeKeyOrder(mode, sorted[i], sorted[j]);
    }
    rows
  }
}
