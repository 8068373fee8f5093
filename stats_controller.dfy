/**
 * Player statistics: the rating formula, per-player totals, recording a batch of per-match
 * statistics (all-or-nothing validation, then an upsert keyed by player and match), the league
 * ranking with consecutive ranks, and the top-five lists.
 */
module StatsController {
  import opened Wrappers
  import opened Ordering
  import opened Store

  // ---------------------------------------------------------------- totals and rating

  /** The reduce accumulator of `getPlayerStats` and `getLeagueStats`. */
  datatype Totals = Totals(goals: int, assists: int, yellowCards: int, redCards: int, matchesPlayed: int, motmCount: int)

  /** `calculatePlayerRating`: goals count 3, assists 2, a yellow card -1 and a red card -3. */
  function RatingOf(goals: int, assists: int, yellowCards: int, redCards: int): int
  {
    goals * 3 + assists * 2 - yellowCards * 1 - redCards * 3
  }

  function Rating(t: Totals): int
  {
    RatingOf(t.goals, t.assists, t.yellowCards, t.redCards)
  }

  /** The reducer: one more match, its counts added, one more award if it was the best player. */
  function Accumulate(acc: Totals, stat: StatRow): Totals
  {
    Totals(acc.goals + stat.goals, acc.assists + stat.assists,
           acc.yellowCards + stat.yellowCards, acc.redCards + stat.redCards,
           acc.matchesPlayed + 1, acc.motmCount + (if stat.isBestPlayer then 1 else 0))
  }

  /** `stats.reduce(reducer, acc)`, left to right. */
  function Reduce(rows: seq<StatRow>, acc: Totals): Totals
  {
    if |rows| == 0 then acc else Reduce(rows[1..], Accumulate(acc, rows[0]))
  }

  const NoTotals := Totals(0, 0, 0, 0, 0, 0)

  function SumOf(rows: seq<StatRow>, f: StatRow -> int): int
  {
    if |rows| == 0 then 0 else f(rows[0]) + SumOf(rows[1..], f)
  }

  function GoalsOf(s: StatRow): int { s.goals }
  function AssistsOf(s: StatRow): int { s.assists }
  function YellowsOf(s: StatRow): int { s.yellowCards }
  function RedsOf(s: StatRow): int { s.redCards }
  function AwardOf(s: StatRow): int { if s.isBestPlayer then 1 else 0 }

  /** Each total is the sum of that field over the rows; matches played is the number of rows. */
  function TotalsOf(rows: seq<StatRow>): Totals
  {
    Totals(SumOf(rows, GoalsOf), SumOf(rows, AssistsOf), SumOf(rows, YellowsOf), SumOf(rows, RedsOf),
           |rows|, SumOf(rows, AwardOf))
  }

  function Plus(a: Totals, b: Totals): Totals
  {
    Totals(a.goals + b.goals, a.assists + b.assists, a.yellowCards + b.yellowCards,
           a.redCards + b.redCards, a.matchesPlayed + b.matchesPlayed, a.motmCount + b.motmCount)
  }

  /** The reduce started from `acc` adds the rows' totals to `acc`; from zero it yields the sums. */
  lemma {:induction false} ReduceAddsTotals(rows: seq<StatRow>, acc: Totals)
    ensures Reduce(rows, acc) == Plus(acc, TotalsOf(rows))
  {
    if |rows| > 0 {
      ReduceAddsTotals(rows[1..], Accumulate(acc, rows[0]));
    }
  }

  /** Removing one row from a sum. */
  lemma {:induction false} SumOfRemove(rows: seq<StatRow>, i: nat, f: StatRow -> int)
    requires i < |rows|
    ensures SumOf(rows, f) == f(rows[i]) + SumOf(rows[..i] + rows[i + 1..], f)
  {
    if i == 0 {
      assert rows[..0] + rows[1..] == rows[1..];
    } else {
      SumOfRemove(rows[1..], i - 1, f);
      assert rows[..i] + rows[i + 1..] == [rows[0]] + (rows[1..][..i - 1] + rows[1..][i..]);
    }
  }

  /** A sum does not depend on the order of the rows. */
  lemma {:induction false} SumOfPermutation(a: seq<StatRow>, b: seq<StatRow>, f: StatRow -> int)
    requires multiset(a) == multiset(b)
    ensures SumOf(a, f) == SumOf(b, f)
  {
    if |a| == 0 {
      assert |b| == |multiset(b)| == 0;
    } else {
      var x := a[0];
      assert x in multiset(b);
      var i :| 0 <= i < |b| && b[i] == x;
      var rest := b[..i] + b[i + 1..];
      assert b == b[..i] + [x] + b[i + 1..];
      assert multiset(b) == multiset(b[..i]) + multiset{x} + multiset(b[i + 1..]);
      assert a == [x] + a[1..];
      assert multiset(a) == multiset{x} + multiset(a[1..]);
      assert multiset(rest) == multiset(b[..i]) + multiset(b[i + 1..]);
      assert multiset(a[1..]) == multiset(a) - multiset{x};
      assert multiset(rest) == multiset(b) - multiset{x};
      SumOfPermutation(a[1..], rest, f);
      SumOfRemove(b, i, f);
    }
  }

  /** The totals do not depend on the order in which the rows are read. */
  lemma TotalsPermutation(a: seq<StatRow>, b: seq<StatRow>)
    requires multiset(a) == multiset(b)
    ensures TotalsOf(a) == TotalsOf(b)
  {
    SumOfPermutation(a, b, GoalsOf);
    SumOfPermutation(a, b, AssistsOf);
    SumOfPermutation(a, b, YellowsOf);
    SumOfPermutation(a, b, RedsOf);
    SumOfPermutation(a, b, AwardOf);
    assert |a| == |multiset(a)| == |multiset(b)| == |b|;
  }

  function MatchRating(s: StatRow): int
  {
    Rating(Accumulate(NoTotals, s))
  }

  lemma RatingOfPlus(a: Totals, b: Totals)
    ensures Rating(Plus(a, b)) == Rating(a) + Rating(b)
  {
  }

  /** The rating of the totals is the sum of the ratings of the single matches. */
  lemma {:induction false} RatingIsSumOfMatchRatings(rows: seq<StatRow>)
    ensures Rating(TotalsOf(rows)) == SumOf(rows, MatchRating)
  {
    if |rows| > 0 {
      RatingIsSumOfMatchRatings(rows[1..]);
      assert TotalsOf(rows) == Plus(Accumulate(NoTotals, rows[0]), TotalsOf(rows[1..]));
      RatingOfPlus(Accumulate(NoTotals, rows[0]), TotalsOf(rows[1..]));
    }
  }

  /** `where: { playerId }`: a player's rows, in stored order. */
  function RowsOf(stats: seq<StatRow>, playerId: Id): (r: seq<StatRow>)
    ensures |r| <= |stats|
    ensures forall s :: s in r <==> s in stats && s.playerId == playerId
  {
    if |stats| == 0 then []
    else
      var rest := RowsOf(stats[1..], playerId);
      assert forall s :: s in stats <==> s == stats[0] || s in stats[1..];
      if stats[0].playerId == playerId then [stats[0]] + rest else rest
  }

  /** The accumulator of `getPlayerStats`: the same counts, without awards. */
  datatype Counts = Counts(goals: int, assists: int, yellowCards: int, redCards: int, matchesPlayed: int)

  /** The reducer of `getPlayerStats`: one more match and its counts added. */
  function AccumulateCounts(acc: Counts, stat: StatRow): Counts
  {
    Counts(acc.goals + stat.goals, acc.assists + stat.assists,
           acc.yellowCards + stat.yellowCards, acc.redCards + stat.redCards, acc.matchesPlayed + 1)
  }

  function ReduceCounts(rows: seq<StatRow>, acc: Counts): Counts
  {
    if |rows| == 0 then acc else ReduceCounts(rows[1..], AccumulateCounts(acc, rows[0]))
  }

  /** The totals without the award count. */
  function CountsOf(t: Totals): Counts
  {
    Counts(t.goals, t.assists, t.yellowCards, t.redCards, t.matchesPlayed)
  }

  /** The five-field reduce computes the same counts as the six-field one. */
  lemma {:induction false} ReduceCountsAgrees(rows: seq<StatRow>, acc: Totals)
    ensures ReduceCounts(rows, CountsOf(acc)) == CountsOf(Reduce(rows, acc))
  {
    if |rows| > 0 {
      ReduceCountsAgrees(rows[1..], Accumulate(acc, rows[0]));
    }
  }

  datatype PlayerReport = PlayerReport(stats: seq<StatRow>, totals: Counts, rating: int)

  /**
   * `getPlayerStats`: the player's rows, their totals (goals, assists, cards and matches; no
   * award count) and the rating of those totals.
   */
  function GetPlayerStats(stats: seq<StatRow>, playerId: Id): (r: PlayerReport)
    ensures forall s :: s in r.stats <==> s in stats && s.playerId == playerId
    ensures r.totals == CountsOf(TotalsOf(r.stats)) && r.totals.matchesPlayed == |r.stats|
    ensures r.rating == RatingOf(r.totals.goals, r.totals.assists, r.totals.yellowCards, r.totals.redCards)
    ensures r.rating == Rating(TotalsOf(r.stats)) == SumOf(r.stats, MatchRating)
  {
    var rows := RowsOf(stats, playerId);
    var totals := ReduceCounts(rows, Counts(0, 0, 0, 0, 0));
    ReduceCountsAgrees(rows, NoTotals);
    ReduceAddsTotals(rows, NoTotals);
    RatingIsSumOfMatchRatings(rows);
    PlayerReport(rows, totals, RatingOf(totals.goals, totals.assists, totals.yellowCards, totals.redCards))
  }

  // ---------------------------------------------------------------- recording a batch

  /** One entry of the request's `playerStats`; `None` stands for an absent or falsy value. */
  datatype StatInput = StatInput(
    playerId: Id, goals: Option<int>, assists: Option<int>, yellowCards: Option<int>,
    redCards: Option<int>, minutesPlayed: Option<int>, isBestPlayer: Option<bool>)

  function OrZero(v: Option<int>): int
  {
    if v.Some? then v.value else 0
  }

  /**
   * The row an entry is stored as: missing counts become 0 and a missing award false. Minutes go
   * through `|| null`, so 0 minutes is stored as null like a missing value.
   */
  function ToRow(matchId: Id, s: StatInput): (r: StatRow)
    ensures r.playerId == s.playerId && r.matchId == matchId
    ensures r.goals == OrZero(s.goals) && r.assists == OrZero(s.assists)
    ensures r.yellowCards == OrZero(s.yellowCards) && r.redCards == OrZero(s.redCards)
    ensures r.minutesPlayed.Some? <==> s.minutesPlayed.Some? && s.minutesPlayed.value != 0
    ensures r.minutesPlayed.Some? ==> r.minutesPlayed == s.minutesPlayed
    ensures r.isBestPlayer <==> s.isBestPlayer == Some(true)
  {
    StatRow(s.playerId, matchId, OrZero(s.goals), OrZero(s.assists), OrZero(s.yellowCards),
            OrZero(s.redCards),
            if s.minutesPlayed.Some? && s.minutesPlayed.value != 0 then s.minutesPlayed else None,
            s.isBestPlayer == Some(true))
  }

  /** The entry that submits a stored row's own values. */
  function InputOf(row: StatRow): StatInput
  {
    StatInput(row.playerId, Some(row.goals), Some(row.assists), Some(row.yellowCards),
              Some(row.redCards), row.minutesPlayed, Some(row.isBestPlayer))
  }

  /** Re-submitting a row's values stores the same row, unless it recorded 0 minutes. */
  lemma ResubmitKeepsRow(row: StatRow)
    requires row.minutesPlayed != Some(0)
    ensures ToRow(row.matchId, InputOf(row)) == row
  {
  }

  function ToRows(matchId: Id, batch: seq<StatInput>): (rows: seq<StatRow>)
    ensures |rows| == |batch|
    ensures forall i :: 0 <= i < |batch| ==> rows[i] == ToRow(matchId, batch[i])
  {
    seq(|batch|, i requires 0 <= i < |batch| => ToRow(matchId, batch[i]))
  }

  /** Ids of the players of one team, in stored order. */
  function TeamPlayerIds(ps: seq<Player>, teamId: Id): (ids: seq<Id>)
    ensures forall id :: id in ids <==> exists p :: p in ps && p.teamId == teamId && p.id == id
  {
    if |ps| == 0 then []
    else
      var rest := TeamPlayerIds(ps[1..], teamId);
      assert forall p :: p in ps <==> p == ps[0] || p in ps[1..];
      if ps[0].teamId == teamId then [ps[0].id] + rest else rest
  }

  /**
   * The `for (const stat of playerStats)` check: the first entry whose player is not in
   * `validPlayerIds`, if any.
   */
  method FirstForeignPlayer(playerStats: seq<StatInput>, validPlayerIds: seq<Id>) returns (r: Option<Id>)
    ensures r.None? <==> forall i :: 0 <= i < |playerStats| ==> playerStats[i].playerId in validPlayerIds
    ensures r.Some? ==> r.value !in validPlayerIds
    ensures r.Some? ==>
      exists i :: 0 <= i < |playerStats| && playerStats[i].playerId == r.value
        && forall j :: 0 <= j < i ==> playerStats[j].playerId in validPlayerIds
  {
    for i := 0 to |playerStats|
      invariant forall j :: 0 <= j < i ==> playerStats[j].playerId in validPlayerIds
    {
      if playerStats[i].playerId !in validPlayerIds {
        return Some(playerStats[i].playerId);
      }
    }
    return None;
  }

  /** The position of the row keyed (playerId, matchId), the first one if several. */
  function StatIndex(rows: seq<StatRow>, playerId: Id, matchId: Id): (r: Option<nat>)
    ensures r.Some? ==> r.value < |rows| && rows[r.value].playerId == playerId && rows[r.value].matchId == matchId
    ensures r.Some? ==> forall j :: 0 <= j < r.value ==> rows[j].playerId != playerId || rows[j].matchId != matchId
    ensures r.None? ==> forall j :: 0 <= j < |rows| ==> rows[j].playerId != playerId || rows[j].matchId != matchId
  {
    if |rows| == 0 then None
    else if rows[0].playerId == playerId && rows[0].matchId == matchId then Some(0)
    else match StatIndex(rows[1..], playerId, matchId)
      case None => None
      case Some(k) => Some(k + 1)
  }

  /**
   * `playerStats.upsert` keyed by (playerId, matchId): the row with that key is overwritten, or
   * the row is added when there is none. Rows with other keys stay, nothing else appears, and
   * keys stay unique.
   */
  function Upsert(rows: seq<StatRow>, row: StatRow): (r: seq<StatRow>)
    ensures StatIndex(r, row.playerId, row.matchId).Some?
    ensures row in r && forall x :: x in r ==> x == row || x in rows
    ensures forall i :: 0 <= i < |rows| && (rows[i].playerId != row.playerId || rows[i].matchId != row.matchId) ==> rows[i] in r
    ensures forall p, m :: StatIndex(rows, p, m).Some? ==> StatIndex(r, p, m).Some?
    ensures |r| == if StatIndex(rows, row.playerId, row.matchId).Some? then |rows| else |rows| + 1
    ensures StatKeysUnique(rows) ==> StatKeysUnique(r)
  {
    match StatIndex(rows, row.playerId, row.matchId)
    case Some(i) =>
      var r := rows[i := row];
      assert r[i] == row;
      assert forall j :: 0 <= j < |rows| && j != i ==> r[j] == rows[j];
      forall p, m | StatIndex(rows, p, m).Some? ensures StatIndex(r, p, m).Some? {
        var k := StatIndex(rows, p, m).value;
        if k != i {
          assert r[k] == rows[k];
        } else {
          assert r[i].playerId == p && r[i].matchId == m;
        }
      }
      r
    case None =>
      var r := rows + [row];
      forall p, m | StatIndex(rows, p, m).Some? ensures StatIndex(r, p, m).Some? {
        var k := StatIndex(rows, p, m).value;
        assert r[k] == rows[k];
      }
      assert r[|rows|] == row;
      r
  }

  /** Recording the same row twice is the same as recording it once. */
  lemma UpsertIdempotent(rows: seq<StatRow>, row: StatRow)
    ensures Upsert(Upsert(rows, row), row) == Upsert(rows, row)
  {
    var once := Upsert(rows, row);
    match StatIndex(rows, row.playerId, row.matchId)
    case Some(i) =>
      assert once[i] == row;
      assert forall j :: 0 <= j < i ==> once[j] == rows[j];
      assert StatIndex(once, row.playerId, row.matchId) == Some(i);
    case None =>
      assert StatIndex(once, row.playerId, row.matchId) == Some(|rows|);
  }

  /** The upserts of a batch, one after the other. */
  function UpsertAll(rows: seq<StatRow>, batch: seq<StatRow>): (r: seq<StatRow>)
    ensures forall i :: 0 <= i < |batch| ==> StatIndex(r, batch[i].playerId, batch[i].matchId).Some?
    ensures forall p, m :: StatIndex(rows, p, m).Some? ==> StatIndex(r, p, m).Some?
    ensures forall x :: x in r ==> x in rows || x in batch
    ensures StatKeysUnique(rows) ==> StatKeysUnique(r)
    decreases |batch|
  {
    if |batch| == 0 then rows
    else
      var r := UpsertAll(Upsert(rows, batch[0]), batch[1..]);
      assert forall i :: 1 <= i < |batch| ==> batch[i] == batch[1..][i - 1];
      assert forall x :: x in batch[1..] ==> x in batch;
      r
  }

  /** A batch entry whose key does not come up again in the batch is stored exactly as given. */
  lemma {:induction false} UpsertAllLastWins(rows: seq<StatRow>, batch: seq<StatRow>, i: nat)
    requires i < |batch|
    requires forall j :: i < j < |batch| ==> batch[j].playerId != batch[i].playerId || batch[j].matchId != batch[i].matchId
    ensures batch[i] in UpsertAll(rows, batch)
    decreases |batch|
  {
    if i == 0 {
      KeptAfterUpserts(Upsert(rows, batch[0]), batch[1..], batch[0]);
    } else {
      UpsertAllLastWins(Upsert(rows, batch[0]), batch[1..], i - 1);
    }
  }

  /** A row survives a batch of upserts that never touch its key. */
  lemma {:induction false} KeptAfterUpserts(rows: seq<StatRow>, batch: seq<StatRow>, x: StatRow)
    requires x in rows
    requires forall j :: 0 <= j < |batch| ==> batch[j].playerId != x.playerId || batch[j].matchId != x.matchId
    ensures x in UpsertAll(rows, batch)
    decreases |batch|
  {
    if |batch| > 0 {
      var k :| 0 <= k < |rows| && rows[k] == x;
      assert x in Upsert(rows, batch[0]);
      KeptAfterUpserts(Upsert(rows, batch[0]), batch[1..], x);
    }
  }

  datatype StatsError = NotAnArray | MatchNotFound | ForeignPlayer(playerId: Id)

  /**
   * `recordMatchStats`: a body that is not an array, an unknown match, or any entry for a
   * player of neither team rejects the whole batch before anything is written; otherwise every
   * entry is upserted and the stored rows are returned.
   */
  method RecordMatchStats(db: Db, matchId: Id, playerStats: Option<seq<StatInput>>)
    returns (r: Result<seq<StatRow>, StatsError>)
    requires db.Valid()
    modifies db
    ensures db.Valid()
    ensures db.teams == old(db.teams) && db.players == old(db.players) && db.matches == old(db.matches)
    ensures db.nextId == old(db.nextId)
    ensures r.Err? ==> db.stats == old(db.stats)
    ensures playerStats.None? ==> r == Err(NotAnArray)
    ensures playerStats.Some? && IndexOfId(db.matches, MatchId, matchId).None? ==> r == Err(MatchNotFound)
    ensures playerStats.Some? && IndexOfId(db.matches, MatchId, matchId).Some? ==>
      var m := db.matches[IndexOfId(db.matches, MatchId, matchId).value];
      var valid := TeamPlayerIds(db.players, m.homeTeamId) + TeamPlayerIds(db.players, m.awayTeamId);
      var batch := playerStats.value;
      && ((forall i :: 0 <= i < |batch| ==> batch[i].playerId in valid) <==> r.Ok?)
      && (r.Err? ==> r.error.ForeignPlayer? && r.error.playerId !in valid)
      && (r.Ok? ==> r.value == ToRows(matchId, batch) && db.stats == UpsertAll(old(db.stats), r.value))
  {
    if playerStats.None? {
      return Err(NotAnArray);
    }
    var found := IndexOfId(db.matches, MatchId, matchId);
    if found.None? {
      return Err(MatchNotFound);
    }
    var m := db.matches[found.value];
    var validPlayerIds := TeamPlayerIds(db.players, m.homeTeamId) + TeamPlayerIds(db.players, m.awayTeamId);
    var foreign := FirstForeignPlayer(playerStats.value, validPlayerIds);
    if foreign.Some? {
      return Err(ForeignPlayer(foreign.value));
    }
    var results := ToRows(matchId, playerStats.value);
    db.stats := UpsertAll(db.stats, results);
    r := Ok(results);
  }

  // ---------------------------------------------------------------- rankings

  /** A player's line in the league statistics (the team is given by its id). */
  datatype PlayerLine = PlayerLine(id: Id, name: string, number: int, teamId: Id, totals: Totals, rating: int)

  datatype RankedLine = RankedLine(rank: nat, line: PlayerLine)

  /** `players.map(...)`: the totals of the player's own rows and their rating. */
  function LineOf(p: Player, stats: seq<StatRow>): (l: PlayerLine)
    ensures l.id == p.id && l.teamId == p.teamId
    ensures l.totals == TotalsOf(RowsOf(stats, p.id)) && l.rating == Rating(l.totals)
  {
    var totals := Reduce(RowsOf(stats, p.id), NoTotals);
    ReduceAddsTotals(RowsOf(stats, p.id), NoTotals);
    PlayerLine(p.id, p.name, p.number, p.teamId, totals, Rating(totals))
  }

  function Lines(ps: seq<Player>, stats: seq<StatRow>): (ls: seq<PlayerLine>)
    ensures |ls| == |ps|
    ensures forall i :: 0 <= i < |ps| ==> ls[i] == LineOf(ps[i], stats)
  {
    seq(|ps|, i requires 0 <= i < |ps| => LineOf(ps[i], stats))
  }

  /** Awards, goals and assists descending, then red cards ascending. */
  function LeagueKey(l: PlayerLine): seq<int>
  {
    [-l.totals.motmCount, -l.totals.goals, -l.totals.assists, l.totals.redCards]
  }

  /** `a` is ranked no lower than `b` by the league ordering. */
  predicate RanksAbove(a: Totals, b: Totals)
  {
    a.motmCount > b.motmCount
    || (a.motmCount == b.motmCount
        && (a.goals > b.goals
            || (a.goals == b.goals
                && (a.assists > b.assists || (a.assists == b.assists && a.redCards <= b.redCards)))))
  }

  /** The comparator of `playerStats.sort` is the order of `LeagueKey`. */
  lemma LeagueKeyOrder(a: PlayerLine, b: PlayerLine)
    ensures LexLe(LeagueKey(a), LeagueKey(b)) <==> RanksAbove(a.totals, b.totals)
  {
    var x, y := a.totals, b.totals;
    assert LeagueKey(a) == [-x.motmCount] + ([-x.goals] + ([-x.assists] + [x.redCards]));
    assert LeagueKey(b) == [-y.motmCount] + ([-y.goals] + ([-y.assists] + [y.redCards]));
    LexLeCons(-x.motmCount, [-x.goals] + ([-x.assists] + [x.redCards]), -y.motmCount, [-y.goals] + ([-y.assists] + [y.redCards]));
    LexLeCons(-x.goals, [-x.assists] + [x.redCards], -y.goals, [-y.assists] + [y.redCards]);
    LexLeCons(-x.assists, [x.redCards], -y.assists, [y.redCards]);
    LexLeCons(x.redCards, [], y.redCards, []);
    assert [x.redCards] + [] == [x.redCards] && [y.redCards] + [] == [y.redCards];
  }

  /** The lines of a ranking, without their ranks. */
  function Unranked(ranked: seq<RankedLine>): (ls: seq<PlayerLine>)
    ensures |ls| == |ranked|
    ensures forall i :: 0 <= i < |ranked| ==> ls[i] == ranked[i].line
  {
    seq(|ranked|, i requires 0 <= i < |ranked| => ranked[i].line)
  }

  /** `map((p, index) => ({ rank: index + 1, ...p }))`: ranks 1, 2, ... by position. */
  function Ranked(ls: seq<PlayerLine>): (ranked: seq<RankedLine>)
    ensures |ranked| == |ls|
    ensures forall i :: 0 <= i < |ls| ==> ranked[i] == RankedLine(i + 1, ls[i])
    ensures Unranked(ranked) == ls
  {
    var ranked := seq(|ls|, i requires 0 <= i < |ls| => RankedLine(i + 1, ls[i]));
    assert Unranked(ranked) == ls;
    ranked
  }

  /**
   * `getLeagueStats`: one line per player, ranked by the league ordering, with ranks 1, 2, ...
   * in order.
   */
  function GetLeagueStats(ps: seq<Player>, stats: seq<StatRow>): (ranked: seq<RankedLine>)
    ensures |ranked| == |ps|
    ensures forall i :: 0 <= i < |ranked| ==> ranked[i].rank == i + 1
    ensures multiset(Unranked(ranked)) == multiset(Lines(ps, stats))
    ensures forall i, j :: 0 <= i < j < |ranked| ==> RanksAbove(ranked[i].line.totals, ranked[j].line.totals)
  {
    var sorted := SortBy(Lines(ps, stats), LeagueKey);
    forall i, j | 0 <= i < j < |sorted| ensures RanksAbove(sorted[i].totals, sorted[j].totals) {
      LeagueKeyOrder(sorted[i], sorted[j]);
    }
    Ranked(sorted)
  }

  /** `[...xs].sort(cmp).slice(0, 5)`. */
  function TopFive<T>(s: seq<T>, key: T -> seq<int>): (r: seq<T>)
    ensures |r| == if |s| < 5 then |s| else 5
    ensures SortedBy(r, key)
    ensures multiset(r) <= multiset(s)
  {
    var sorted := SortBy(s, key);
    var n := if |sorted| < 5 then |sorted| else 5;
    assert sorted == sorted[..n] + sorted[n..];
    sorted[..n]
  }

  /** Nothing left out of the top five ranks above anything in it. */
  lemma TopFiveIsBest<T>(s: seq<T>, key: T -> seq<int>, x: T, y: T)
    requires x in multiset(s) - multiset(TopFive(s, key))
    requires y in TopFive(s, key)
    ensures LexLe(key(y), key(x))
  {
    var sorted := SortBy(s, key);
    var n := if |sorted| < 5 then |sorted| else 5;
    assert sorted == sorted[..n] + sorted[n..];
    assert multiset(s) - multiset(sorted[..n]) == multiset(sorted[n..]);
    var j :| n <= j < |sorted| && sorted[j] == x by {
      assert x in multiset(sorted[n..]);
      var k :| 0 <= k < |sorted[n..]| && sorted[n..][k] == x;
      assert sorted[n + k] == x;
    }
    var i :| 0 <= i < n && sorted[i] == y;
  }

  /** Every element left out of the top five ranks no higher than every element kept. */
  lemma TopFiveAllBest<T>(s: seq<T>, key: T -> seq<int>)
    ensures forall x, y :: x in multiset(s) - multiset(TopFive(s, key)) && y in TopFive(s, key) ==> LexLe(key(y), key(x))
  {
    forall x, y | x in multiset(s) - multiset(TopFive(s, key)) && y in TopFive(s, key) ensures LexLe(key(y), key(x)) {
      TopFiveIsBest(s, key, x, y);
    }
  }

  function GoalsKey(l: PlayerLine): seq<int> { [-l.totals.goals] }
  function AssistsKey(l: PlayerLine): seq<int> { [-l.totals.assists] }
  /** Awards, then goals, then assists, all descending. */
  function BestKey(l: PlayerLine): seq<int> { [-l.totals.motmCount, -l.totals.goals, -l.totals.assists] }

  /** `a` is a better player than or as good as `b` by awards, then goals, then assists. */
  predicate BestAbove(a: Totals, b: Totals)
  {
    a.motmCount > b.motmCount
    || (a.motmCount == b.motmCount
        && (a.goals > b.goals || (a.goals == b.goals && a.assists >= b.assists)))
  }

  /** The best-players comparator is lexicographic order on `BestKey`. */
  lemma BestKeyOrder(a: PlayerLine, b: PlayerLine)
    ensures LexLe(BestKey(a), BestKey(b)) <==> BestAbove(a.totals, b.totals)
  {
    var x, y := a.totals, b.totals;
    assert BestKey(a) == [-x.motmCount] + ([-x.goals] + [-x.assists]);
    assert BestKey(b) == [-y.motmCount] + ([-y.goals] + [-y.assists]);
    LexLeCons(-x.motmCount, [-x.goals] + [-x.assists], -y.motmCount, [-y.goals] + [-y.assists]);
    LexLeCons(-x.goals, [-x.assists], -y.goals, [-y.assists]);
    LexLeCons(-x.assists, [], -y.assists, []);
    assert [-x.assists] + [] == [-x.assists] && [-y.assists] + [] == [-y.assists];
  }

  /** A one-field key compares by that field. */
  lemma SingleKeyOrder(x: int, y: int)
    ensures LexLe([-x], [-y]) <==> x >= y
  {
    LexLeCons(-x, [], -y, []);
    assert [-x] + [] == [-x] && [-y] + [] == [-y];
  }

  datatype TopPerformers = TopPerformers(topScorers: seq<PlayerLine>, topAssisters: seq<PlayerLine>, bestPlayers: seq<PlayerLine>)

  /** `top` has min(|ls|, 5) lines taken from `ls`, best first, and none left out ranks above one kept. */
  ghost predicate IsTopFive(top: seq<PlayerLine>, ls: seq<PlayerLine>, above: (PlayerLine, PlayerLine) -> bool)
  {
    && |top| == (if |ls| < 5 then |ls| else 5)
    && multiset(top) <= multiset(ls)
    && (forall i, j :: 0 <= i < j < |top| ==> above(top[i], top[j]))
    && (forall x, y :: x in multiset(ls) - multiset(top) && y in top ==> above(y, x))
  }

  function ScoresAbove(a: PlayerLine, b: PlayerLine): bool { a.totals.goals >= b.totals.goals }
  function AssistsAbove(a: PlayerLine, b: PlayerLine): bool { a.totals.assists >= b.totals.assists }
  function PlaysAbove(a: PlayerLine, b: PlayerLine): bool { BestAbove(a.totals, b.totals) }

  /** The top five of `ls` by `key`, where key order is the given ranking. */
  lemma TopFiveIsTop(ls: seq<PlayerLine>, key: PlayerLine -> seq<int>, above: (PlayerLine, PlayerLine) -> bool)
    requires forall a, b :: LexLe(key(a), key(b)) <==> above(a, b)
    ensures IsTopFive(TopFive(ls, key), ls, above)
  {
    TopFiveAllBest(ls, key);
  }

  /**
   * `getTopPerformers`: five players in each list (fewer when there are fewer players): the top
   * scorers by goals, the top assisters by assists, the best players by awards then goals then
   * assists; each list best first, and nobody left out of a list ranks above anyone in it.
   */
  function GetTopPerformers(ps: seq<Player>, stats: seq<StatRow>): (r: TopPerformers)
    ensures IsTopFive(r.topScorers, Lines(ps, stats), ScoresAbove)
    ensures IsTopFive(r.topAssisters, Lines(ps, stats), AssistsAbove)
    ensures IsTopFive(r.bestPlayers, Lines(ps, stats), PlaysAbove)
  {
    var lines := Lines(ps, stats);
    forall a, b ensures LexLe(GoalsKey(a), GoalsKey(b)) <==> ScoresAbove(a, b) {
      SingleKeyOrder(a.totals.goals, b.totals.goals);
    }
    forall a, b ensures LexLe(AssistsKey(a), AssistsKey(b)) <==> AssistsAbove(a, b) {
      SingleKeyOrder(a.totals.assists, b.totals.assists);
    }
    forall a, b ensures LexLe(BestKey(a), BestKey(b)) <==> PlaysAbove(a, b) {
      BestKeyOrder(a, b);
    }
    TopFiveIsTop(lines, GoalsKey, ScoresAbove);
    TopFiveIsTop(lines, AssistsKey, AssistsAbove);
    TopFiveIsTop(lines, BestKey, PlaysAbove);
    TopPerformers(TopFive(lines, GoalsKey), TopFive(lines, AssistsKey), TopFive(lines, BestKey))
  }
}
