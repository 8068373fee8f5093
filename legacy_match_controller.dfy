/**
 * The earlier, four-team match controller: a fixed double round robin over six matchdays,
 * dated from the day after "today", and a result update that always marks the match PLAYED.
 */
module LegacyMatchController {
  import opened Wrappers
  import opened Store

  datatype Pairing = Pairing(home: Id, away: Id)

  /** `roundPairings`: three days of first legs, then the same meetings with sides swapped. */
  function RoundPairings(a: Id, b: Id, c: Id, d: Id): (p: seq<Pairing>)
    ensures |p| == 12
    ensures forall i :: 0 <= i < 6 ==> p[i + 6] == Pairing(p[i].away, p[i].home)
  {
    [ Pairing(a, b), Pairing(c, d),
      Pairing(a, c), Pairing(b, d),
      Pairing(a, d), Pairing(b, c),
      Pairing(b, a), Pairing(d, c),
      Pairing(c, a), Pairing(d, b),
      Pairing(d, a), Pairing(c, b) ]
  }

  datatype Planned = Planned(pairing: Pairing, matchday: nat)

  /** `matchesToCreate`: the twelve pushes, two pairings per matchday 1..6. */
  function MatchesToCreate(p: seq<Pairing>): (m: seq<Planned>)
    requires |p| == 12
    ensures |m| == 12
  {
    [ Planned(p[0], 1), Planned(p[1], 1),
      Planned(p[2], 2), Planned(p[3], 2),
      Planned(p[4], 3), Planned(p[5], 3),
      Planned(p[6], 4), Planned(p[7], 4),
      Planned(p[8], 5), Planned(p[9], 5),
      Planned(p[10], 6), Planned(p[11], 6) ]
  }

  /** What the `create` calls store for `planned`: round 1, dated `base` + matchday days. */
  function Fixtures(planned: seq<Planned>, base: int): (fs: seq<Fixture>)
    ensures |fs| == |planned|
  {
    seq(|planned|, i requires 0 <= i < |planned| =>
      Fixture(planned[i].matchday, 1, base + planned[i].matchday,
              planned[i].pairing.home, planned[i].pairing.away, Scheduled))
  }

  /** The `for (const m of matchesToCreate)` loop that prepares one `create` per planned match. */
  method BuildFixtures(planned: seq<Planned>, currentDate: int) returns (dbOps: seq<Fixture>)
    ensures dbOps == Fixtures(planned, currentDate)
    ensures forall i :: 0 <= i < |planned| ==>
      dbOps[i].matchday == planned[i].matchday && dbOps[i].round == 1
      && dbOps[i].date == currentDate + planned[i].matchday
  {
    dbOps := [];
    for k := 0 to |planned|
      invariant dbOps == Fixtures(planned[..k], currentDate)
    {
      var m := planned[k];
      dbOps := dbOps + [Fixture(m.matchday, 1, currentDate + m.matchday, m.pairing.home, m.pairing.away, Scheduled)];
    }
    assert planned[..|planned|] == planned;
  }

  function Schedule(a: Id, b: Id, c: Id, d: Id, base: int): (s: seq<Fixture>)
    ensures |s| == 12
  {
    Fixtures(MatchesToCreate(RoundPairings(a, b, c, d)), base)
  }

  /**
   * Twelve fixtures, two on each matchday 1..6, all in round 1 and SCHEDULED; a fixture is dated
   * `base` + its matchday, so one matchday shares a date and later matchdays are later.
   */
  lemma ScheduleShape(a: Id, b: Id, c: Id, d: Id, base: int, i: nat, j: nat)
    requires i < 12 && j < 12
    ensures var s := Schedule(a, b, c, d, base);
      && s[i].matchday == i / 2 + 1
      && s[i].round == 1 && s[i].status == Scheduled
      && s[i].date == base + s[i].matchday
      && (s[i].matchday == s[j].matchday ==> s[i].date == s[j].date)
      && (s[i].matchday < s[j].matchday ==> s[i].date < s[j].date)
  {
    var m := MatchesToCreate(RoundPairings(a, b, c, d));
    assert m[i].matchday == i / 2 + 1;
  }

  /**
   * With four distinct teams, no team plays itself, every fixture is between two of the four
   * teams, and no two fixtures share the same home and away team.
   */
  lemma FixturesDistinct(a: Id, b: Id, c: Id, d: Id, base: int)
    requires a != b && a != c && a != d && b != c && b != d && c != d
    ensures var s := Schedule(a, b, c, d, base);
      && (forall i :: 0 <= i < 12 ==>
            s[i].homeTeamId in {a, b, c, d} && s[i].awayTeamId in {a, b, c, d}
            && s[i].homeTeamId != s[i].awayTeamId)
      && (forall i, j :: 0 <= i < j < 12 ==>
            s[i].homeTeamId != s[j].homeTeamId || s[i].awayTeamId != s[j].awayTeamId)
  {
    var s := Schedule(a, b, c, d, base);
    var p := RoundPairings(a, b, c, d);
    forall i | 0 <= i < 12 ensures s[i].homeTeamId == p[i].home && s[i].awayTeamId == p[i].away {
    }
  }

  /**
   * Every ordered pair of distinct teams among the four is scheduled in exactly one fixture,
   * so each couple meets twice, once on each ground.
   */
  lemma OrderedPairOnce(a: Id, b: Id, c: Id, d: Id, base: int, x: Id, y: Id) returns (i: nat)
    requires a != b && a != c && a != d && b != c && b != d && c != d
    requires x in {a, b, c, d} && y in {a, b, c, d} && x != y
    ensures var s := Schedule(a, b, c, d, base);
      && i < 12 && s[i].homeTeamId == x && s[i].awayTeamId == y
      && forall j :: 0 <= j < 12 && s[j].homeTeamId == x && s[j].awayTeamId == y ==> j == i
  {
    i := PairIndex(a, b, c, d, x, y);
    FixturesDistinct(a, b, c, d, base);
    var s := Schedule(a, b, c, d, base);
    var p := RoundPairings(a, b, c, d);
    assert s[i].homeTeamId == p[i].home && s[i].awayTeamId == p[i].away;
  }

  /** Where `roundPairings` lists the meeting of `x` at home to `y`. */
  function PairIndex(a: Id, b: Id, c: Id, d: Id, x: Id, y: Id): (i: nat)
    requires a != b && a != c && a != d && b != c && b != d && c != d
    requires x in {a, b, c, d} && y in {a, b, c, d} && x != y
    ensures i < 12 && RoundPairings(a, b, c, d)[i] == Pairing(x, y)
  {
    if x == a then (if y == b then 0 else if y == c then 2 else 4)
    else if x == b then (if y == a then 6 else if y == c then 5 else 3)
    else if x == c then (if y == a then 8 else if y == b then 11 else 1)
    else (if y == a then 10 else if y == b then 9 else 7)
  }

  /** On each matchday the two fixtures involve four distinct teams: everyone plays exactly once. */
  lemma EachTeamOncePerMatchday(a: Id, b: Id, c: Id, d: Id, base: int, k: nat)
    requires a != b && a != c && a != d && b != c && b != d && c != d
    requires k < 6
    ensures var s := Schedule(a, b, c, d, base);
      var f, g := s[2 * k], s[2 * k + 1];
      && f.matchday == g.matchday == k + 1
      && {f.homeTeamId, f.awayTeamId, g.homeTeamId, g.awayTeamId} == {a, b, c, d}
      && |{f.homeTeamId, f.awayTeamId, g.homeTeamId, g.awayTeamId}| == 4
  {
  }

  datatype ScheduleError = NeedFourTeams

  /**
   * `generateSchedule`: refuses unless there are exactly four teams, before deleting anything;
   * otherwise replaces all matches by the twelve fixtures, dated from the day after `today`.
   */
  method GenerateSchedule(db: Db, today: int) returns (r: Result<seq<Match>, ScheduleError>)
    requires db.Valid()
    modifies db
    ensures db.Valid()
    ensures db.teams == old(db.teams) && db.players == old(db.players) && db.stats == old(db.stats)
    ensures |old(db.teams)| != 4 ==> r == Err(NeedFourTeams) && db.matches == old(db.matches) && db.nextId == old(db.nextId)
    ensures |old(db.teams)| == 4 ==>
      var ts := old(db.teams);
      && db.matches == Materialize(Schedule(ts[0].id, ts[1].id, ts[2].id, ts[3].id, today + 1), old(db.nextId))
      && r == Ok(db.matches)
  {
    if |db.teams| != 4 {
      return Err(NeedFourTeams);
    }
    db.ClearMatches();
    var tA, tB, tC, tD := db.teams[0], db.teams[1], db.teams[2], db.teams[3];
    var roundPairings := RoundPairings(tA.id, tB.id, tC.id, tD.id);
    var currentDate := today + 1;
    var matchesToCreate := MatchesToCreate(roundPairings);
    var dbOps := BuildFixtures(matchesToCreate, currentDate);
    db.ReplaceMatches(dbOps);
    r := Ok(db.matches);
  }

  /** This version's `updateResult` stores both scores and marks the match PLAYED unconditionally. */
  function RecordResult(m: Match, homeScore: int, awayScore: int): (r: Match)
    ensures r.status == Played && r.homeScore == Some(homeScore) && r.awayScore == Some(awayScore)
    ensures PlayedHasScores(r)
    ensures r.(homeScore := m.homeScore, awayScore := m.awayScore, status := m.status) == m
  {
    m.(homeScore := Some(homeScore), awayScore := Some(awayScore), status := Played)
  }

  datatype UpdateError = MatchMissing

  method UpdateResult(db: Db, id: Id, homeScore: int, awayScore: int) returns (r: Result<Match, UpdateError>)
    requires db.Valid()
    modifies db
    ensures db.Valid()
    ensures db.teams == old(db.teams) && db.players == old(db.players) && db.stats == old(db.stats)
    ensures db.nextId == old(db.nextId)
    ensures IndexOfId(old(db.matches), MatchId, id).None? ==> r == Err(MatchMissing) && db.matches == old(db.matches)
    ensures IndexOfId(old(db.matches), MatchId, id).Some? ==>
      var i := IndexOfId(old(db.matches), MatchId, id).value;
      && db.matches == old(db.matches)[i := RecordResult(old(db.matches)[i], homeScore, awayScore)]
      && r == Ok(db.matches[i])
  {
    var found := IndexOfId(db.matches, MatchId, id);
    if found.None? {
      return Err(MatchMissing);
    }
    var i := found.value;
    db.matches := db.matches[i := RecordResult(db.matches[i], homeScore, awayScore)];
    r := Ok(db.matches[i]);
  }
}
