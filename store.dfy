/**
 * The league's persistent tables, held in memory.
 *
 * The server keeps teams, players, matches and per-match player statistics in a database behind
 * an ORM; here the four tables are sequence-valued fields of one object, `Db`, and the ids the
 * database generates are drawn from a counter, `nextId`. Each controller operation is a method
 * that takes the `Db` and states what every table holds afterwards.
 */
module Store {
  import opened Wrappers
  import opened Ordering

  type Id = nat

  datatype Team = Team(id: Id, name: string, logoUrl: Option<string>)

  datatype Player = Player(id: Id, name: string, number: int, teamId: Id)

  datatype Status = Scheduled | Played

  /** A stored match; `date` is a day number (day 0 is 1970-01-01, a Thursday). */
  datatype Match = Match(
    id: Id, matchday: nat, round: nat, date: int,
    homeTeamId: Id, awayTeamId: Id,
    status: Status, homeScore: Option<int>, awayScore: Option<int>)

  /** One player's statistics in one match; the pair (playerId, matchId) is the row's key. */
  datatype StatRow = StatRow(
    playerId: Id, matchId: Id,
    goals: int, assists: int, yellowCards: int, redCards: int,
    minutesPlayed: Option<int>, isBestPlayer: bool)

  /** A match as a schedule generator hands it to the database, before it has an id. */
  datatype Fixture = Fixture(matchday: nat, round: nat, date: int, homeTeamId: Id, awayTeamId: Id, status: Status)

  /**
   * Teams are read `orderBy: { name: 'asc' }`. The order is the database's collation; the model
   * takes it to be the order of the names' character codes, and teams with equal names come in
   * the order `SortBy` leaves them, where the database may give another.
   */
  function NameKey(t: Team): seq<int>
  {
    Codes(t.name)
  }

  predicate TeamIdsOk(ts: seq<Team>, next: nat)
  {
    && (forall i :: 0 <= i < |ts| ==> ts[i].id < next)
    && (forall i, j :: 0 <= i < j < |ts| ==> ts[i].id != ts[j].id)
  }

  predicate PlayerIdsOk(ps: seq<Player>, next: nat)
  {
    && (forall i :: 0 <= i < |ps| ==> ps[i].id < next)
    && (forall i, j :: 0 <= i < j < |ps| ==> ps[i].id != ps[j].id)
  }

  predicate MatchIdsOk(ms: seq<Match>, next: nat)
  {
    && (forall i :: 0 <= i < |ms| ==> ms[i].id < next)
    && (forall i, j :: 0 <= i < j < |ms| ==> ms[i].id != ms[j].id)
  }

  /** No two players of one team wear the same jersey number. */
  predicate JerseysUnique(ps: seq<Player>)
  {
    forall i, j :: 0 <= i < j < |ps| && ps[i].teamId == ps[j].teamId ==> ps[i].number != ps[j].number
  }

  /** At most one statistics row per (player, match). */
  predicate StatKeysUnique(rows: seq<StatRow>)
  {
    forall i, j :: 0 <= i < j < |rows| ==>
      rows[i].playerId != rows[j].playerId || rows[i].matchId != rows[j].matchId
  }

  function TeamId(t: Team): Id { t.id }
  function PlayerId(p: Player): Id { p.id }
  function MatchId(m: Match): Id { m.id }

  /** `findUnique({ where: { id } })` on a table: the position of the row with that id, if any. */
  function IndexOfId<T>(s: seq<T>, idOf: T -> Id, id: Id): (r: Option<nat>)
    ensures r.Some? ==> r.value < |s| && idOf(s[r.value]) == id
    ensures r.None? ==> forall i :: 0 <= i < |s| ==> idOf(s[i]) != id
  {
    if |s| == 0 then None
    else if idOf(s[0]) == id then Some(0)
    else match IndexOfId(s[1..], idOf, id)
      case None => None
      case Some(k) => Some(k + 1)
  }

  /** The rows `createMany` stores for `fs`: consecutive fresh ids from `firstId`, no scores yet. */
  function Materialize(fs: seq<Fixture>, firstId: Id): (ms: seq<Match>)
    ensures |ms| == |fs|
    ensures forall i :: 0 <= i < |fs| ==>
      ms[i] == Match(firstId + i, fs[i].matchday, fs[i].round, fs[i].date,
                     fs[i].homeTeamId, fs[i].awayTeamId, fs[i].status, None, None)
  {
    seq(|fs|, i requires 0 <= i < |fs| =>
      Match(firstId + i, fs[i].matchday, fs[i].round, fs[i].date,
            fs[i].homeTeamId, fs[i].awayTeamId, fs[i].status, None, None))
  }

  /** `s` without its element at `i`, the others in order. */
  function RemoveAt<T>(s: seq<T>, i: nat): (r: seq<T>)
    requires i < |s|
    ensures |r| == |s| - 1
    ensures forall k :: 0 <= k < |r| ==> r[k] == if k < i then s[k] else s[k + 1]
    ensures forall x :: x in r ==> x in s
  {
    s[..i] + s[i + 1..]
  }

  /** A match marked PLAYED carries both scores. */
  predicate PlayedHasScores(m: Match)
  {
    m.status == Played ==> m.homeScore.Some? && m.awayScore.Some?
  }

  lemma RepeatedCount<T>(s: seq<T>, i: nat, j: nat)
    requires i < j < |s| && s[i] == s[j]
    ensures multiset(s)[s[i]] >= 2
  {
    var x := s[i];
    assert s == s[..i] + [x] + (s[i + 1..j] + [x] + s[j + 1..]);
    assert multiset(s) == multiset(s[..i]) + multiset{x} + (multiset(s[i + 1..j]) + multiset{x} + multiset(s[j + 1..]));
  }

  lemma SingleCount<T>(s: seq<T>, p: nat)
    requires p < |s|
    requires forall k :: 0 <= k < |s| && k != p ==> s[k] != s[p]
    ensures multiset(s)[s[p]] == 1
  {
    var x := s[p];
    assert s == s[..p] + [x] + s[p + 1..];
    assert x !in s[..p];
    assert x !in s[p + 1..];
    assert multiset(s) == multiset(s[..p]) + multiset{x} + multiset(s[p + 1..]);
  }

  /** A permutation of a sequence without repetitions has none either. */
  lemma PermutedDistinct<T>(a: seq<T>, b: seq<T>)
    requires multiset(a) == multiset(b)
    requires Distinct(a)
    ensures Distinct(b)
  {
    forall i, j | 0 <= i < j < |b| ensures b[i] != b[j] {
      if b[i] == b[j] {
        RepeatedCount(b, i, j);
        assert b[i] in multiset(a);
        var p :| 0 <= p < |a| && a[p] == b[i];
        SingleCount(a, p);
        assert false;
      }
    }
  }

  /** Reordering a table whose ids are distinct (as `orderBy` does) keeps them distinct. */
  lemma PermutedTeamIdsDistinct(ts: seq<Team>, us: seq<Team>)
    requires multiset(ts) == multiset(us)
    requires forall i, j :: 0 <= i < j < |ts| ==> ts[i].id != ts[j].id
    ensures forall i, j :: 0 <= i < j < |us| ==> us[i].id != us[j].id
  {
    forall i, j | 0 <= i < j < |us| ensures us[i].id != us[j].id {
      if us[i].id == us[j].id {
        assert us[i] in multiset(ts) && us[j] in multiset(ts);
        var p :| 0 <= p < |ts| && ts[p] == us[i];
        var q :| 0 <= q < |ts| && ts[q] == us[j];
        assert p == q by {
          if p < q {} else if q < p {}
        }
        RepeatedCount(us, i, j);
        SingleCount(ts, p);
        assert false;
      }
    }
  }

  class Db {
    var teams: seq<Team>
    var players: seq<Player>
    var matches: seq<Match>
    var stats: seq<StatRow>
    var nextId: nat

    /** Ids are unique per table and below `nextId`; jersey numbers and stat keys are unique. */
    ghost predicate Valid()
      reads this
    {
      && TeamIdsOk(teams, nextId)
      && PlayerIdsOk(players, nextId)
      && MatchIdsOk(matches, nextId)
      && JerseysUnique(players)
      && StatKeysUnique(stats)
    }

    constructor ()
      ensures Valid()
      ensures teams == [] && players == [] && matches == [] && stats == [] && nextId == 0
    {
      teams, players, matches, stats, nextId := [], [], [], [], 0;
    }

    /** `match.deleteMany()` followed by `match.createMany({ data: fs })`. */
    method ReplaceMatches(fs: seq<Fixture>)
      requires Valid()
      modifies this
      ensures Valid()
      ensures matches == Materialize(fs, old(nextId)) && nextId == old(nextId) + |fs|
      ensures teams == old(teams) && players == old(players) && stats == old(stats)
    {
      matches := Materialize(fs, nextId);
      nextId := nextId + |fs|;
    }

    /** `match.deleteMany()`: the league is reset. */
    method ClearMatches()
      requires Valid()
      modifies this
      ensures Valid()
      ensures matches == [] && nextId == old(nextId)
      ensures teams == old(teams) && players == old(players) && stats == old(stats)
    {
      matches := [];
    }
  }
}
