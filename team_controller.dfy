/**
 * The team registry: creating, editing and deleting teams. Deleting a team first deletes every
 * match it plays in; clearing the registry deletes all matches and then all teams.
 */
module TeamController {
  import opened Wrappers
  import opened Store

  /** 400 for a missing name; 500 when the ORM finds no row to change. */
  datatype TeamError = NameRequired | RecordNotFound

  /** `logoUrl || null`: an absent or empty logo is stored as null. */
  function LogoOrNull(logoUrl: Option<string>): (r: Option<string>)
    ensures r.None? <==> logoUrl.None? || logoUrl.value == ""
    ensures r.Some? ==> r == logoUrl
  {
    if logoUrl.Some? && logoUrl.value != "" then logoUrl else None
  }

  /** `createTeam`: refused without a name, before anything is written; otherwise one team is added. */
  method CreateTeam(db: Db, name: string, logoUrl: Option<string>) returns (r: Result<Team, TeamError>)
    requires db.Valid()
    modifies db
    ensures db.Valid()
    ensures db.players == old(db.players) && db.matches == old(db.matches) && db.stats == old(db.stats)
    ensures name == "" ==> r == Err(NameRequired) && db.teams == old(db.teams) && db.nextId == old(db.nextId)
    ensures name != "" ==>
      var t := Team(old(db.nextId), name, LogoOrNull(logoUrl));
      r == Ok(t) && db.teams == old(db.teams) + [t] && db.nextId == old(db.nextId) + 1
  {
    if name == "" {
      return Err(NameRequired);
    }
    var team := Team(db.nextId, name, LogoOrNull(logoUrl));
    db.teams := db.teams + [team];
    db.nextId := db.nextId + 1;
    r := Ok(team);
  }

  /**
   * The `data: { name, logoUrl }` of `updateTeam`: an absent field is left as it is, a present
   * one replaces the old value (a null logo clears it); the id never changes.
   */
  function Renamed(t: Team, name: Option<string>, logoUrl: Option<Option<string>>): (u: Team)
    ensures u.id == t.id
    ensures u.name == (if name.Some? then name.value else t.name)
    ensures u.logoUrl == (if logoUrl.Some? then logoUrl.value else t.logoUrl)
  {
    t.(name := if name.Some? then name.value else t.name,
       logoUrl := if logoUrl.Some? then logoUrl.value else t.logoUrl)
  }

  /** `updateTeam`: changes only the named team; an unknown id makes the update fail. */
  method UpdateTeam(db: Db, id: Id, name: Option<string>, logoUrl: Option<Option<string>>)
    returns (r: Result<Team, TeamError>)
    requires db.Valid()
    modifies db
    ensures db.Valid()
    ensures db.players == old(db.players) && db.matches == old(db.matches) && db.stats == old(db.stats)
    ensures db.nextId == old(db.nextId)
    ensures IndexOfId(old(db.teams), TeamId, id).None? ==> r == Err(RecordNotFound) && db.teams == old(db.teams)
    ensures IndexOfId(old(db.teams), TeamId, id).Some? ==>
      var i := IndexOfId(old(db.teams), TeamId, id).value;
      var u := Renamed(old(db.teams)[i], name, logoUrl);
      r == Ok(u) && db.teams == old(db.teams)[i := u]
  {
    var found := IndexOfId(db.teams, TeamId, id);
    if found.None? {
      return Err(RecordNotFound);
    }
    var i := found.value;
    db.teams := db.teams[i := Renamed(db.teams[i], name, logoUrl)];
    r := Ok(db.teams[i]);
  }

  /** `match.deleteMany({ where: { OR: [{ homeTeamId: id }, { awayTeamId: id }] } })`. */
  function WithoutTeam(ms: seq<Match>, id: Id): (r: seq<Match>)
    ensures |r| <= |ms|
    ensures forall m :: m in r <==> m in ms && m.homeTeamId != id && m.awayTeamId != id
  {
    if |ms| == 0 then []
    else
      var rest := WithoutTeam(ms[1..], id);
      assert forall m :: m in ms <==> m == ms[0] || m in ms[1..];
      if ms[0].homeTeamId != id && ms[0].awayTeamId != id then [ms[0]] + rest else rest
  }

  /** Deleting some matches keeps the remaining match ids distinct. */
  lemma {:induction false} WithoutTeamKeepsIds(ms: seq<Match>, id: Id, next: nat)
    requires MatchIdsOk(ms, next)
    ensures MatchIdsOk(WithoutTeam(ms, id), next)
  {
    if |ms| > 0 {
      TailIdsOk(ms, next);
      WithoutTeamKeepsIds(ms[1..], id, next);
      var rest := WithoutTeam(ms[1..], id);
      if ms[0].homeTeamId != id && ms[0].awayTeamId != id {
        HeadIdFresh(ms, next, rest);
        ConsIdsOk(ms[0], rest, next);
      }
    }
  }

  lemma TailIdsOk(ms: seq<Match>, next: nat)
    requires MatchIdsOk(ms, next) && |ms| > 0
    ensures MatchIdsOk(ms[1..], next)
  {
    forall a, b | 0 <= a < b < |ms[1..]| ensures ms[1..][a].id != ms[1..][b].id {
      assert ms[1..][a] == ms[a + 1] && ms[1..][b] == ms[b + 1];
    }
  }

  lemma HeadIdFresh(ms: seq<Match>, next: nat, rest: seq<Match>)
    requires MatchIdsOk(ms, next) && |ms| > 0
    requires forall m :: m in rest ==> m in ms[1..]
    ensures forall k :: 0 <= k < |rest| ==> rest[k].id != ms[0].id
  {
    forall k | 0 <= k < |rest| ensures rest[k].id != ms[0].id {
      assert rest[k] in ms[1..];
      var j :| 0 <= j < |ms[1..]| && ms[1..][j] == rest[k];
      assert ms[j + 1] == rest[k];
    }
  }

  lemma ConsIdsOk(x: Match, rest: seq<Match>, next: nat)
    requires MatchIdsOk(rest, next) && x.id < next
    requires forall k :: 0 <= k < |rest| ==> rest[k].id != x.id
    ensures MatchIdsOk([x] + rest, next)
  {
    var r := [x] + rest;
    forall a, b | 0 <= a < b < |r| ensures r[a].id != r[b].id {
      if a == 0 {
        assert r[b] == rest[b - 1];
      } else {
        assert r[a] == rest[a - 1] && r[b] == rest[b - 1];
      }
    }
  }

  lemma RemoveKeepsTeamIds(ts: seq<Team>, next: nat, i: nat)
    requires TeamIdsOk(ts, next) && i < |ts|
    ensures TeamIdsOk(RemoveAt(ts, i), next)
    ensures forall t :: t in RemoveAt(ts, i) <==> t in ts && t.id != ts[i].id
  {
    var r := RemoveAt(ts, i);
    forall a, b | 0 <= a < b < |r| ensures r[a].id != r[b].id {
      var a', b' := if a < i then a else a + 1, if b < i then b else b + 1;
      assert r[a] == ts[a'] && r[b] == ts[b'];
    }
    assert ts == ts[..i] + [ts[i]] + ts[i + 1..];
    assert r == ts[..i] + ts[i + 1..];
    forall t | t in ts[..i] ensures t.id != ts[i].id {
      var k :| 0 <= k < i && ts[..i][k] == t;
    }
    forall t | t in ts[i + 1..] ensures t.id != ts[i].id {
      var k :| 0 <= k < |ts| - i - 1 && ts[i + 1..][k] == t;
      assert t == ts[i + 1 + k];
    }
  }

  /**
   * `deleteTeam`: every match the team plays in, home or away, is deleted and every other match
   * kept; then the team is deleted. The match deletion happens even when the team does not
   * exist and its own deletion fails.
   */
  method DeleteTeam(db: Db, id: Id) returns (r: Result<(), TeamError>)
    requires db.Valid()
    modifies db
    ensures db.Valid()
    ensures db.players == old(db.players) && db.stats == old(db.stats) && db.nextId == old(db.nextId)
    ensures db.matches == WithoutTeam(old(db.matches), id)
    ensures forall m :: m in db.matches ==> m.homeTeamId != id && m.awayTeamId != id
    ensures forall m :: m in old(db.matches) && m.homeTeamId != id && m.awayTeamId != id ==> m in db.matches
    ensures IndexOfId(old(db.teams), TeamId, id).None? ==> r == Err(RecordNotFound) && db.teams == old(db.teams)
    ensures IndexOfId(old(db.teams), TeamId, id).Some? ==>
      r == Ok(()) && db.teams == RemoveAt(old(db.teams), IndexOfId(old(db.teams), TeamId, id).value)
    ensures forall t :: t in db.teams <==> t in old(db.teams) && t.id != id
  {
    WithoutTeamKeepsIds(db.matches, id, db.nextId);
    db.matches := WithoutTeam(db.matches, id);
    var found := IndexOfId(db.teams, TeamId, id);
    if found.None? {
      return Err(RecordNotFound);
    }
    RemoveKeepsTeamIds(db.teams, db.nextId, found.value);
    db.teams := RemoveAt(db.teams, found.value);
    r := Ok(());
  }

  /** `deleteAllTeams`: all matches, then all teams, are deleted. */
  method DeleteAllTeams(db: Db)
    requires db.Valid()
    modifies db
    ensures db.Valid()
    ensures db.matches == [] && db.teams == []
    ensures db.players == old(db.players) && db.stats == old(db.stats) && db.nextId == old(db.nextId)
  {
    db.ClearMatches();
    db.teams := [];
  }
}
