/**
 * The player registry: creating, editing and deleting players, with jersey numbers unique
 * within each team.
 */
module PlayerController {
  import opened Wrappers
  import opened Store

  /** The answers other than success: 400 missing field, 404 team, 400 number, 404 player, 500 ORM error. */
  datatype PlayerError = MissingField | TeamNotFound | NumberTaken | PlayerNotFound | RecordNotFound

  /**
   * `player.findFirst({ where: { teamId, number, id: { not: except } } })`: a player of the team
   * wearing `number`, other than the one with id `except`.
   */
  function JerseyHolder(ps: seq<Player>, teamId: Id, number: int, except: Option<Id>): (r: Option<nat>)
    ensures r.Some? ==>
      r.value < |ps| && ps[r.value].teamId == teamId && ps[r.value].number == number && except != Some(ps[r.value].id)
    ensures r.None? ==> forall i :: 0 <= i < |ps| && ps[i].teamId == teamId && ps[i].number == number ==>
      except == Some(ps[i].id)
  {
    if |ps| == 0 then None
    else if ps[0].teamId == teamId && ps[0].number == number && except != Some(ps[0].id) then Some(0)
    else match JerseyHolder(ps[1..], teamId, number, except)
      case None => None
      case Some(k) => Some(k + 1)
  }

  /** A player's own number never counts as taken when the player itself is excluded. */
  lemma OwnNumberIsFree(ps: seq<Player>, next: nat, i: nat)
    requires PlayerIdsOk(ps, next) && JerseysUnique(ps)
    requires i < |ps|
    ensures JerseyHolder(ps, ps[i].teamId, ps[i].number, Some(ps[i].id)).None?
  {
  }

  /** Adding a player whose number is free in its team keeps numbers unique. */
  lemma AddKeepsJerseysUnique(ps: seq<Player>, p: Player)
    requires JerseysUnique(ps)
    requires JerseyHolder(ps, p.teamId, p.number, None).None?
    ensures JerseysUnique(ps + [p])
  {
    var r := ps + [p];
    forall i, j | 0 <= i < j < |r| && r[i].teamId == r[j].teamId ensures r[i].number != r[j].number {
      if j == |ps| {
        assert r[i] == ps[i];
      } else {
        assert r[i] == ps[i] && r[j] == ps[j];
      }
    }
  }

  /** Changing one player to a number no teammate wears, in the same team, keeps numbers unique. */
  lemma ReplaceKeepsJerseysUnique(ps: seq<Player>, next: nat, i: nat, q: Player)
    requires PlayerIdsOk(ps, next) && JerseysUnique(ps)
    requires i < |ps| && q.teamId == ps[i].teamId && q.id == ps[i].id
    requires q.number == ps[i].number || JerseyHolder(ps, q.teamId, q.number, Some(q.id)).None?
    ensures JerseysUnique(ps[i := q])
  {
    var r := ps[i := q];
    forall a, b | 0 <= a < b < |r| && r[a].teamId == r[b].teamId ensures r[a].number != r[b].number {
      if a == i {
        assert r[b] == ps[b];
      } else if b == i {
        assert r[a] == ps[a];
      }
    }
  }

  /**
   * The `data` of `updatePlayer`: a falsy name or number leaves that field as it is; the team
   * and the id never change.
   */
  function Edited(p: Player, name: string, number: Option<int>): (q: Player)
    ensures q.id == p.id && q.teamId == p.teamId
    ensures q.name == (if name == "" then p.name else name)
    ensures q.number == (if number.None? then p.number else number.value)
  {
    p.(name := if name != "" then name else p.name, number := if number.Some? then number.value else p.number)
  }

  /**
   * `createPlayer`: a falsy name, number or team id is refused, then an unknown team, then a
   * number already worn in that team; otherwise exactly one player is added.
   */
  method CreatePlayer(db: Db, name: string, number: Option<int>, teamId: Option<Id>)
    returns (r: Result<Player, PlayerError>)
    requires db.Valid()
    modifies db
    ensures db.Valid()
    ensures db.teams == old(db.teams) && db.matches == old(db.matches) && db.stats == old(db.stats)
    ensures name == "" || number.None? || teamId.None? ==>
      r == Err(MissingField) && db.players == old(db.players) && db.nextId == old(db.nextId)
    ensures name != "" && number.Some? && teamId.Some? && IndexOfId(db.teams, TeamId, teamId.value).None? ==>
      r == Err(TeamNotFound) && db.players == old(db.players) && db.nextId == old(db.nextId)
    ensures (name != "" && number.Some? && teamId.Some? && IndexOfId(db.teams, TeamId, teamId.value).Some?
      && JerseyHolder(old(db.players), teamId.value, number.value, None).Some?) ==>
      r == Err(NumberTaken) && db.players == old(db.players) && db.nextId == old(db.nextId)
    ensures (name != "" && number.Some? && teamId.Some? && IndexOfId(db.teams, TeamId, teamId.value).Some?
      && JerseyHolder(old(db.players), teamId.value, number.value, None).None?) ==>
      var p := Player(old(db.nextId), name, number.value, teamId.value);
      r == Ok(p) && db.players == old(db.players) + [p] && db.nextId == old(db.nextId) + 1
  {
    if name == "" || number.None? || teamId.None? {
      return Err(MissingField);
    }
    var team := IndexOfId(db.teams, TeamId, teamId.value);
    if team.None? {
      return Err(TeamNotFound);
    }
    var existingPlayer := JerseyHolder(db.players, teamId.value, number.value, None);
    if existingPlayer.Some? {
      return Err(NumberTaken);
    }
    var p := Player(db.nextId, name, number.value, teamId.value);
    AddKeepsJerseysUnique(db.players, p);
    db.players := db.players + [p];
    db.nextId := db.nextId + 1;
    r := Ok(p);
  }

  /**
   * `updatePlayer`: with a number, an unknown player is 404 and a number worn by a teammate is
   * refused; without one, an unknown player makes the update itself fail. Otherwise only that
   * player changes, as `Edited` says.
   */
  method UpdatePlayer(db: Db, id: Id, name: string, number: Option<int>) returns (r: Result<Player, PlayerError>)
    requires db.Valid()
    modifies db
    ensures db.Valid()
    ensures db.teams == old(db.teams) && db.matches == old(db.matches) && db.stats == old(db.stats)
    ensures db.nextId == old(db.nextId)
    ensures IndexOfId(old(db.players), PlayerId, id).None? ==>
      r == Err(if number.Some? then PlayerNotFound else RecordNotFound) && db.players == old(db.players)
    ensures IndexOfId(old(db.players), PlayerId, id).Some? ==>
      var i := IndexOfId(old(db.players), PlayerId, id).value;
      var p := old(db.players)[i];
      if number.Some? && JerseyHolder(old(db.players), p.teamId, number.value, Some(id)).Some? then
        r == Err(NumberTaken) && db.players == old(db.players)
      else
        r == Ok(Edited(p, name, number)) && db.players == old(db.players)[i := Edited(p, name, number)]
  {
    if number.Some? {
      var player := IndexOfId(db.players, PlayerId, id);
      if player.None? {
        return Err(PlayerNotFound);
      }
      var duplicate := JerseyHolder(db.players, db.players[player.value].teamId, number.value, Some(id));
      if duplicate.Some? {
        return Err(NumberTaken);
      }
    }
    var found := IndexOfId(db.players, PlayerId, id);
    if found.None? {
      return Err(RecordNotFound);
    }
    var i := found.value;
    var updatedPlayer := Edited(db.players[i], name, number);
    ReplaceKeepsJerseysUnique(db.players, db.nextId, i, updatedPlayer);
    db.players := db.players[i := updatedPlayer];
    r := Ok(updatedPlayer);
  }

  /** Removing the player at `i` keeps ids and numbers unique and removes exactly that id. */
  lemma RemoveKeepsPlayersValid(ps: seq<Player>, next: nat, i: nat)
    requires PlayerIdsOk(ps, next) && JerseysUnique(ps) && i < |ps|
    ensures PlayerIdsOk(RemoveAt(ps, i), next) && JerseysUnique(RemoveAt(ps, i))
    ensures forall p :: p in RemoveAt(ps, i) <==> p in ps && p.id != ps[i].id
  {
    RemoveKeepsIds(ps, next, i);
    RemoveKeepsJerseys(ps, i);
    RemoveDropsOnlyThatId(ps, next, i);
  }

  lemma RemoveKeepsIds(ps: seq<Player>, next: nat, i: nat)
    requires PlayerIdsOk(ps, next) && i < |ps|
    ensures PlayerIdsOk(RemoveAt(ps, i), next)
  {
    var r := RemoveAt(ps, i);
    forall a, b | 0 <= a < b < |r| ensures r[a].id != r[b].id {
      var a', b' := if a < i then a else a + 1, if b < i then b else b + 1;
      assert r[a] == ps[a'] && r[b] == ps[b'];
    }
  }

  lemma RemoveKeepsJerseys(ps: seq<Player>, i: nat)
    requires JerseysUnique(ps) && i < |ps|
    ensures JerseysUnique(RemoveAt(ps, i))
  {
    var r := RemoveAt(ps, i);
    forall a, b | 0 <= a < b < |r| && r[a].teamId == r[b].teamId ensures r[a].number != r[b].number {
      var a', b' := if a < i then a else a + 1, if b < i then b else b + 1;
      assert r[a] == ps[a'] && r[b] == ps[b'];
    }
  }

  lemma RemoveDropsOnlyThatId(ps: seq<Player>, next: nat, i: nat)
    requires PlayerIdsOk(ps, next) && i < |ps|
    ensures forall p :: p in RemoveAt(ps, i) <==> p in ps && p.id != ps[i].id
  {
    assert ps == ps[..i] + [ps[i]] + ps[i + 1..];
    assert RemoveAt(ps, i) == ps[..i] + ps[i + 1..];
    forall p | p in ps[..i] ensures p.id != ps[i].id {
      var k :| 0 <= k < i && ps[..i][k] == p;
    }
    forall p | p in ps[i + 1..] ensures p.id != ps[i].id {
      var k :| 0 <= k < |ps| - i - 1 && ps[i + 1..][k] == p;
      assert p == ps[i + 1 + k];
    }
  }

  /** `deletePlayer`: removes that player and no other; an unknown id makes the delete fail. */
  method DeletePlayer(db: Db, id: Id) returns (r: Result<(), PlayerError>)
    requires db.Valid()
    modifies db
    ensures db.Valid()
    ensures db.teams == old(db.teams) && db.matches == old(db.matches) && db.stats == old(db.stats)
    ensures db.nextId == old(db.nextId)
    ensures IndexOfId(old(db.players), PlayerId, id).None? ==> r == Err(RecordNotFound) && db.players == old(db.players)
    ensures IndexOfId(old(db.players), PlayerId, id).Some? ==>
      r == Ok(()) && db.players == RemoveAt(old(db.players), IndexOfId(old(db.players), PlayerId, id).value)
    ensures forall p :: p in db.players <==> p in old(db.players) && p.id != id
  {
    var found := IndexOfId(db.players, PlayerId, id);
    if found.None? {
      return Err(RecordNotFound);
    }
    var i := found.value;
    RemoveKeepsPlayersValid(db.players, db.nextId, i);
    db.players := RemoveAt(db.players, i);
    r := Ok(());
  }
}
