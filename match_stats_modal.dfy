/**
 * The admin's match statistics form.
 *
 * On opening, the form holds one draft per player of both teams, filled from the statistics
 * already stored for the match: counts default to 0 and minutes to 90. Editing a field stores
 * the value clamped at 0; a card button flips its count between 0 and 1. Saving sends the
 * drafts to the statistics endpoint, which stores them as rows.
 */
module MatchStatsModal {
  import opened Wrappers
  import opened Store
  import StatsController

  /**
   * One player's draft. Every field of a draft the form created is set; a field update on a
   * player without a draft yields an object with that one field (`...undefined` adds nothing).
   */
  datatype Draft = Draft(
    playerId: Option<Id>, goals: Option<int>, assists: Option<int>,
    yellowCards: Option<int>, redCards: Option<int>, minutesPlayed: Option<int>)

  datatype Field = Goals | Assists | YellowCards | RedCards | MinutesPlayed

  const NoDraft := Draft(None, None, None, None, None, None)

  function Get(d: Draft, f: Field): Option<int>
  {
    match f
    case Goals => d.goals
    case Assists => d.assists
    case YellowCards => d.yellowCards
    case RedCards => d.redCards
    case MinutesPlayed => d.minutesPlayed
  }

  /** `{ ...d, [f]: v }`. */
  function Set(d: Draft, f: Field, v: int): (r: Draft)
    ensures Get(r, f) == Some(v)
    ensures forall g :: g != f ==> Get(r, g) == Get(d, g)
    ensures r.playerId == d.playerId
  {
    match f
    case Goals => d.(goals := Some(v))
    case Assists => d.(assists := Some(v))
    case YellowCards => d.(yellowCards := Some(v))
    case RedCards => d.(redCards := Some(v))
    case MinutesPlayed => d.(minutesPlayed := Some(v))
  }

  // ---------------------------------------------------------------- opening the form

  /** `existingStats?.find(s => s.playerId === p)`: the first stored row of the player. */
  function Find(existing: Option<seq<StatRow>>, p: Id): (r: Option<StatRow>)
    ensures r.Some? ==> existing.Some? && r.value in existing.value && r.value.playerId == p
    ensures r.None? ==> existing.None? || forall s :: s in existing.value ==> s.playerId != p
    decreases if existing.Some? then |existing.value| else 0
  {
    if existing.None? || |existing.value| == 0 then None
    else if existing.value[0].playerId == p then Some(existing.value[0])
    else
      var rest := existing.value[1..];
      assert forall s :: s in existing.value ==> s == existing.value[0] || s in rest;
      Find(Some(rest), p)
  }

  /** `v || d` on a number: 0 counts as missing. */
  function OrDefault(v: Option<int>, d: int): (r: int)
    ensures v.Some? && v.value != 0 ==> r == v.value
    ensures v.None? || v.value == 0 ==> r == d
  {
    if v.Some? && v.value != 0 then v.value else d
  }

  /** `initPlayer`: the player's stored counts, or 0; the stored minutes, or 90 when absent or 0. */
  function InitEntry(p: Id, existing: Option<seq<StatRow>>): (d: Draft)
    ensures d.playerId == Some(p)
    ensures forall f :: Get(d, f).Some?
    ensures Get(d, MinutesPlayed) != Some(0)
    ensures Find(existing, p).None? ==> d == Draft(Some(p), Some(0), Some(0), Some(0), Some(0), Some(90))
    ensures Find(existing, p).Some? ==>
      var s := Find(existing, p).value;
      d.goals == Some(s.goals) && d.assists == Some(s.assists)
      && d.yellowCards == Some(s.yellowCards) && d.redCards == Some(s.redCards)
      && d.minutesPlayed == Some(OrDefault(s.minutesPlayed, 90))
  {
    match Find(existing, p)
    case None => Draft(Some(p), Some(0), Some(0), Some(0), Some(0), Some(90))
    case Some(s) =>
      Draft(Some(p), Some(OrDefault(Some(s.goals), 0)), Some(OrDefault(Some(s.assists), 0)),
            Some(OrDefault(Some(s.yellowCards), 0)), Some(OrDefault(Some(s.redCards), 0)),
            Some(OrDefault(s.minutesPlayed, 90)))
  }

  /** `team?.players?`: a missing team or roster is no players. */
  function Roster(ids: Option<seq<Id>>): seq<Id>
  {
    if ids.Some? then ids.value else []
  }

  /**
   * The initialising effect: `initPlayer` over the home roster, then over the away roster.
   * Every player of either team gets exactly the draft `InitEntry` describes, and no one else.
   */
  method InitStats(home: Option<seq<Id>>, away: Option<seq<Id>>, existing: Option<seq<StatRow>>)
    returns (stats: map<Id, Draft>)
    ensures forall p :: p in stats <==> p in Roster(home) || p in Roster(away)
    ensures forall p :: p in stats ==> stats[p] == InitEntry(p, existing)
  {
    stats := map[];
    var homeIds, awayIds := Roster(home), Roster(away);
    for i := 0 to |homeIds|
      invariant forall p :: p in stats <==> p in homeIds[..i]
      invariant forall p :: p in stats ==> stats[p] == InitEntry(p, existing)
    {
      assert homeIds[..i + 1] == homeIds[..i] + [homeIds[i]];
      stats := stats[homeIds[i] := InitEntry(homeIds[i], existing)];
    }
    assert homeIds[..|homeIds|] == homeIds;
    for i := 0 to |awayIds|
      invariant forall p :: p in stats <==> p in homeIds || p in awayIds[..i]
      invariant forall p :: p in stats ==> stats[p] == InitEntry(p, existing)
    {
      assert awayIds[..i + 1] == awayIds[..i] + [awayIds[i]];
      stats := stats[awayIds[i] := InitEntry(awayIds[i], existing)];
    }
    assert awayIds[..|awayIds|] == awayIds;
  }

  // ---------------------------------------------------------------- editing

  /** No field of any draft is negative. */
  predicate NonNegative(stats: map<Id, Draft>)
  {
    forall p, f :: p in stats && Get(stats[p], f).Some? ==> Get(stats[p], f).value >= 0
  }

  /** `updateStat`: the field is set to `max(0, value)`; nothing else changes. */
  function UpdateStat(prev: map<Id, Draft>, playerId: Id, field: Field, value: int): (next: map<Id, Draft>)
    ensures next.Keys == prev.Keys + {playerId}
    ensures Get(next[playerId], field) == Some(if value < 0 then 0 else value)
    ensures forall g :: g != field ==> Get(next[playerId], g) == Get(if playerId in prev then prev[playerId] else NoDraft, g)
    ensures next[playerId].playerId == (if playerId in prev then prev[playerId].playerId else None)
    ensures forall p :: p in prev && p != playerId ==> next[p] == prev[p]
    ensures NonNegative(prev) ==> NonNegative(next)
  {
    var d := if playerId in prev then prev[playerId] else NoDraft;
    prev[playerId := Set(d, field, if value < 0 then 0 else value)]
  }

  /** A card button: a shown count of 0 becomes 1, any other count becomes 0. */
  function CardClick(count: int): (r: int)
    ensures r == 0 || r == 1
    ensures r == 1 <==> count == 0
  {
    if count == 0 then 1 else 0
  }

  /** Clicking a card button twice on a 0/1 count gives back the same form. */
  lemma CardTwiceRestores(stats: map<Id, Draft>, p: Id, f: Field)
    requires f == YellowCards || f == RedCards
    requires p in stats && Get(stats[p], f).Some?
    requires Get(stats[p], f).value == 0 || Get(stats[p], f).value == 1
    ensures var once := UpdateStat(stats, p, f, CardClick(Get(stats[p], f).value));
      UpdateStat(once, p, f, CardClick(Get(once[p], f).value)) == stats
  {
    var c := Get(stats[p], f).value;
    var once := UpdateStat(stats, p, f, CardClick(c));
    var twice := UpdateStat(once, p, f, CardClick(Get(once[p], f).value));
    assert Get(twice[p], f) == Get(stats[p], f);
    assert twice[p] == stats[p] by {
      DraftFields(twice[p], stats[p]);
    }
    assert twice.Keys == stats.Keys;
  }

  /** Two drafts with the same player and the same fields are the same draft. */
  lemma DraftFields(a: Draft, b: Draft)
    requires a.playerId == b.playerId
    requires forall f :: Get(a, f) == Get(b, f)
    ensures a == b
  {
    assert Get(a, Goals) == Get(b, Goals) && Get(a, Assists) == Get(b, Assists);
    assert Get(a, YellowCards) == Get(b, YellowCards) && Get(a, RedCards) == Get(b, RedCards);
    assert Get(a, MinutesPlayed) == Get(b, MinutesPlayed);
  }

  // ---------------------------------------------------------------- saving and reopening

  /** A draft as the request body carries it to the statistics endpoint (no award flag). */
  function Submitted(p: Id, d: Draft): StatsController.StatInput
  {
    StatsController.StatInput(p, d.goals, d.assists, d.yellowCards, d.redCards, d.minutesPlayed, None)
  }

  /**
   * Saving a complete draft and opening the form again shows the same draft, except that 0
   * minutes, stored as null, come back as 90.
   */
  lemma SaveThenReopen(matchId: Id, p: Id, d: Draft)
    requires d.playerId == Some(p)
    requires forall f :: Get(d, f).Some?
    ensures var reopened := InitEntry(p, Some([StatsController.ToRow(matchId, Submitted(p, d))]));
      reopened == if d.minutesPlayed == Some(0) then d.(minutesPlayed := Some(90)) else d
  {
    var row := StatsController.ToRow(matchId, Submitted(p, d));
    assert Find(Some([row]), p) == Some(row);
    assert Get(d, Goals).Some? && Get(d, Assists).Some? && Get(d, YellowCards).Some?;
    assert Get(d, RedCards).Some? && Get(d, MinutesPlayed).Some?;
  }
}
