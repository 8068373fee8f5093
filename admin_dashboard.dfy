/**
 * The administration page: score entry for matches, the matchday grouping of the match list
 * with its filter, the list of matchdays offered by the filter, and the guard on schedule
 * generation.
 */
module AdminDashboard {
  import opened Wrappers
  import opened Ordering
  import opened Decimal
  import opened Store
  import MatchController

  // ---------------------------------------------------------------- score entry

  datatype Side = Home | Away

  /** A match's pending score entry; a field not typed into yet is absent. */
  datatype Draft = Draft(h: Option<int>, a: Option<int>)

  /**
   * `handleScoreChange`: the typed value (an empty field counts as 0) becomes the given side of
   * that match's entry; the other side and every other match's entry stay as they were.
   */
  function HandleScoreChange(prev: map<Id, Draft>, matchId: Id, side: Side, val: Option<int>): (next: map<Id, Draft>)
    ensures next.Keys == prev.Keys + {matchId}
    ensures forall id :: id in prev && id != matchId ==> next[id] == prev[id]
    ensures var num := if val.None? then 0 else val.value;
      && (side == Home ==> next[matchId].h == Some(num))
      && (side == Away ==> next[matchId].a == Some(num))
    ensures var before := if matchId in prev then prev[matchId] else Draft(None, None);
      && (side == Home ==> next[matchId].a == before.a)
      && (side == Away ==> next[matchId].h == before.h)
  {
    var num := if val == None then 0 else val.value;
    var entry := if matchId in prev then prev[matchId] else Draft(None, None);
    prev[matchId := if side == Home then entry.(h := Some(num)) else entry.(a := Some(num))]
  }

  /** The `updateResult` request a save sends. */
  datatype ResultRequest = ResultRequest(id: Id, h: Option<int>, a: Option<int>)

  /**
   * `saveScore`: with an entry for the match, its scores are sent and the entry is dropped;
   * without one nothing is sent and nothing changes.
   */
  function SaveScore(drafts: map<Id, Draft>, matchId: Id): (r: (map<Id, Draft>, Option<ResultRequest>))
    ensures matchId !in drafts ==> r.0 == drafts && r.1 == None
    ensures matchId in drafts ==>
      r.0.Keys == drafts.Keys - {matchId}
      && (forall id :: id in r.0 ==> r.0[id] == drafts[id])
      && r.1 == Some(ResultRequest(matchId, drafts[matchId].h, drafts[matchId].a))
  {
    if matchId in drafts then
      (drafts - {matchId}, Some(ResultRequest(matchId, drafts[matchId].h, drafts[matchId].a)))
    else (drafts, None)
  }

  /** A side of the request as the JSON body carries it: an untyped (`undefined`) side is dropped. */
  function Sent(v: Option<int>): (f: MatchController.ScoreField)
    ensures v.None? ==> f == MatchController.Absent
    ensures v.Some? ==> f == MatchController.Given(v.value)
  {
    if v.Some? then MatchController.Given(v.value) else MatchController.Absent
  }

  /** The update data the server computes for a request. */
  function ServerData(req: ResultRequest): MatchController.ResultData
  {
    MatchController.ResultDataOf(Sent(req.h), Sent(req.a))
  }

  /**
   * Typing both scores of a match and saving sends exactly those two scores, which the server
   * stores and marks PLAYED, and leaves no pending entry for the match.
   */
  lemma EnteredScoresAreSavedAndPlayed(drafts: map<Id, Draft>, m: Match, h: Option<int>, a: Option<int>)
    requires m.id !in drafts
    ensures var typed := HandleScoreChange(HandleScoreChange(drafts, m.id, Home, h), m.id, Away, a);
      var (after, sent) := SaveScore(typed, m.id);
      var hs, as_ := if h.None? then 0 else h.value, if a.None? then 0 else a.value;
      && after == drafts
      && sent == Some(ResultRequest(m.id, Some(hs), Some(as_)))
      && MatchController.Storable(ServerData(sent.value))
      && var stored := MatchController.RecordResult(m, ServerData(sent.value));
         stored.status == Played && stored.homeScore == Some(hs) && stored.awayScore == Some(as_)
  {
    var typed := HandleScoreChange(HandleScoreChange(drafts, m.id, Home, h), m.id, Away, a);
    assert typed - {m.id} == drafts;
  }

  /**
   * Typing only the home score and saving sends no away score; the server then computes a
   * PLAYED match with a NaN away score, which it cannot store.
   */
  lemma HomeScoreAloneIsPlayedWithNaN(drafts: map<Id, Draft>, m: Match, h: Option<int>)
    requires m.id !in drafts
    ensures var (after, sent) := SaveScore(HandleScoreChange(drafts, m.id, Home, h), m.id);
      var hs := if h.None? then 0 else h.value;
      && sent == Some(ResultRequest(m.id, Some(hs), None))
      && ServerData(sent.value) == MatchController.ResultData(Some(MatchController.Num(hs)), Some(MatchController.NaN), Played)
      && !MatchController.Storable(ServerData(sent.value))
  {
  }

  // ---------------------------------------------------------------- matchday grouping

  /** The matchday filter: 'all' or the text of one matchday. */
  datatype MatchdayFilter = AllMatchdays | OnlyMatchday(text: string)

  /** A match survives the filter when it is off or the matchday's text equals it. */
  predicate Kept(filter: MatchdayFilter, m: Match)
  {
    filter.AllMatchdays? || ShowNat(m.matchday) == filter.text
  }

  /** Choosing the text of matchday `d` keeps exactly the matches of matchday `d`. */
  lemma FilterSelectsMatchday(d: nat, m: Match)
    ensures Kept(OnlyMatchday(ShowNat(d)), m) <==> m.matchday == d
  {
    if ShowNat(m.matchday) == ShowNat(d) {
      ShowNatInjective(m.matchday, d);
    }
  }

  /** The kept matches of matchday `d`, in list order. */
  function OnMatchday(ms: seq<Match>, filter: MatchdayFilter, d: nat): (r: seq<Match>)
    ensures forall m :: m in r <==> m in ms && Kept(filter, m) && m.matchday == d
  {
    if |ms| == 0 then []
    else
      var init := OnMatchday(ms[..|ms| - 1], filter, d);
      var last := ms[|ms| - 1];
      assert forall m :: m in ms <==> m in ms[..|ms| - 1] || m == last by {
        assert ms == ms[..|ms| - 1] + [last];
      }
      if Kept(filter, last) && last.matchday == d then init + [last] else init
  }

  lemma OnMatchdaySnoc(ms: seq<Match>, filter: MatchdayFilter, k: nat, d: nat)
    requires k < |ms|
    ensures OnMatchday(ms[..k + 1], filter, d) ==
      OnMatchday(ms[..k], filter, d) + (if Kept(filter, ms[k]) && ms[k].matchday == d then [ms[k]] else [])
  {
    assert ms[..k + 1][..k] == ms[..k];
  }

  /** `acc` holds a bucket per matchday with a kept match of `ms`, and in it exactly those matches. */
  ghost predicate GroupedBy(acc: map<nat, seq<Match>>, ms: seq<Match>, filter: MatchdayFilter)
  {
    && (forall d :: d in acc <==> OnMatchday(ms, filter, d) != [])
    && (forall d :: d in acc ==> acc[d] == OnMatchday(ms, filter, d))
  }

  /** One step of the reduce: a kept match is appended to its matchday's bucket, created if missing. */
  function Step(acc: map<nat, seq<Match>>, filter: MatchdayFilter, m: Match): map<nat, seq<Match>>
  {
    if !Kept(filter, m) then acc
    else acc[m.matchday := (if m.matchday in acc then acc[m.matchday] else []) + [m]]
  }

  /** A step keeps the grouping right for the matches seen so far. */
  lemma StepKeepsGrouped(acc: map<nat, seq<Match>>, ms: seq<Match>, filter: MatchdayFilter, k: nat)
    requires k < |ms| && GroupedBy(acc, ms[..k], filter)
    ensures GroupedBy(Step(acc, filter, ms[k]), ms[..k + 1], filter)
  {
    forall d ensures OnMatchday(ms[..k + 1], filter, d) ==
      OnMatchday(ms[..k], filter, d) + (if Kept(filter, ms[k]) && ms[k].matchday == d then [ms[k]] else [])
    {
      OnMatchdaySnoc(ms, filter, k, d);
    }
  }

  /**
   * The `groupedMatches` reduce: a bucket per matchday that has a kept match, holding exactly
   * the kept matches of that matchday in list order.
   */
  method GroupByMatchday(matches: seq<Match>, filter: MatchdayFilter) returns (acc: map<nat, seq<Match>>)
    ensures forall d :: d in acc <==> OnMatchday(matches, filter, d) != []
    ensures forall d :: d in acc ==> acc[d] == OnMatchday(matches, filter, d)
  {
    acc := map[];
    for k := 0 to |matches|
      invariant GroupedBy(acc, matches[..k], filter)
    {
      var m := matches[k];
      StepKeepsGrouped(acc, matches, filter, k);
      if !Kept(filter, m) {
        continue;
      }
      acc := acc[m.matchday := (if m.matchday in acc then acc[m.matchday] else []) + [m]];
    }
    assert matches[..|matches|] == matches;
  }

  // ---------------------------------------------------------------- matchday list

  /** `parseInt` on the texts this page produces (any other text reads as 0 here). */
  function ParseInt(s: string): int
  {
    if AllDigits(s) then ParseDigits(s) else 0
  }

  function MatchdayKey(s: string): seq<int>
  {
    [ParseInt(s)]
  }

  function MatchdayTexts(ms: seq<Match>): (ts: seq<string>)
    ensures |ts| == |ms|
    ensures forall i :: 0 <= i < |ms| ==> ts[i] == ShowNat(ms[i].matchday)
  {
    seq(|ms|, i requires 0 <= i < |ms| => ShowNat(ms[i].matchday))
  }

  /** Two different matchday texts in key order have strictly increasing values. */
  lemma ShownTextsIncrease(x: nat, y: nat)
    requires LexLe(MatchdayKey(ShowNat(x)), MatchdayKey(ShowNat(y))) && ShowNat(x) != ShowNat(y)
    ensures ParseInt(ShowNat(x)) < ParseInt(ShowNat(y))
  {
    ParseShow(x);
    ParseShow(y);
    assert MatchdayKey(ShowNat(x)) == [x] && MatchdayKey(ShowNat(y)) == [y];
    LexLeCons(x, [], y, []);
  }

  /** Distinct matchday texts in key order have strictly increasing values. */
  lemma SortedTextsIncrease(ms: seq<Match>, r: seq<string>)
    requires Distinct(r) && SortedBy(r, MatchdayKey)
    requires forall x :: x in r ==> x in MatchdayTexts(ms)
    ensures forall i, j :: 0 <= i < j < |r| ==> ParseInt(r[i]) < ParseInt(r[j])
  {
    var texts := MatchdayTexts(ms);
    forall i, j | 0 <= i < j < |r| ensures ParseInt(r[i]) < ParseInt(r[j]) {
      assert r[i] in texts && r[j] in texts;
      var p :| 0 <= p < |ms| && texts[p] == r[i];
      var q :| 0 <= q < |ms| && texts[q] == r[j];
      ShownTextsIncrease(ms[p].matchday, ms[q].matchday);
    }
  }

  /** A list with the members of `MatchdayTexts(ms)` names exactly the matchdays present. */
  lemma TextsNameMatchdays(ms: seq<Match>, r: seq<string>)
    requires forall x :: x in r <==> x in MatchdayTexts(ms)
    ensures forall s :: s in r <==> exists i :: 0 <= i < |ms| && s == ShowNat(ms[i].matchday)
  {
    var texts := MatchdayTexts(ms);
    forall x | x in r ensures exists i :: 0 <= i < |ms| && x == ShowNat(ms[i].matchday) {
      var p :| 0 <= p < |ms| && texts[p] == x;
    }
    forall i | 0 <= i < |ms| ensures ShowNat(ms[i].matchday) in r {
      assert texts[i] in texts;
    }
  }

  /**
   * `matchdays`: the distinct matchday texts, sorted by their numeric value; the list has no
   * repeats, names every matchday present, and its values strictly increase.
   */
  function Matchdays(ms: seq<Match>): (r: seq<string>)
    ensures Distinct(r)
    ensures forall s :: s in r <==> exists i :: 0 <= i < |ms| && s == ShowNat(ms[i].matchday)
    ensures forall i, j :: 0 <= i < j < |r| ==> ParseInt(r[i]) < ParseInt(r[j])
  {
    var unique := Dedup(MatchdayTexts(ms));
    var r := SortBy(unique, MatchdayKey);
    PermutedDistinct(unique, r);
    forall x ensures x in r <==> x in unique {
      SortByMembers(unique, MatchdayKey, x);
    }
    SortedTextsIncrease(ms, r);
    TextsNameMatchdays(ms, r);
    r
  }

  // ---------------------------------------------------------------- schedule generation

  datatype GenerateAction = Refuse | Stay | Generate(weeks: int)

  /** The weeks field: `parseInt(value) || 1`, so an empty or zero entry means one week. */
  function WeeksEntered(value: Option<int>): (w: int)
    ensures w != 0
    ensures value.Some? && value.value != 0 ==> w == value.value
    ensures value.None? || value.value == 0 ==> w == 1
  {
    if value.Some? && value.value != 0 then value.value else 1
  }

  /**
   * The generate button: refused unless exactly three teams exist; with matches already present
   * it proceeds only once the admin confirms.
   */
  function GenerateClick(teamCount: nat, matchCount: nat, confirmed: bool, weeks: int): (r: GenerateAction)
    ensures r.Generate? <==> teamCount == 3 && (matchCount == 0 || confirmed)
    ensures r.Refuse? <==> teamCount != 3
    ensures r.Generate? ==> r.weeks == weeks
  {
    if teamCount != 3 then Refuse
    else if matchCount > 0 && !confirmed then Stay
    else Generate(weeks)
  }
}
