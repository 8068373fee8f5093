/**
 * The match controller: the three-team Friday/Saturday schedule generator, the result update
 * that derives a match's status from its scores, and the league reset.
 *
 * Week k (from 0) of a schedule is played on the start date + 7k ("Friday", matchday 2k+1) and
 * the day after ("Saturday", matchday 2k+2), both in round k+1. Friday pairs the three teams
 * A, B, C (in name order) as A-B, A-C, B-C with the first-named team at home; Saturday repeats
 * them with home and away swapped.
 */
module MatchController {
  import opened Wrappers
  import opened Ordering
  import opened Store

  const Friday: int := 5

  /** `Date.prototype.getDay` of day number `d`: 0 = Sunday .. 6 = Saturday; day 0 was a Thursday. */
  function Weekday(d: int): (w: int)
    ensures 0 <= w < 7
  {
    (d + 4) % 7
  }

  /** Weekdays advance by one per day, modulo a week. */
  lemma WeekdayAfter(from: int, d: int)
    requires from <= d
    ensures Weekday(d) == (Weekday(from) + (d - from)) % 7
  {
    var q := (from + 4) / 7;
    assert from + 4 == 7 * q + Weekday(from);
    assert d + 4 == 7 * q + (Weekday(from) + (d - from));
  }

  /** `getNextFriday(from)`: the first Friday strictly after `from`; a Friday gives the next one. */
  function NextFriday(from: int): (r: int)
    ensures from < r <= from + 7
    ensures Weekday(r) == Friday
    ensures forall d :: from < d < r ==> Weekday(d) != Friday
  {
    var day := Weekday(from);
    var daysUntilFriday := (Friday - day + 7) % 7;
    var r := from + (if daysUntilFriday == 0 then 7 else daysUntilFriday);
    WeekdayAfter(from, r);
    assert forall d :: from < d < r ==> Weekday(d) != Friday by {
      forall d | from < d < r ensures Weekday(d) != Friday {
        WeekdayAfter(from, d);
      }
    }
    r
  }

  /** The six fixtures of week `k`: Friday's three, then Saturday's three with sides swapped. */
  function WeekFixtures(a: Id, b: Id, c: Id, start: int, k: nat): (w: seq<Fixture>)
    ensures |w| == 6
  {
    var friday, md, round := start + 7 * k, 2 * k + 1, k + 1;
    [ Fixture(md, round, friday, a, b, Scheduled),
      Fixture(md, round, friday, a, c, Scheduled),
      Fixture(md, round, friday, b, c, Scheduled),
      Fixture(md + 1, round, friday + 1, b, a, Scheduled),
      Fixture(md + 1, round, friday + 1, c, a, Scheduled),
      Fixture(md + 1, round, friday + 1, c, b, Scheduled) ]
  }

  /** The fixtures of the first `n` weeks, in the order they are pushed. */
  function Season(a: Id, b: Id, c: Id, start: int, n: nat): (s: seq<Fixture>)
    ensures |s| == 6 * n
  {
    if n == 0 then [] else Season(a, b, c, start, n - 1) + WeekFixtures(a, b, c, start, n - 1)
  }

  /** The fixture-building loop of `generateSchedule`. */
  method BuildFixtures(a: Id, b: Id, c: Id, start: int, weeks: int) returns (matches: seq<Fixture>)
    ensures |matches| == if weeks < 0 then 0 else 6 * weeks
    ensures matches == Season(a, b, c, start, if weeks < 0 then 0 else weeks)
  {
    var currentDate := start;
    matches := [];
    var matchdayCounter := 1;
    var week := 0;
    while week < weeks
      invariant 0 <= week && (weeks >= 0 ==> week <= weeks) && (weeks < 0 ==> week == 0)
      invariant matches == Season(a, b, c, start, week)
      invariant matchdayCounter == 2 * week + 1
      invariant currentDate == start + 7 * week
    {
      var friday := currentDate;
      matches := matches + [
        Fixture(matchdayCounter, week + 1, friday, a, b, Scheduled),
        Fixture(matchdayCounter, week + 1, friday, a, c, Scheduled),
        Fixture(matchdayCounter, week + 1, friday, b, c, Scheduled)];
      matchdayCounter := matchdayCounter + 1;
      var saturday := friday + 1;
      matches := matches + [
        Fixture(matchdayCounter, week + 1, saturday, b, a, Scheduled),
        Fixture(matchdayCounter, week + 1, saturday, c, a, Scheduled),
        Fixture(matchdayCounter, week + 1, saturday, c, b, Scheduled)];
      matchdayCounter := matchdayCounter + 1;
      currentDate := currentDate + 7;
      week := week + 1;
    }
  }

  lemma {:induction false} SeasonAt(a: Id, b: Id, c: Id, start: int, n: nat, i: nat)
    requires i < 6 * n
    ensures Season(a, b, c, start, n)[i] == WeekFixtures(a, b, c, start, i / 6)[i % 6]
  {
    if i < 6 * (n - 1) {
      SeasonAt(a, b, c, start, n - 1, i);
    } else {
      assert i / 6 == n - 1;
    }
  }

  /**
   * Fixture i sits on matchday i/3 + 1 (three per matchday, numbered from 1 without gaps), in
   * round i/6 + 1, dated the start + 7 days per week, plus one day for the Saturday half.
   */
  lemma FixtureShape(a: Id, b: Id, c: Id, start: int, n: nat, i: nat)
    requires i < 6 * n
    ensures var f := Season(a, b, c, start, n)[i];
      && f.matchday == i / 3 + 1
      && f.round == i / 6 + 1
      && f.date == start + 7 * (i / 6) + (if i % 6 < 3 then 0 else 1)
      && f.status == Scheduled
  {
    SeasonAt(a, b, c, start, n, i);
  }

  /** Each Saturday fixture is the Friday fixture three places earlier with home and away swapped. */
  lemma SaturdaySwapsFriday(a: Id, b: Id, c: Id, start: int, n: nat, i: nat)
    requires i < 6 * n && i % 6 < 3
    ensures var s := Season(a, b, c, start, n);
      && s[i + 3].homeTeamId == s[i].awayTeamId
      && s[i + 3].awayTeamId == s[i].homeTeamId
      && s[i + 3].matchday == s[i].matchday + 1
      && s[i + 3].round == s[i].round
      && s[i + 3].date == s[i].date + 1
  {
    SeasonAt(a, b, c, start, n, i);
    SeasonAt(a, b, c, start, n, i + 3);
    SaturdayOffset(i);
  }

  lemma SaturdayOffset(i: nat)
    requires i % 6 < 3
    ensures (i + 3) / 6 == i / 6 && (i + 3) % 6 == i % 6 + 3
  {
  }

  function Meeting(f: Fixture): set<Id>
  {
    {f.homeTeamId, f.awayTeamId}
  }

  /** The three couples of three distinct teams are three different sets. */
  lemma CouplesDistinct(a: Id, b: Id, c: Id)
    requires a != b && b != c && a != c
    ensures {a, b} != {a, c} && {a, b} != {b, c} && {a, c} != {b, c}
  {
    assert b in {a, b};
    assert a in {a, b} && a in {a, c};
  }

  /** Matchday d is the first or second half of week d / 2, which starts at fixture 3 * (d % 2) of it. */
  lemma MatchdayOffsets(d: nat)
    ensures (3 * d) / 6 == d / 2 && (3 * d + 1) / 6 == d / 2 && (3 * d + 2) / 6 == d / 2
    ensures (3 * d) % 6 == 3 * (d % 2) && (3 * d + 1) % 6 == 3 * (d % 2) + 1 && (3 * d + 2) % 6 == 3 * (d % 2) + 2
  {
    var q := d / 2;
    if d % 2 == 0 {
      assert 3 * d == 6 * q;
    } else {
      assert 3 * d == 6 * q + 3;
    }
  }

  /** Both halves of a week meet {a, b}, {a, c} and {b, c}, in that order. */
  lemma WeekMeetings(a: Id, b: Id, c: Id, start: int, k: nat, h: nat)
    requires h == 0 || h == 3
    ensures var w := WeekFixtures(a, b, c, start, k);
      && Meeting(w[h]) == {a, b} && Meeting(w[h + 1]) == {a, c} && Meeting(w[h + 2]) == {b, c}
  {
    assert {b, a} == {a, b} && {c, a} == {a, c} && {c, b} == {b, c};
  }

  /** Matchday d's three fixtures meet {a, b}, {a, c} and {b, c}, in that order, home and away apart. */
  lemma MatchdayMeetings(a: Id, b: Id, c: Id, start: int, n: nat, d: nat)
    requires d < 2 * n
    ensures var s := Season(a, b, c, start, n);
      && Meeting(s[3 * d]) == {a, b} && Meeting(s[3 * d + 1]) == {a, c} && Meeting(s[3 * d + 2]) == {b, c}
  {
    SeasonAt(a, b, c, start, n, 3 * d);
    SeasonAt(a, b, c, start, n, 3 * d + 1);
    SeasonAt(a, b, c, start, n, 3 * d + 2);
    MatchdayOffsets(d);
    WeekMeetings(a, b, c, start, d / 2, 3 * (d % 2));
  }

  /**
   * With three distinct teams, matchday d holds three fixtures that pair up the three possible
   * couples once each, and nobody plays itself.
   */
  lemma MatchdayPairsEachCoupleOnce(a: Id, b: Id, c: Id, start: int, n: nat, d: nat)
    requires a != b && b != c && a != c
    requires d < 2 * n
    ensures var s := Season(a, b, c, start, n);
      && {Meeting(s[3 * d]), Meeting(s[3 * d + 1]), Meeting(s[3 * d + 2])} == {{a, b}, {a, c}, {b, c}}
      && Meeting(s[3 * d]) != Meeting(s[3 * d + 1])
      && Meeting(s[3 * d]) != Meeting(s[3 * d + 2])
      && Meeting(s[3 * d + 1]) != Meeting(s[3 * d + 2])
      && forall i :: 3 * d <= i < 3 * d + 3 ==> s[i].homeTeamId != s[i].awayTeamId
  {
    var s := Season(a, b, c, start, n);
    MatchdayMeetings(a, b, c, start, n, d);
    CouplesDistinct(a, b, c);
    forall i | 3 * d <= i < 3 * d + 3 ensures s[i].homeTeamId != s[i].awayTeamId {
      var m := Meeting(s[i]);
      assert m == {a, b} || m == {a, c} || m == {b, c};
    }
  }

  function HomeCount(fs: seq<Fixture>, t: Id): nat
  {
    if |fs| == 0 then 0 else (if fs[0].homeTeamId == t then 1 else 0) + HomeCount(fs[1..], t)
  }

  function AwayCount(fs: seq<Fixture>, t: Id): nat
  {
    if |fs| == 0 then 0 else (if fs[0].awayTeamId == t then 1 else 0) + AwayCount(fs[1..], t)
  }

  /** Within each week every one of the three teams is at home twice and away twice. */
  lemma WeekIsBalanced(a: Id, b: Id, c: Id, start: int, n: nat, k: nat, t: Id)
    requires a != b && b != c && a != c
    requires k < n && t in {a, b, c}
    ensures var week := Season(a, b, c, start, n)[6 * k .. 6 * k + 6];
      HomeCount(week, t) == 2 && AwayCount(week, t) == 2
  {
    WeekSlice(a, b, c, start, n, k);
    WeekFixturesBalanced(a, b, c, start, k, t);
  }

  /** Week k of a season of n weeks is exactly `WeekFixtures(k)`. */
  lemma {:induction false} WeekSlice(a: Id, b: Id, c: Id, start: int, n: nat, k: nat)
    requires k < n
    ensures Season(a, b, c, start, n)[6 * k .. 6 * k + 6] == WeekFixtures(a, b, c, start, k)
  {
    var init, last := Season(a, b, c, start, n - 1), WeekFixtures(a, b, c, start, n - 1);
    assert Season(a, b, c, start, n) == init + last;
    if k < n - 1 {
      WeekSlice(a, b, c, start, n - 1, k);
      SliceOfFront(init, last, 6 * k, 6 * k + 6);
    } else {
      SliceOfBack(init, last);
    }
  }

  lemma SliceOfFront<T>(x: seq<T>, y: seq<T>, lo: nat, hi: nat)
    requires lo <= hi <= |x|
    ensures (x + y)[lo .. hi] == x[lo .. hi]
  {
  }

  lemma SliceOfBack<T>(x: seq<T>, y: seq<T>)
    ensures (x + y)[|x| .. |x| + |y|] == y
  {
  }

  /** In one week's six fixtures, each of the three teams is at home twice and away twice. */
  lemma WeekFixturesBalanced(a: Id, b: Id, c: Id, start: int, k: nat, t: Id)
    requires a != b && b != c && a != c
    requires t in {a, b, c}
    ensures HomeCount(WeekFixtures(a, b, c, start, k), t) == 2
    ensures AwayCount(WeekFixtures(a, b, c, start, k), t) == 2
  {
    CountsOfSix(WeekFixtures(a, b, c, start, k), t);
  }

  lemma CountsOfSix(w: seq<Fixture>, t: Id)
    requires |w| == 6
    ensures HomeCount(w, t) == (if w[0].homeTeamId == t then 1 else 0) + (if w[1].homeTeamId == t then 1 else 0)
      + (if w[2].homeTeamId == t then 1 else 0) + (if w[3].homeTeamId == t then 1 else 0)
      + (if w[4].homeTeamId == t then 1 else 0) + (if w[5].homeTeamId == t then 1 else 0)
    ensures AwayCount(w, t) == (if w[0].awayTeamId == t then 1 else 0) + (if w[1].awayTeamId == t then 1 else 0)
      + (if w[2].awayTeamId == t then 1 else 0) + (if w[3].awayTeamId == t then 1 else 0)
      + (if w[4].awayTeamId == t then 1 else 0) + (if w[5].awayTeamId == t then 1 else 0)
  {
    assert w[5..][1..] == [];
    assert w[4..][1..] == w[5..];
    assert w[3..][1..] == w[4..];
    assert w[2..][1..] == w[3..];
    assert w[1..][1..] == w[2..];
    forall k | 0 <= k < 6
      ensures HomeCount(w[k..], t) == (if w[k].homeTeamId == t then 1 else 0) + HomeCount(w[k + 1..], t)
      ensures AwayCount(w[k..], t) == (if w[k].awayTeamId == t then 1 else 0) + AwayCount(w[k + 1..], t)
    {
      assert w[k..][0] == w[k] && w[k..][1..] == w[k + 1..];
    }
    assert w[0..] == w;
  }

  /** Dates never decrease along the schedule, so reading it back `orderBy: date` keeps its order. */
  lemma DatesNondecreasing(a: Id, b: Id, c: Id, start: int, n: nat, i: nat, j: nat)
    requires i <= j < 6 * n
    ensures Season(a, b, c, start, n)[i].date <= Season(a, b, c, start, n)[j].date
  {
    FixtureShape(a, b, c, start, n, i);
    FixtureShape(a, b, c, start, n, j);
    assert i / 6 <= j / 6;
    if i / 6 < j / 6 {
      assert 7 * (i / 6) + 7 <= 7 * (j / 6);
    }
  }

  datatype ScheduleError = WrongTeamCount(count: nat) | InvalidStartDate

  /**
   * The request's `startDate`: a falsy value (absent, null, empty, 0), a text that is a day, or a
   * truthy text that `new Date` cannot read (an Invalid Date).
   */
  datatype StartField = NoStart | StartDay(day: int) | BadStartText

  /** The request's `weeks`: absent (the default 4 applies), `null`, or a number. */
  datatype WeeksField = WeeksAbsent | WeeksNull | WeeksCount(n: int)

  /** The loop bound `weeks`: 4 when absent; `week < null` compares with 0, so `null` runs no week. */
  function WeeksBound(weeks: WeeksField): (w: int)
    ensures weeks.WeeksAbsent? ==> w == 4
    ensures weeks.WeeksNull? ==> w == 0
    ensures weeks.WeeksCount? ==> w == weeks.n
  {
    match weeks
    case WeeksAbsent => 4
    case WeeksNull => 0
    case WeeksCount(n) => n
  }

  /** The number of weeks the loop runs. */
  function WeeksRun(weeks: WeeksField): nat
  {
    var w := WeeksBound(weeks);
    if w < 0 then 0 else w
  }

  /**
   * `generateSchedule`: refuses unless there are exactly three teams, and does so before any
   * match is deleted. Otherwise it deletes all matches and stores the fixtures of the requested
   * weeks from `startDate`, or from the next Friday after `today` when it is falsy. With a start
   * text that is no date, every fixture carries an Invalid Date, so creating them fails after the
   * matches are gone; with no weeks to build, nothing is created and the request succeeds.
   */
  method GenerateSchedule(db: Db, startDate: StartField, weeks: WeeksField, today: int)
    returns (r: Result<seq<Match>, ScheduleError>)
    requires db.Valid()
    modifies db
    ensures db.Valid()
    ensures db.teams == old(db.teams) && db.players == old(db.players) && db.stats == old(db.stats)
    ensures |old(db.teams)| != 3 ==>
      && r == Err(WrongTeamCount(|old(db.teams)|))
      && db.matches == old(db.matches) && db.nextId == old(db.nextId)
    ensures |old(db.teams)| == 3 && startDate.BadStartText? && WeeksRun(weeks) > 0 ==>
      && r == Err(InvalidStartDate)
      && db.matches == [] && db.nextId == old(db.nextId)
    ensures |old(db.teams)| == 3 && !(startDate.BadStartText? && WeeksRun(weeks) > 0) ==>
      var ts := SortBy(old(db.teams), NameKey);
      var start := if startDate.StartDay? then startDate.day else NextFriday(today);
      && db.matches == Materialize(Season(ts[0].id, ts[1].id, ts[2].id, start, WeeksRun(weeks)), old(db.nextId))
      && r == Ok(db.matches)
      && ts[0].id != ts[1].id && ts[1].id != ts[2].id && ts[0].id != ts[2].id
  {
    if |db.teams| != 3 {
      return Err(WrongTeamCount(|db.teams|));
    }
    db.ClearMatches();
    var ts := SortBy(db.teams, NameKey);
    PermutedTeamIdsDistinct(db.teams, ts);
    var w := WeeksBound(weeks);
    if startDate.BadStartText? && w > 0 {
      // `createMany` refuses fixtures dated Invalid Date; the deletion above stands.
      return Err(InvalidStartDate);
    }
    // With a bad start text no week is built, so its value is never read.
    var currentDate := if startDate.StartDay? then startDate.day else NextFriday(today);
    var fixtures := BuildFixtures(ts[0].id, ts[1].id, ts[2].id, currentDate, w);
    db.ReplaceMatches(fixtures);
    r := Ok(db.matches);
  }

  /**
   * A score field of the `updateResult` body: absent (a JSON body drops an `undefined` value),
   * `null`, a value `parseInt` reads as a number, or one it cannot read.
   */
  datatype ScoreField = Absent | Null | Given(n: int) | Unreadable

  /** What `parseInt` yields: NaN for an absent or unreadable field. */
  datatype Parsed = NaN | Num(n: int)

  /** `field !== null ? parseInt(field) : null`: only `null` gives null; an absent field is parsed too. */
  function ParseScore(f: ScoreField): (r: Option<Parsed>)
    ensures r.None? <==> f.Null?
    ensures r == Some(NaN) <==> f.Absent? || f.Unreadable?
    ensures f.Given? ==> r == Some(Num(f.n))
  {
    match f
    case Null => None
    case Given(n) => Some(Num(n))
    case _ => Some(NaN)
  }

  /** The `data` of the update: the parsed scores and the status. */
  datatype ResultData = ResultData(homeScore: Option<Parsed>, awayScore: Option<Parsed>, status: Status)

  /**
   * The data `updateResult` computes: PLAYED exactly when neither field is `null`, so a missing
   * score counts as present and is parsed to NaN.
   */
  function ResultDataOf(h: ScoreField, a: ScoreField): (d: ResultData)
    ensures d.status == Played <==> d.homeScore.Some? && d.awayScore.Some?
    ensures d.status == Played <==> !h.Null? && !a.Null?
    ensures d.homeScore == ParseScore(h) && d.awayScore == ParseScore(a)
  {
    ResultData(ParseScore(h), ParseScore(a), if h != Null && a != Null then Played else Scheduled)
  }

  /** No score of the data is NaN, so the integer columns can hold it. */
  predicate Storable(d: ResultData)
  {
    d.homeScore != Some(NaN) && d.awayScore != Some(NaN)
  }

  function Stored(p: Option<Parsed>): (v: Option<int>)
    requires p != Some(NaN)
    ensures v.None? <==> p.None?
    ensures v.Some? ==> p == Some(Num(v.value))
  {
    if p.Some? then Some(p.value.n) else None
  }

  /**
   * The stored fields of `updateResult`: the scores as parsed (null stays null) and the status;
   * the match is PLAYED exactly when both scores are stored, and nothing else changes.
   */
  function RecordResult(m: Match, d: ResultData): (r: Match)
    requires Storable(d)
    requires d.status == Played <==> d.homeScore.Some? && d.awayScore.Some?
    ensures r.status == Played <==> r.homeScore.Some? && r.awayScore.Some?
    ensures r.status == d.status
    ensures r.homeScore == Stored(d.homeScore) && r.awayScore == Stored(d.awayScore)
    ensures PlayedHasScores(r)
    ensures r.(homeScore := m.homeScore, awayScore := m.awayScore, status := m.status) == m
  {
    m.(homeScore := Stored(d.homeScore), awayScore := Stored(d.awayScore), status := d.status)
  }

  datatype UpdateError = ScoreNotANumber | MatchMissing

  /**
   * `updateResult`: rewrites one match's result. A NaN score (from an absent or unreadable field)
   * is refused by the integer column and changes nothing; so does an unknown id.
   */
  method UpdateResult(db: Db, id: Id, homeScore: ScoreField, awayScore: ScoreField)
    returns (r: Result<Match, UpdateError>)
    requires db.Valid()
    modifies db
    ensures db.Valid()
    ensures db.teams == old(db.teams) && db.players == old(db.players) && db.stats == old(db.stats)
    ensures db.nextId == old(db.nextId)
    ensures !Storable(ResultDataOf(homeScore, awayScore)) ==> r == Err(ScoreNotANumber) && db.matches == old(db.matches)
    ensures Storable(ResultDataOf(homeScore, awayScore)) && IndexOfId(old(db.matches), MatchId, id).None? ==>
      r == Err(MatchMissing) && db.matches == old(db.matches)
    ensures Storable(ResultDataOf(homeScore, awayScore)) && IndexOfId(old(db.matches), MatchId, id).Some? ==>
      var i := IndexOfId(old(db.matches), MatchId, id).value;
      && db.matches == old(db.matches)[i := RecordResult(old(db.matches)[i], ResultDataOf(homeScore, awayScore))]
      && r == Ok(db.matches[i])
  {
    var data := ResultDataOf(homeScore, awayScore);
    if !Storable(data) {
      return Err(ScoreNotANumber);
    }
    var found := IndexOfId(db.matches, MatchId, id);
    if found.None? {
      return Err(MatchMissing);
    }
    var i := found.value;
    db.matches := db.matches[i := RecordResult(db.matches[i], data)];
    r := Ok(db.matches[i]);
  }

  /** A body without `awayScore` gives a PLAYED match whose away score is NaN. */
  lemma MissingScoreCountsAsPresent(n: int)
    ensures ResultDataOf(Given(n), Absent) == ResultData(Some(Num(n)), Some(NaN), Played)
    ensures !Storable(ResultDataOf(Given(n), Absent))
  {
  }

  /**
   * The evidently intended test, `field != null`: an absent score is treated like `null`, so the
   * match is PLAYED only when both scores are sent.
   */
  function IntendedResultData(h: ScoreField, a: ScoreField): (d: ResultData)
    ensures d.status == Played <==> d.homeScore.Some? && d.awayScore.Some?
  {
    var hs := if h.Absent? then None else ParseScore(h);
    var as_ := if a.Absent? then None else ParseScore(a);
    ResultData(hs, as_, if hs.Some? && as_.Some? then Played else Scheduled)
  }

  /**
   * Under the intended test, a body with only one score is storable and leaves the match
   * SCHEDULED with that score; with both scores sent, both are stored and the match is PLAYED.
   */
  lemma IntendedOneScoreStaysScheduled(m: Match, n: int, k: int)
    ensures Storable(IntendedResultData(Given(n), Absent))
    ensures var r := RecordResult(m, IntendedResultData(Given(n), Absent));
      r.status == Scheduled && r.homeScore == Some(n) && r.awayScore == None
    ensures var r := RecordResult(m, IntendedResultData(Given(n), Given(k)));
      r.status == Played && r.homeScore == Some(n) && r.awayScore == Some(k)
  {
  }

  /** `clearLeague`: every match is removed. */
  method ClearLeague(db: Db)
    requires db.Valid()
    modifies db
    ensures db.Valid()
    ensures db.matches == []
    ensures db.teams == old(db.teams) && db.players == old(db.players) && db.stats == old(db.stats)
  {
    db.ClearMatches();
  }
}
