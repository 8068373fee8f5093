/**
 * The public match list.
 *
 * The admin's scheduling form keeps a list of off days that a click toggles. The page groups
 * the matches by round and, within a round, by the `yyyy-MM-dd` text of their date; rounds are
 * shown in ascending order and the days of a round in the order of the default `sort()` of the
 * `[dateKey, matches]` entries, which is date order.
 *
 * Turning a stored timestamp into a calendar date is the date library's business: the grouping
 * takes it as a parameter `cal` from day numbers to year, month and day.
 */
module MatchList {
  import opened Ordering
  import opened Decimal
  import opened Store

  // ---------------------------------------------------------------- off days

  /** `s.filter(d => d !== day)`. */
  function Without(s: seq<int>, day: int): (r: seq<int>)
    ensures forall d :: d in r <==> d in s && d != day
    ensures Distinct(s) ==> Distinct(r)
    ensures day !in s ==> r == s
  {
    if |s| == 0 then []
    else
      assert s == [s[0]] + s[1..];
      var tail := Without(s[1..], day);
      if s[0] == day then tail
      else
        assert Distinct(s) ==> s[0] !in s[1..];
        [s[0]] + tail
  }

  lemma {:induction false} WithoutAppend(s: seq<int>, t: seq<int>, day: int)
    ensures Without(s + t, day) == Without(s, day) + Without(t, day)
  {
    if |s| > 0 {
      assert (s + t)[0] == s[0] && (s + t)[1..] == s[1..] + t;
      WithoutAppend(s[1..], t, day);
    } else {
      assert s + t == t;
    }
  }

  /** `toggleOffDay`: drop `day` if it is listed, append it otherwise. */
  function ToggleOffDay(prev: seq<int>, day: int): (r: seq<int>)
    ensures day in r <==> day !in prev
    ensures forall d :: d != day ==> (d in r <==> d in prev)
    ensures Distinct(prev) ==> Distinct(r)
  {
    if day in prev then Without(prev, day) else prev + [day]
  }

  /** Two clicks on an unlisted day give back the very same list. */
  lemma ToggleTwiceRestores(prev: seq<int>, day: int)
    requires day !in prev
    ensures ToggleOffDay(ToggleOffDay(prev, day), day) == prev
  {
    WithoutAppend(prev, [day], day);
    assert Without([day], day) == [];
  }

  // ---------------------------------------------------------------- date keys

  /** A calendar date as the date library reads it from a stored timestamp. */
  datatype Ymd = Ymd(year: nat, month: nat, day: nat)

  /** A date of years 0 to 9999 (four-digit years), months 1 to 12 and days 1 to 31. */
  predicate ValidYmd(d: Ymd)
  {
    d.year < 10000 && 1 <= d.month <= 12 && 1 <= d.day <= 31
  }

  /** `yyyy`: at least four digits, zero-padded. */
  function YearText(y: nat): (s: string)
    ensures AllDigits(s)
    ensures y < 10000 ==> |s| == 4
  {
    if y < 10000 then Padded(y, 4) else ShowNat(y)
  }

  /** `format(date, 'yyyy-MM-dd')`. */
  function DateKey(d: Ymd): (s: string)
    ensures ValidYmd(d) ==> |s| == 10
  {
    YearText(d.year) + "-" + Padded(d.month, 2) + "-" + Padded(d.day, 2)
  }

  /** The date as a vector ordered year first, then month, then day. */
  function YmdVector(d: Ymd): seq<int>
  {
    [d.year, d.month, d.day]
  }

  /** One fixed-width number in front: it decides unless equal. */
  lemma PaddedFirst(a: nat, b: nat, w: nat, x: seq<int>, y: seq<int>)
    requires a < Pow10(w) && b < Pow10(w)
    ensures LexLe(Codes(Padded(a, w)) + x, Codes(Padded(b, w)) + y) <==> a < b || (a == b && LexLe(x, y))
  {
    PaddedOrder(a, b, w);
    LexLeAppend(Codes(Padded(a, w)), Codes(Padded(b, w)), x, y);
    if Codes(Padded(a, w)) == Codes(Padded(b, w)) {
      CodesInjective(Padded(a, w), Padded(b, w));
    }
  }

  /** A shared separator in front changes nothing. */
  lemma DashFirst(x: seq<int>, y: seq<int>)
    ensures LexLe(Codes("-") + x, Codes("-") + y) <==> LexLe(x, y)
  {
    assert Codes("-") == ['-' as int];
    LexLeCons('-' as int, x, '-' as int, y);
  }

  /** The codes of `-MM-dd`. */
  function MonthDayCodes(d: Ymd): seq<int>
  {
    Codes("-") + (Codes(Padded(d.month, 2)) + (Codes("-") + Codes(Padded(d.day, 2))))
  }

  lemma KeyCodes(d: Ymd)
    requires ValidYmd(d)
    ensures Codes(DateKey(d)) == Codes(Padded(d.year, 4)) + MonthDayCodes(d)
  {
    var y, m, dd := Padded(d.year, 4), Padded(d.month, 2), Padded(d.day, 2);
    assert DateKey(d) == y + ("-" + (m + ("-" + dd)));
    CodesAppend(y, "-" + (m + ("-" + dd)));
    CodesAppend("-", m + ("-" + dd));
    CodesAppend(m, "-" + dd);
    CodesAppend("-", dd);
  }

  lemma MonthDayOrder(a: Ymd, b: Ymd)
    requires ValidYmd(a) && ValidYmd(b)
    ensures LexLe(MonthDayCodes(a), MonthDayCodes(b)) <==> a.month < b.month || (a.month == b.month && a.day <= b.day)
  {
    assert Pow10(2) == 100;
    var ma, mb := Codes(Padded(a.month, 2)), Codes(Padded(b.month, 2));
    var da, db := Codes(Padded(a.day, 2)), Codes(Padded(b.day, 2));
    PaddedFirst(a.day, b.day, 2, [], []);
    assert da + [] == da && db + [] == db;
    DashFirst(da, db);
    PaddedFirst(a.month, b.month, 2, Codes("-") + da, Codes("-") + db);
    DashFirst(ma + (Codes("-") + da), mb + (Codes("-") + db));
  }

  lemma VectorOrder(a: Ymd, b: Ymd)
    ensures LexLe(YmdVector(a), YmdVector(b)) <==>
      a.year < b.year || (a.year == b.year && (a.month < b.month || (a.month == b.month && a.day <= b.day)))
  {
    LexLeCons(a.year, [a.month, a.day], b.year, [b.month, b.day]);
    LexLeCons(a.month, [a.day], b.month, [b.day]);
    LexLeCons(a.day, [], b.day, []);
    assert YmdVector(a) == [a.year] + [a.month, a.day] && [a.month, a.day] == [a.month] + [a.day] && [a.day] == [a.day] + [];
    assert YmdVector(b) == [b.year] + [b.month, b.day] && [b.month, b.day] == [b.month] + [b.day] && [b.day] == [b.day] + [];
  }

  /** String order of `yyyy-MM-dd` keys is date order. */
  lemma DateKeyOrder(a: Ymd, b: Ymd)
    requires ValidYmd(a) && ValidYmd(b)
    ensures LexLe(Codes(DateKey(a)), Codes(DateKey(b))) <==> LexLe(YmdVector(a), YmdVector(b))
  {
    assert Pow10(4) == 10000;
    KeyCodes(a);
    KeyCodes(b);
    PaddedFirst(a.year, b.year, 4, MonthDayCodes(a), MonthDayCodes(b));
    MonthDayOrder(a, b);
    VectorOrder(a, b);
  }

  /** Distinct dates have distinct keys. */
  lemma DateKeyInjective(a: Ymd, b: Ymd)
    requires ValidYmd(a) && ValidYmd(b)
    requires DateKey(a) == DateKey(b)
    ensures a == b
  {
    DateKeyOrder(a, b);
    DateKeyOrder(b, a);
    LexLeRefl(Codes(DateKey(a)));
    LexLeAntisym(YmdVector(a), YmdVector(b));
    assert YmdVector(a)[0] == a.year && YmdVector(a)[1] == a.month && YmdVector(a)[2] == a.day;
  }

  // ---------------------------------------------------------------- grouping

  /** The `yyyy-MM-dd` key of a match; `cal` reads a day number as a calendar date. */
  function KeyOf(cal: int -> Ymd, m: Match): string
  {
    DateKey(cal(m.date))
  }

  /** Every match's date is one the four-digit key format covers. */
  predicate AllValid(ms: seq<Match>, cal: int -> Ymd)
  {
    forall i :: 0 <= i < |ms| ==> ValidYmd(cal(ms[i].date))
  }

  /** The matches of round `r` whose day is keyed `k`, in list order. */
  function Bucket(ms: seq<Match>, cal: int -> Ymd, r: nat, k: string): (b: seq<Match>)
    ensures forall m :: m in b <==> m in ms && m.round == r && KeyOf(cal, m) == k
  {
    if |ms| == 0 then []
    else
      var init := Bucket(ms[..|ms| - 1], cal, r, k);
      var last := ms[|ms| - 1];
      assert forall m :: m in ms <==> m in ms[..|ms| - 1] || m == last by {
        assert ms == ms[..|ms| - 1] + [last];
      }
      if last.round == r && KeyOf(cal, last) == k then init + [last] else init
  }

  lemma BucketSnoc(ms: seq<Match>, cal: int -> Ymd, n: nat, r: nat, k: string)
    requires n < |ms|
    ensures Bucket(ms[..n + 1], cal, r, k) ==
      Bucket(ms[..n], cal, r, k) + (if ms[n].round == r && KeyOf(cal, ms[n]) == k then [ms[n]] else [])
  {
    assert ms[..n + 1][..n] == ms[..n];
  }

  /** A bucket holds each match of its round and day exactly as often as the list does, and no other. */
  lemma {:induction false} BucketCount(ms: seq<Match>, cal: int -> Ymd, r: nat, k: string, x: Match)
    ensures multiset(Bucket(ms, cal, r, k))[x] ==
      if x.round == r && KeyOf(cal, x) == k then multiset(ms)[x] else 0
  {
    if |ms| > 0 {
      var init, last := ms[..|ms| - 1], ms[|ms| - 1];
      BucketCount(init, cal, r, k, x);
      LastCount(ms, x);
      SnocCount(Bucket(init, cal, r, k), last, x);
    }
  }

  /** Appending `last` adds one occurrence of `last` and no other. */
  lemma SnocCount<T>(s: seq<T>, last: T, x: T)
    ensures multiset(s + [last])[x] == multiset(s)[x] + (if x == last then 1 else 0)
  {
    assert multiset(s + [last]) == multiset(s) + multiset{last};
  }

  /** A non-empty sequence counts its last element once more than its front does. */
  lemma LastCount<T>(s: seq<T>, x: T)
    requires |s| > 0
    ensures multiset(s)[x] == multiset(s[..|s| - 1])[x] + (if x == s[|s| - 1] then 1 else 0)
  {
    assert s == s[..|s| - 1] + [s[|s| - 1]];
    SnocCount(s[..|s| - 1], s[|s| - 1], x);
  }

  /** The round of each match, in list order. */
  function RoundsOf(ms: seq<Match>): (rs: seq<nat>)
    ensures |rs| == |ms| && forall i :: 0 <= i < |ms| ==> rs[i] == ms[i].round
  {
    seq(|ms|, i requires 0 <= i < |ms| => ms[i].round)
  }

  /** `rounds` holds a bucket per round of `ms` and, in it, exactly the non-empty day buckets. */
  ghost predicate Grouped(rounds: map<nat, map<string, seq<Match>>>, ms: seq<Match>, cal: int -> Ymd)
  {
    && (forall r :: r in rounds <==> r in RoundsOf(ms))
    && (forall r, k :: r in rounds ==> (k in rounds[r] <==> Bucket(ms, cal, r, k) != []))
    && (forall r, k :: r in rounds && k in rounds[r] ==> rounds[r][k] == Bucket(ms, cal, r, k))
  }

  /** One step of the `forEach`: create the round's and the day's buckets if missing, then push. */
  function Push(rounds: map<nat, map<string, seq<Match>>>, cal: int -> Ymd, m: Match): map<nat, map<string, seq<Match>>>
  {
    var days := if m.round in rounds then rounds[m.round] else map[];
    var key := KeyOf(cal, m);
    var bucket := if key in days then days[key] else [];
    rounds[m.round := days[key := bucket + [m]]]
  }

  /** After a push, a round has a bucket exactly when it has a match. */
  lemma PushRounds(rounds: map<nat, map<string, seq<Match>>>, ms: seq<Match>, cal: int -> Ymd)
    requires |ms| > 0
    requires forall r :: r in rounds <==> r in RoundsOf(ms[..|ms| - 1])
    ensures forall r :: r in Push(rounds, cal, ms[|ms| - 1]) <==> r in RoundsOf(ms)
  {
    assert RoundsOf(ms) == RoundsOf(ms[..|ms| - 1]) + [ms[|ms| - 1].round];
  }

  /** What a push leaves at round `r`, day `k`: the old bucket, or none, with `m` appended when it belongs there. */
  lemma PushEntry(rounds: map<nat, map<string, seq<Match>>>, cal: int -> Ymd, m: Match, r: nat, k: string)
    requires r in Push(rounds, cal, m)
    ensures k in Push(rounds, cal, m)[r] <==> (r == m.round && k == KeyOf(cal, m)) || (r in rounds && k in rounds[r])
    ensures k in Push(rounds, cal, m)[r] ==>
              Push(rounds, cal, m)[r][k]
              == (if r in rounds && k in rounds[r] then rounds[r][k] else [])
                 + (if r == m.round && k == KeyOf(cal, m) then [m] else [])
  {
    var key := KeyOf(cal, m);
    var days := if m.round in rounds then rounds[m.round] else map[];
    var bucket := if key in days then days[key] else [];
    var next := Push(rounds, cal, m);
    if r != m.round {
      assert next[r] == rounds[r];
    } else if k == key {
      assert next[r][k] == bucket + [m];
    } else {
      assert next[r] == days[key := bucket + [m]];
    }
  }

  /** The bucket of a non-empty list: that of all but the last match, with the last appended when it belongs. */
  lemma BucketLast(ms: seq<Match>, cal: int -> Ymd, r: nat, k: string)
    requires |ms| > 0
    ensures Bucket(ms, cal, r, k) == Bucket(ms[..|ms| - 1], cal, r, k)
      + (if ms[|ms| - 1].round == r && KeyOf(cal, ms[|ms| - 1]) == k then [ms[|ms| - 1]] else [])
  {
  }

  /** After a push, the day bucket `k` of round `r` is there exactly when it is non-empty, and right. */
  lemma PushBucket(rounds: map<nat, map<string, seq<Match>>>, ms: seq<Match>, cal: int -> Ymd, r: nat, k: string)
    requires |ms| > 0
    requires r in rounds ==> (k in rounds[r] <==> Bucket(ms[..|ms| - 1], cal, r, k) != [])
    requires r in rounds && k in rounds[r] ==> rounds[r][k] == Bucket(ms[..|ms| - 1], cal, r, k)
    requires r !in rounds ==> Bucket(ms[..|ms| - 1], cal, r, k) == []
    requires r in Push(rounds, cal, ms[|ms| - 1])
    ensures k in Push(rounds, cal, ms[|ms| - 1])[r] <==> Bucket(ms, cal, r, k) != []
    ensures k in Push(rounds, cal, ms[|ms| - 1])[r] ==> Push(rounds, cal, ms[|ms| - 1])[r][k] == Bucket(ms, cal, r, k)
  {
    PushEntry(rounds, cal, ms[|ms| - 1], r, k);
    BucketLast(ms, cal, r, k);
  }

  /** One step of the `forEach` keeps the grouping right for the matches seen so far. */
  lemma PushKeepsGrouped(rounds: map<nat, map<string, seq<Match>>>, ms: seq<Match>, cal: int -> Ymd)
    requires |ms| > 0 && Grouped(rounds, ms[..|ms| - 1], cal)
    ensures Grouped(Push(rounds, cal, ms[|ms| - 1]), ms, cal)
  {
    var next := Push(rounds, cal, ms[|ms| - 1]);
    PushRounds(rounds, ms, cal);
    forall r, k | r in next
      ensures k in next[r] <==> Bucket(ms, cal, r, k) != []
      ensures k in next[r] ==> next[r][k] == Bucket(ms, cal, r, k)
    {
      if r !in rounds {
        RoundlessBucket(ms[..|ms| - 1], cal, r, k);
      }
      PushBucket(rounds, ms, cal, r, k);
    }
  }

  /** A round without matches has only empty buckets. */
  lemma RoundlessBucket(ms: seq<Match>, cal: int -> Ymd, r: nat, k: string)
    requires r !in RoundsOf(ms)
    ensures Bucket(ms, cal, r, k) == []
  {
  }

  /** `roundsMap` after the `forEach` has pushed every match of `ms`, in order. */
  function RoundsMap(ms: seq<Match>, cal: int -> Ymd): map<nat, map<string, seq<Match>>>
  {
    if |ms| == 0 then map[] else Push(RoundsMap(ms[..|ms| - 1], cal), cal, ms[|ms| - 1])
  }

  /** The map the loop builds groups the matches: a bucket per round and day, holding exactly its matches. */
  lemma {:induction false} RoundsMapGrouped(ms: seq<Match>, cal: int -> Ymd)
    ensures Grouped(RoundsMap(ms, cal), ms, cal)
  {
    if |ms| > 0 {
      RoundsMapGrouped(ms[..|ms| - 1], cal);
      PushKeepsGrouped(RoundsMap(ms[..|ms| - 1], cal), ms, cal);
    }
  }

  /**
   * The `roundsMap` loop: a bucket per round, and in it a bucket per day key, each created on
   * the first match that needs it and holding exactly that round's matches of that day.
   */
  method GroupByRoundAndDate(ms: seq<Match>, cal: int -> Ymd) returns (rounds: map<nat, map<string, seq<Match>>>)
    ensures rounds == RoundsMap(ms, cal)
    ensures Grouped(rounds, ms, cal)
  {
    rounds := map[];
    for n := 0 to |ms|
      invariant rounds == RoundsMap(ms[..n], cal)
    {
      assert ms[..n + 1][..n] == ms[..n];
      rounds := Push(rounds, cal, ms[n]);
    }
    assert ms[..|ms|] == ms;
    RoundsMapGrouped(ms, cal);
  }

  lemma GroupedMeans(rounds: map<nat, map<string, seq<Match>>>, ms: seq<Match>, cal: int -> Ymd)
    requires Grouped(rounds, ms, cal)
    ensures forall r :: r in rounds <==> exists i :: 0 <= i < |ms| && ms[i].round == r
    ensures forall i :: 0 <= i < |ms| ==> ms[i].round in rounds && KeyOf(cal, ms[i]) in rounds[ms[i].round]
  {
    forall r ensures r in rounds <==> exists i :: 0 <= i < |ms| && ms[i].round == r {
      if r in rounds {
        var i :| 0 <= i < |ms| && RoundsOf(ms)[i] == r;
      } else {
        assert forall i :: 0 <= i < |ms| ==> RoundsOf(ms)[i] != r;
      }
    }
    forall i | 0 <= i < |ms| ensures ms[i].round in rounds && KeyOf(cal, ms[i]) in rounds[ms[i].round] {
      assert RoundsOf(ms)[i] == ms[i].round;
      assert ms[i] in Bucket(ms, cal, ms[i].round, KeyOf(cal, ms[i]));
    }
  }

  // ---------------------------------------------------------------- round order

  function RoundKey(r: nat): seq<int>
  {
    [r]
  }

  /** `sortedRounds`: every round that has a match, once each, ascending. */
  function SortedRounds(ms: seq<Match>): (r: seq<nat>)
    ensures forall x :: x in r <==> exists i :: 0 <= i < |ms| && ms[i].round == x
    ensures forall i, j :: 0 <= i < j < |r| ==> r[i] < r[j]
  {
    var all := RoundsOf(ms);
    var unique := Dedup(all);
    var r := SortBy(unique, RoundKey);
    PermutedDistinct(unique, r);
    forall x ensures x in r <==> x in unique { SortByMembers(unique, RoundKey, x); }
    forall x | x in all ensures exists i :: 0 <= i < |ms| && ms[i].round == x {
      var i :| 0 <= i < |all| && all[i] == x;
    }
    forall i | 0 <= i < |ms| ensures ms[i].round in all {
      assert all[i] == ms[i].round;
    }
    forall i, j | 0 <= i < j < |r| ensures r[i] < r[j] {
      LexLeCons(r[i], [], r[j], []);
      assert RoundKey(r[i]) == [r[i]] + [] && RoundKey(r[j]) == [r[j]] + [];
    }
    r
  }

  // ---------------------------------------------------------------- day order

  /** The day keys of round `r`'s matches, in list order, with repeats. */
  function KeysOfRound(ms: seq<Match>, cal: int -> Ymd, r: nat): (ks: seq<string>)
    ensures forall k :: k in ks <==> Bucket(ms, cal, r, k) != []
  {
    if |ms| == 0 then []
    else
      var init := KeysOfRound(ms[..|ms| - 1], cal, r);
      var last := ms[|ms| - 1];
      assert forall k ::
        Bucket(ms, cal, r, k) == Bucket(ms[..|ms| - 1], cal, r, k) + (if last.round == r && KeyOf(cal, last) == k then [last] else []);
      if last.round == r then init + [KeyOf(cal, last)] else init
  }

  /** One `[dateKey, dayMatches]` pair of `Object.entries(roundsMap[round])`. */
  datatype Entry = Entry(dateKey: string, dayMatches: seq<Match>)

  /** `String(obj)` for a plain object. */
  const ObjectText: string := "[object Object]"

  /** `String(array)` for an array of `n` plain objects: their texts joined by commas. */
  function ObjectsText(n: nat): string
  {
    if n == 0 then "" else if n == 1 then ObjectText else ObjectsText(n - 1) + "," + ObjectText
  }

  /** `String(entry)`: what the default `sort()` compares. */
  function EntryText(e: Entry): string
  {
    e.dateKey + "," + ObjectsText(|e.dayMatches|)
  }

  function EntryKey(e: Entry): seq<int>
  {
    Codes(EntryText(e))
  }

  /** With distinct keys of one length, the entries' texts compare as their keys do. */
  lemma EntryOrderIsKeyOrder(e: Entry, f: Entry)
    requires |e.dateKey| == |f.dateKey| && e.dateKey != f.dateKey
    ensures LexLe(EntryKey(e), EntryKey(f)) <==> LexLe(Codes(e.dateKey), Codes(f.dateKey))
  {
    assert EntryText(e) == e.dateKey + ("," + ObjectsText(|e.dayMatches|));
    assert EntryText(f) == f.dateKey + ("," + ObjectsText(|f.dayMatches|));
    CodesAppend(e.dateKey, "," + ObjectsText(|e.dayMatches|));
    CodesAppend(f.dateKey, "," + ObjectsText(|f.dayMatches|));
    LexLeAppend(Codes(e.dateKey), Codes(f.dateKey), Codes("," + ObjectsText(|e.dayMatches|)), Codes("," + ObjectsText(|f.dayMatches|)));
    if Codes(e.dateKey) == Codes(f.dateKey) {
      CodesInjective(e.dateKey, f.dateKey);
    }
  }

  /** `Object.entries(roundsMap[r])`: one entry per day key, in order of first appearance. */
  function DayEntries(ms: seq<Match>, cal: int -> Ymd, r: nat): (es: seq<Entry>)
    ensures forall i :: 0 <= i < |es| ==> Bucket(ms, cal, r, es[i].dateKey) != []
    ensures forall i :: 0 <= i < |es| ==> es[i].dayMatches == Bucket(ms, cal, r, es[i].dateKey)
    ensures forall k :: Bucket(ms, cal, r, k) != [] ==> exists i :: 0 <= i < |es| && es[i].dateKey == k
    ensures forall i, j :: 0 <= i < j < |es| ==> es[i].dateKey != es[j].dateKey
  {
    var keys := Dedup(KeysOfRound(ms, cal, r));
    var es := seq(|keys|, i requires 0 <= i < |keys| => Entry(keys[i], Bucket(ms, cal, r, keys[i])));
    forall k | Bucket(ms, cal, r, k) != [] ensures exists i :: 0 <= i < |es| && es[i].dateKey == k {
      assert k in keys;
      var i :| 0 <= i < |keys| && keys[i] == k;
      assert es[i].dateKey == k;
    }
    es
  }

  /** `Object.entries(roundsMap[r]).sort()`: the day entries of round `r`, as shown. */
  function RoundDays(ms: seq<Match>, cal: int -> Ymd, r: nat): (es: seq<Entry>)
    ensures multiset(es) == multiset(DayEntries(ms, cal, r))
    ensures forall k :: (exists i :: 0 <= i < |es| && es[i].dateKey == k) <==> Bucket(ms, cal, r, k) != []
    ensures forall i :: 0 <= i < |es| ==> es[i].dayMatches == Bucket(ms, cal, r, es[i].dateKey)
  {
    var entries := DayEntries(ms, cal, r);
    var es := SortBy(entries, EntryKey);
    PermutedEntries(ms, cal, r, entries, es);
    es
  }

  /** A reordering of the day entries keeps the same keys, each with its bucket. */
  lemma PermutedEntries(ms: seq<Match>, cal: int -> Ymd, r: nat, entries: seq<Entry>, es: seq<Entry>)
    requires multiset(es) == multiset(entries)
    requires forall i :: 0 <= i < |entries| ==> Bucket(ms, cal, r, entries[i].dateKey) != []
    requires forall i :: 0 <= i < |entries| ==> entries[i].dayMatches == Bucket(ms, cal, r, entries[i].dateKey)
    requires forall k :: Bucket(ms, cal, r, k) != [] ==> exists i :: 0 <= i < |entries| && entries[i].dateKey == k
    ensures forall k :: (exists i :: 0 <= i < |es| && es[i].dateKey == k) <==> Bucket(ms, cal, r, k) != []
    ensures forall i :: 0 <= i < |es| ==> es[i].dayMatches == Bucket(ms, cal, r, es[i].dateKey)
  {
    SameMembers(entries, es);
    forall i | 0 <= i < |es| ensures es[i].dayMatches == Bucket(ms, cal, r, es[i].dateKey) {
      assert es[i] in entries;
      var p :| 0 <= p < |entries| && entries[p] == es[i];
    }
    forall k ensures (exists i :: 0 <= i < |es| && es[i].dateKey == k) <==> Bucket(ms, cal, r, k) != [] {
      if Bucket(ms, cal, r, k) != [] {
        var p :| 0 <= p < |entries| && entries[p].dateKey == k;
        assert entries[p] in es;
        var i :| 0 <= i < |es| && es[i] == entries[p];
        assert es[i].dateKey == k;
      } else {
        forall i | 0 <= i < |es| ensures es[i].dateKey != k {
          assert es[i] in entries;
          var p :| 0 <= p < |entries| && entries[p] == es[i];
        }
      }
    }
  }

  /** Two permutations of each other hold the same elements. */
  lemma SameMembers<T>(a: seq<T>, b: seq<T>)
    requires multiset(a) == multiset(b)
    ensures forall x :: x in a <==> x in b
  {
    forall x ensures x in a <==> x in b {
      assert x in a <==> x in multiset(a);
      assert x in b <==> x in multiset(b);
    }
  }

  /** A day key that has matches is a ten-character `yyyy-MM-dd` text. */
  lemma KeyLength(ms: seq<Match>, cal: int -> Ymd, r: nat, k: string)
    requires AllValid(ms, cal)
    requires Bucket(ms, cal, r, k) != []
    ensures |k| == 10
  {
    var b := Bucket(ms, cal, r, k);
    assert b[0] in b;
    var p :| 0 <= p < |ms| && ms[p] == b[0];
    assert ValidYmd(cal(ms[p].date));
  }

  /** Within a round the days are shown with strictly increasing keys: each day once. */
  lemma RoundDaysAscending(ms: seq<Match>, cal: int -> Ymd, r: nat, i: nat, j: nat)
    requires AllValid(ms, cal)
    requires i < j < |RoundDays(ms, cal, r)|
    ensures LexLt(Codes(RoundDays(ms, cal, r)[i].dateKey), Codes(RoundDays(ms, cal, r)[j].dateKey))
  {
    var entries := DayEntries(ms, cal, r);
    var es := RoundDays(ms, cal, r);
    assert es == SortBy(entries, EntryKey);
    var e, f := es[i], es[j];
    assert Distinct(entries);
    PermutedDistinct(entries, es);
    assert e != f;
    if e.dateKey == f.dateKey {
      assert false;
    }
    assert e in multiset(entries) && f in multiset(entries);
    var p :| 0 <= p < |entries| && entries[p] == e;
    var q :| 0 <= q < |entries| && entries[q] == f;
    KeyLength(ms, cal, r, e.dateKey);
    KeyLength(ms, cal, r, f.dateKey);
    EntryOrderIsKeyOrder(e, f);
    if Codes(e.dateKey) == Codes(f.dateKey) {
      CodesInjective(e.dateKey, f.dateKey);
    }
  }

  /** The days of a round are shown in calendar order: every match of an earlier day is earlier. */
  lemma RoundDaysChronological(ms: seq<Match>, cal: int -> Ymd, r: nat, i: nat, j: nat, x: Match, y: Match)
    requires AllValid(ms, cal)
    requires i < j < |RoundDays(ms, cal, r)|
    requires x in RoundDays(ms, cal, r)[i].dayMatches && y in RoundDays(ms, cal, r)[j].dayMatches
    ensures LexLt(YmdVector(cal(x.date)), YmdVector(cal(y.date)))
  {
    var es := RoundDays(ms, cal, r);
    RoundDaysAscending(ms, cal, r, i, j);
    assert KeyOf(cal, x) == es[i].dateKey && KeyOf(cal, y) == es[j].dateKey;
    var p :| 0 <= p < |ms| && ms[p] == x;
    var q :| 0 <= q < |ms| && ms[q] == y;
    assert ValidYmd(cal(x.date)) && ValidYmd(cal(y.date));
    DateKeyOrder(cal(x.date), cal(y.date));
  }
}
