/**
 The two gates written as text: a dependency gate (ticket ids and calendar
 dates found by scanning a free-form string) and a declared intention.
 */
module GateLogic {
  import opened Tickets
  import opened TextLines
  import opened Lexical

  // ---- Token scanners (leftmost, greedy, non-overlapping) ----

  predicate IsIdChar(c: char) {
    IsAlnum(c) || c == '_' || c == '-'
  }

  /** `T-`, a letter or digit, then id characters. */
  predicate StartsId(s: string) {
    |s| >= 3 && s[0] == 'T' && s[1] == '-' && IsAlnum(s[2])
  }

  function Span(s: string): (n: nat)
    ensures n <= |s| && (forall k :: 0 <= k < n ==> IsIdChar(s[k])) && (n < |s| ==> !IsIdChar(s[n]))
  {
    if s == "" || !IsIdChar(s[0]) then 0 else 1 + Span(s[1..])
  }

  function IdTokens(s: string): seq<string> {
    if |s| < 3 then []
    else if StartsId(s) then
      var n := 3 + Span(s[3..]);
      [s[..n]] + IdTokens(s[n..])
    else IdTokens(s[1..])
  }

  predicate IsDateText(s: string) {
    |s| == 10 && s[4] == '-' && s[7] == '-'
    && forall k :: 0 <= k < 10 && k != 4 && k != 7 ==> IsDigit(s[k])
  }

  function DateTokens(s: string): seq<string> {
    if |s| < 10 then []
    else if IsDateText(s[..10]) then [s[..10]] + DateTokens(s[10..])
    else DateTokens(s[1..])
  }

  // ---- Dates ----

  function DigitAt(s: string, k: nat): int
    requires k < |s|
  {
    s[k] as int - '0' as int
  }

  predicate LeapYear(y: int) {
    y % 4 == 0 && (y % 100 != 0 || y % 400 == 0)
  }

  function DaysIn(y: int, m: int): int {
    if m == 2 then (if LeapYear(y) then 29 else 28)
    else if m == 4 || m == 6 || m == 9 || m == 11 then 30 else 31
  }

  /** A calendar date as yyyymmdd, or nothing when the digits name no date. */
  function DateValue(s: string): Option<int>
    requires IsDateText(s)
  {
    var y := ((DigitAt(s, 0) * 10 + DigitAt(s, 1)) * 10 + DigitAt(s, 2)) * 10 + DigitAt(s, 3);
    var m := DigitAt(s, 5) * 10 + DigitAt(s, 6);
    var d := DigitAt(s, 8) * 10 + DigitAt(s, 9);
    if y >= 1 && 1 <= m <= 12 && 1 <= d <= DaysIn(y, m) then Some(y * 10000 + m * 100 + d) else None
  }

  /** A malformed date never elapses. */
  predicate Elapsed(date: string, today: int) {
    IsDateText(date) && DateValue(date).Some? && DateValue(date).value <= today
  }

  /** What a digit of the date counts for. */
  function Weight(k: nat): nat {
    if k == 0 then 10_000_000 else if k == 1 then 1_000_000 else if k == 2 then 100_000 else if k == 3 then 10_000
    else if k == 5 then 1_000 else if k == 6 then 100 else if k == 8 then 10 else if k == 9 then 1 else 0
  }

  /** The number that the digits from position `k` on make up. */
  function Rest(s: string, k: nat): int
    requires |s| == 10 && k <= 10
    decreases 10 - k
  {
    if k == 10 then 0 else DigitAt(s, k) * Weight(k) + Rest(s, k + 1)
  }

  lemma DateIsItsDigits(s: string)
    requires IsDateText(s) && DateValue(s).Some?
    ensures DateValue(s).value == Rest(s, 0)
  {
    assert Rest(s, 8) == DigitAt(s, 8) * 10 + DigitAt(s, 9);
    assert Rest(s, 5) == DigitAt(s, 5) * 1_000 + DigitAt(s, 6) * 100 + Rest(s, 8);
    assert Rest(s, 2) == DigitAt(s, 2) * 100_000 + DigitAt(s, 3) * 10_000 + Rest(s, 5);
  }

  lemma FirstDigitDecides(x: int, y: int, w: nat, p: int, q: int)
    requires 0 <= p < w && 0 <= q < w
    ensures x * w + p <= y * w + q <==> x < y || (x == y && p <= q)
  {
    if x < y {
      Step(x, y, w);
    } else if x > y {
      Step(y, x, w);
    }
  }

  lemma Step(x: int, y: int, w: nat)
    requires x < y
    ensures y * w >= x * w + w
  {
    assert y * w == x * w + (y - x) * w;
    NotLess(y - x, w);
  }

  lemma NotLess(n: int, w: nat)
    requires n >= 1
    ensures n * w >= w
  {
  }

  /** The first difference decides, for the texts and for the numbers. */
  lemma {:induction false} RestsOrderAsText(a: string, b: string, k: nat)
    requires IsDateText(a) && IsDateText(b) && k <= 10
    ensures Rest(a, k) <= Rest(b, k) <==> LexLe(a[k..], b[k..])
    ensures 0 <= Rest(a, k) < RestBound(k) && 0 <= Rest(b, k) < RestBound(k)
    decreases 10 - k
  {
    if k == 10 {
      assert a[k..] == b[k..] == "";
    } else {
      RestsOrderAsText(a, b, k + 1);
      hide LexLe, Rest;
      LexStep(a, b, k);
      if k == 4 || k == 7 {
        DashStep(a, k);
        DashStep(b, k);
      } else {
        RestStep(a, b, k);
      }
    }
  }

  lemma DashStep(s: string, k: nat)
    requires IsDateText(s) && (k == 4 || k == 7)
    ensures s[k] == '-' && Rest(s, k) == Rest(s, k + 1) && RestBound(k) == RestBound(k + 1)
  {
  }

  lemma LexStep(a: string, b: string, k: nat)
    requires k < |a| == |b|
    ensures LexLe(a[k..], b[k..]) <==> a[k] < b[k] || (a[k] == b[k] && LexLe(a[k + 1..], b[k + 1..]))
  {
    assert a[k..][1..] == a[k + 1..] && b[k..][1..] == b[k + 1..];
  }

  lemma RestStep(a: string, b: string, k: nat)
    requires IsDateText(a) && IsDateText(b) && k < 10 && k != 4 && k != 7
    requires 0 <= Rest(a, k + 1) < RestBound(k + 1) && 0 <= Rest(b, k + 1) < RestBound(k + 1)
    ensures Rest(a, k) <= Rest(b, k) <==> a[k] < b[k] || (a[k] == b[k] && Rest(a, k + 1) <= Rest(b, k + 1))
    ensures 0 <= Rest(a, k) < RestBound(k) && 0 <= Rest(b, k) < RestBound(k)
  {
    var w := Weight(k);
    assert w == RestBound(k + 1) && RestBound(k) == 10 * w;
    assert Rest(a, k) == DigitAt(a, k) * w + Rest(a, k + 1) && Rest(b, k) == DigitAt(b, k) * w + Rest(b, k + 1);
    hide Rest, Weight, RestBound;
    FirstDigitDecides(DigitAt(a, k), DigitAt(b, k), w, Rest(a, k + 1), Rest(b, k + 1));
    DigitTimes(DigitAt(a, k), w);
    DigitTimes(DigitAt(b, k), w);
  }

  lemma DigitTimes(x: int, w: nat)
    requires 0 <= x <= 9
    ensures 0 <= x * w <= 9 * w
  {
  }

  function RestBound(k: nat): nat {
    if k == 0 then 100_000_000 else if k == 4 then Weight(3) else if k == 7 then Weight(6) else if k >= 10 then 1 else 10 * Weight(k)
  }

  /** The numbers order dates as their ISO texts are ordered, character by character. */
  lemma DatesOrderAsText(a: string, b: string)
    requires IsDateText(a) && IsDateText(b) && DateValue(a).Some? && DateValue(b).Some?
    ensures DateValue(a).value <= DateValue(b).value <==> LexLe(a, b)
  {
    DateIsItsDigits(a);
    DateIsItsDigits(b);
    RestsOrderAsText(a, b, 0);
    assert a[0..] == a && b[0..] == b;
  }

  /** A date in a gate has elapsed exactly when it is a day of the calendar and not after today. */
  lemma ElapsedIff(date: string, today: string)
    requires IsDateText(date) && IsDateText(today) && DateValue(today).Some?
    ensures Elapsed(date, DateValue(today).value) <==> DateValue(date).Some? && LexLe(date, today)
  {
    if DateValue(date).Some? {
      DatesOrderAsText(date, today);
    }
  }

  function DaysBefore(y: int, m: nat): int {
    if m <= 1 then 0 else DaysBefore(y, m - 1) + DaysIn(y, m - 1)
  }

  function LeapsUpTo(n: nat): nat {
    if n == 0 then 0 else LeapsUpTo(n - 1) + if LeapYear(n) then 1 else 0
  }

  lemma YearInParts(y: int)
    ensures DaysBefore(y, 7) == 153 + DaysIn(y, 2)
    ensures DaysBefore(y, 13) == DaysBefore(y, 7) + 184
  {
    assert DaysBefore(y, 3) == DaysBefore(y, 2) + DaysIn(y, 2) && DaysBefore(y, 2) == 31;
    assert DaysBefore(y, 5) == DaysBefore(y, 4) + 30 && DaysBefore(y, 4) == DaysBefore(y, 3) + 31;
    assert DaysBefore(y, 7) == DaysBefore(y, 6) + 30 && DaysBefore(y, 6) == DaysBefore(y, 5) + 31;
    assert DaysBefore(y, 9) == DaysBefore(y, 8) + 31 && DaysBefore(y, 8) == DaysBefore(y, 7) + 31;
    assert DaysBefore(y, 11) == DaysBefore(y, 10) + 31 && DaysBefore(y, 10) == DaysBefore(y, 9) + 30;
    assert DaysBefore(y, 13) == DaysBefore(y, 12) + 31 && DaysBefore(y, 12) == DaysBefore(y, 11) + 30;
  }

  lemma YearLength(y: int)
    ensures DaysBefore(y, 13) == if LeapYear(y) then 366 else 365
  {
    YearInParts(y);
  }

  lemma OneMoreYear(n: nat)
    requires n > 0
    ensures n / 4 - (n - 1) / 4 == if n % 4 == 0 then 1 else 0
    ensures n / 100 - (n - 1) / 100 == if n % 100 == 0 then 1 else 0
    ensures n / 400 - (n - 1) / 400 == if n % 400 == 0 then 1 else 0
  {
  }

  lemma CenturiesAreFourths(n: nat)
    ensures n % 400 == 0 ==> n % 100 == 0
    ensures n % 100 == 0 ==> n % 4 == 0
  {
    assert n % 400 == 0 ==> n == 100 * (4 * (n / 400));
    assert n % 100 == 0 ==> n == 4 * (25 * (n / 100));
  }

  /** The calendar is the Gregorian one: years of 365 or 366 days, and the leap years among the first `n` by the usual formula. */
  lemma {:induction false} CalendarIsGregorian(n: nat)
    ensures DaysBefore(n, 13) == if LeapYear(n) then 366 else 365
    ensures LeapsUpTo(n) == n / 4 - n / 100 + n / 400
  {
    hide DaysBefore;
    YearLength(n);
    if n > 0 {
      CalendarIsGregorian(n - 1);
      OneMoreYear(n);
      CenturiesAreFourths(n);
    }
  }

  // ---- The dependency gate ----

  /** The status the scan of `all_tasks` assigns to an id: the last task with it wins, absent ids have none. */
  function StatusById(tasks: seq<Body>, id: Value): Value {
    if tasks == [] then Null
    else
      var last := tasks[|tasks| - 1];
      if IdOf(last) == id then Get(last, KeyStatus) else StatusById(tasks[..|tasks| - 1], id)
  }

  /** Of several tasks with one id the last listed decides; an id nobody has has no status. */
  lemma {:induction false} LastListedDecides(tasks: seq<Body>, id: Value, k: nat)
    requires k < |tasks| && IdOf(tasks[k]) == id && forall j :: k < j < |tasks| ==> IdOf(tasks[j]) != id
    ensures StatusById(tasks, id) == Get(tasks[k], KeyStatus)
  {
    if k < |tasks| - 1 {
      LastListedDecides(tasks[..|tasks| - 1], id, k);
    }
  }

  lemma {:induction false} UnlistedHasNoStatus(tasks: seq<Body>, id: Value)
    requires forall j :: 0 <= j < |tasks| ==> IdOf(tasks[j]) != id
    ensures StatusById(tasks, id) == Null
  {
    if tasks != [] {
      UnlistedHasNoStatus(tasks[..|tasks| - 1], id);
    }
  }

  predicate IdDone(tasks: seq<Body>, tid: string) {
    var s := StatusById(tasks, Text(tid));
    s.Stat? && IsTerminal(s.status)
  }

  predicate GateClear(gate: Value, tasks: seq<Body>, today: int)
    requires gate.Null? || gate.Text?
  {
    !Truthy(gate) ||
    (var ids, dates := IdTokens(gate.text), DateTokens(gate.text);
     && (ids != [] || dates != [])
     && (forall d :: d in dates ==> Elapsed(d, today))
     && (forall tid :: tid in ids ==> IdDone(tasks, tid)))
  }

  // ---- Scanning a gate printed from ids ----

  predicate WellFormedId(s: string) {
    StartsId(s) && forall k :: 0 <= k < |s| ==> IsIdChar(s[k])
  }

  function Spaced(ids: seq<string>): string {
    if ids == [] then ""
    else if |ids| == 1 then ids[0]
    else ids[0] + " " + Spaced(ids[1..])
  }

  lemma {:induction false} SpanStops(a: string, b: string)
    requires b == "" || !IsIdChar(b[0])
    ensures Span(a + b) == Span(a)
  {
    if a == "" {
      assert a + b == b;
    } else {
      assert (a + b)[1..] == a[1..] + b;
      SpanStops(a[1..], b);
    }
  }

  /** A prefix of the part before the space, cut off. */
  lemma CutBefore(a: string, b: string, n: nat)
    requires n <= |a|
    ensures (a + " " + b)[..n] == a[..n] && (a + " " + b)[n..] == a[n..] + " " + b
  {
  }

  lemma StartsBefore(a: string, b: string)
    requires a != ""
    ensures StartsId(a + " " + b) <==> StartsId(a)
  {
    var s := a + " " + b;
    assert forall k :: 0 <= k < |a| ==> s[k] == a[k];
    assert s[|a|] == ' ';
  }

  lemma SpanBefore(a: string, b: string)
    ensures Span(a + " " + b) == Span(a)
  {
    assert a + " " + b == a + (" " + b);
    SpanStops(a, " " + b);
  }

  lemma IdTokensSkip(s: string)
    requires s != "" && !StartsId(s)
    ensures IdTokens(s) == IdTokens(s[1..])
  {
  }

  lemma IdTokensTake(s: string, n: nat)
    requires StartsId(s) && n == 3 + Span(s[3..])
    ensures n <= |s| && IdTokens(s) == [s[..n]] + IdTokens(s[n..])
  {
    hide Span, IsAlnum, IsIdChar;
  }

  /** A space separates: no id token spans it. */
  lemma {:induction false} IdTokensSplit(a: string, b: string)
    ensures IdTokens(a + " " + b) == IdTokens(a) + IdTokens(b)
    decreases |a|
  {
    var s := a + " " + b;
    if a == "" {
      assert s[1..] == b && s[0] == ' ';
      IdTokensSkip(s);
    } else if StartsId(a) {
      var n := 3 + Span(a[3..]);
      StartsBefore(a, b);
      CutBefore(a, b, 3);
      SpanBefore(a[3..], b);
      IdTokensTake(a, n);
      IdTokensTake(s, n);
      CutBefore(a, b, n);
      IdTokensSplit(a[n..], b);
    } else {
      StartsBefore(a, b);
      IdTokensSkip(a);
      IdTokensSkip(s);
      CutBefore(a, b, 1);
      IdTokensSplit(a[1..], b);
    }
  }

  lemma {:induction false} SpanAll(s: string)
    requires forall k :: 0 <= k < |s| ==> IsIdChar(s[k])
    ensures Span(s) == |s|
  {
  }

  lemma ScanOfOneId(id: string)
    requires WellFormedId(id)
    ensures IdTokens(id) == [id]
  {
    SpanAll(id[3..]);
    IdTokensTake(id, |id|);
    assert id[..|id|] == id && id[|id|..] == "";
  }

  /** Scanning the printed gate returns exactly the ids it was printed from. */
  lemma {:induction false} ScanOfPrintedIds(ids: seq<string>)
    requires forall id :: id in ids ==> WellFormedId(id)
    ensures IdTokens(Spaced(ids)) == ids
  {
    if ids != [] {
      assert ids[0] in ids;
      ScanOfOneId(ids[0]);
      if |ids| == 1 {
        assert ids == [ids[0]];
      } else {
        ScanOfPrintedIds(ids[1..]);
        IdTokensSplit(ids[0], Spaced(ids[1..]));
        assert ids == [ids[0]] + ids[1..];
      }
    }
  }

  /** In particular an id is never found inside a longer one. */
  lemma LongerIdIsNotAMatch(id: string, suffix: string)
    requires WellFormedId(id) && suffix != "" && WellFormedId(id + suffix)
    ensures id !in IdTokens(id + suffix)
  {
    ScanOfPrintedIds([id + suffix]);
    assert IdTokens(id + suffix) == [id + suffix];
  }

  lemma {:induction false} DateTokensSplit(a: string, b: string)
    ensures DateTokens(a + " " + b) == DateTokens(a) + DateTokens(b)
    decreases |a|
  {
    var s := a + " " + b;
    if a == "" {
      assert s[1..] == b;
      assert |s| >= 10 ==> s[..10][0] == ' ';
    } else if |a| >= 10 && IsDateText(a[..10]) {
      assert s[..10] == a[..10] && s[10..] == a[10..] + " " + b;
      DateTokensSplit(a[10..], b);
    } else {
      if |a| >= 10 {
        assert s[..10] == a[..10];
      } else if |s| >= 10 {
        assert s[..10][|a|] == ' ';
      }
      assert s[1..] == a[1..] + " " + b;
      DateTokensSplit(a[1..], b);
    }
  }

  ghost predicate DatesElapsed(id: string, today: int) {
    forall d :: d in DateTokens(id) ==> Elapsed(d, today)
  }

  lemma {:induction false} DatesOfPrintedIds(ids: seq<string>, today: int)
    ensures DatesElapsed(Spaced(ids), today) <==> forall id :: id in ids ==> DatesElapsed(id, today)
  {
    if ids == [] {
      assert DateTokens("") == [];
    } else if |ids| == 1 {
      assert ids == [ids[0]];
    } else {
      assert ids == [ids[0]] + ids[1..];
      DatesOfPrintedIds(ids[1..], today);
      DateTokensSplit(ids[0], Spaced(ids[1..]));
      var first, rest := DateTokens(ids[0]), DateTokens(Spaced(ids[1..]));
      assert DateTokens(Spaced(ids)) == first + rest;
      assert DatesElapsed(Spaced(ids), today) <==> DatesElapsed(ids[0], today) && DatesElapsed(Spaced(ids[1..]), today) by {
        assert forall d :: d in first + rest <==> d in first || d in rest;
      }
    }
  }

  /**
   A gate printed from ids is clear exactly when every id is terminal and every date that happens to be
   spelled inside an id has elapsed.
   */
  lemma PrintedGateClear(ids: seq<string>, tasks: seq<Body>, today: int)
    requires ids != [] && forall id :: id in ids ==> WellFormedId(id)
    ensures GateClear(Text(Spaced(ids)), tasks, today)
      <==> forall id :: id in ids ==> IdDone(tasks, id) && DatesElapsed(id, today)
  {
    ScanOfPrintedIds(ids);
    DatesOfPrintedIds(ids, today);
    assert ids[0] in ids;
    assert Spaced(ids) != "";
  }

  /** For date-free ids, clear means all terminal. */
  lemma DateFreeGateClear(ids: seq<string>, tasks: seq<Body>, today: int)
    requires ids != [] && forall id :: id in ids ==> WellFormedId(id) && DateTokens(id) == []
    ensures GateClear(Text(Spaced(ids)), tasks, today) <==> forall id :: id in ids ==> IdDone(tasks, id)
  {
    PrintedGateClear(ids, tasks, today);
  }

  /** A date spelled inside an id is read as a date token too: the gate waits for it even after the ticket is done. */
  lemma DatedIdWaitsForItsDate(date: string, tasks: seq<Body>, today: int)
    requires IsDateText(date)
    ensures GateClear(Text("T-" + date), tasks, today) <==> IdDone(tasks, "T-" + date) && Elapsed(date, today)
  {
    var id := "T-" + date;
    DatedIdIsId(date);
    DatedIdTokens(date);
    assert Spaced([id]) == id;
    assert DatesElapsed(id, today) <==> Elapsed(date, today);
    PrintedGateClear([id], tasks, today);
  }

  // ---- Gates of several words ----

  lemma {:induction false} NoIdsWithoutT(s: string)
    requires 'T' !in s
    ensures IdTokens(s) == []
  {
    if |s| >= 3 {
      NoIdsWithoutT(s[1..]);
    }
  }

  lemma {:induction false} NoDatesWithoutDigits(s: string)
    requires forall c :: c in s ==> !IsDigit(c)
    ensures DateTokens(s) == []
  {
    if |s| >= 10 {
      assert s[..10][0] == s[0] && s[0] in s;
      NoDatesWithoutDigits(s[1..]);
    }
  }

  /** A text that names no ticket and no day is never clear. */
  lemma PlainProseIsNeverClear(s: string, tasks: seq<Body>, today: int)
    requires s != "" && 'T' !in s && forall c :: c in s ==> !IsDigit(c)
    ensures !GateClear(Text(s), tasks, today)
  {
    NoIdsWithoutT(s);
    NoDatesWithoutDigits(s);
  }

  lemma {:induction false} IdsOfWords(words: seq<string>, tid: string)
    ensures tid in IdTokens(Spaced(words)) <==> exists w :: w in words && tid in IdTokens(w)
  {
    if |words| == 1 {
      assert words == [words[0]];
    } else if |words| > 1 {
      assert words == [words[0]] + words[1..];
      IdsOfWords(words[1..], tid);
      IdTokensSplit(words[0], Spaced(words[1..]));
    }
  }

  lemma DateIsOneWord(date: string)
    requires IsDateText(date)
    ensures IdTokens(date) == [] && DateTokens(date) == [date]
  {
    NoIdsWithoutT(date);
    assert date[..10] == date && date[10..] == "";
    assert DateTokens("") == [];
  }

  /** What one word of a gate asks for. */
  ghost predicate WordSatisfied(w: string, tasks: seq<Body>, today: int) {
    if IsDateText(w) then Elapsed(w, today) else IdDone(tasks, w)
  }

  /** A gate of dates and date-free ids, in any order, is clear exactly when every date has elapsed and every id is terminal. */
  lemma WordedGateClear(words: seq<string>, tasks: seq<Body>, today: int)
    requires words != [] && forall w :: w in words ==> IsDateText(w) || (WellFormedId(w) && DateTokens(w) == [])
    ensures GateClear(Text(Spaced(words)), tasks, today) <==> forall w :: w in words ==> WordSatisfied(w, tasks, today)
  {
    hide Elapsed, IdDone, WellFormedId;
    var gate := Spaced(words);
    forall w | w in words ensures IdTokens(w) == (if IsDateText(w) then [] else [w]) && DateTokens(w) == (if IsDateText(w) then [w] else []) {
      if IsDateText(w) {
        DateIsOneWord(w);
      } else {
        ScanOfOneId(w);
      }
    }
    DatesOfPrintedIds(words, today);
    hide IdTokens, DateTokens, Spaced, IsDateText;
    forall w | w in words && !IsDateText(w) ensures w in IdTokens(gate) {
      IdsOfWords(words, w);
    }
    forall tid | tid in IdTokens(gate) ensures tid in words && !IsDateText(tid) {
      IdsOfWords(words, tid);
    }
    WordsAreTokens(words);
    assert words[0] in words;
  }

  /** A gate with a word in it is not empty, and one with an id or a date has a token. */
  lemma WordsAreTokens(words: seq<string>)
    requires words != [] && IdTokens(words[0]) + DateTokens(words[0]) != []
    ensures Spaced(words) != "" && IdTokens(Spaced(words)) + DateTokens(Spaced(words)) != []
  {
    if |words| > 1 {
      IdTokensSplit(words[0], Spaced(words[1..]));
      DateTokensSplit(words[0], Spaced(words[1..]));
    }
  }

  lemma DatedIdIsId(date: string)
    requires IsDateText(date)
    ensures WellFormedId("T-" + date)
  {
    var id := "T-" + date;
    assert forall k :: 2 <= k < |id| ==> id[k] == date[k - 2];
  }

  lemma DatedIdTokens(date: string)
    requires IsDateText(date)
    ensures DateTokens("T-" + date) == [date]
  {
    var id := "T-" + date;
    assert id[1..] == "-" + date && id[1..][1..] == date;
    assert id[..10][0] == 'T' && id[1..][..10][0] == '-' && date[..10] == date;
    assert date[10..] == "" && DateTokens("") == [];
    assert DateTokens(date) == [date];
    assert DateTokens(id) == DateTokens(id[1..]) == DateTokens(date);
  }

  // ---- A clear gate stays clear ----

  datatype Moment = Moment(tasks: seq<Body>, today: int)

  /** Nothing is reopened or deleted, and the calendar does not run backwards. */
  ghost predicate Later(a: Moment, b: Moment) {
    a.today <= b.today && forall tid :: IdDone(a.tasks, tid) ==> IdDone(b.tasks, tid)
  }

  lemma {:induction false} ClearGateStaysClear(gate: Value, run: seq<Moment>)
    requires gate.Null? || gate.Text?
    requires run != [] && forall i :: 0 <= i < |run| - 1 ==> Later(run[i], run[i + 1])
    requires GateClear(gate, run[0].tasks, run[0].today)
    ensures forall m :: m in run ==> GateClear(gate, m.tasks, m.today)
    decreases |run|
  {
    if |run| == 1 {
      assert run == [run[0]];
    } else {
      assert Later(run[0], run[1]);
      forall i | 0 <= i < |run[1..]| - 1 ensures Later(run[1..][i], run[1..][i + 1]) {
        assert Later(run[i + 1], run[i + 2]);
      }
      ClearGateStaysClear(gate, run[1..]);
      assert run == [run[0]] + run[1..];
    }
  }

  // ---- Declared intentions ----

  datatype Verdict = Declared | Missing | Empty | Degenerate

  function DegenerateIntentions(): set<string> {
    {"unknown", "tbd", "todo", "n/a", "na", "none", "null", "nil",
     "?", "-", "--", "...", "\U{2026}", "x", "xxx", "fixme", "pending"}
  }

  predicate IsTrim(c: char) {
    c in ".!?,;:\U{2026}-_ "
  }

  function LowerChar(c: char): char {
    if 'A' <= c <= 'Z' then c + 'a' - 'A' else c
  }

  function Lower(s: string): (r: string)
    ensures |r| == |s| && forall k :: 0 <= k < |s| ==> r[k] == LowerChar(s[k])
  {
    seq(|s|, k requires 0 <= k < |s| => LowerChar(s[k]))
  }

  /** The three refusals stay distinct: never authored, blank, and a placeholder. */
  function IntentionVerdict(intention: Value): Verdict {
    match intention
    case Null => Missing
    case Text(s) =>
      var text := Strip(s, IsSpace);
      if text == "" then Empty
      else
        var token := Strip(Lower(text), IsTrim);
        if token == "" || token in DegenerateIntentions() then Degenerate else Declared
    case _ => Declared
  }

  predicate IntentionDeclared(t: Body) {
    IntentionVerdict(Get(t, KeyIntention)).Declared?
  }

  ghost predicate All(s: string, p: char -> bool) {
    forall k :: 0 <= k < |s| ==> p(s[k])
  }

  lemma {:induction false} StripLeftPad(p: string, s: string, drop: char -> bool)
    requires All(p, drop)
    ensures StripLeft(p + s, drop) == StripLeft(s, drop)
  {
    if p == "" {
      assert p + s == s;
    } else {
      assert (p + s)[1..] == p[1..] + s;
      StripLeftPad(p[1..], s, drop);
    }
  }

  lemma {:induction false} StripRightPad(s: string, q: string, drop: char -> bool)
    requires All(q, drop)
    ensures StripRight(s + q, drop) == StripRight(s, drop)
  {
    if q == "" {
      assert s + q == s;
    } else {
      var n := |q| - 1;
      assert (s + q)[..|s + q| - 1] == s + q[..n];
      StripRightPad(s, q[..n], drop);
    }
  }

  /** Trimming looks through any padding made of trimmed characters. */
  lemma {:induction false} StripPad(p: string, s: string, q: string, drop: char -> bool)
    requires All(p, drop) && All(q, drop)
    ensures Strip(p + s + q, drop) == Strip(s, drop)
    decreases |s|
  {
    if s == "" {
      assert p + s + q == p + q;
      StripLeftPad(p, q, drop);
      StripLeftPad(q, "", drop);
      assert q + "" == q;
    } else if drop(s[0]) {
      assert p + s + q == (p + [s[0]]) + s[1..] + q;
      StripPad(p + [s[0]], s[1..], q, drop);
    } else {
      assert p + s + q == p + (s + q);
      StripLeftPad(p, s + q, drop);
      StripRightPad(s, q, drop);
    }
  }

  /** The whitespace trim of a punctuated text keeps the core, inside what is left of the punctuation. */
  lemma {:induction false} StripKeepsCore(p: string, s: string, q: string) returns (p': string, q': string)
    requires All(p, IsTrim) && All(q, IsTrim)
    requires s != "" && !IsSpace(s[0]) && !IsSpace(s[|s| - 1])
    ensures All(p', IsTrim) && All(q', IsTrim) && Strip(p + s + q, IsSpace) == p' + s + q'
    decreases |p| + |q|
  {
    if p != "" && IsSpace(p[0]) {
      assert (p + s + q)[1..] == p[1..] + s + q;
      p', q' := StripKeepsCore(p[1..], s, q);
    } else if q != "" && IsSpace(q[|q| - 1]) {
      var n := |q| - 1;
      var core := p + s + q[..n];
      assert (p + s + q)[..|p + s + q| - 1] == core;
      assert !IsSpace(core[0]) && !IsSpace((p + s + q)[0]);
      p', q' := StripKeepsCore(p, s, q[..n]);
    } else {
      p', q' := p, q;
    }
  }

  /** What is neither padded nor punctuated is refused only as one of the placeholder words, in either case. */
  lemma SolidTextVerdict(s: string)
    requires s != "" && !IsSpace(s[0]) && !IsSpace(s[|s| - 1]) && !IsTrim(s[0]) && !IsTrim(s[|s| - 1])
    ensures IntentionVerdict(Text(s)) == if Lower(s) in DegenerateIntentions() then Degenerate else Declared
  {
    SolidIsTrimmed(s);
    assert Strip(Lower(s), IsTrim) == Lower(s);
  }

  /** The other refusals: nothing there, nothing but white space, nothing but punctuation. */
  lemma HollowTextVerdict(s: string)
    ensures IntentionVerdict(Null) == Missing
    ensures All(s, IsSpace) ==> IntentionVerdict(Text(s)) == Empty
    ensures All(s, IsTrim) && s != "" && !IsSpace(s[0]) && !IsSpace(s[|s| - 1]) ==> IntentionVerdict(Text(s)) == Degenerate
  {
    assert s + "" == s;
    if All(s, IsSpace) {
      StripLeftPad(s, "", IsSpace);
    }
    if All(s, IsTrim) && s != "" && !IsSpace(s[0]) && !IsSpace(s[|s| - 1]) {
      SolidIsTrimmed(s);
      LowerKeepsTrim(s);
      StripLeftPad(s, "", IsTrim);
    }
  }

  lemma LowerKeepsTrim(s: string)
    requires All(s, IsTrim)
    ensures Lower(s) == s
  {
  }

  /** Punctuation cannot dress a placeholder up as an intention (nor undress a real one). */
  lemma PunctuationChangesNothing(p: string, s: string, q: string)
    requires All(p, IsTrim) && All(q, IsTrim)
    requires s != "" && !IsSpace(s[0]) && !IsSpace(s[|s| - 1])
    ensures IntentionVerdict(Text(p + s + q)).Declared? <==> IntentionVerdict(Text(s)).Declared?
  {
    var p', q' := StripKeepsCore(p, s, q);
    SolidIsTrimmed(s);
    LowerPadded(p', s, q');
    StripPad(p', Lower(s), q', IsTrim);
    VerdictOfTrimmed(p + s + q, p' + s + q');
    VerdictOfTrimmed(s, s);
  }

  lemma SolidIsTrimmed(s: string)
    requires s != "" && !IsSpace(s[0]) && !IsSpace(s[|s| - 1])
    ensures Strip(s, IsSpace) == s
  {
  }

  lemma LowerPadded(p: string, s: string, q: string)
    requires All(p, IsTrim) && All(q, IsTrim)
    ensures Lower(p + s + q) == p + Lower(s) + q
  {
    LowerKeepsTrim(p);
    LowerKeepsTrim(q);
  }

  /** The verdict looks at the trimmed text's lower-case core only. */
  lemma VerdictOfTrimmed(s: string, text: string)
    requires text == Strip(s, IsSpace) && text != ""
    ensures var token := Strip(Lower(text), IsTrim);
      IntentionVerdict(Text(s)).Declared? <==> token != "" && token !in DegenerateIntentions()
  {
  }
}
