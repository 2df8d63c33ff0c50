/**
 * The dashboard's figures (client/src/pages/dashboard.tsx), computed from the
 * user's entries: total, this month, this year, the day streak, the 30-day
 * series and the goal progress. A calendar day is the `day` number of an
 * entry's date; today is a parameter.
 */
module Dashboard {
  import opened Schema
  import Ordering

  /** Which entries a sum takes. */
  datatype Period =
    | OnDay(day: int)
    | InMonth(month: int, year: int)
    | InYear(year: int)
    | Between(lo: int, hi: int)   // days lo <= day < hi

  predicate Within(e: Entry, p: Period) {
    match p
    case OnDay(d) => e.date.day == d
    case InMonth(m, y) => e.date.month == m && e.date.year == y
    case InYear(y) => e.date.year == y
    case Between(lo, hi) => lo <= e.date.day < hi
  }

  /** `entries.filter(...)`, order kept. */
  function Filter(es: seq<Entry>, p: Period): (r: seq<Entry>)
    ensures |r| <= |es|
    ensures forall e :: e in r <==> e in es && Within(e, p)
  {
    if es == [] then []
    else (if Within(es[0], p) then [es[0]] else []) + Filter(es[1..], p)
  }

  /** `filter(...).reduce((sum, e) => sum + amount, 0)`. */
  function SavedIn(es: seq<Entry>, p: Period): int {
    TotalAmount(Filter(es, p))
  }

  predicate NonNegativeAmounts(es: seq<Entry>) {
    forall e :: e in es ==> e.amount >= 0
  }

  /** `savedThisMonth`: entries of the current month of the current year. With no negative
      amount it lies between 0 and the year's sum; with no entry this month it is 0. */
  function SavedThisMonth(es: seq<Entry>, now: Timestamp): (r: int)
    ensures NonNegativeAmounts(es) ==> 0 <= r <= SavedThisYear(es, now)
    ensures (forall e :: e in es ==> !Within(e, InMonth(now.month, now.year))) ==> r == 0
  {
    var p := InMonth(now.month, now.year);
    SavedInNone(es, p);
    if NonNegativeAmounts(es) then
      SavedInMonotone(es, p, InYear(now.year));
      SavedIn(es, p)
    else SavedIn(es, p)
  }

  /** `savedThisYear`: entries of the current year. With no negative amount it lies between 0
      and the total saved; with no entry this year it is 0. */
  function SavedThisYear(es: seq<Entry>, now: Timestamp): (r: int)
    ensures NonNegativeAmounts(es) ==> 0 <= r <= TotalAmount(es)
    ensures (forall e :: e in es ==> e.date.year != now.year) ==> r == 0
  {
    var p := InYear(now.year);
    SavedInNone(es, p);
    if NonNegativeAmounts(es) then
      SavedInMonotone(es, p, p);
      SavedIn(es, p)
    else SavedIn(es, p)
  }

  /** One day's total, as plotted. */
  function DayTotal(es: seq<Entry>, day: int): int {
    SavedIn(es, OnDay(day))
  }

  /** A day's total is never negative when no amount is, and it is 0 on a day without
      entries. */
  lemma DayTotalBounds(es: seq<Entry>, day: int)
    ensures NonNegativeAmounts(es) ==> DayTotal(es, day) >= 0
    ensures (forall e :: e in es ==> e.date.day != day) ==> DayTotal(es, day) == 0
  {
    SavedInNone(es, OnDay(day));
    if NonNegativeAmounts(es) {
      SavedInMonotone(es, OnDay(day), OnDay(day));
    }
  }

  /** A period that takes none of the entries sums to 0. */
  lemma SavedInNone(es: seq<Entry>, p: Period)
    ensures (forall e :: e in es ==> !Within(e, p)) ==> SavedIn(es, p) == 0
  {
    if forall e :: e in es ==> !Within(e, p) {
      var f := Filter(es, p);
      if f != [] {
        assert f[0] in f;
      }
    }
  }

  /** Taking the first entry off the front of the list. */
  lemma SavedInCons(es: seq<Entry>, p: Period)
    requires es != []
    ensures SavedIn(es, p) == (if Within(es[0], p) then es[0].amount else 0) + SavedIn(es[1..], p)
  {
    var head := if Within(es[0], p) then [es[0]] else [];
    TotalAmountAppend(head, Filter(es[1..], p));
  }

  /** A sum over a narrower period never exceeds the sum over a wider one when no amount is
      negative. */
  lemma {:induction false} SavedInMonotone(es: seq<Entry>, narrow: Period, wide: Period)
    requires NonNegativeAmounts(es)
    requires forall e :: e in es && Within(e, narrow) ==> Within(e, wide)
    ensures 0 <= SavedIn(es, narrow) <= SavedIn(es, wide) <= TotalAmount(es)
  {
    if es != [] {
      assert forall e :: e in es[1..] ==> e in es;
      SavedInMonotone(es[1..], narrow, wide);
      SavedInCons(es, narrow);
      SavedInCons(es, wide);
    }
  }

  /** Widening a day range by its next day adds exactly that day's total. */
  lemma {:induction false} BetweenExtend(es: seq<Entry>, lo: int, hi: int)
    requires lo <= hi
    ensures SavedIn(es, Between(lo, hi + 1)) == SavedIn(es, Between(lo, hi)) + DayTotal(es, hi)
  {
    if es != [] {
      BetweenExtend(es[1..], lo, hi);
      SavedInCons(es, Between(lo, hi + 1));
      SavedInCons(es, Between(lo, hi));
      SavedInCons(es, OnDay(hi));
    }
  }

  /** Sum of a list of numbers. */
  function SumSeq(s: seq<int>): int {
    if s == [] then 0 else SumSeq(s[..|s| - 1]) + s[|s| - 1]
  }

  /** `getLast30DaysData`: for i from 29 down to 0, pushes the total of day today - i; value k
      is then the total of day today - 29 + k (`DaySeriesAt`). */
  method Last30Days(es: seq<Entry>, today: int) returns (data: seq<int>)
    ensures data == DaySeries(es, today - 29, 30)
  {
    data := [];
    var i := 29;
    while i >= 0
      invariant -1 <= i <= 29
      invariant data == DaySeries(es, today - 29, 29 - i)
    {
      assert today - 29 + (29 - i) == today - i;
      var dayTotal := DayTotal(es, today - i);
      data := data + [dayTotal];
      i := i - 1;
    }
  }

  lemma {:induction false} EmptyRange(es: seq<Entry>, lo: int)
    ensures SavedIn(es, Between(lo, lo)) == 0
  {
    if es != [] {
      EmptyRange(es[1..], lo);
      SavedInCons(es, Between(lo, lo));
    }
  }

  /** The totals of days lo, lo + 1, ..., lo + n - 1, in that order. */
  function DaySeries(es: seq<Entry>, lo: int, n: nat): (r: seq<int>)
    ensures |r| == n
  {
    if n == 0 then [] else DaySeries(es, lo, n - 1) + [DayTotal(es, lo + n - 1)]
  }

  lemma {:induction false} DaySeriesAt(es: seq<Entry>, lo: int, n: nat)
    ensures forall k :: 0 <= k < n ==> DaySeries(es, lo, n)[k] == DayTotal(es, lo + k)
  {
    if n > 0 {
      DaySeriesAt(es, lo, n - 1);
    }
  }

  /** A run of consecutive day totals adds up to the total over those days. */
  lemma {:induction false} DaySeriesSum(es: seq<Entry>, lo: int, n: nat)
    ensures SumSeq(DaySeries(es, lo, n)) == SavedIn(es, Between(lo, lo + n))
  {
    if n == 0 {
      EmptyRange(es, lo);
    } else {
      var m := n - 1;
      var s := DaySeries(es, lo, n);
      assert s == DaySeries(es, lo, m) + [DayTotal(es, lo + m)];
      assert s[..m] == DaySeries(es, lo, m);
      assert SumSeq(s) == SumSeq(s[..m]) + DayTotal(es, lo + m);
      DaySeriesSum(es, lo, m);
      BetweenExtend(es, lo, lo + m);
      assert Between(lo, lo + m + 1) == Between(lo, lo + n);
    }
  }

  /** The 30-day series has no negative value and adds up to the total of the last 30 days,
      which is at most the overall total. */
  lemma Last30DaysBounded(es: seq<Entry>, today: int, data: seq<int>)
    requires NonNegativeAmounts(es)
    requires data == DaySeries(es, today - 29, 30)
    ensures forall k :: 0 <= k < 30 ==> data[k] >= 0
    ensures SumSeq(data) == SavedIn(es, Between(today - 29, today + 1))
    ensures SumSeq(data) <= TotalAmount(es)
  {
    DaySeriesAt(es, today - 29, 30);
    forall k | 0 <= k < 30 ensures data[k] >= 0 {
      DayTotalBounds(es, today - 29 + k);
    }
    DaySeriesSum(es, today - 29, 30);
    assert Between(today - 29, today - 29 + 30) == Between(today - 29, today + 1);
    SavedInMonotone(es, Between(today - 29, today + 1), Between(today - 29, today + 1));
  }

  // ---------------------------------------------------------------------------
  // Goals

  /** `preferences?.monthlyGoal ? parseFloat(...) : 0`: the stored goal, or 0 without a row. */
  function MonthlyGoal(pref: Option<Preference>): (g: int)
    ensures pref.None? ==> g == 0
    ensures pref.Some? ==> g == pref.value.monthlyGoal
  {
    if pref.Some? then pref.value.monthlyGoal else 0
  }

  function YearlyGoal(pref: Option<Preference>): (g: int)
    ensures pref.None? ==> g == 0
    ensures pref.Some? ==> g == pref.value.yearlyGoal
  {
    if pref.Some? then pref.value.yearlyGoal else 0
  }

  /** `goal > 0 ? (saved / goal) * 100 : 0`: reaches 100 exactly when the goal is met. */
  function Progress(saved: int, goal: int): (r: real)
    ensures goal <= 0 ==> r == 0.0
    ensures goal > 0 ==> (r >= 100.0 <==> saved >= goal)
    ensures goal > 0 && saved >= 0 ==> r >= 0.0
  {
    if goal > 0 then
      var q := saved as real / goal as real;
      assert q >= 1.0 <==> saved as real >= goal as real by {
        assert q * goal as real == saved as real;
      }
      q * 100.0
    else 0.0
  }

  /** The bar drawn: none without a positive goal (the month card shows no bar, the year card
      is not shown), else `Math.min(progress, 100)`. */
  function DisplayedProgress(saved: int, goal: int): (r: Option<real>)
    ensures r.Some? <==> goal > 0
    ensures r.Some? ==> r.value <= 100.0
    ensures r.Some? && saved >= 0 ==> r.value >= 0.0
    ensures r.Some? ==> (r.value == 100.0 <==> saved >= goal)
    ensures r.Some? && saved < goal ==> r.value == Progress(saved, goal)
  {
    if goal > 0 then
      var p := Progress(saved, goal);
      Some(if p < 100.0 then p else 100.0)
    else None
  }

  // ---------------------------------------------------------------------------
  // Streak

  /** The streak loop as written and the consecutive-days rule it was meant to follow. */
  datatype StreakRule = AsWritten | Consecutive

  /** 0, 1, 3, 6, 10, ...: the k-th triangular number. */
  function Tri(k: nat): nat {
    if k == 0 then 0 else Tri(k - 1) + k
  }

  /** The day the loop must find for its k-th match. As written, `checkDate` moves to each
      matched day while the distance it is compared with keeps growing, so the gaps grow
      1, 2, 3, ...; with a fixed `checkDate` the days are simply today, today - 1, ... */
  function StreakDay(rule: StreakRule, today: int, k: nat): int {
    match rule
    case AsWritten => today - Tri(k)
    case Consecutive => today - k
  }

  /** `n` is the streak under `rule`: the first n streak days all have an entry and the next
      one has none. */
  predicate IsStreak(rule: StreakRule, days: set<int>, today: int, n: nat) {
    (forall k :: 0 <= k < n ==> StreakDay(rule, today, k) in days) &&
    StreakDay(rule, today, n) !in days
  }

  /** The distinct calendar days that have an entry. */
  function DaySet(es: seq<Entry>): set<int> {
    set e | e in es :: e.date.day
  }

  function EntryDays(es: seq<Entry>): (r: seq<int>)
    ensures forall d :: d in r <==> d in DaySet(es)
  {
    if es == [] then []
    else
      assert forall e :: e in es <==> e == es[0] || e in es[1..];
      [es[0].date.day] + EntryDays(es[1..])
  }

  function Identity(x: int): int { x }

  predicate NonIncreasing(s: seq<int>) {
    forall i, j :: 0 <= i < j < |s| ==> s[i] >= s[j]
  }

  /** The distinct entry days, latest first: `map`, the first-occurrence `filter`, `sort`. */
  function SortedDays(es: seq<Entry>): (r: seq<int>)
    ensures NonIncreasing(r)
    ensures forall d :: d in r <==> d in DaySet(es)
  {
    var r := Ordering.SortDesc(Ordering.FirstOccurrences(EntryDays(es)), Identity);
    assert forall i, j :: 0 <= i < j < |r| ==> Identity(r[i]) >= Identity(r[j]);
    r
  }

  /** The first n streak days occur in s. */
  predicate StreakPresent(rule: StreakRule, today: int, n: nat, s: seq<int>) {
    forall k :: 0 <= k < n ==> StreakDay(rule, today, k) in s
  }

  /** A match extends the run by one day, and everything seen so far lies after the next
      streak day. */
  lemma StreakStep(rule: StreakRule, today: int, n: nat, s: seq<int>, i: nat)
    requires i < |s| && s[i] == StreakDay(rule, today, n)
    requires StreakPresent(rule, today, n, s)
    requires forall j :: 0 <= j < i ==> s[j] > StreakDay(rule, today, n)
    ensures StreakPresent(rule, today, n + 1, s)
    ensures forall j :: 0 <= j <= i ==> s[j] > StreakDay(rule, today, n + 1)
  {
    StreakDaysDecrease(rule, today, n);
  }

  /** In a non-increasing list, a value above every element before position i and below the
      element at i (or with i at the end) does not occur. */
  lemma PassedOver(s: seq<int>, i: nat, x: int)
    requires NonIncreasing(s)
    requires i <= |s|
    requires forall j :: 0 <= j < i ==> s[j] > x
    requires i < |s| ==> s[i] < x
    ensures x !in s
  {
    forall j | i <= j < |s| ensures s[j] < x {
      assert s[j] <= s[i];
    }
  }

  /** What holds of the sorted day list holds of the set of entry days. */
  lemma StreakOfSorted(rule: StreakRule, es: seq<Entry>, today: int, n: nat, s: seq<int>)
    requires forall d :: d in s <==> d in DaySet(es)
    requires StreakPresent(rule, today, n, s)
    requires StreakDay(rule, today, n) !in s
    ensures IsStreak(rule, DaySet(es), today, n)
  {
  }

  /** The `for` loop of `calculateStreak` as written, over the newest-first distinct days. Days
      after today give a negative distance, which is below the count, so they are passed over. */
  method ScanAsWritten(sortedDays: seq<int>, today: int) returns (streak: nat)
    requires NonIncreasing(sortedDays)
    ensures StreakPresent(AsWritten, today, streak, sortedDays)
    ensures StreakDay(AsWritten, today, streak) !in sortedDays
  {
    streak := 0;
    var checkDay := today;
    var i := 0;
    while i < |sortedDays|
      invariant 0 <= i <= |sortedDays|
      invariant checkDay == StreakDay(AsWritten, today, streak) + streak
      invariant StreakPresent(AsWritten, today, streak, sortedDays)
      invariant forall j :: 0 <= j < i ==> sortedDays[j] > StreakDay(AsWritten, today, streak)
    {
      var day := sortedDays[i];
      var diffDays := checkDay - day;
      if diffDays == streak {
        StreakStep(AsWritten, today, streak, sortedDays, i);
        assert StreakDay(AsWritten, today, streak + 1) == day - streak - 1;
        streak := streak + 1;
        checkDay := day;
      } else if diffDays > streak {
        PassedOver(sortedDays, i, StreakDay(AsWritten, today, streak));
        return;
      }
      i := i + 1;
    }
    PassedOver(sortedDays, i, StreakDay(AsWritten, today, streak));
  }

  /** `calculateStreak` as written. */
  method CalculateStreakAsWritten(es: seq<Entry>, today: int) returns (streak: nat)
    ensures IsStreak(AsWritten, DaySet(es), today, streak)
  {
    if |es| == 0 {
      return 0;
    }
    var sortedDays := SortedDays(es);
    streak := ScanAsWritten(sortedDays, today);
    StreakOfSorted(AsWritten, es, today, streak, sortedDays);
  }

  /** The `for` loop as evidently intended: `checkDate` stays at today, so the k-th match is the
      day k days ago. */
  method ScanConsecutive(sortedDays: seq<int>, today: int) returns (streak: nat)
    requires NonIncreasing(sortedDays)
    ensures StreakPresent(Consecutive, today, streak, sortedDays)
    ensures StreakDay(Consecutive, today, streak) !in sortedDays
  {
    streak := 0;
    var i := 0;
    while i < |sortedDays|
      invariant 0 <= i <= |sortedDays|
      invariant StreakPresent(Consecutive, today, streak, sortedDays)
      invariant forall j :: 0 <= j < i ==> sortedDays[j] > StreakDay(Consecutive, today, streak)
    {
      var day := sortedDays[i];
      var diffDays := today - day;
      if diffDays == streak {
        StreakStep(Consecutive, today, streak, sortedDays, i);
        streak := streak + 1;
      } else if diffDays > streak {
        PassedOver(sortedDays, i, StreakDay(Consecutive, today, streak));
        return;
      }
      i := i + 1;
    }
    PassedOver(sortedDays, i, StreakDay(Consecutive, today, streak));
  }

  /** `calculateStreak` as evidently intended: the number of consecutive days with an entry,
      ending today. */
  method CalculateStreak(es: seq<Entry>, today: int) returns (streak: nat)
    ensures IsStreak(Consecutive, DaySet(es), today, streak)
  {
    if |es| == 0 {
      return 0;
    }
    var sortedDays := SortedDays(es);
    streak := ScanConsecutive(sortedDays, today);
    StreakOfSorted(Consecutive, es, today, streak, sortedDays);
  }

  /** The streak is well defined: at most one count fits the rule. */
  lemma StreakUnique(rule: StreakRule, days: set<int>, today: int, n: nat, m: nat)
    requires IsStreak(rule, days, today, n) && IsStreak(rule, days, today, m)
    ensures n == m
  {
  }

  /** Without an entry today (in particular without any entry) the streak is 0. */
  lemma NoEntryTodayNoStreak(rule: StreakRule, days: set<int>, today: int, n: nat)
    requires today !in days
    ensures IsStreak(rule, days, today, 0)
    ensures IsStreak(rule, days, today, n) ==> n == 0
  {
    if IsStreak(rule, days, today, n) {
      StreakUnique(rule, days, today, n, 0);
    }
  }

  /** Later streak days lie strictly further in the past. */
  lemma {:induction false} StreakDaysDecrease(rule: StreakRule, today: int, k: nat)
    ensures StreakDay(rule, today, k + 1) < StreakDay(rule, today, k) <= today
  {
    if k > 0 {
      StreakDaysDecrease(rule, today, k - 1);
    }
  }

  /** Days after today are never streak days, so they change nothing. */
  lemma FutureDaysIrrelevant(rule: StreakRule, days: set<int>, future: set<int>, today: int, n: nat)
    requires forall d :: d in future ==> d > today
    ensures IsStreak(rule, days + future, today, n) <==> IsStreak(rule, days, today, n)
  {
    forall k: nat ensures StreakDay(rule, today, k) !in future {
      StreakDaysDecrease(rule, today, k);
    }
  }

  /** The first n streak days. */
  ghost function StreakDays(rule: StreakRule, today: int, n: nat): set<int> {
    if n == 0 then {} else StreakDays(rule, today, n - 1) + {StreakDay(rule, today, n - 1)}
  }

  lemma {:induction false} StreakDaysCount(rule: StreakRule, today: int, n: nat)
    ensures |StreakDays(rule, today, n)| == n
    ensures forall d :: d in StreakDays(rule, today, n) ==> d > StreakDay(rule, today, n)
  {
    StreakDaysDecrease(rule, today, n);
    if n > 0 {
      StreakDaysCount(rule, today, n - 1);
      StreakDaysDecrease(rule, today, n - 1);
    }
  }

  /** The streak never exceeds the number of distinct days with an entry. */
  lemma StreakAtMostDays(rule: StreakRule, days: set<int>, today: int, n: nat)
    requires IsStreak(rule, days, today, n)
    ensures n <= |days|
  {
    StreakDaysCount(rule, today, n);
    var s := StreakDays(rule, today, n);
    forall d | d in s ensures d in days {
      StreakDayMember(rule, today, n, d);
    }
    var rest := days - s;
    assert days == s + rest && s * rest == {};
  }

  lemma {:induction false} StreakDayMember(rule: StreakRule, today: int, n: nat, d: int)
    requires d in StreakDays(rule, today, n)
    ensures exists k :: 0 <= k < n && d == StreakDay(rule, today, k)
  {
    if d != StreakDay(rule, today, n - 1) {
      StreakDayMember(rule, today, n - 1, d);
    }
  }

  /** Entries today, yesterday and the day before: the loop as written stops at 2 (it looks
      for today - 3 next), consecutive counting gives 3. Entries today and two days ago: 1. */
  lemma StreakExamples(today: int)
    ensures IsStreak(AsWritten, {today, today - 1, today - 2}, today, 2)
    ensures IsStreak(Consecutive, {today, today - 1, today - 2}, today, 3)
    ensures IsStreak(AsWritten, {today, today - 2}, today, 1)
    ensures IsStreak(Consecutive, {today, today - 2}, today, 1)
  {
    assert Tri(1) == 1 && Tri(2) == 3;
  }

  /** `${streak} day` for exactly one, `days` otherwise. */
  function DayWord(streak: nat): (r: string)
    ensures r == "day" <==> streak == 1
    ensures r == "day" || r == "days"
  {
    if streak == 1 then "day" else "days"
  }
}
