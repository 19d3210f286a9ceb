/**
 * The dashboard's aggregation: feedback counted by status, and projects
 * bucketed by the calendar month they were created in, over a trailing
 * window of six months (`processProjectData`).
 *
 * A project's creation time is given as the (year, month) that
 * `getFullYear()` and `getMonth()` report for it, or None when `createdAt`
 * is missing or does not parse to a valid date.
 */
module Dashboard {

  import opened Wrappers
  import opened Text
  import opened FeedbackModel
  import opened Lists

  // ---------------------------------------------------------------------------
  // feedback status counts

  datatype FeedbackCounts = FeedbackCounts(total: nat, approved: nat, pending: nat, rejected: nat)

  /** `feedback.filter((f) => f.status === status).length`. */
  function CountStatus(feedback: seq<Feedback>, status: string): (n: nat)
    ensures n <= |feedback|
  {
    |Filter(feedback, (f: Feedback) => f.status == status)|
  }

  function CountFeedback(feedback: seq<Feedback>): (c: FeedbackCounts)
    ensures c.total == |feedback|
    ensures c.approved == CountStatus(feedback, Approved)
    ensures c.pending == CountStatus(feedback, Pending)
    ensures c.rejected == CountStatus(feedback, Rejected)
  {
    FeedbackCounts(|feedback|, CountStatus(feedback, Approved), CountStatus(feedback, Pending), CountStatus(feedback, Rejected))
  }

  /**
   * The three status counts never exceed the total, and add up to it exactly
   * when every record has one of the three statuses.
   */
  lemma {:induction false} StatusCountsBounded(feedback: seq<Feedback>)
    ensures var c := CountFeedback(feedback);
      && c.approved + c.pending + c.rejected <= c.total
      && (c.approved + c.pending + c.rejected == c.total <==>
          forall i :: 0 <= i < |feedback| ==> IsStatus(feedback[i].status))
  {
    if feedback != [] {
      var rest := feedback[1..];
      StatusCountsBounded(rest);
      assert forall i :: 1 <= i < |feedback| ==> feedback[i] == rest[i - 1];
    }
  }

  /** For feedback the store returns, every record passed the schema, so the three counts add up to the total. */
  lemma StoredCountsAddUp(feedback: seq<Feedback>)
    requires forall i :: 0 <= i < |feedback| ==> FeedbackValid(feedback[i])
    ensures var c := CountFeedback(feedback); c.approved + c.pending + c.rejected == c.total
  {
    StatusCountsBounded(feedback);
  }

  // ---------------------------------------------------------------------------
  // calendar months

  type MonthNumber = m: int | 0 <= m < 12

  /** A calendar month as `getFullYear()` and `getMonth()` report it; January is 0. */
  datatype YearMonth = YearMonth(year: int, month: MonthNumber)

  /** Months counted from January of year 0; Euclidean division gives the floor for negative years. */
  function Ordinal(ym: YearMonth): int {
    ym.year * 12 + ym.month
  }

  function FromOrdinal(k: int): (ym: YearMonth)
    ensures Ordinal(ym) == k
  {
    YearMonth(k / 12, k % 12)
  }

  lemma OrdinalInjective(a: YearMonth, b: YearMonth)
    requires Ordinal(a) == Ordinal(b)
    ensures a == b
  {
    assert a.year == Ordinal(a) / 12;
    assert b.year == Ordinal(b) / 12;
  }

  /** The month after `ym`, December carrying into January of the next year. */
  function NextMonth(ym: YearMonth): YearMonth {
    if ym.month == 11 then YearMonth(ym.year + 1, 0) else YearMonth(ym.year, ym.month + 1)
  }

  lemma NextMonthOrdinal(ym: YearMonth)
    ensures Ordinal(NextMonth(ym)) == Ordinal(ym) + 1
  {
  }

  /**
   * `date.setMonth(m)` on a date that falls on the first of its month: a month
   * value outside 0..11 carries into the year, as JavaScript normalises it.
   */
  function SetMonth(ym: YearMonth, m: int): (r: YearMonth)
    ensures Ordinal(r) == ym.year * 12 + m
  {
    FromOrdinal(ym.year * 12 + m)
  }

  /** `numMonthsToShow`. */
  const WindowSize: nat := 6

  /** The months the chart shows: `setMonth(last.getMonth() - i)` for i from 5 down to 0. */
  function Window(last: YearMonth): (w: seq<YearMonth>)
    ensures |w| == WindowSize
  {
    seq(WindowSize, t requires 0 <= t < WindowSize => SetMonth(last, last.month - (WindowSize - 1 - t)))
  }

  /** Month `t` of the window lies `WindowSize - 1 - t` months before `last`; the last one is `last`. */
  lemma WindowAt(last: YearMonth, t: nat)
    requires t < WindowSize
    ensures Window(last)[t] == SetMonth(last, last.month - (WindowSize - 1 - t))
    ensures Ordinal(Window(last)[t]) == Ordinal(last) - (WindowSize - 1 - t)
    ensures t == WindowSize - 1 ==> Window(last)[t] == last
  {
    var r := SetMonth(last, last.month - (WindowSize - 1 - t));
    assert Window(last)[t] == r;
    assert Ordinal(r) == last.year * 12 + last.month - (WindowSize - 1 - t);
    if t == WindowSize - 1 {
      OrdinalInjective(r, last);
    }
  }

  /**
   * The window is six consecutive calendar months, oldest first: each is the
   * month after the one before, across a year boundary too, and no month repeats.
   */
  lemma WindowConsecutive(last: YearMonth)
    ensures forall t :: 0 <= t < WindowSize - 1 ==> Window(last)[t + 1] == NextMonth(Window(last)[t])
    ensures forall s, t :: 0 <= s < t < WindowSize ==> Window(last)[s] != Window(last)[t]
  {
    var w := Window(last);
    forall t | 0 <= t < WindowSize ensures Ordinal(w[t]) == Ordinal(last) - (WindowSize - 1 - t) {
      WindowAt(last, t);
    }
    forall t | 0 <= t < WindowSize - 1 ensures w[t + 1] == NextMonth(w[t]) {
      NextMonthOrdinal(w[t]);
      OrdinalInjective(w[t + 1], NextMonth(w[t]));
    }
  }

  // ---------------------------------------------------------------------------
  // the "Mon YYYY" keys of countsByMonth

  const MonthNames: seq<string> := ["Jan", "Feb", "Mar", "Apr", "May", "Jun", "Jul", "Aug", "Sep", "Oct", "Nov", "Dec"]

  /** `${monthNames[month]} ${year}`. */
  function MonthKey(ym: YearMonth): (k: string)
    ensures |k| >= 5
  {
    MonthNames[ym.month] + " " + IntStr(ym.year)
  }

  function MonthFromName(name: string): Option<MonthNumber> {
    if name == "Jan" then Some(0) else if name == "Feb" then Some(1)
    else if name == "Mar" then Some(2) else if name == "Apr" then Some(3)
    else if name == "May" then Some(4) else if name == "Jun" then Some(5)
    else if name == "Jul" then Some(6) else if name == "Aug" then Some(7)
    else if name == "Sep" then Some(8) else if name == "Oct" then Some(9)
    else if name == "Nov" then Some(10) else if name == "Dec" then Some(11)
    else None
  }

  /** The month a key names, as `new Date(`${month} 1, ${year}`)` reads it back. */
  function ParseKey(key: string): Option<YearMonth> {
    if |key| < 5 || key[3] != ' ' then None
    else
      match (MonthFromName(key[..3]), ParseInt(key[4..]))
      case (Some(m), Some(y)) => Some(YearMonth(y, m))
      case _ => None
  }

  /** Reading a key back gives the month it was made from. */
  lemma ParseMonthKey(ym: YearMonth)
    ensures ParseKey(MonthKey(ym)) == Some(ym)
  {
    var key := MonthKey(ym);
    assert key[..3] == MonthNames[ym.month];
    assert key[3] == ' ';
    assert key[4..] == IntStr(ym.year);
    ParseIntStr(ym.year);
    MonthNameRoundTrip(ym.month);
  }

  lemma MonthNameRoundTrip(m: MonthNumber)
    ensures |MonthNames[m]| == 3 && MonthFromName(MonthNames[m]) == Some(m)
  {
  }

  /** Distinct months have distinct keys, so the counts of two months never merge. */
  lemma MonthKeyInjective(a: YearMonth, b: YearMonth)
    requires MonthKey(a) == MonthKey(b)
    ensures a == b
  {
    ParseMonthKey(a);
    ParseMonthKey(b);
  }

  // ---------------------------------------------------------------------------
  // what the chart is meant to show

  /** How many projects were created in `ym`. */
  function CountIn(createdAt: seq<Option<YearMonth>>, ym: YearMonth): nat {
    if createdAt == [] then 0
    else CountIn(createdAt[..|createdAt| - 1], ym) + (if createdAt[|createdAt| - 1] == Some(ym) then 1 else 0)
  }

  lemma {:induction false} CountInPositive(createdAt: seq<Option<YearMonth>>, ym: YearMonth)
    requires Some(ym) in createdAt
    ensures CountIn(createdAt, ym) > 0
  {
    var n := |createdAt|;
    if createdAt[n - 1] != Some(ym) {
      assert Some(ym) in createdAt[..n - 1] by {
        var i :| 0 <= i < n && createdAt[i] == Some(ym);
        assert createdAt[..n - 1][i] == Some(ym);
      }
      CountInPositive(createdAt[..n - 1], ym);
    }
  }

  /** The month of the most recently created project, or None when no date is valid. */
  function LatestMonth(createdAt: seq<Option<YearMonth>>): (r: Option<YearMonth>)
    ensures r.None? <==> forall i :: 0 <= i < |createdAt| ==> createdAt[i].None?
    ensures r.Some? ==> r in createdAt
    ensures r.Some? ==> forall i :: 0 <= i < |createdAt| && createdAt[i].Some? ==>
      Ordinal(createdAt[i].value) <= Ordinal(r.value)
  {
    if createdAt == [] then None
    else
      var n := |createdAt|;
      var before := LatestMonth(createdAt[..n - 1]);
      assert forall i :: 0 <= i < n - 1 ==> createdAt[..n - 1][i] == createdAt[i];
      match (before, createdAt[n - 1])
      case (None, last) => last
      case (Some(b), None) => before
      case (Some(b), Some(l)) => if Ordinal(l) >= Ordinal(b) then createdAt[n - 1] else before
  }

  /** The counts the chart shows for the months of `w`. */
  function CountsOf(createdAt: seq<Option<YearMonth>>, w: seq<YearMonth>): (c: seq<nat>)
    ensures |c| == |w|
  {
    seq(|w|, t requires 0 <= t < |w| => CountIn(createdAt, w[t]))
  }

  function Sum(s: seq<nat>): nat {
    if s == [] then 0 else s[0] + Sum(s[1..])
  }

  /** How many projects were created in any month of `months`. */
  function CountInSet(createdAt: seq<Option<YearMonth>>, months: set<YearMonth>): nat {
    if createdAt == [] then 0
    else
      var last := createdAt[|createdAt| - 1];
      CountInSet(createdAt[..|createdAt| - 1], months) + (if last.Some? && last.value in months then 1 else 0)
  }

  lemma {:induction false} CountInSetBound(createdAt: seq<Option<YearMonth>>, months: set<YearMonth>)
    ensures CountInSet(createdAt, months) <= |createdAt|
  {
    if createdAt != [] {
      CountInSetBound(createdAt[..|createdAt| - 1], months);
    }
  }

  lemma {:induction false} CountInSetAdd(createdAt: seq<Option<YearMonth>>, ym: YearMonth, months: set<YearMonth>)
    requires ym !in months
    ensures CountInSet(createdAt, months + {ym}) == CountIn(createdAt, ym) + CountInSet(createdAt, months)
  {
    if createdAt != [] {
      CountInSetAdd(createdAt[..|createdAt| - 1], ym, months);
    }
  }

  predicate Distinct<T(==)>(s: seq<T>) {
    forall i, j :: 0 <= i < j < |s| ==> s[i] != s[j]
  }

  lemma {:induction false} SumCountsOf(createdAt: seq<Option<YearMonth>>, w: seq<YearMonth>)
    requires Distinct(w)
    ensures Sum(CountsOf(createdAt, w)) == CountInSet(createdAt, set t | 0 <= t < |w| :: w[t])
  {
    var months := set t | 0 <= t < |w| :: w[t];
    if w == [] {
      assert months == {};
      CountInSetEmpty(createdAt);
    } else {
      var rest := w[1..];
      var restMonths := set t | 0 <= t < |rest| :: rest[t];
      assert CountsOf(createdAt, w)[1..] == CountsOf(createdAt, rest);
      SumCountsOf(createdAt, rest);
      assert months == restMonths + {w[0]} by {
        forall x | x in months ensures x in restMonths + {w[0]} {
          var t :| 0 <= t < |w| && w[t] == x;
          if t > 0 { assert rest[t - 1] == x; }
        }
        forall x | x in restMonths ensures x in months {
          var t :| 0 <= t < |rest| && rest[t] == x;
          assert w[t + 1] == x;
        }
      }
      assert w[0] !in restMonths;
      CountInSetAdd(createdAt, w[0], restMonths);
    }
  }

  lemma {:induction false} CountInSetEmpty(createdAt: seq<Option<YearMonth>>)
    ensures CountInSet(createdAt, {}) == 0
  {
    if createdAt != [] {
      CountInSetEmpty(createdAt[..|createdAt| - 1]);
    }
  }

  /** The chart never shows more projects than there are: the ones outside the window are dropped. */
  lemma WindowCountsBounded(createdAt: seq<Option<YearMonth>>, last: YearMonth)
    ensures Sum(CountsOf(createdAt, Window(last))) <= |createdAt|
  {
    WindowConsecutive(last);
    SumCountsOf(createdAt, Window(last));
    CountInSetBound(createdAt, set t | 0 <= t < WindowSize :: Window(last)[t]);
  }

  // ---------------------------------------------------------------------------
  // "today", and the window used when no project has a valid date

  /** A calendar day as `getFullYear()`, `getMonth()` and `getDate()` report it. */
  datatype CalendarDay = CalendarDay(year: int, month: MonthNumber, day: int)

  predicate IsLeapYear(y: int) {
    y % 4 == 0 && (y % 100 != 0 || y % 400 == 0)
  }

  function DaysInMonth(ym: YearMonth): nat {
    if ym.month == 1 then (if IsLeapYear(ym.year) then 29 else 28)
    else if ym.month == 3 || ym.month == 5 || ym.month == 8 || ym.month == 10 then 30
    else 31
  }

  predicate IsCalendarDay(d: CalendarDay) {
    1 <= d.day <= DaysInMonth(YearMonth(d.year, d.month))
  }

  function MonthOf(d: CalendarDay): YearMonth {
    YearMonth(d.year, d.month)
  }

  /**
   * `date.setMonth(m)` on a date that keeps its day of the month: when the
   * target month is shorter than that day, the surplus days carry into the
   * following month, as JavaScript normalises the date.
   */
  function SetMonthOfDay(d: CalendarDay, m: int): (r: CalendarDay)
    ensures IsCalendarDay(d) ==> IsCalendarDay(r)
    ensures d.day <= DaysInMonth(SetMonth(MonthOf(d), m)) ==> MonthOf(r) == SetMonth(MonthOf(d), m) && r.day == d.day
    ensures d.day > DaysInMonth(SetMonth(MonthOf(d), m)) ==> MonthOf(r) == NextMonth(SetMonth(MonthOf(d), m))
  {
    var target := SetMonth(MonthOf(d), m);
    if d.day <= DaysInMonth(target) then CalendarDay(target.year, target.month, d.day)
    else
      var next := NextMonth(target);
      CalendarDay(next.year, next.month, d.day - DaysInMonth(target))
  }

  /** The no-data window as the code builds it: each month is derived from today's full date. */
  function TodayWindowAsWritten(today: CalendarDay): (w: seq<YearMonth>)
    ensures |w| == WindowSize
  {
    seq(WindowSize, t requires 0 <= t < WindowSize => MonthOf(SetMonthOfDay(today, today.month - (WindowSize - 1 - t))))
  }

  /**
   * On 31 October 2026 the window as written repeats October (30 September
   * does not exist, so "31 September" becomes 1 October) and leaves September out.
   */
  lemma TodayWindowRepeatsMonth()
    ensures IsCalendarDay(CalendarDay(2026, 9, 31))
    ensures TodayWindowAsWritten(CalendarDay(2026, 9, 31))[4] == YearMonth(2026, 9)
    ensures TodayWindowAsWritten(CalendarDay(2026, 9, 31))[5] == YearMonth(2026, 9)
    ensures YearMonth(2026, 8) !in TodayWindowAsWritten(CalendarDay(2026, 9, 31))
  {
    var w := TodayWindowAsWritten(CalendarDay(2026, 9, 31));
    forall t | 0 <= t < WindowSize
      ensures w[t] == if t == 1 || t == 4 then YearMonth(2026, t + 5) else YearMonth(2026, t + 4)
    {
      October31st(t + 4);
    }
  }

  /** `setMonth(m)` on a copy of 31 October 2026, for the months the window reaches back to. */
  lemma October31st(m: int)
    requires 4 <= m <= 9
    ensures MonthOf(SetMonthOfDay(CalendarDay(2026, 9, 31), m)) ==
      if m == 5 || m == 8 then YearMonth(2026, m + 1) else YearMonth(2026, m)
  {
    var target := SetMonth(YearMonth(2026, 9), m);
    assert Ordinal(target) == 2026 * 12 + m;
    OrdinalInjective(target, YearMonth(2026, m));
  }

  /** The window meant for the no-data case: the six months ending at today's month, whatever the day. */
  function TodayWindow(today: CalendarDay): (w: seq<YearMonth>)
    ensures w == Window(MonthOf(today))
  {
    Window(MonthOf(today))
  }

  lemma TodayWindowConsecutive(today: CalendarDay)
    ensures TodayWindow(today)[WindowSize - 1] == MonthOf(today)
    ensures forall t :: 0 <= t < WindowSize - 1 ==> TodayWindow(today)[t + 1] == NextMonth(TodayWindow(today)[t])
    ensures forall s, t :: 0 <= s < t < WindowSize ==> TodayWindow(today)[s] != TodayWindow(today)[t]
  {
    WindowAt(MonthOf(today), WindowSize - 1);
    WindowConsecutive(MonthOf(today));
  }

  // ---------------------------------------------------------------------------
  // processProjectData

  /**
   * countsByMonth after the counting `forEach` of `processProjectData`: a month has a key
   * exactly when it has projects, and the key holds how many.
   */
  ghost predicate CountsMatch(counts: map<string, nat>, createdAt: seq<Option<YearMonth>>) {
    && (forall ym :: MonthKey(ym) in counts <==> CountIn(createdAt, ym) > 0)
    && (forall ym :: MonthKey(ym) in counts ==> counts[MonthKey(ym)] == CountIn(createdAt, ym))
    && (LatestMonth(createdAt).None? ==> counts == map[])
  }

  /** Adding one creation month to the count, under its key. */
  lemma CountOneMore(counts: map<string, nat>, createdAt: seq<Option<YearMonth>>, ym: YearMonth)
    requires CountsMatch(counts, createdAt)
    ensures var key := MonthKey(ym);
      CountsMatch(counts[key := (if key in counts then counts[key] else 0) + 1], createdAt + [Some(ym)])
  {
    var key := MonthKey(ym);
    var next := counts[key := (if key in counts then counts[key] else 0) + 1];
    var ps := createdAt + [Some(ym)];
    assert ps[..|ps| - 1] == createdAt;
    forall other
      ensures MonthKey(other) in next <==> CountIn(ps, other) > 0
      ensures MonthKey(other) in next ==> next[MonthKey(other)] == CountIn(ps, other)
    {
      assert CountIn(ps, other) == CountIn(createdAt, other) + (if other == ym then 1 else 0);
      if other != ym && MonthKey(other) == key { MonthKeyInjective(other, ym); }
    }
    assert LatestMonth(ps).Some? by {
      assert ps[|ps| - 1].Some?;
    }
  }

  lemma CountNoneMore(counts: map<string, nat>, createdAt: seq<Option<YearMonth>>)
    requires CountsMatch(counts, createdAt)
    ensures CountsMatch(counts, createdAt + [None])
  {
    var ps := createdAt + [None];
    assert ps[..|ps| - 1] == createdAt;
    assert LatestMonth(ps) == LatestMonth(createdAt);
  }

  /** One project of the forEach: a valid date adds one under its month's key; an invalid one adds nothing. */
  function Counted(counts: map<string, nat>, c: Option<YearMonth>): map<string, nat> {
    match c
    case None => counts
    case Some(ym) =>
      var key := MonthKey(ym);
      counts[key := (if key in counts then counts[key] else 0) + 1]
  }

  lemma CountStep(counts: map<string, nat>, createdAt: seq<Option<YearMonth>>, j: nat)
    requires j < |createdAt| && CountsMatch(counts, createdAt[..j])
    ensures CountsMatch(Counted(counts, createdAt[j]), createdAt[..j + 1])
  {
    assert createdAt[..j + 1] == createdAt[..j] + [createdAt[j]];
    match createdAt[j] {
      case None => CountNoneMore(counts, createdAt[..j]);
      case Some(ym) => CountOneMore(counts, createdAt[..j], ym);
    }
  }

  /** The counting `forEach` of `processProjectData`: count each valid creation month under its key. */
  method CountByMonth(createdAt: seq<Option<YearMonth>>) returns (counts: map<string, nat>)
    ensures CountsMatch(counts, createdAt)
    ensures counts == map[] <==> LatestMonth(createdAt).None?
  {
    counts := map[];
    for j := 0 to |createdAt|
      invariant CountsMatch(counts, createdAt[..j])
    {
      CountStep(counts, createdAt, j);
      ghost var next := Counted(counts, createdAt[j]);
      match createdAt[j] {
        case None =>
          // no valid date: the project is skipped
        case Some(ym) =>
          var key := MonthKey(ym);
          if key !in counts {
            counts := counts[key := 0];
          }
          counts := counts[key := counts[key] + 1];
      }
      assert counts == next;
    }
    assert createdAt[..|createdAt|] == createdAt;
    CountsEmptyIff(counts, createdAt);
  }

  /** Counts that match the creation months are empty exactly when no date is valid. */
  lemma CountsEmptyIff(counts: map<string, nat>, createdAt: seq<Option<YearMonth>>)
    requires CountsMatch(counts, createdAt)
    ensures counts == map[] <==> LatestMonth(createdAt).None?
  {
    if LatestMonth(createdAt).Some? {
      var ym := LatestMonth(createdAt).value;
      CountInPositive(createdAt, ym);
      assert MonthKey(ym) in counts;
    }
  }

  /**
   * The `for` loop of the branch with data: the keys of the six months ending at `last`,
   * each given a count of 0 unless it already has one.
   */
  method WindowKeys(last: YearMonth, counts: map<string, nat>) returns (labels: seq<string>, filled: map<string, nat>)
    ensures |labels| == WindowSize
    ensures forall t :: 0 <= t < WindowSize ==> labels[t] == MonthKey(Window(last)[t]) && labels[t] in filled
    ensures forall key :: key in counts ==> key in filled && filled[key] == counts[key]
    ensures forall key :: key in filled && key !in counts ==> filled[key] == 0
  {
    ghost var keys := WindowLabels(last);
    labels, filled := [], counts;
    var i := WindowSize - 1;
    while i >= 0
      invariant -1 <= i < WindowSize
      invariant |labels| == WindowSize - 1 - i
      invariant labels == keys[..WindowSize - 1 - i]
      invariant forall k :: k in labels ==> k in filled
      invariant Extends(filled, counts)
    {
      var date := SetMonth(last, last.month - i);
      var key := MonthKey(date);
      LabelStep(last, labels, i);
      labels := labels + [key];
      if key !in filled || filled[key] == 0 {
        filled := ZeroAt(filled, counts, key);
      }
      i := i - 1;
    }
    assert labels == keys;
  }

  /** One more round of the loop appends the key of the next month of the window. */
  lemma LabelStep(last: YearMonth, labels: seq<string>, i: int)
    requires 0 <= i < WindowSize && labels == WindowLabels(last)[..WindowSize - 1 - i]
    ensures labels + [MonthKey(SetMonth(last, last.month - i))] == WindowLabels(last)[..WindowSize - i]
  {
    var n := WindowSize - 1 - i;
    WindowAt(last, n);
    PrefixStep(WindowLabels(last), n, MonthKey(SetMonth(last, last.month - i)));
  }

  lemma PrefixStep<T>(s: seq<T>, n: nat, x: T)
    requires n < |s| && s[n] == x
    ensures s[..n] + [x] == s[..n + 1]
  {
  }

  /** The keys of the six months of the window ending at `last`, oldest first. */
  function WindowLabels(last: YearMonth): (keys: seq<string>)
    ensures |keys| == WindowSize
    ensures forall t :: 0 <= t < WindowSize ==> keys[t] == MonthKey(Window(last)[t])
  {
    var w := Window(last);
    seq(WindowSize, t requires 0 <= t < WindowSize => MonthKey(w[t]))
  }

  /** `filled` holds every entry of `counts` and, besides, only zeros. */
  predicate Extends(filled: map<string, nat>, counts: map<string, nat>) {
    && (forall key :: key in counts ==> key in filled && filled[key] == counts[key])
    && (forall key :: key in filled && key !in counts ==> filled[key] == 0)
  }

  /** `countsByMonth[key] = 0` on a key that has no projects. */
  function ZeroAt(filled: map<string, nat>, counts: map<string, nat>, key: string): (r: map<string, nat>)
    requires Extends(filled, counts)
    requires key !in filled || filled[key] == 0
    ensures Extends(r, counts)
    ensures key in r && forall k :: k in filled ==> k in r
  {
    filled[key := 0]
  }

  /** The no-data `for` loop of `processProjectData` as written: six keys from `setMonth` on copies of today, every one given 0. */
  method EmptyWindowKeys(today: CalendarDay) returns (labels: seq<string>, filled: map<string, nat>)
    ensures |labels| == WindowSize
    ensures forall t :: 0 <= t < WindowSize ==> labels[t] == MonthKey(TodayWindowAsWritten(today)[t]) && labels[t] in filled
    ensures forall key :: key in filled ==> filled[key] == 0
  {
    ghost var w := TodayWindowAsWritten(today);
    ghost var months: seq<YearMonth> := [];
    labels, filled := [], map[];
    var i := WindowSize - 1;
    while i >= 0
      invariant -1 <= i < WindowSize
      invariant months == w[..WindowSize - 1 - i]
      invariant labels == KeysOf(months)
      invariant forall k :: k in labels ==> k in filled
      invariant forall key :: key in filled ==> filled[key] == 0
    {
      var date := SetMonthOfDay(today, today.month - i);
      var key := MonthKey(MonthOf(date));
      AsWrittenAt(today, WindowSize - 1 - i);
      PrefixStep(w, WindowSize - 1 - i, MonthOf(date));
      KeysOfAppend(months, MonthOf(date));
      months := months + [MonthOf(date)];
      labels := labels + [key];
      filled := filled[key := 0];
      i := i - 1;
    }
    assert months == w;
  }

  /** The key of every month of `w`, in order. */
  function KeysOf(w: seq<YearMonth>): (keys: seq<string>)
    ensures |keys| == |w|
    ensures forall t :: 0 <= t < |w| ==> keys[t] == MonthKey(w[t])
  {
    seq(|w|, t requires 0 <= t < |w| => MonthKey(w[t]))
  }

  lemma KeysOfAppend(w: seq<YearMonth>, ym: YearMonth)
    ensures KeysOf(w + [ym]) == KeysOf(w) + [MonthKey(ym)]
  {
  }

  /** When the target month has the day, `setMonth` on a full date moves to exactly that month. */
  lemma SetMonthKeepsDay(d: CalendarDay, m: int)
    requires d.day <= DaysInMonth(SetMonth(MonthOf(d), m))
    ensures MonthOf(SetMonthOfDay(d, m)) == SetMonth(MonthOf(d), m)
  {
  }

  lemma AsWrittenAt(today: CalendarDay, t: nat)
    requires t < WindowSize
    ensures TodayWindowAsWritten(today)[t] == MonthOf(SetMonthOfDay(today, today.month - (WindowSize - 1 - t)))
  {
  }

  /** The as-written no-data window ends at today's month, on every real calendar day. */
  lemma TodayWindowEndsToday(today: CalendarDay)
    requires IsCalendarDay(today)
    ensures TodayWindowAsWritten(today)[WindowSize - 1] == MonthOf(today)
  {
    var target := SetMonth(MonthOf(today), today.month);
    OrdinalInjective(target, MonthOf(today));
    SetMonthKeepsDay(today, today.month);
    AsWrittenAt(today, WindowSize - 1);
  }

  /**
   * On days 1 to 28 every month has the day, so the as-written no-data window
   * is the intended one: the day overflow of `setMonth` shows only on days 29 to 31.
   */
  lemma TodayWindowAgrees(today: CalendarDay)
    requires 1 <= today.day <= 28
    ensures TodayWindowAsWritten(today) == TodayWindow(today)
  {
    forall t | 0 <= t < WindowSize ensures TodayWindowAsWritten(today)[t] == TodayWindow(today)[t] {
      var m := today.month - (WindowSize - 1 - t);
      assert DaysInMonth(SetMonth(MonthOf(today), m)) >= 28;
      SetMonthKeepsDay(today, m);
      AsWrittenAt(today, t);
      WindowAt(MonthOf(today), t);
    }
  }

  /**
   * The bar chart's series: six labels and six counts, index-aligned; month
   * `labels[t]` holds `data[t]` projects. With a valid date the window ends
   * at the latest project's month; with none it is the as-written window
   * derived from today, all zeros.
   */
  method ProcessProjectData(createdAt: seq<Option<YearMonth>>, today: CalendarDay)
    returns (labels: seq<string>, data: seq<nat>)
    ensures |labels| == WindowSize && |data| == WindowSize
    ensures LatestMonth(createdAt).Some? ==> var last := LatestMonth(createdAt).value;
      && (forall t :: 0 <= t < WindowSize ==> labels[t] == MonthKey(Window(last)[t]))
      && data == CountsOf(createdAt, Window(last))
      && labels[WindowSize - 1] == MonthKey(last)
      && data[WindowSize - 1] > 0
    ensures LatestMonth(createdAt).None? ==>
      forall t :: 0 <= t < WindowSize ==> labels[t] == MonthKey(TodayWindowAsWritten(today)[t]) && data[t] == 0
    ensures LatestMonth(createdAt).None? && IsCalendarDay(today) ==> labels[WindowSize - 1] == MonthKey(MonthOf(today))
    ensures LatestMonth(createdAt).None? && 1 <= today.day <= 28 ==>
      forall t :: 0 <= t < WindowSize ==> labels[t] == MonthKey(TodayWindow(today)[t])
    ensures Sum(data) <= |createdAt|
  {
    var counts := CountByMonth(createdAt);
    var filled: map<string, nat>;
    if counts != map[] {
      // Sorting the keys by the month they name and taking the last one gives
      // the key of the latest month.
      var lastKey := MonthKey(LatestMonth(createdAt).value);
      ParseMonthKey(LatestMonth(createdAt).value);
      var lastDate := ParseKey(lastKey).value;
      labels, filled := WindowKeys(lastDate, counts);
    } else {
      labels, filled := EmptyWindowKeys(today);
    }
    // `countsByMonth[key] || 0`: every label has an entry by now
    data := seq(WindowSize, t requires 0 <= t < WindowSize => filled[labels[t]]);

    if LatestMonth(createdAt).Some? {
      var last := LatestMonth(createdAt).value;
      var w := Window(last);
      forall t | 0 <= t < WindowSize ensures data[t] == CountIn(createdAt, w[t]) {
      }
      WindowAt(last, WindowSize - 1);
      CountInPositive(createdAt, last);
      WindowCountsBounded(createdAt, last);
    } else {
      ZerosSum(data);
      if IsCalendarDay(today) {
        TodayWindowEndsToday(today);
      }
      if 1 <= today.day <= 28 {
        TodayWindowAgrees(today);
      }
    }
  }

  lemma {:induction false} ZerosSum(s: seq<nat>)
    requires forall t :: 0 <= t < |s| ==> s[t] == 0
    ensures Sum(s) == 0
  {
    if s != [] {
      ZerosSum(s[1..]);
    }
  }

  lemma {:induction false} CountInAbsent(createdAt: seq<Option<YearMonth>>, ym: YearMonth)
    requires Some(ym) !in createdAt
    ensures CountIn(createdAt, ym) == 0
  {
    if createdAt != [] {
      assert Some(ym) !in createdAt[..|createdAt| - 1];
      CountInAbsent(createdAt[..|createdAt| - 1], ym);
    }
  }

  lemma CountInNone(createdAt: seq<Option<YearMonth>>, ym: YearMonth)
    requires forall i :: 0 <= i < |createdAt| ==> createdAt[i].None?
    ensures CountIn(createdAt, ym) == 0
  {
    CountInAbsent(createdAt, ym);
  }
}
