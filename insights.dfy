/** The insights view: how many habits were done on each day of the current
    Monday-to-Sunday week, reconstructed from each habit's current streak and
    last completion date (there is no per-day log), and how often each mood was
    recorded in the journal over the last seven days.

    Days are integer day numbers counted from Thursday 1 January 1970 (day 0),
    so the day of the week is `(day + 4) % 7` with 0 for Sunday, as `getDay`
    numbers them. */
module Insights {
  import opened Common
  import opened Habits
  import opened Journal

  // ---------------------------------------------------------------------
  // The week
  // ---------------------------------------------------------------------

  /** `getDay`: 0 for Sunday, 1 for Monday, ..., 6 for Saturday. */
  function DayOfWeek(day: int): (w: int)
    ensures 0 <= w < 7
  {
    (day + 4) % 7
  }

  /** Days since the last Monday: 6 on a Sunday, one less than the day of the
      week otherwise: stepping back that many days lands on a Monday. */
  function MondayOffset(weekday: int): (off: int)
    requires 0 <= weekday < 7
    ensures 0 <= off < 7
    ensures (weekday - off) % 7 == 1
  {
    if weekday == 0 then 6 else weekday - 1
  }

  /** The Monday that starts the week containing `today` (the first of the
      seven `weekDays`). */
  function WeekStart(today: int): (monday: int)
    ensures DayOfWeek(monday) == 1
    ensures monday <= today < monday + 7
  {
    var w := DayOfWeek(today);
    var off := MondayOffset(w);
    var q := (today + 4) / 7;
    assert today + 4 == 7 * q + w;
    assert w == 0 ==> today - off + 4 == 7 * (q - 1) + 1;
    assert w != 0 ==> today - off + 4 == 7 * q + 1;
    today - off
  }

  // ---------------------------------------------------------------------
  // Weekly reconstruction
  // ---------------------------------------------------------------------

  /** The streak and last completion day a habit is counted with. */
  datatype Run = Run(streak: int, last: Option<int>)

  /** Reconciles the stored streak and date with the "done today" flag: a habit
      marked done whose date is not today is taken as done today with a streak
      of at least one; a habit not marked done whose date is today is taken as
      last done yesterday with one day less of streak, never below zero. After
      this, the last day is today exactly when the habit is marked done. */
  function Normalise(h: Habit, today: int): (n: Run)
    ensures n.last == Some(today) <==> h.completedToday
    ensures h.completedToday && h.lastCompleted != Some(today) ==> n.streak == Max(h.streak, 1)
    ensures !h.completedToday && h.lastCompleted == Some(today) ==> n == Run(Max(h.streak - 1, 0), Some(today - 1))
    ensures h.completedToday == (h.lastCompleted == Some(today)) ==> n == Run(h.streak, h.lastCompleted)
  {
    var lastIsToday := h.lastCompleted == Some(today);
    if h.completedToday && !lastIsToday then Run(Max(h.streak, 1), Some(today))
    else if !h.completedToday && lastIsToday then Run(Max(h.streak - 1, 0), Some(today - 1))
    else Run(h.streak, h.lastCompleted)
  }

  /** How many of the days `last`, `last - 1`, ..., `last - (k - 1)` walked
      back from `last` equal `day`: one if `day` lies in that run, else zero,
      because the walk never visits a day twice. */
  function Hits(last: int, k: nat, day: int): (n: nat)
    ensures n == if last - k < day <= last then 1 else 0
  {
    if k == 0 then 0 else Hits(last, k - 1, day) + (if last - (k - 1) == day then 1 else 0)
  }

  /** What one habit adds to the count of `day`: nothing when it has no last
      day or no positive streak, otherwise one per visit of the backward walk. */
  function Contribution(h: Habit, today: int, day: int): (c: nat)
    ensures c <= 1
    ensures var n := Normalise(h, today);
      c == if n.last.Some? && n.streak > 0 && n.last.value - n.streak < day <= n.last.value then 1 else 0
  {
    var n := Normalise(h, today);
    if n.last.None? || n.streak <= 0 then 0 else Hits(n.last.value, n.streak, day)
  }

  /** A habit marked done counts for today, whatever its stored date says,
      unless its stored date is today with no positive streak. */
  lemma DoneTodayCountsToday(h: Habit, today: int)
    requires h.completedToday
    requires h.lastCompleted != Some(today) || h.streak > 0
    ensures Contribution(h, today, today) == 1
  {
  }

  /** A habit that is not marked done never counts for today (unless its
      stored date lies in the future). */
  lemma NotDoneNeverCountsToday(h: Habit, today: int)
    requires !h.completedToday
    requires h.lastCompleted.None? || h.lastCompleted.value <= today
    ensures Contribution(h, today, today) == 0
  {
  }

  /** A habit un-ticked today is counted as a run ending yesterday, one day
      shorter than its stored streak. */
  lemma UntickedTodayEndsYesterday(h: Habit, today: int, day: int)
    requires !h.completedToday && h.lastCompleted == Some(today)
    ensures Contribution(h, today, day) == if today - 1 - Max(h.streak - 1, 0) < day <= today - 1 then 1 else 0
  {
  }

  /** A habit that never counts: no date and not marked done, or a streak that
      normalises to zero or less. */
  lemma NoRunNoContribution(h: Habit, today: int, day: int)
    requires (h.lastCompleted == None && !h.completedToday) || Normalise(h, today).streak <= 0
    ensures Contribution(h, today, day) == 0
  {
  }

  /** A habit with a streak of three last done on Wednesday of the current
      week, and not ticked since, counts once for Monday, Tuesday and
      Wednesday and never for Thursday to Sunday. */
  lemma ThreeDayRunEndingWednesday(h: Habit, today: int, day: int)
    requires h.streak == 3 && !h.completedToday
    requires h.lastCompleted == Some(WeekStart(today) + 2) && today != WeekStart(today) + 2
    requires WeekStart(today) <= day < WeekStart(today) + 7
    ensures Contribution(h, today, day) == if day <= WeekStart(today) + 2 then 1 else 0
  {
  }

  /** The number of habits counted on `day`. */
  function WeekCount(hs: seq<Habit>, today: int, day: int): (n: nat)
    ensures n <= |hs|
  {
    if hs == [] then 0
    else WeekCount(hs[..|hs| - 1], today, day) + Contribution(hs[|hs| - 1], today, day)
  }

  /** Counting one more habit adds its contribution to every day. */
  lemma WeekCountStep(hs: seq<Habit>, j: int, today: int)
    requires 0 <= j < |hs|
    ensures forall day :: WeekCount(hs[..j + 1], today, day) == WeekCount(hs[..j], today, day) + Contribution(hs[j], today, day)
  {
    assert hs[..j + 1][..j] == hs[..j];
  }

  /** The inner walk of `completedCounts`: from `last` back over `streak`
      days, adding one to the count of each of those days that falls in the
      week starting on `monday`. */
  method AddRun(counts: array<int>, last: int, streak: int, monday: int)
    requires counts.Length == 7 && streak >= 0
    modifies counts
    ensures forall i :: 0 <= i < 7 ==> counts[i] == old(counts[i]) + Hits(last, streak, monday + i)
  {
    var k := 0;
    ghost var before := counts[..];
    while k < streak
      invariant 0 <= k <= streak
      invariant forall i :: 0 <= i < 7 ==> counts[i] == before[i] + Hits(last, k, monday + i)
    {
      var d := last - k;
      if monday <= d <= monday + 6 {
        counts[d - monday] := counts[d - monday] + 1;
      }
      k := k + 1;
    }
  }

  /** The `completedCounts` array, filled habit by habit: for Monday + i it
      holds exactly the number of habits whose (normalised) run covers that
      day, which is never more than the number of habits. */
  method CompletedCounts(habits: seq<Habit>, today: int, monday: int) returns (counts: seq<int>)
    ensures |counts| == 7
    ensures forall i :: 0 <= i < 7 ==> counts[i] == WeekCount(habits, today, monday + i)
    ensures forall i :: 0 <= i < 7 ==> 0 <= counts[i] <= |habits|
  {
    var completed := new int[7](_ => 0);
    var j := 0;
    while j < |habits|
      invariant 0 <= j <= |habits|
      invariant forall i :: 0 <= i < 7 ==> completed[i] == WeekCount(habits[..j], today, monday + i)
    {
      var h := habits[j];
      var streak := h.streak;
      var last := h.lastCompleted;
      var lastIsToday := last == Some(today);
      if h.completedToday {
        if !lastIsToday {
          last := Some(today);
          streak := Max(streak, 1);
        }
      } else if lastIsToday {
        last := Some(today - 1);
        streak := Max(streak - 1, 0);
      }
      assert Run(streak, last) == Normalise(h, today);
      WeekCountStep(habits, j, today);
      if last.Some? && streak > 0 {
        AddRun(completed, last.value, streak, monday);
      }
      j := j + 1;
    }
    assert habits[..|habits|] == habits;
    counts := completed[..];
  }

  /** Euclidean division brackets its dividend. */
  lemma DivBrackets(n: int, d: int)
    requires d > 0
    ensures d * (n / d) <= n < d * (n / d) + d
  {
    assert n == d * (n / d) + n % d;
  }

  /** A positive factor can be cancelled from a strict inequality. */
  lemma CancelFactor(a: int, b: int, d: int)
    requires d > 0 && d * a < d * b
    ensures a < b
  {
  }

  /** Facts about `p = (200 * c + t) / (2 * t)`: it brackets `100 * c / t`
      to within one half, and stays in 0..100 for `c` in 0..t. */
  lemma RoundingBounds(c: int, t: int, p: int)
    requires t > 0 && p == (200 * c + t) / (2 * t)
    ensures 2 * t * p <= 200 * c + t < 2 * t * (p + 1)
    ensures 0 <= c <= t ==> 0 <= p <= 100
  {
    var n := 200 * c + t;
    var d := 2 * t;
    DivBrackets(n, d);
    assert d * (p + 1) == d * p + d;
    if 0 <= c <= t {
      assert d * p < d * 101;
      CancelFactor(p, 101, d);
      assert d * -1 < d * p;
      CancelFactor(-1, p, d);
    }
  }

  /** `Math.round(completed / total * 100)`, or 0 when there are no habits.
      The result is the whole percentage nearest to the exact ratio, halves
      rounded up, and lies in 0..100 when `completed` is between 0 and `total`. */
  function Percent(completed: int, total: nat): (p: int)
    ensures total == 0 ==> p == 0
    ensures total > 0 ==> 2 * total * p <= 200 * completed + total < 2 * total * (p + 1)
    ensures 0 <= completed <= total ==> 0 <= p <= 100
  {
    if total == 0 then 0
    else
      var p := (200 * completed + total) / (2 * total);
      RoundingBounds(completed, total, p);
      p
  }

  /** One bar of the weekly chart (the weekday label is display only). */
  datatype DayStat = DayStat(day: int, completed: int, total: int, percentage: int)

  /** The weekly habit data: one entry per day from Monday to Sunday of the
      current week, with the reconstructed count, the number of habits and the
      rounded percentage. */
  method WeeklyHabits(habits: seq<Habit>, today: int) returns (week: seq<DayStat>)
    ensures |week| == 7
    ensures DayOfWeek(week[0].day) == 1 && week[0].day <= today <= week[6].day
    ensures forall i :: 0 <= i < 7 ==> week[i].day == WeekStart(today) + i
    ensures forall i :: 0 <= i < 7 ==> week[i].completed == WeekCount(habits, today, week[i].day)
    ensures forall i :: 0 <= i < 7 ==> week[i].total == |habits|
    ensures forall i :: 0 <= i < 7 ==> 0 <= week[i].percentage <= 100
    ensures forall i :: 0 <= i < 7 ==> week[i].percentage == Percent(week[i].completed, |habits|)
    ensures |habits| == 0 ==> forall i :: 0 <= i < 7 ==> week[i].percentage == 0
  {
    var monday := WeekStart(today);
    var counts := CompletedCounts(habits, today, monday);
    week := seq(7, i requires 0 <= i < 7 =>
      DayStat(monday + i, counts[i], |habits|, Percent(counts[i], |habits|)));
  }

  // ---------------------------------------------------------------------
  // Mood tally
  // ---------------------------------------------------------------------

  /** The last seven days, today included. */
  predicate InWindow(date: int, today: int)
  {
    today - 6 <= date <= today
  }

  /** Milliseconds in a day. */
  const DayMs: int := 86_400_000

  /** The window test as written: an entry's date is read as the instant its
      day begins and compared with the current instant and the current instant
      six days earlier; `nowMs` is the time of day of the current instant. */
  predicate InWindowAsWritten(date: int, today: int, nowMs: int)
    ensures 0 <= nowMs < DayMs && InWindowAsWritten(date, today, nowMs) ==> InWindow(date, today)
  {
    (today - 6) * DayMs + nowMs <= date * DayMs <= today * DayMs + nowMs
  }

  /** Except at the very first millisecond of a day, the test as written drops
      the entries of the oldest of the seven days. */
  lemma WindowAsWrittenDropsOldestDay(today: int, nowMs: int)
    requires 0 < nowMs < DayMs
    ensures InWindow(today - 6, today)
    ensures !InWindowAsWritten(today - 6, today, nowMs)
  {
  }

  /** On every other day the test as written agrees with the seven-day window. */
  lemma WindowAsWrittenAgreesElsewhere(date: int, today: int, nowMs: int)
    requires 0 <= nowMs < DayMs
    requires date != today - 6 || nowMs == 0
    ensures InWindowAsWritten(date, today, nowMs) <==> InWindow(date, today)
  {
    if date < today - 6 {
      assert date * DayMs <= (today - 7) * DayMs;
    } else if date > today {
      assert date * DayMs >= (today + 1) * DayMs;
    }
  }

  /** An entry takes part in the tally when it is inside the window and has a mood. */
  predicate Tallied(e: Entry, today: int)
  {
    InWindow(e.date, today) && e.mood != ""
  }

  /** The number of entries tallied under mood `m`. */
  function Occurrences(es: seq<Entry>, today: int, m: string): (n: nat)
    ensures m == "" ==> n == 0
    ensures n <= |es|
  {
    if es == [] then 0
    else
      var e := es[|es| - 1];
      Occurrences(es[..|es| - 1], today, m) + (if Tallied(e, today) && e.mood == m then 1 else 0)
  }

  /** The number of entries tallied under any mood. */
  function TalliedCount(es: seq<Entry>, today: int): (n: nat)
    ensures n <= |es|
  {
    if es == [] then 0
    else TalliedCount(es[..|es| - 1], today) + (if Tallied(es[|es| - 1], today) then 1 else 0)
  }

  /** One slice of the mood chart (the colour is display only). */
  datatype MoodCount = MoodCount(mood: string, count: int)

  function Total(chart: seq<MoodCount>): int
  {
    if chart == [] then 0 else Total(chart[..|chart| - 1]) + chart[|chart| - 1].count
  }

  /** Raising one count by one raises the total by one. */
  lemma {:induction false} TotalBump(chart: seq<MoodCount>, k: nat)
    requires k < |chart|
    ensures Total(chart[k := chart[k].(count := chart[k].count + 1)]) == Total(chart) + 1
  {
    var c := chart[k := chart[k].(count := chart[k].count + 1)];
    if k < |chart| - 1 {
      assert c[..|c| - 1] == chart[..|chart| - 1][k := chart[k].(count := chart[k].count + 1)];
      TotalBump(chart[..|chart| - 1], k);
    } else {
      assert c[..|c| - 1] == chart[..|chart| - 1];
    }
  }

  /** The position of mood `m` in the tally, if it is there. */
  function IndexOfMood(chart: seq<MoodCount>, m: string): (r: Option<nat>)
    ensures r.Some? ==> r.value < |chart| && chart[r.value].mood == m
    ensures r.None? ==> forall i :: 0 <= i < |chart| ==> chart[i].mood != m
  {
    if chart == [] then None
    else if chart[|chart| - 1].mood == m then Some(|chart| - 1)
    else IndexOfMood(chart[..|chart| - 1], m)
  }

  /** The moods of a tally are pairwise different, as the keys of an object are. */
  predicate DistinctMoods(chart: seq<MoodCount>)
  {
    forall i, j :: 0 <= i < j < |chart| ==> chart[i].mood != chart[j].mood
  }

  /** `moodCounts[m] = (moodCounts[m] || 0) + 1` on the object kept as its
      entries in insertion order: an existing mood gains one, a new mood is
      appended with a count of one, the other moods and the order are kept. */
  function Bump(chart: seq<MoodCount>, m: string): (r: seq<MoodCount>)
    requires DistinctMoods(chart)
    ensures DistinctMoods(r)
    ensures |chart| <= |r| <= |chart| + 1
    ensures forall i :: 0 <= i < |chart| ==> r[i].mood == chart[i].mood
    ensures |r| == |chart| + 1 ==> r[|chart|] == MoodCount(m, 1)
    ensures |r| == |chart| + 1 <==> forall i :: 0 <= i < |chart| ==> chart[i].mood != m
    ensures forall i :: 0 <= i < |chart| ==> r[i].count == chart[i].count + (if chart[i].mood == m then 1 else 0)
    ensures exists i :: 0 <= i < |r| && r[i].mood == m
    ensures Total(r) == Total(chart) + 1
  {
    match IndexOfMood(chart, m)
    case Some(k) =>
      TotalBump(chart, k);
      chart[k := chart[k].(count := chart[k].count + 1)]
    case None =>
      var r := chart + [MoodCount(m, 1)];
      assert r[..|r| - 1] == chart;
      r
  }

  /** The state of the tally after the entries `es`: distinct moods, each with
      the number of its tallied entries, every occurring mood present, and a
      total equal to the number of tallied entries. */
  ghost predicate TallyOf(es: seq<Entry>, today: int, chart: seq<MoodCount>)
  {
    && DistinctMoods(chart)
    && (forall i :: 0 <= i < |chart| ==> chart[i].count == Occurrences(es, today, chart[i].mood) > 0)
    && (forall m :: Occurrences(es, today, m) > 0 ==> exists i :: 0 <= i < |chart| && chart[i].mood == m)
    && Total(chart) == TalliedCount(es, today)
  }

  /** Appending an entry adds it to the counts of its own mood only. */
  lemma OccurrencesAppend(es: seq<Entry>, e: Entry, today: int, m: string)
    ensures Occurrences(es + [e], today, m)
         == Occurrences(es, today, m) + (if Tallied(e, today) && e.mood == m then 1 else 0)
    ensures TalliedCount(es + [e], today) == TalliedCount(es, today) + (if Tallied(e, today) then 1 else 0)
  {
    assert (es + [e])[..|es|] == es;
  }

  /** An entry outside the tally leaves it exact. */
  lemma TallySkip(es: seq<Entry>, e: Entry, today: int, chart: seq<MoodCount>)
    requires TallyOf(es, today, chart) && !Tallied(e, today)
    ensures TallyOf(es + [e], today, chart)
  {
    forall m ensures Occurrences(es + [e], today, m) == Occurrences(es, today, m) {
      OccurrencesAppend(es, e, today, m);
    }
    OccurrencesAppend(es, e, today, "");
  }

  /** After bumping the mood of a tallied entry, every count is exact. */
  lemma BumpCountsExact(es: seq<Entry>, e: Entry, today: int, chart: seq<MoodCount>)
    requires TallyOf(es, today, chart) && Tallied(e, today)
    ensures var r := Bump(chart, e.mood);
      forall i :: 0 <= i < |r| ==> r[i].count == Occurrences(es + [e], today, r[i].mood) > 0
  {
    var r := Bump(chart, e.mood);
    forall i | 0 <= i < |r|
      ensures r[i].count == Occurrences(es + [e], today, r[i].mood) > 0
    {
      OccurrencesAppend(es, e, today, r[i].mood);
      if i == |chart| {
        assert r[i] == MoodCount(e.mood, 1);
        assert !(exists k :: 0 <= k < |chart| && chart[k].mood == e.mood);
        assert Occurrences(es, today, e.mood) == 0;
      } else {
        assert r[i].mood == chart[i].mood;
        assert chart[i].count == Occurrences(es, today, chart[i].mood);
      }
    }
  }

  /** After bumping the mood of a tallied entry, every occurring mood is present. */
  lemma BumpMoodsPresent(es: seq<Entry>, e: Entry, today: int, chart: seq<MoodCount>)
    requires TallyOf(es, today, chart) && Tallied(e, today)
    ensures var r := Bump(chart, e.mood);
      forall m :: Occurrences(es + [e], today, m) > 0 ==> exists i :: 0 <= i < |r| && r[i].mood == m
  {
    var r := Bump(chart, e.mood);
    forall m | Occurrences(es + [e], today, m) > 0
      ensures exists i :: 0 <= i < |r| && r[i].mood == m
    {
      OccurrencesAppend(es, e, today, m);
      if m != e.mood {
        var i :| 0 <= i < |chart| && chart[i].mood == m;
        assert r[i].mood == m;
      }
    }
  }

  /** Tallying one more entry keeps the tally exact. */
  lemma TallyStep(es: seq<Entry>, e: Entry, today: int, chart: seq<MoodCount>)
    requires TallyOf(es, today, chart)
    ensures TallyOf(es + [e], today, if Tallied(e, today) then Bump(chart, e.mood) else chart)
  {
    if Tallied(e, today) {
      OccurrencesAppend(es, e, today, e.mood);
      BumpCountsExact(es, e, today, chart);
      BumpMoodsPresent(es, e, today, chart);
    } else {
      TallySkip(es, e, today, chart);
    }
  }

  /** The `moodCounts` object, kept as its list of entries in insertion order
      (the order `Object.entries` gives them back), tallied entry by entry over
      the entries of the window that have a mood. The moods are distinct and
      non-empty, each count is the number of tallied entries with that mood,
      every mood that occurs is present (so no count is zero), and the counts
      add up to the number of tallied entries. */
  method MoodChart(entries: seq<Entry>, today: int) returns (chart: seq<MoodCount>)
    ensures forall i, j :: 0 <= i < j < |chart| ==> chart[i].mood != chart[j].mood
    ensures forall i :: 0 <= i < |chart| ==> chart[i].mood != ""
    ensures forall i :: 0 <= i < |chart| ==> chart[i].count == Occurrences(entries, today, chart[i].mood) > 0
    ensures forall m :: Occurrences(entries, today, m) > 0 ==> exists i :: 0 <= i < |chart| && chart[i].mood == m
    ensures Total(chart) == TalliedCount(entries, today)
  {
    chart := [];
    var j := 0;
    while j < |entries|
      invariant 0 <= j <= |entries|
      invariant TallyOf(entries[..j], today, chart)
    {
      var e := entries[j];
      assert entries[..j + 1] == entries[..j] + [e];
      TallyStep(entries[..j], e, today, chart);
      if InWindow(e.date, today) && e.mood != "" {
        chart := Bump(chart, e.mood);
      }
      j := j + 1;
    }
    assert entries[..|entries|] == entries;
  }
}
