/**
 * Daily activity statistics and goals.
 *
 * The `daily_statistics` table is a map from a day (its proleptic
 * Gregorian ordinal, day 1 being 0001-01-01) to that day's counters; the
 * `user_goals` table is a map from goal id to goal. "Today" and "now" are
 * parameters.
 */
module StatisticsService {
  import opened Wrappers
  import Text

  /** `text.split()` counted, and 0 for empty text. */
  function WordCount(text: string): (n: nat)
    ensures n == 0 <==> Text.IsBlank(text)
  {
    if text == [] then 0 else |Text.Words(text)|
  }

  /** Words are separated by whitespace, so a text holds at most one word per two characters, rounded up. */
  lemma {:induction false} WordCountBound(s: string)
    ensures |Text.Words(s)| <= (|s| + 1) / 2
    decreases |s|
  {
    var t := Text.LStrip(s);
    if t != [] {
      var n := Text.WordLength(t);
      var r := t[n..];
      assert Text.Words(s) == [t[..n]] + Text.Words(r);
      if r != [] {
        assert Text.IsSpace(r[0]);
        assert Text.LStrip(r) == Text.LStrip(r[1..]);
        assert Text.Words(r) == Text.Words(r[1..]);
        WordCountBound(r[1..]);
      }
    }
  }

  /** One row of `daily_statistics`, without its date. */
  datatype DayStats = DayStats(
    writings: int,
    speeches: int,
    poems: int,
    conversations: int,
    audioMinutes: real,
    totalWords: int)

  /** A freshly created row, and what a day without a row reads as. */
  const Zero := DayStats(0, 0, 0, 0, 0.0, 0)

  /** The row for `day`, or zeros when there is none. */
  function Get(days: map<int, DayStats>, day: int): DayStats
  {
    if day in days then days[day] else Zero
  }

  /** What an `increment_*` or `add_audio_minutes` call records. */
  datatype Activity = WritingCreated(words: int) | SpeechPracticed | PoemCreated(words: int) | ConversationCompleted | AudioListened(minutes: real)

  /**
   * The row after one activity: exactly the activity's own counter rises by
   * one (the audio minutes by the minutes given); a writing or a poem also
   * adds its words to the day's total.
   */
  function Record(s: DayStats, a: Activity): (r: DayStats)
    ensures r.writings == s.writings + (if a.WritingCreated? then 1 else 0)
    ensures r.speeches == s.speeches + (if a.SpeechPracticed? then 1 else 0)
    ensures r.poems == s.poems + (if a.PoemCreated? then 1 else 0)
    ensures r.conversations == s.conversations + (if a.ConversationCompleted? then 1 else 0)
    ensures r.audioMinutes == s.audioMinutes + (if a.AudioListened? then a.minutes else 0.0)
    ensures r.totalWords == s.totalWords + (if a.WritingCreated? || a.PoemCreated? then a.words else 0)
  {
    match a
    case WritingCreated(w) => s.(writings := s.writings + 1, totalWords := s.totalWords + w)
    case SpeechPracticed => s.(speeches := s.speeches + 1)
    case PoemCreated(w) => s.(poems := s.poems + 1, totalWords := s.totalWords + w)
    case ConversationCompleted => s.(conversations := s.conversations + 1)
    case AudioListened(m) => s.(audioMinutes := s.audioMinutes + m)
  }

  /** The counters do not depend on the order in which a day's activities are recorded. */
  lemma RecordCommutes(s: DayStats, a: Activity, b: Activity)
    ensures Record(Record(s, a), b) == Record(Record(s, b), a)
  {
  }

  /** A day counts towards a streak when it has a row with a positive writing, speech, poem or conversation count. */
  predicate Active(days: map<int, DayStats>, day: int)
  {
    day in days &&
    (days[day].writings > 0 || days[day].speeches > 0 || days[day].poems > 0 || days[day].conversations > 0)
  }

  /**
   * Any activity but listening makes a day active: from no row, or from a
   * row whose counters are not negative, such as one holding only audio minutes.
   */
  lemma RecordMakesActive(days: map<int, DayStats>, day: int, a: Activity)
    requires !a.AudioListened?
    requires day in days ==>
      days[day].writings >= 0 && days[day].speeches >= 0 && days[day].poems >= 0 && days[day].conversations >= 0
    ensures Active(days[day := Record(Get(days, day), a)], day)
  {
  }

  /** The days that have a row, up to `day`. */
  function RowsUpTo(days: map<int, DayStats>, day: int): set<int>
  {
    set d | d in days && d <= day
  }

  lemma RowsUpToStep(days: map<int, DayStats>, day: int)
    ensures RowsUpTo(days, day - 1) <= RowsUpTo(days, day)
    ensures |RowsUpTo(days, day - 1)| <= |RowsUpTo(days, day)|
    ensures day in days ==> |RowsUpTo(days, day - 1)| < |RowsUpTo(days, day)|
  {
    var a := RowsUpTo(days, day - 1);
    var b := RowsUpTo(days, day);
    if day in days {
      assert b == a + {day};
    } else {
      assert b == a;
    }
  }

  /** The number of consecutive active days ending at `day`. */
  function RunTo(days: map<int, DayStats>, day: int): (n: nat)
    ensures forall d :: day - n < d <= day ==> Active(days, d)
    ensures !Active(days, day - n)
    decreases |RowsUpTo(days, day)|
  {
    if Active(days, day) then
      RowsUpToStep(days, day);
      1 + RunTo(days, day - 1)
    else 0
  }

  /**
   * `calculate_streak`: the run of active days ending today, or, when today
   * has no activity yet, the run ending yesterday.
   */
  function Streak(days: map<int, DayStats>, today: int): (n: nat)
    ensures Active(days, today) ==>
      (forall d :: today - n < d <= today ==> Active(days, d)) && !Active(days, today - n)
    ensures !Active(days, today) ==>
      (forall d :: today - 1 - n < d <= today - 1 ==> Active(days, d)) && !Active(days, today - 1 - n)
  {
    RunTo(days, if Active(days, today) then today else today - 1)
  }

  /** A day that breaks the run ends the streak: days before it never count. */
  lemma {:induction false} StreakStopsAtGap(days: map<int, DayStats>, today: int, gap: int)
    requires gap < today && !Active(days, gap)
    ensures Streak(days, today) <= today - gap - (if Active(days, today) then 0 else 1)
  {
    var start := if Active(days, today) then today else today - 1;
    var n := RunTo(days, start);
    assert !(start - n < gap <= start) || Active(days, gap);
  }

  /** The two tables the service reads and writes: daily statistics by day, and the goals in table order. */
  class StatisticsStore {
    var days: map<int, DayStats>
    var goals: seq<Goal>

    constructor(days: map<int, DayStats>, goals: seq<Goal>)
      ensures this.days == days && this.goals == goals
    {
      this.days := days;
      this.goals := goals;
    }

    /** Records an activity on `today`, creating the day's row first if there is none. */
    method Increment(today: int, a: Activity)
      modifies this
      ensures days == old(days)[today := Record(Get(old(days), today), a)]
      ensures goals == old(goals)
    {
      var s := if today in days then days[today] else Zero;
      days := days[today := Record(s, a)];
    }

    /** `increment_writing_created` */
    method IncrementWritingCreated(today: int, wordCount: int)
      modifies this
      ensures days == old(days)[today := Record(Get(old(days), today), WritingCreated(wordCount))]
      ensures goals == old(goals)
    {
      Increment(today, WritingCreated(wordCount));
    }

    /** `increment_speech_practiced` */
    method IncrementSpeechPracticed(today: int)
      modifies this
      ensures days == old(days)[today := Record(Get(old(days), today), SpeechPracticed)]
      ensures goals == old(goals)
    {
      Increment(today, SpeechPracticed);
    }

    /** `increment_poem_created` */
    method IncrementPoemCreated(today: int, wordCount: int)
      modifies this
      ensures days == old(days)[today := Record(Get(old(days), today), PoemCreated(wordCount))]
      ensures goals == old(goals)
    {
      Increment(today, PoemCreated(wordCount));
    }

    /** `increment_conversation_completed` */
    method IncrementConversationCompleted(today: int)
      modifies this
      ensures days == old(days)[today := Record(Get(old(days), today), ConversationCompleted)]
      ensures goals == old(goals)
    {
      Increment(today, ConversationCompleted);
    }

    /** `add_audio_minutes`: non-positive minutes are ignored, without even creating the day's row. */
    method AddAudioMinutes(today: int, minutes: real)
      modifies this
      ensures minutes <= 0.0 ==> days == old(days)
      ensures minutes > 0.0 ==> days == old(days)[today := Record(Get(old(days), today), AudioListened(minutes))]
      ensures goals == old(goals)
    {
      if minutes <= 0.0 {
        return;
      }
      Increment(today, AudioListened(minutes));
    }

    /** The streak loop: walks back from today while days are active, letting an inactive today pass. */
    method CalculateStreak(today: int) returns (streak: nat)
      ensures streak == Streak(days, today)
    {
      streak := 0;
      var current := today;
      while true
        invariant current <= today
        invariant current == today ==> streak == 0
        invariant current < today ==> streak + RunTo(days, current) == Streak(days, today)
        decreases |RowsUpTo(days, current)| + (if current == today then 1 else 0)
      {
        RowsUpToStep(days, current);
        if Active(days, current) {
          streak := streak + 1;
          current := current - 1;
        } else if current == today {
          current := current - 1;
        } else {
          break;
        }
      }
    }

    /**
     * `update_goal_progress`: every active daily goal takes today's value
     * of its statistic and is stamped `now`; other goals are left as they
     * are.
     */
    method UpdateGoalProgress(today: int, now: int)
      modifies this
      ensures goals == Refreshed(old(goals), Get(days, today), now)
      ensures days == old(days)
    {
      var stats := if today in days then days[today] else Zero;
      var i := 0;
      while i < |goals|
        invariant 0 <= i <= |goals| == |old(goals)|
        invariant days == old(days) && stats == Get(days, today)
        invariant forall k :: 0 <= k < |goals| ==>
          goals[k] == (if k < i then Refresh(old(goals)[k], stats, now) else old(goals)[k])
      {
        goals := goals[i := Refresh(goals[i], stats, now)];
        i := i + 1;
      }
    }
  }

  /** One row of `user_goals`. */
  datatype Goal = Goal(id: int, goalType: string, targetValue: int, currentValue: int, period: string, isActive: bool, updatedAt: int)

  /** Today's value of the statistic a goal type tracks, if the type is a known one. */
  function GoalStatistic(goalType: string, s: DayStats): Option<int>
  {
    if goalType == "words" then Some(s.totalWords)
    else if goalType == "writings" then Some(s.writings)
    else if goalType == "speeches" then Some(s.speeches)
    else if goalType == "poems" then Some(s.poems)
    else if goalType == "conversations" then Some(s.conversations)
    else None
  }

  /**
   * One goal after a progress update: an active daily goal takes the
   * statistic of its type (an unknown type keeps its value) and is stamped
   * `now`; any other goal is unchanged.
   */
  function Refresh(g: Goal, today: DayStats, now: int): (r: Goal)
    ensures !(g.isActive && g.period == "daily") ==> r == g
    ensures g.isActive && g.period == "daily" ==>
      r.updatedAt == now &&
      r.currentValue == (if GoalStatistic(g.goalType, today).Some? then GoalStatistic(g.goalType, today).value else g.currentValue)
    ensures r.id == g.id && r.goalType == g.goalType && r.targetValue == g.targetValue && r.period == g.period && r.isActive == g.isActive
  {
    if g.isActive && g.period == "daily" then
      var v := GoalStatistic(g.goalType, today);
      g.(currentValue := if v.Some? then v.value else g.currentValue, updatedAt := now)
    else g
  }

  /** Every goal refreshed, in table order. */
  function Refreshed(goals: seq<Goal>, today: DayStats, now: int): (r: seq<Goal>)
    ensures |r| == |goals|
  {
    seq(|goals|, k requires 0 <= k < |goals| => Refresh(goals[k], today, now))
  }

  /** Refreshing twice with the same statistics and clock is refreshing once. */
  lemma RefreshIdempotent(g: Goal, today: DayStats, now: int)
    ensures Refresh(Refresh(g, today, now), today, now) == Refresh(g, today, now)
  {
  }

  /** After a refresh, an active daily "writings" goal reads exactly today's writing count. */
  lemma RefreshedWritingsGoal(goals: seq<Goal>, k: int, today: DayStats, now: int)
    requires 0 <= k < |goals| && goals[k].isActive && goals[k].period == "daily" && goals[k].goalType == "writings"
    ensures Refreshed(goals, today, now)[k].currentValue == today.writings
  {
    assert "writings" != "words" by {
      assert "writings"[1] != "words"[1];
    }
  }

  /** Python's `int(x)` on the exact quotient `a / b` (b > 0): truncation toward zero. */
  function TruncDiv(a: int, b: int): (q: int)
    requires b > 0
    ensures a >= 0 ==> q * b <= a < (q + 1) * b
    ensures a < 0 ==> (q - 1) * b < a <= q * b
  {
    if a >= 0 then a / b else -((-a) / b)
  }

  /** `progress_percentage`: `min(100, int(current / target * 100))` for a positive target, else 0. */
  function ProgressPercentage(current: int, target: int): (p: int)
    ensures target <= 0 ==> p == 0
    ensures p <= 100
    ensures target > 0 && current >= 0 ==> p >= 0
    ensures target > 0 && current >= target ==> p == 100
    ensures target > 0 && 0 <= current < target ==> p * target <= current * 100 < (p + 1) * target
  {
    if target > 0 then
      var q := TruncDiv(current * 100, target);
      if q < 100 then q else 100
    else 0
  }

  /** A higher current value never shows less progress towards the same target. */
  lemma ProgressMonotone(a: int, b: int, target: int)
    requires a <= b
    ensures ProgressPercentage(a, target) <= ProgressPercentage(b, target)
  {
    if target > 0 {
      TruncDivMonotone(a * 100, b * 100, target);
    }
  }

  lemma TruncDivMonotone(a: int, b: int, d: int)
    requires a <= b && d > 0
    ensures TruncDiv(a, d) <= TruncDiv(b, d)
  {
    if a >= 0 {
      DivMonotone(a, b, d);
      assert TruncDiv(a, d) == a / d && TruncDiv(b, d) == b / d;
    } else if b < 0 {
      DivMonotone(-b, -a, d);
      assert TruncDiv(a, d) == -((-a) / d) && TruncDiv(b, d) == -((-b) / d);
    } else {
      assert TruncDiv(a, d) == -((-a) / d) && TruncDiv(b, d) == b / d;
      DivNonNegative(-a, d);
      DivNonNegative(b, d);
    }
  }

  lemma DivMonotone(a: int, b: int, d: int)
    requires 0 <= a <= b && d > 0
    ensures a / d <= b / d
  {
    var qa, qb := a / d, b / d;
    assert qa * d <= a;
    assert b < (qb + 1) * d;
    MulCancel(qa, qb + 1, d);
  }

  lemma DivNonNegative(a: int, d: int)
    requires a >= 0 && d > 0
    ensures a / d >= 0
  {
    assert a < (a / d + 1) * d;
    MulCancel(0, a / d + 1, d);
  }

  lemma MulCancel(x: int, y: int, d: int)
    requires d > 0 && x * d < y * d
    ensures x < y
  {
  }

  // ---------------------------------------------------------------------
  // Totals over days and the calendar
  // ---------------------------------------------------------------------

  function Plus(a: DayStats, b: DayStats): DayStats
  {
    DayStats(a.writings + b.writings, a.speeches + b.speeches, a.poems + b.poems,
             a.conversations + b.conversations, a.audioMinutes + b.audioMinutes, a.totalWords + b.totalWords)
  }

  /** The counters summed over the rows dated `lo` through `hi`; days without a row add nothing. */
  function Totals(days: map<int, DayStats>, lo: int, hi: int): DayStats
    decreases hi - lo
  {
    if hi < lo then Zero else Plus(Totals(days, lo, hi - 1), Get(days, hi))
  }

  /** A range's totals are those of its two halves added up. */
  lemma {:induction false} TotalsSplit(days: map<int, DayStats>, lo: int, mid: int, hi: int)
    requires lo - 1 <= mid <= hi
    ensures Totals(days, lo, hi) == Plus(Totals(days, lo, mid), Totals(days, mid + 1, hi))
    decreases hi - mid
  {
    if mid < hi {
      TotalsSplit(days, lo, mid, hi - 1);
    }
  }

  /**
   * `get_weekly_stats`: the seven days `end - 6` through `end`, that is the
   * six days before `end` plus `end`'s own row; a week without rows totals zero.
   */
  function Weekly(days: map<int, DayStats>, end: int): (r: DayStats)
    ensures r == Plus(Totals(days, end - 6, end - 1), Get(days, end))
    ensures (forall d :: end - 6 <= d <= end ==> d !in days) ==> r == Zero
  {
    if forall d :: end - 6 <= d <= end ==> d !in days then
      TotalsNoRows(days, end - 6, end);
      Totals(days, end - 6, end)
    else Totals(days, end - 6, end)
  }

  /** A range without rows totals zero. */
  lemma {:induction false} TotalsNoRows(days: map<int, DayStats>, lo: int, hi: int)
    requires forall d :: lo <= d <= hi ==> d !in days
    ensures Totals(days, lo, hi) == Zero
    decreases hi - lo
  {
    if lo <= hi {
      TotalsNoRows(days, lo, hi - 1);
    }
  }

  /** A row dated outside a range does not change the range's totals. */
  lemma {:induction false} TotalsIgnoreOutside(days: map<int, DayStats>, lo: int, hi: int, d: int, row: DayStats)
    requires d < lo || d > hi
    ensures Totals(days[d := row], lo, hi) == Totals(days, lo, hi)
    decreases hi - lo
  {
    if lo <= hi {
      TotalsIgnoreOutside(days, lo, hi - 1, d, row);
      assert Get(days[d := row], hi) == Get(days, hi);
    }
  }

  /** The weekly totals depend only on the rows of its seven days. */
  lemma WeeklyIgnoresOtherDays(days: map<int, DayStats>, end: int, d: int, row: DayStats)
    requires d < end - 6 || d > end
    ensures Weekly(days[d := row], end) == Weekly(days, end)
  {
    TotalsIgnoreOutside(days, end - 6, end, d, row);
  }

  /** Python's `_is_leap`. */
  predicate IsLeap(year: int)
  {
    year % 4 == 0 && (year % 100 != 0 || year % 400 == 0)
  }

  /** Python's `_days_in_month`. */
  function DaysInMonth(year: int, month: int): (n: int)
    requires 1 <= month <= 12
    ensures 28 <= n <= 31
  {
    if month == 2 then (if IsLeap(year) then 29 else 28)
    else if month == 4 || month == 6 || month == 9 || month == 11 then 30
    else 31
  }

  /** Python's `_days_before_month`. */
  function DaysBeforeMonth(year: int, month: int): int
    requires 1 <= month <= 12
  {
    var table := [0, 0, 31, 59, 90, 120, 151, 181, 212, 243, 273, 304, 334];
    table[month] + (if month > 2 && IsLeap(year) then 1 else 0)
  }

  /** Python's `_days_before_year`. */
  function DaysBeforeYear(year: int): int
  {
    var y := year - 1;
    y * 365 + y / 4 - y / 100 + y / 400
  }

  /** The ordinal of a date: 0001-01-01 is day 1. */
  function Ordinal(year: int, month: int, day: int): int
    requires 1 <= month <= 12
  {
    DaysBeforeYear(year) + DaysBeforeMonth(year, month) + day
  }

  lemma NextMonth(year: int, month: int)
    requires 1 <= month < 12
    ensures Ordinal(year, month + 1, 1) == Ordinal(year, month, 1) + DaysInMonth(year, month)
  {
  }

  lemma StepDiv(y: int)
    ensures y / 4 - (y - 1) / 4 == (if y % 4 == 0 then 1 else 0)
    ensures y / 100 - (y - 1) / 100 == (if y % 100 == 0 then 1 else 0)
    ensures y / 400 - (y - 1) / 400 == (if y % 400 == 0 then 1 else 0)
  {
  }

  /** The leap days `_days_before_year` counts in one year are exactly the leap day of that year. */
  lemma LeapCount(y: int)
    ensures (if y % 4 == 0 then 1 else 0) - (if y % 100 == 0 then 1 else 0) + (if y % 400 == 0 then 1 else 0)
         == (if IsLeap(y) then 1 else 0)
  {
    if y % 400 == 0 {
      HundredDivides(y);
    }
    if y % 100 == 0 {
      FourDivides(y);
    }
  }

  lemma HundredDivides(y: int)
    requires y % 400 == 0
    ensures y % 100 == 0
  {
    assert y == 100 * (4 * (y / 400));
  }

  lemma FourDivides(y: int)
    requires y % 100 == 0
    ensures y % 4 == 0
  {
    assert y == 4 * (25 * (y / 100));
  }

  lemma NextYear(year: int)
    ensures Ordinal(year + 1, 1, 1) == Ordinal(year, 12, 1) + 31
  {
    StepDiv(year);
    LeapCount(year);
    var leap := if IsLeap(year) then 1 else 0;
    assert DaysBeforeYear(year + 1) == DaysBeforeYear(year) + 365 + leap;
    assert DaysBeforeMonth(year, 12) == 334 + leap;
  }

  /** A range of days, first and last included. */
  datatype Window = Window(first: int, last: int)

  /**
   * The first and last day of a month as `get_monthly_stats` computes them:
   * the last is the day before the first of the next month. The
   * `datetime` constructor refuses a month outside 1..12 and a year outside
   * 1..9999, so December 9999, whose next month does not exist, is refused
   * too.
   */
  function MonthBounds(year: int, month: int): (r: Option<Window>)
    ensures r.Some? <==> 1 <= month <= 12 && 1 <= year <= 9999 && !(month == 12 && year == 9999)
    ensures r.Some? ==> r.value.first == Ordinal(year, month, 1)
  {
    if !(1 <= month <= 12 && 1 <= year <= 9999) then None
    else if month == 12 then
      if year == 9999 then None else Some(Window(Ordinal(year, month, 1), Ordinal(year + 1, 1, 1) - 1))
    else Some(Window(Ordinal(year, month, 1), Ordinal(year, month + 1, 1) - 1))
  }

  /** The computed last day is the month's own last day: the range holds exactly the month's days. */
  lemma MonthBoundsSpanMonth(year: int, month: int)
    requires MonthBounds(year, month).Some?
    ensures MonthBounds(year, month).value.last == Ordinal(year, month, DaysInMonth(year, month))
  {
    if month == 12 {
      NextYear(year);
    } else {
      NextMonth(year, month);
    }
  }

  /**
   * The weekly breakdown's windows from `start` to `end`: seven days at a
   * time, the last one cut short at `end`.
   */
  function Windows(start: int, end: int): (w: seq<Window>)
    ensures w == [] <==> start > end
    ensures w != [] ==> w[0].first == start && w[|w| - 1].last == end
    decreases end - start
  {
    if start > end then []
    else
      var weekEnd := if start + 6 < end then start + 6 else end;
      [Window(start, weekEnd)] + Windows(weekEnd + 1, end)
  }

  /**
   * Each window is one to seven days long, and each starts the day after
   * the one before it ends, which is a full week.
   */
  lemma {:induction false} WindowsConsecutive(start: int, end: int)
    ensures Consecutive(Windows(start, end))
    decreases end - start
  {
    if start <= end {
      var weekEnd := if start + 6 < end then start + 6 else end;
      WindowsConsecutive(weekEnd + 1, end);
      PrependWindow(Window(start, weekEnd), Windows(weekEnd + 1, end));
    }
  }

  /** A window put in front of consecutive ones, ending the day before they start, keeps them consecutive. */
  lemma PrependWindow(x: Window, rest: seq<Window>)
    requires Consecutive(rest) && x.first <= x.last <= x.first + 6
    requires rest != [] ==> rest[0].first == x.last + 1 && x.last == x.first + 6
    ensures Consecutive([x] + rest)
  {
    var w := [x] + rest;
    forall i | 0 < i < |w| ensures w[i] == rest[i - 1] {
    }
  }

  /** Windows of one to seven days, each after the one before, all but the last a full week. */
  predicate Consecutive(w: seq<Window>)
  {
    (forall i :: 0 <= i < |w| ==> w[i].first <= w[i].last <= w[i].first + 6) &&
    (forall i :: 0 <= i < |w| - 1 ==> w[i + 1].first == w[i].last + 1 && w[i].last == w[i].first + 6)
  }

  /** Taking the first window off the range and onto the list keeps their concatenation. */
  lemma WindowsStep(w: seq<Window>, current: int, end: int)
    requires current <= end
    ensures var weekEnd := if current + 6 < end then current + 6 else end;
      (w + [Window(current, weekEnd)]) + Windows(weekEnd + 1, end) == w + Windows(current, end)
  {
    var weekEnd := if current + 6 < end then current + 6 else end;
    assert Windows(current, end) == [Window(current, weekEnd)] + Windows(weekEnd + 1, end);
  }

  /** The weekly loop of `get_monthly_stats`. */
  method WeeklyBreakdown(start: int, end: int) returns (w: seq<Window>)
    ensures w == Windows(start, end)
  {
    w := [];
    var current := start;
    while current <= end
      invariant w + Windows(current, end) == Windows(start, end)
      decreases end - current
    {
      var weekEnd := if current + 6 < end then current + 6 else end;
      WindowsStep(w, current, end);
      w := w + [Window(current, weekEnd)];
      current := weekEnd + 1;
    }
  }

  /** The totals of each window, added up. */
  function WindowTotals(days: map<int, DayStats>, w: seq<Window>): DayStats
  {
    if w == [] then Zero else Plus(Totals(days, w[0].first, w[0].last), WindowTotals(days, w[1..]))
  }

  /** The weekly breakdown partitions the month: its weeks add up to the monthly totals. */
  lemma {:induction false} WindowsPartition(days: map<int, DayStats>, start: int, end: int)
    ensures WindowTotals(days, Windows(start, end)) == Totals(days, start, end)
    decreases end - start
  {
    if start <= end {
      var weekEnd := if start + 6 < end then start + 6 else end;
      WindowsPartition(days, weekEnd + 1, end);
      assert Windows(start, end)[1..] == Windows(weekEnd + 1, end);
      TotalsSplit(days, start, weekEnd, end);
    }
  }

  /** A range of n days is broken into n / 7 weeks, rounded up. */
  lemma {:induction false} WindowsCount(start: int, end: int)
    ensures |Windows(start, end)| == (if start > end then 0 else (end - start + 7) / 7)
    decreases end - start
  {
    if start <= end {
      var weekEnd := if start + 6 < end then start + 6 else end;
      WindowsCount(weekEnd + 1, end);
    }
  }

  /** Every month is broken into four or five weeks. */
  lemma MonthHasFourOrFiveWeeks(year: int, month: int)
    requires MonthBounds(year, month).Some?
    ensures var m := MonthBounds(year, month).value;
      4 <= |Windows(m.first, m.last)| <= 5
  {
    MonthBoundsSpanMonth(year, month);
    var m := MonthBounds(year, month).value;
    WindowsCount(m.first, m.last);
  }
}
