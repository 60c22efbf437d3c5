/** When a heartbeat task is due. Times are milliseconds on the local clock; 0 stands for "never". */
module HeartbeatDue {
  import opened Calendar

  datatype Option<+T> = None | Some(value: T)

  datatype Rule =
    | Daily
    | Weekly(days: seq<int>)
    | Biweekly(days: seq<int>)
    | Monthly(day: int)
    | Yearly(month: int, day: int)

  /** A parsed schedule: a rule and a time of day, in minutes. */
  datatype Schedule = Schedule(rule: Rule, minute: int) {
    predicate Lawful() {
      0 <= minute < 1440 &&
      (rule.Weekly? || rule.Biweekly? ==> |rule.days| > 0 && forall i | 0 <= i < |rule.days| :: 0 <= rule.days[i] < 7) &&
      (rule.Yearly? ==> 1 <= rule.month <= 12)
    }

    function Clock(): int {
      minute * 60_000
    }
  }

  /** The window an interval task may run in; `configured` when either text is non-empty, an end is absent
      when its text is empty or does not parse. */
  datatype Window = Window(configured: bool, start: Option<int>, end: Option<int>) {
    predicate Lawful() {
      (start.Some? ==> 0 <= start.value < 1440) && (end.Some? ==> 0 <= end.value < 1440)
    }
  }

  datatype Task = Task(schedule: Option<Schedule>, interval: int, window: Window, createdAt: int, lastRunAt: int) {
    predicate Lawful() {
      (schedule.Some? ==> schedule.value.Lawful()) && window.Lawful()
    }
  }

  /** A moment: a date and the milliseconds since its midnight. */
  datatype Moment = Moment(date: Date, ms: int) {
    predicate Lawful() {
      Valid(date) && 0 <= ms < DAY
    }

    function Day(): int
      requires Lawful()
    {
      DayNumber(date)
    }

    function Time(): int
      requires Lawful()
    {
      Day() * DAY + ms
    }
  }

  function DayOf(t: int): int {
    t / DAY
  }

  // ---- The candidates ------------------------------------------------------------------------------

  function Clamped(y: int, m: int, d: int): (r: Date)
    requires 1 <= m <= 12
    ensures Valid(r)
  {
    var low := if d < 1 then 1 else d;
    Date(y, m, if low > DaysInMonth(y, m) then DaysInMonth(y, m) else low)
  }

  function MonthlyCandidate(y: int, m: int, d: int, s: Schedule): int
    requires 1 <= m <= 12
  {
    DayNumber(Clamped(y, m, d)) * DAY + s.Clock()
  }

  /** One month back; a day the month before does not have runs over into this month again. */
  function MonthBack(d: Date): (r: Date)
    requires Valid(d)
    ensures Valid(r)
  {
    var y, m := if d.month == 1 then d.year - 1 else d.year, if d.month == 1 then 12 else d.month - 1;
    if d.day <= DaysInMonth(y, m) then Date(y, m, d.day) else Date(d.year, d.month, d.day - DaysInMonth(y, m))
  }

  function PreviousDailyAt(s: Schedule, now: Moment): int
    requires now.Lawful()
  {
    var candidate := now.Day() * DAY + s.Clock();
    if candidate > now.Time() then candidate - DAY else candidate
  }

  function PreviousMonthlyAt(s: Schedule, now: Moment): int
    requires now.Lawful() && s.rule.Monthly?
  {
    var candidate := MonthlyCandidate(now.date.year, now.date.month, s.rule.day, s);
    if candidate > now.Time() then
      var back := MonthBack(now.date);
      MonthlyCandidate(back.year, back.month, s.rule.day, s)
    else candidate
  }

  function PreviousYearlyAt(s: Schedule, now: Moment): int
    requires now.Lawful() && s.Lawful() && s.rule.Yearly?
  {
    var candidate := MonthlyCandidate(now.date.year, s.rule.month, s.rule.day, s);
    if candidate > now.Time() then MonthlyCandidate(now.date.year - 1, s.rule.month, s.rule.day, s) else candidate
  }

  function Abs(x: int): int {
    if x < 0 then -x else x
  }

  /** The weekday rule, and for every second week the parity of weeks from the anchor's. */
  predicate OnWeekday(days: seq<int>, anchor: Option<int>, day: int) {
    Weekday(day) in days && (anchor.Some? ==> Abs(Week(day) - Week(anchor.value)) % 2 == 0)
  }

  /** The latest day at most `k - 1` days back whose slot is not after `now`. */
  function LatestWeekday(s: Schedule, days: seq<int>, anchor: Option<int>, now: Moment, from: nat, window: nat): Option<int>
    requires now.Lawful() && from <= window
    decreases window - from
  {
    if from == window then None
    else
      var day := now.Day() - from;
      if OnWeekday(days, anchor, day) && day * DAY + s.Clock() <= now.Time() then Some(day * DAY + s.Clock())
      else LatestWeekday(s, days, anchor, now, from + 1, window)
  }

  method PreviousWeeklyAt(s: Schedule, days: seq<int>, anchor: Option<int>, now: Moment, windowDays: nat) returns (best: Option<int>)
    requires now.Lawful()
    ensures best == LatestWeekday(s, days, anchor, now, 0, windowDays)
  {
    best := None;
    for offset := 0 to windowDays
      invariant best.Some? ==> best.value > (now.Day() - offset) * DAY + s.Clock()
      invariant LatestWeekday(s, days, anchor, now, 0, windowDays) ==
                if best.Some? then best else LatestWeekday(s, days, anchor, now, offset, windowDays)
    {
      var day := now.Day() - offset;
      ghost var before := best;
      for i := 0 to |days|
        invariant best == if before.None? && Weekday(day) in days[..i] && OnWeekday(days, anchor, day) && day * DAY + s.Clock() <= now.Time()
                          then Some(day * DAY + s.Clock()) else before
      {
        assert days[..i + 1] == days[..i] + [days[i]];
        if Weekday(day) != days[i] {
          continue;
        }
        var candidate := day * DAY + s.Clock();
        if candidate > now.Time() {
          continue;
        }
        if anchor.Some? && Abs(Week(day) - Week(anchor.value)) % 2 != 0 {
          continue;
        }
        if best.None? || candidate > best.value {
          best := Some(candidate);
        }
      }
      assert days[..|days|] == days;
    }
  }

  /** The day every second week is counted from. */
  function AnchorDay(t: Task, now: Moment): int
    requires now.Lawful()
  {
    if t.createdAt != 0 then DayOf(t.createdAt) else if t.lastRunAt != 0 then DayOf(t.lastRunAt) else now.Day()
  }

  function PreviousScheduleAt(t: Task, now: Moment): Option<int>
    requires now.Lawful() && t.Lawful()
  {
    if t.schedule.None? then None
    else
      var s := t.schedule.value;
      match s.rule
      case Daily => Some(PreviousDailyAt(s, now))
      case Weekly(days) => LatestWeekday(s, days, None, now, 0, 7)
      case Biweekly(days) => LatestWeekday(s, days, Some(AnchorDay(t, now)), now, 0, 14)
      case Monthly(_) => Some(PreviousMonthlyAt(s, now))
      case Yearly(_, _) => Some(PreviousYearlyAt(s, now))
  }

  predicate WithinTimeWindow(w: Window, now: Moment) {
    var minutes := now.ms / 60_000;
    if w.start.None? && w.end.None? then true
    else if w.end.None? then minutes >= w.start.value
    else if w.start.None? then minutes < w.end.value
    else if w.start.value < w.end.value then w.start.value <= minutes < w.end.value
    else minutes >= w.start.value || minutes < w.end.value
  }

  predicate DueByInterval(t: Task, now: Moment)
    requires now.Lawful()
  {
    var base := if t.lastRunAt == 0 then t.createdAt else t.lastRunAt;
    t.interval > 0 && (base == 0 || now.Time() - base >= t.interval) && (t.window.configured ==> WithinTimeWindow(t.window, now))
  }

  predicate DueBySlot(t: Task, scheduled: int, now: Moment)
    requires now.Lawful()
  {
    (t.createdAt == 0 || scheduled >= t.createdAt) && (t.lastRunAt == 0 || t.lastRunAt < scheduled) && scheduled <= now.Time()
  }

  predicate Due(t: Task, now: Moment)
    requires now.Lawful() && t.Lawful()
  {
    var scheduled := PreviousScheduleAt(t, now);
    if scheduled.Some? then DueBySlot(t, scheduled.value, now) else DueByInterval(t, now)
  }

  method TaskDueAt(t: Task, now: Moment) returns (due: bool)
    requires now.Lawful() && t.Lawful()
    ensures due == Due(t, now)
  {
    var scheduled := None;
    if t.schedule.Some? {
      var s := t.schedule.value;
      match s.rule
      case Daily => scheduled := Some(PreviousDailyAt(s, now));
      case Weekly(days) => scheduled := PreviousWeeklyAt(s, days, None, now, 7);
      case Biweekly(days) => scheduled := PreviousWeeklyAt(s, days, Some(AnchorDay(t, now)), now, 14);
      case Monthly(_) => scheduled := Some(PreviousMonthlyAt(s, now));
      case Yearly(_, _) => scheduled := Some(PreviousYearlyAt(s, now));
    }
    if scheduled.Some? {
      if t.createdAt != 0 && scheduled.value < t.createdAt {
        return false;
      }
      if t.lastRunAt != 0 && !(t.lastRunAt < scheduled.value) {
        return false;
      }
      return scheduled.value <= now.Time();
    }
    if t.interval <= 0 {
      return false;
    }
    var base := t.lastRunAt;
    if base == 0 {
      base := t.createdAt;
    }
    if base == 0 {
      if t.window.configured {
        return WithinTimeWindow(t.window, now);
      }
      return true;
    }
    if now.Time() - base < t.interval {
      return false;
    }
    if t.window.configured {
      return WithinTimeWindow(t.window, now);
    }
    return true;
  }

  // ---- What a schedule means -----------------------------------------------------------------------

  /** The calendar day `day` carries a slot of the rule. */
  ghost predicate SlotDay(t: Task, anchor: int, day: int)
    requires t.Lawful() && t.schedule.Some?
  {
    match t.schedule.value.rule
    case Daily => true
    case Weekly(days) => Weekday(day) in days
    case Biweekly(days) => Weekday(day) in days && Even(Week(day) - Week(anchor))
    case Monthly(d) => exists y, m :: 1 <= m <= 12 && DayNumber(Clamped(y, m, d)) == day
    case Yearly(m, d) => exists y :: DayNumber(Clamped(y, m, d)) == day
  }

  function SlotTime(t: Task, day: int): int
    requires t.schedule.Some?
  {
    day * DAY + t.schedule.value.Clock()
  }

  /** `slot` is the last slot of the schedule that is not after `now`. */
  ghost predicate LastSlot(t: Task, now: Moment, slot: int)
    requires now.Lawful() && t.Lawful() && t.schedule.Some?
  {
    slot <= now.Time() &&
    (exists day :: SlotDay(t, AnchorDay(t, now), day) && slot == SlotTime(t, day)) &&
    forall day | SlotDay(t, AnchorDay(t, now), day) && SlotTime(t, day) <= now.Time() :: SlotTime(t, day) <= slot
  }

  /** The slot of `day` is not after `now`. */
  predicate Passed(day: int, clock: int, now: Moment)
    requires now.Lawful()
  {
    day < now.Day() || (day == now.Day() && clock <= now.ms)
  }

  lemma PassedIsNotAfter(day: int, clock: int, now: Moment)
    requires now.Lawful() && 0 <= clock < DAY
    ensures Passed(day, clock, now) <==> day * DAY + clock <= now.Time()
  {
    hide DayNumber;
  }

  ghost predicate LastDay(t: Task, now: Moment, day: int)
    requires now.Lawful() && t.Lawful() && t.schedule.Some?
  {
    var a, clock := AnchorDay(t, now), t.schedule.value.Clock();
    SlotDay(t, a, day) && Passed(day, clock, now) && forall d | SlotDay(t, a, d) && Passed(d, clock, now) :: d <= day
  }

  lemma LastDayIsLastSlot(t: Task, now: Moment, day: int)
    requires now.Lawful() && t.Lawful() && t.schedule.Some? && LastDay(t, now, day)
    ensures LastSlot(t, now, SlotTime(t, day))
  {
    hide DayNumber, SlotDay, Passed, AnchorDay;
    var clock := t.schedule.value.Clock();
    PassedIsNotAfter(day, clock, now);
    forall d | SlotDay(t, AnchorDay(t, now), d) && SlotTime(t, d) <= now.Time() ensures SlotTime(t, d) <= SlotTime(t, day) {
      PassedIsNotAfter(d, clock, now);
    }
  }

  lemma DailyIsLast(t: Task, now: Moment)
    requires now.Lawful() && t.Lawful() && t.schedule.Some? && t.schedule.value.rule.Daily?
    ensures LastSlot(t, now, PreviousDailyAt(t.schedule.value, now))
  {
    hide DayNumber;
    var s := t.schedule.value;
    var day := if s.Clock() > now.ms then now.Day() - 1 else now.Day();
    LastDayIsLastSlot(t, now, day);
    PassedIsNotAfter(now.Day(), s.Clock(), now);
    hide LastSlot;
    assert PreviousDailyAt(s, now) == SlotTime(t, day);
  }

  /** The search goes back day by day and stops at the first slot. */
  ghost predicate FoundFirst(s: Schedule, days: seq<int>, anchor: Option<int>, now: Moment, from: nat, window: nat, r: Option<int>)
    requires now.Lawful()
  {
    if r.None? then
      forall d | now.Day() - window < d <= now.Day() - from :: !OnWeekday(days, anchor, d) || !Passed(d, s.Clock(), now)
    else
      exists day | now.Day() - window < day <= now.Day() - from :: FirstFrom(s, days, anchor, now, from, day) && r.value == day * DAY + s.Clock()
  }

  ghost predicate FirstFrom(s: Schedule, days: seq<int>, anchor: Option<int>, now: Moment, from: nat, day: int)
    requires now.Lawful()
  {
    OnWeekday(days, anchor, day) && Passed(day, s.Clock(), now) &&
    forall d | day < d <= now.Day() - from :: !OnWeekday(days, anchor, d) || !Passed(d, s.Clock(), now)
  }

  lemma {:induction false} LatestWeekdayIsFirst(s: Schedule, days: seq<int>, anchor: Option<int>, now: Moment, from: nat, window: nat)
    requires now.Lawful() && s.Lawful() && from <= window
    ensures FoundFirst(s, days, anchor, now, from, window, LatestWeekday(s, days, anchor, now, from, window))
    decreases window - from
  {
    hide OnWeekday, DayNumber, Passed;
    if from < window {
      LatestWeekdayIsFirst(s, days, anchor, now, from + 1, window);
      var r := LatestWeekday(s, days, anchor, now, from, window);
      var day := now.Day() - from;
      PassedIsNotAfter(day, s.Clock(), now);
      if OnWeekday(days, anchor, day) && Passed(day, s.Clock(), now) {
        assert FirstFrom(s, days, anchor, now, from, day);
      } else if r.Some? {
        var d :| now.Day() - window < d <= now.Day() - (from + 1) && FirstFrom(s, days, anchor, now, from + 1, d) &&
          r.value == d * DAY + s.Clock();
        assert FirstFrom(s, days, anchor, now, from, d);
      }
    }
  }

  /** The rule's only days are today, and its hour has not come yet. */
  ghost predicate OnlyLaterToday(s: Schedule, days: seq<int>, now: Moment)
    requires now.Lawful()
  {
    (forall i | 0 <= i < |days| :: days[i] == Weekday(now.Day())) && s.Clock() > now.ms
  }

  /** A window in which every rule has a day that passed, or none has: the last slot is in it, or none is. */
  lemma WindowHoldsLast(t: Task, now: Moment, days: seq<int>, anchor: Option<int>, window: nat)
    requires now.Lawful() && t.Lawful() && t.schedule.Some?
    requires forall d :: OnWeekday(days, anchor, d) <==> SlotDay(t, AnchorDay(t, now), d)
    ensures var r := LatestWeekday(t.schedule.value, days, anchor, now, 0, window);
            if r.Some? then LastSlot(t, now, r.value)
            else forall d | now.Day() - window < d <= now.Day() :: !OnWeekday(days, anchor, d) || !Passed(d, t.schedule.value.Clock(), now)
    ensures var r := LatestWeekday(t.schedule.value, days, anchor, now, 0, window);
            forall d | now.Day() - window < d <= now.Day() && OnWeekday(days, anchor, d) && Passed(d, t.schedule.value.Clock(), now) :: r.Some?
  {
    var s := t.schedule.value;
    LatestWeekdayIsFirst(s, days, anchor, now, 0, window);
    hide OnWeekday, DayNumber, SlotDay, AnchorDay, LatestWeekday;
    var r := LatestWeekday(s, days, anchor, now, 0, window);
    if r.Some? {
      var day :| now.Day() - window < day <= now.Day() && FirstFrom(s, days, anchor, now, 0, day) && r.value == day * DAY + s.Clock();
      LastDayIsLastSlot(t, now, day);
    }
  }

  /** The weekly search finds the last slot, or nothing: exactly when the only days are today before the hour. */
  lemma WeeklyExact(t: Task, now: Moment)
    requires now.Lawful() && t.Lawful() && t.schedule.Some? && t.schedule.value.rule.Weekly?
    ensures var s := t.schedule.value;
            var r := LatestWeekday(s, s.rule.days, None, now, 0, 7);
            (r.None? <==> OnlyLaterToday(s, s.rule.days, now)) && (r.Some? ==> LastSlot(t, now, r.value))
  {
    var s := t.schedule.value;
    var days := s.rule.days;
    WindowHoldsLast(t, now, days, None, 7);
    hide DayNumber, LatestWeekday, LastSlot, Weekday;
    if OnlyLaterToday(s, days, now) {
      forall d | now.Day() - 7 < d <= now.Day() && OnWeekday(days, None, d) ensures !Passed(d, s.Clock(), now) {
        SameWeekday(d, now.Day());
      }
    } else {
      var i :| 0 <= i < |days| && (days[i] != Weekday(now.Day()) || s.Clock() <= now.ms);
      var day := BackTo(now.Day(), days[i]);
      assert OnWeekday(days, None, day) && Passed(day, s.Clock(), now);
    }
  }

  lemma ParityOfAbs(x: int)
    ensures Abs(x) % 2 == x % 2
  {
    if x < 0 {
      assert -x == x + 2 * -x;
    }
  }

  predicate Even(x: int) {
    x % 2 == 0
  }

  lemma EvenSteps(x: int)
    ensures Even(x) <==> !Even(x - 1)
  {
  }

  /** The weekday of every second week, counted from the week of `a`. */
  predicate CountedDay(days: seq<int>, a: int, day: int) {
    Weekday(day) in days && Even(Week(day) - Week(a))
  }

  lemma CountedIsOnWeekday(days: seq<int>, a: int, day: int)
    ensures CountedDay(days, a, day) <==> OnWeekday(days, Some(a), day)
  {
    ParityOfAbs(Week(day) - Week(a));
  }

  lemma NoneBeforeTheHour(s: Schedule, days: seq<int>, a: int, now: Moment, day: int)
    requires now.Lawful() && OnlyLaterToday(s, days, now) && Even(Week(now.Day()) - Week(a))
    requires now.Day() - 14 < day <= now.Day() && CountedDay(days, a, day)
    ensures !Passed(day, s.Clock(), now)
  {
    hide DayNumber, Weekday, Week, Even;
    SameWeekday(day, now.Day());
    WeekBefore(now.Day());
    EvenSteps(Week(now.Day()) - Week(a));
  }

  lemma SomeWithinTwoWeeks(s: Schedule, days: seq<int>, a: int, now: Moment, i: nat) returns (day: int)
    requires now.Lawful() && i < |days| && 0 <= days[i] < 7
    requires days[i] != Weekday(now.Day()) || s.Clock() <= now.ms || !Even(Week(now.Day()) - Week(a))
    ensures now.Day() - 14 < day <= now.Day() && CountedDay(days, a, day) && Passed(day, s.Clock(), now)
  {
    hide DayNumber, Weekday, Week, Even;
    var near := BackTo(now.Day(), days[i]);
    WeekBefore(near);
    EvenSteps(Week(near) - Week(a));
    day := if Even(Week(near) - Week(a)) then near else near - 7;
  }

  /** Every second week: two weeks back there is always a slot, unless the only days are today, in a week
      that counts, before the hour. */
  lemma BiweeklyExact(t: Task, now: Moment)
    requires now.Lawful() && t.Lawful() && t.schedule.Some? && t.schedule.value.rule.Biweekly?
    ensures var s := t.schedule.value;
            var a := AnchorDay(t, now);
            var r := LatestWeekday(s, s.rule.days, Some(a), now, 0, 14);
            (r.None? <==> OnlyLaterToday(s, s.rule.days, now) && Even(Week(now.Day()) - Week(a))) &&
            (r.Some? ==> LastSlot(t, now, r.value))
  {
    var s := t.schedule.value;
    var days, a := s.rule.days, AnchorDay(t, now);
    hide DayNumber, LatestWeekday, LastSlot, OnWeekday, AnchorDay, Weekday, Week, Passed;
    forall d ensures OnWeekday(days, Some(a), d) <==> CountedDay(days, a, d) {
      CountedIsOnWeekday(days, a, d);
    }
    WindowHoldsLast(t, now, days, Some(a), 14);
    hide SlotDay, CountedDay, Even;
    if OnlyLaterToday(s, days, now) && Even(Week(now.Day()) - Week(a)) {
      forall d | now.Day() - 14 < d <= now.Day() && CountedDay(days, a, d) ensures !Passed(d, s.Clock(), now) {
        NoneBeforeTheHour(s, days, a, now, d);
      }
    } else {
      var i :| 0 <= i < |days| && (days[i] != Weekday(now.Day()) || s.Clock() <= now.ms || !Even(Week(now.Day()) - Week(a)));
      var day := SomeWithinTwoWeeks(s, days, a, now, i);
    }
  }

  // Monthly and yearly slots.

  predicate EarlierMonth(y: int, m: int, z: int, n: int) {
    y < z || (y == z && m < n)
  }

  lemma MonthsOrderSlots(y: int, m: int, z: int, n: int, d: int)
    requires 1 <= m <= 12 && 1 <= n <= 12
    ensures DayNumber(Clamped(y, m, d)) < DayNumber(Clamped(z, n, d)) <==> EarlierMonth(y, m, z, n)
  {
    hide DayNumber, DaysInMonth;
    DayNumberOrders(Clamped(y, m, d), Clamped(z, n, d));
  }

  /** A slot up to `date` is in its month or an earlier one; the slots of earlier months are all before it. */
  lemma SlotsUpTo(y: int, m: int, d: int, date: Date)
    requires 1 <= m <= 12 && Valid(date)
    ensures DayNumber(Clamped(y, m, d)) <= DayNumber(date) ==> !EarlierMonth(date.year, date.month, y, m)
    ensures EarlierMonth(y, m, date.year, date.month) ==> DayNumber(Clamped(y, m, d)) < DayNumber(date)
  {
    hide DayNumber, DaysInMonth;
    DayNumberOrders(Clamped(y, m, d), date);
    DayNumberOrders(date, Clamped(y, m, d));
  }

  /** The day of the month is one the month before does not have. */
  predicate SpillsOver(d: Date)
    requires Valid(d)
  {
    d.month != 1 && d.day > DaysInMonth(d.year, d.month - 1)
  }

  /** Before this month's slot, on a day that the month before does not have. */
  ghost predicate Overshoots(s: Schedule, now: Moment)
    requires now.Lawful() && s.rule.Monthly?
  {
    !Passed(DayNumber(Clamped(now.date.year, now.date.month, s.rule.day)), s.Clock(), now) && SpillsOver(now.date)
  }

  lemma MonthBackMonth(d: Date)
    requires Valid(d)
    ensures var b := MonthBack(d);
            if SpillsOver(d) then b.year == d.year && b.month == d.month
            else EarlierMonth(b.year, b.month, d.year, d.month) &&
                 forall y, m | 1 <= m <= 12 && EarlierMonth(y, m, d.year, d.month) :: !EarlierMonth(b.year, b.month, y, m)
  {
  }

  lemma MonthlyLast(t: Task, now: Moment, y: int, m: int)
    requires now.Lawful() && t.Lawful() && t.schedule.Some? && t.schedule.value.rule.Monthly? && 1 <= m <= 12
    requires var d, clock := t.schedule.value.rule.day, t.schedule.value.Clock();
             Passed(DayNumber(Clamped(y, m, d)), clock, now) &&
             forall z, n | 1 <= n <= 12 && EarlierMonth(y, m, z, n) :: !Passed(DayNumber(Clamped(z, n, d)), clock, now)
    ensures LastDay(t, now, DayNumber(Clamped(y, m, t.schedule.value.rule.day)))
  {
    hide DayNumber, DaysInMonth, Clamped, Passed, AnchorDay;
    var d, clock := t.schedule.value.rule.day, t.schedule.value.Clock();
    var a := AnchorDay(t, now);
    assert SlotDay(t, a, DayNumber(Clamped(y, m, d)));
    forall day | SlotDay(t, a, day) && Passed(day, clock, now) ensures day <= DayNumber(Clamped(y, m, d)) {
      var z, n :| 1 <= n <= 12 && DayNumber(Clamped(z, n, d)) == day;
      MonthsOrderSlots(y, m, z, n, d);
    }
  }

  lemma LaterMonthsToCome(now: Moment, d: int, clock: int, z: int, n: int)
    requires now.Lawful() && 1 <= n <= 12 && EarlierMonth(now.date.year, now.date.month, z, n)
    ensures !Passed(DayNumber(Clamped(z, n, d)), clock, now)
  {
    hide DayNumber, Clamped;
    SlotsUpTo(z, n, d, now.date);
  }

  lemma ThisMonthIsLast(t: Task, now: Moment)
    requires now.Lawful() && t.Lawful() && t.schedule.Some? && t.schedule.value.rule.Monthly?
    requires Passed(DayNumber(Clamped(now.date.year, now.date.month, t.schedule.value.rule.day)), t.schedule.value.Clock(), now)
    ensures LastSlot(t, now, MonthlyCandidate(now.date.year, now.date.month, t.schedule.value.rule.day, t.schedule.value))
  {
    hide DayNumber, Clamped, Passed, EarlierMonth, LastDay, LastSlot;
    var d, y, m := t.schedule.value.rule.day, now.date.year, now.date.month;
    forall z, n | 1 <= n <= 12 && EarlierMonth(y, m, z, n) ensures !Passed(DayNumber(Clamped(z, n, d)), t.schedule.value.Clock(), now) {
      LaterMonthsToCome(now, d, t.schedule.value.Clock(), z, n);
    }
    MonthlyLast(t, now, y, m);
    LastDayIsLastSlot(t, now, DayNumber(Clamped(y, m, d)));
  }

  lemma LastMonthIsLast(t: Task, now: Moment)
    requires now.Lawful() && t.Lawful() && t.schedule.Some? && t.schedule.value.rule.Monthly? && !SpillsOver(now.date)
    requires !Passed(DayNumber(Clamped(now.date.year, now.date.month, t.schedule.value.rule.day)), t.schedule.value.Clock(), now)
    ensures var back := MonthBack(now.date);
            LastSlot(t, now, MonthlyCandidate(back.year, back.month, t.schedule.value.rule.day, t.schedule.value))
  {
    var d, clock := t.schedule.value.rule.day, t.schedule.value.Clock();
    var back := MonthBack(now.date);
    MonthBackMonth(now.date);
    hide DayNumber, Clamped, MonthBack, SpillsOver, LastDay, LastSlot;
    SlotsUpTo(back.year, back.month, d, now.date);
    assert Passed(DayNumber(Clamped(back.year, back.month, d)), clock, now);
    forall z, n | 1 <= n <= 12 && EarlierMonth(back.year, back.month, z, n) ensures !Passed(DayNumber(Clamped(z, n, d)), clock, now) {
      assert !EarlierMonth(z, n, now.date.year, now.date.month);
      if EarlierMonth(now.date.year, now.date.month, z, n) {
        LaterMonthsToCome(now, d, clock, z, n);
      }
    }
    MonthlyLast(t, now, back.year, back.month);
    LastDayIsLastSlot(t, now, DayNumber(Clamped(back.year, back.month, d)));
  }

  /** The monthly search finds the last slot, unless it overshoots: then it answers with a slot still to come. */
  lemma MonthlyExact(t: Task, now: Moment)
    requires now.Lawful() && t.Lawful() && t.schedule.Some? && t.schedule.value.rule.Monthly?
    ensures var s := t.schedule.value;
            (LastSlot(t, now, PreviousMonthlyAt(s, now)) <==> !Overshoots(s, now)) &&
            (Overshoots(s, now) ==> PreviousMonthlyAt(s, now) > now.Time())
  {
    hide DayNumber, Clamped, MonthBack, SlotDay, AnchorDay, SpillsOver, Passed;
    var s := t.schedule.value;
    var thisMonth := DayNumber(Clamped(now.date.year, now.date.month, s.rule.day));
    PassedIsNotAfter(thisMonth, s.Clock(), now);
    if Passed(thisMonth, s.Clock(), now) {
      ThisMonthIsLast(t, now);
    } else if !SpillsOver(now.date) {
      LastMonthIsLast(t, now);
    } else {
      MonthBackMonth(now.date);
    }
  }

  lemma YearlyIsLast(t: Task, now: Moment)
    requires now.Lawful() && t.Lawful() && t.schedule.Some? && t.schedule.value.rule.Yearly?
    ensures LastSlot(t, now, PreviousYearlyAt(t.schedule.value, now))
  {
    var s := t.schedule.value;
    var d, clock, y, m := s.rule.day, s.Clock(), now.date.year, s.rule.month;
    PassedIsNotAfter(DayNumber(Clamped(y, m, d)), clock, now);
    hide DayNumber, DaysInMonth, Clamped, AnchorDay;
    var z := if Passed(DayNumber(Clamped(y, m, d)), clock, now) then y else y - 1;
    SlotsUpTo(z, m, d, now.date);
    var last := DayNumber(Clamped(z, m, d));
    assert SlotDay(t, AnchorDay(t, now), last);
    forall day | SlotDay(t, AnchorDay(t, now), day) && Passed(day, clock, now) ensures day <= last {
      var x :| DayNumber(Clamped(x, m, d)) == day;
      SlotsUpTo(x, m, d, now.date);
      MonthsOrderSlots(z, m, x, m, d);
    }
    LastDayIsLastSlot(t, now, last);
  }

  // ---- When a task is due, and how often it runs -----------------------------------------------------

  /** The search for the previous slot finds it. */
  ghost predicate FindsLast(t: Task, now: Moment)
    requires now.Lawful() && t.Lawful() && t.schedule.Some?
  {
    var s := t.schedule.value;
    match s.rule
    case Daily => true
    case Weekly(days) => !OnlyLaterToday(s, days, now)
    case Biweekly(days) => !(OnlyLaterToday(s, days, now) && Even(Week(now.Day()) - Week(AnchorDay(t, now))))
    case Monthly(_) => !Overshoots(s, now)
    case Yearly(_, _) => true
  }

  /** A slot since the task was created and last ran. */
  ghost predicate MissedSlot(t: Task, now: Moment)
    requires now.Lawful() && t.Lawful() && t.schedule.Some?
  {
    exists day :: SlotDay(t, AnchorDay(t, now), day) && Misses(t, SlotTime(t, day), now)
  }

  /** The slot has come, not before the task was created, and it has not run since. */
  predicate Misses(t: Task, slot: int, now: Moment)
    requires now.Lawful()
  {
    slot <= now.Time() && (t.createdAt != 0 ==> t.createdAt <= slot) && (t.lastRunAt != 0 ==> t.lastRunAt < slot)
  }

  lemma SearchFindsLast(t: Task, now: Moment)
    requires now.Lawful() && t.Lawful() && t.schedule.Some?
    ensures var r := PreviousScheduleAt(t, now);
            if FindsLast(t, now) then r.Some? && LastSlot(t, now, r.value)
            else if t.schedule.value.rule.Monthly? then r.Some? && r.value > now.Time()
            else r.None?
  {
    hide LastSlot, OnlyLaterToday, Overshoots, Even, PreviousDailyAt, PreviousMonthlyAt, PreviousYearlyAt, LatestWeekday;
    match t.schedule.value.rule
    case Daily => DailyIsLast(t, now);
    case Weekly(_) => WeeklyExact(t, now);
    case Biweekly(_) => BiweeklyExact(t, now);
    case Monthly(_) => MonthlyExact(t, now);
    case Yearly(_, _) => YearlyIsLast(t, now);
  }

  /** A scheduled task is due exactly when a slot was missed. Where the search fails, a weekly rule falls back to
      its interval, and a monthly task is not due whatever it missed. */
  lemma DueExact(t: Task, now: Moment)
    requires now.Lawful() && t.Lawful() && t.schedule.Some?
    ensures Due(t, now) <==> if FindsLast(t, now) then MissedSlot(t, now)
                             else !t.schedule.value.rule.Monthly? && DueByInterval(t, now)
  {
    SearchFindsLast(t, now);
    hide SlotDay, AnchorDay, FindsLast, PreviousScheduleAt, DueByInterval, SlotTime;
    var r := PreviousScheduleAt(t, now);
    if FindsLast(t, now) {
      var a := AnchorDay(t, now);
      if MissedSlot(t, now) {
        var day :| SlotDay(t, a, day) && Misses(t, SlotTime(t, day), now);
        assert SlotTime(t, day) <= r.value;
      }
      var last :| SlotDay(t, a, last) && r.value == SlotTime(t, last);
      assert Misses(t, r.value, now) ==> MissedSlot(t, now);
    }
  }

  /** A monthly task can miss its slot: on 30 March, before the hour of the last of the month, February is forgotten. */
  lemma MonthlyForgetsFebruary()
    ensures exists t: Task, now: Moment ::
              now.Lawful() && t.Lawful() && t.schedule.Some? && t.schedule.value.rule.Monthly? && MissedSlot(t, now) && !Due(t, now)
  {
    var s := Schedule(Monthly(31), 540);
    var now := Moment(Date(2026, 3, 30), 36_000_000);
    var slot := DayNumber(Date(2026, 2, 28));
    var t := Task(Some(s), 0, Window(false, None, None), 0, slot * DAY);
    assert Clamped(2026, 2, 31) == Date(2026, 2, 28) && Clamped(2026, 3, 31) == Date(2026, 3, 31);
    DayNumberOrders(now.date, Date(2026, 3, 31));
    DayNumberOrders(Date(2026, 2, 28), now.date);
    hide DayNumber, Due;
    assert SlotDay(t, AnchorDay(t, now), slot);
    assert Misses(t, SlotTime(t, slot), now);
    assert MissedSlot(t, now);
    DueExact(t, now);
  }

  /** A run: when it was decided, and when it finished. */
  datatype Fire = Fire(now: Moment, finish: int)

  function AfterFire(t: Task, f: Fire): Task {
    t.(lastRunAt := f.finish, createdAt := if t.createdAt == 0 then f.finish else t.createdAt)
  }

  function TaskAfter(t: Task, fires: seq<Fire>): (r: Task)
    ensures r.schedule == t.schedule && r.window == t.window && r.interval == t.interval
    decreases |fires|
  {
    if fires == [] then t else AfterFire(TaskAfter(t, fires[..|fires| - 1]), fires[|fires| - 1])
  }

  /** A history of runs on a clock that does not go back. */
  ghost predicate History(t: Task, fires: seq<Fire>) {
    t.Lawful() && forall i | 0 <= i < |fires| :: RunsAt(t, fires, i)
  }

  ghost predicate RunsAt(t: Task, fires: seq<Fire>, i: nat)
    requires t.Lawful() && i < |fires|
  {
    fires[i].now.Lawful() && Due(TaskAfter(t, fires[..i]), fires[i].now) &&
    fires[i].now.Time() <= fires[i].finish && fires[i].finish != 0 &&
    (i > 0 ==> fires[i - 1].finish <= fires[i].now.Time())
  }

  lemma {:induction false} FinishesInOrder(t: Task, fires: seq<Fire>, i: nat, j: nat)
    requires History(t, fires) && i <= j < |fires|
    ensures fires[i].finish <= fires[j].finish
    decreases j
  {
    hide Due;
    if i < j {
      FinishesInOrder(t, fires, i, j - 1);
      assert RunsAt(t, fires, j);
    }
  }

  /** Any two runs of a task: if the later was decided by the schedule, a slot lies after the end of the earlier
      one and not after the decision; if by the interval, the interval lies between and the window was open. */
  lemma RunsAreApart(t: Task, fires: seq<Fire>, i: nat, j: nat)
    requires History(t, fires) && i < j < |fires|
    ensures RunsAt(t, fires, j)
    ensures var tj, now := TaskAfter(t, fires[..j]), fires[j].now;
            if tj.schedule.Some? && FindsLast(tj, now) then
              exists day :: SlotDay(tj, AnchorDay(tj, now), day) && fires[i].finish < SlotTime(tj, day) <= now.Time()
            else
              now.Time() - fires[i].finish >= tj.interval > 0 && (tj.window.configured ==> WithinTimeWindow(tj.window, now))
  {
    FinishesInOrder(t, fires, i, j - 1);
    assert RunsAt(t, fires, j) && RunsAt(t, fires, j - 1);
    var tj, now := TaskAfter(t, fires[..j]), fires[j].now;
    assert fires[..j][..j - 1] == fires[..j - 1];
    assert tj.lastRunAt == fires[j - 1].finish;
    hide SlotDay, AnchorDay, SlotTime, FindsLast, WithinTimeWindow, DayNumber, TaskAfter, RunsAt;
    if tj.schedule.Some? {
      DueExact(tj, now);
      hide PreviousScheduleAt;
      if FindsLast(tj, now) {
        var day :| SlotDay(tj, AnchorDay(tj, now), day) && Misses(tj, SlotTime(tj, day), now);
      }
    }
  }

  /** A task without a schedule is due exactly when its interval is positive, its window is open, and every time it ran, or
      before its first run its creation, lies an interval back. */
  lemma IntervalDueExact(t: Task, fires: seq<Fire>, now: Moment)
    requires History(t, fires) && t.schedule.None? && now.Lawful()
    ensures Due(TaskAfter(t, fires), now) <==>
            t.interval > 0 && (t.window.configured ==> WithinTimeWindow(t.window, now)) &&
            (if fires != [] then forall i | 0 <= i < |fires| :: fires[i].finish + t.interval <= now.Time()
             else if t.lastRunAt != 0 then t.lastRunAt + t.interval <= now.Time()
             else t.createdAt != 0 ==> t.createdAt + t.interval <= now.Time())
  {
    hide WithinTimeWindow, DayNumber;
    if fires != [] {
      var n := |fires| - 1;
      assert RunsAt(t, fires, n);
      hide RunsAt;
      forall i | 0 <= i < |fires| ensures fires[i].finish <= fires[n].finish {
        FinishesInOrder(t, fires, i, n);
      }
    }
  }

  /** Every second week is counted from the day of the task's creation; without one, from the day its first run ended,
      and before that from the day of the last run known, or from today. */
  lemma {:induction false} AnchorTold(t: Task, fires: seq<Fire>, now: Moment)
    requires now.Lawful() && forall i | 0 <= i < |fires| :: fires[i].finish != 0
    ensures AnchorDay(TaskAfter(t, fires), now) * DAY <= AnchorTime(t, fires, now) < (AnchorDay(TaskAfter(t, fires), now) + 1) * DAY
    ensures TaskAfter(t, fires).createdAt == if t.createdAt != 0 || fires == [] then t.createdAt else fires[0].finish
  {
    hide DayNumber;
    if fires != [] {
      AnchorTold(t, fires[..|fires| - 1], now);
    }
  }

  function AnchorTime(t: Task, fires: seq<Fire>, now: Moment): int
    requires now.Lawful()
  {
    if t.createdAt != 0 then t.createdAt
    else if fires != [] then fires[0].finish
    else if t.lastRunAt != 0 then t.lastRunAt
    else now.Time()
  }

  /** A slot's time of day is its share of the day. */
  lemma ClockTold(s: Schedule)
    requires s.Lawful()
    ensures s.Clock() * 1440 == s.minute * DAY && 0 <= s.Clock() < DAY
  {
  }

  /** The slot of a month is on the day of that month that is nearest to the one asked for. */
  lemma ClampedIsNearest(y: int, m: int, d: int, day: int)
    requires 1 <= m <= 12 && Valid(Date(y, m, day))
    ensures var r := Clamped(y, m, d);
            r.year == y && r.month == m && Abs(r.day - d) <= Abs(day - d) && (Abs(r.day - d) == Abs(day - d) ==> r.day == day)
  {
  }

  /** With one end only, a window is open from its start on, or up to its end; with none, always. */
  lemma WindowOneEnded(w: Window, now: Moment)
    requires now.Lawful() && w.Lawful() && (w.start.None? || w.end.None?)
    ensures WithinTimeWindow(w, now) <==>
            (w.start.Some? ==> w.start.value * 60_000 <= now.ms) && (w.end.Some? ==> now.ms < w.end.value * 60_000)
  {
  }

  /** A configured window is an interval on the clock face, also across midnight; start inclusive, end exclusive,
      and the whole day when both agree. */
  lemma WindowIsCircular(w: Window, now: Moment)
    requires now.Lawful() && w.Lawful() && w.start.Some? && w.end.Some?
    ensures WithinTimeWindow(w, now) <==>
            w.start == w.end || (now.ms / 60_000 - w.start.value) % 1440 < (w.end.value - w.start.value) % 1440
  {
    var m, a, b := now.ms / 60_000, w.start.value, w.end.value;
    assert 0 <= m < 1440;
    assert (m - a) % 1440 == if m >= a then m - a else m - a + 1440;
    assert (b - a) % 1440 == if b >= a then b - a else b - a + 1440;
  }
}
