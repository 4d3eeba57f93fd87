/**
 * The habit details page: whether the habit was completed today, the share of
 * the last 30 days on which it was completed, the 12-hour reminder display,
 * the ownership test, the category styling, and the mark-complete handler
 * with its once-a-day guard.
 *
 * Instants are milliseconds since the epoch and "now" is a parameter. The
 * page compares the `YYYY-MM-DD` prefix of `toISOString()`, which is the UTC
 * calendar day; here that day is the floor of the instant divided by the
 * length of a day.
 */
module HabitDetails {
  import opened Wrappers
  import opened Text
  import opened Habits
  import Seqs

  const MsPerDay: int := 24 * 60 * 60 * 1000

  /** The progress bar's target: completions over the last 30 days. */
  const TargetDays: int := 30

  /**
   * The UTC calendar day an instant falls on: the day whose 24 hours contain
   * the instant, before 1970 too.
   */
  function UtcDay(t: Timestamp): (d: int)
    ensures d * MsPerDay <= t < (d + 1) * MsPerDay
  {
    t / MsPerDay
  }

  /** `habit?.completionHistory`: None when the habit or its history is absent. */
  function HistoryOf(habit: Option<Habit>): Option<seq<Timestamp>> {
    if habit.None? then None else habit.value.completionHistory
  }

  // ---------------------------------------------------------------------------
  // Completed today?

  /** `history.some(...)` for "this entry falls on `day`". */
  function AnyOnDay(history: seq<Timestamp>, day: int): (r: bool)
    ensures r <==> exists i :: 0 <= i < |history| && UtcDay(history[i]) == day
  {
    if history == [] then false
    else if UtcDay(history[0]) == day then true
    else
      var rest := AnyOnDay(history[1..], day);
      assert forall i :: 0 <= i < |history| - 1 ==> history[1..][i] == history[i + 1];
      rest
  }

  /**
   * `isCompletedToday`: false when the history is absent or empty, otherwise
   * whether some entry falls on the same UTC day as `now`.
   */
  function IsCompletedToday(habit: Option<Habit>, now: Timestamp): (r: bool)
    ensures HistoryOf(habit).None? || HistoryOf(habit) == Some([]) ==> !r
    ensures r <==> HistoryOf(habit).Some?
                   && exists i :: 0 <= i < |HistoryOf(habit).value|
                                  && UtcDay(HistoryOf(habit).value[i]) == UtcDay(now)
  {
    var history := HistoryOf(habit);
    if history.None? || |history.value| == 0 then false
    else AnyOnDay(history.value, UtcDay(now))
  }

  /** An entry recorded at any instant of today's UTC day makes the habit completed today. */
  lemma CompletedByAnyEntryOfToday(habit: Habit, i: nat, now: Timestamp)
    requires habit.completionHistory.Some? && i < |habit.completionHistory.value|
    requires UtcDay(habit.completionHistory.value[i]) == UtcDay(now)
    ensures IsCompletedToday(Some(habit), now)
  {
  }

  // ---------------------------------------------------------------------------
  // The last 30 days

  /** `thirtyDaysAgo <= d && d <= today`: both ends included, later instants excluded. */
  predicate InWindow(d: Timestamp, now: Timestamp) {
    now - TargetDays * MsPerDay <= d <= now
  }

  /** The length of `history.filter(...)` for the 30-day window. */
  function CountInWindow(history: seq<Timestamp>, now: Timestamp): (r: nat)
    ensures r <= |history|
    ensures r == |history| <==> forall i :: 0 <= i < |history| ==> InWindow(history[i], now)
    ensures r == 0 <==> forall i :: 0 <= i < |history| ==> !InWindow(history[i], now)
  {
    if history == [] then 0
    else
      var rest := CountInWindow(history[1..], now);
      assert forall i :: 0 <= i < |history| - 1 ==> history[1..][i] == history[i + 1];
      (if InWindow(history[0], now) then 1 else 0) + rest
  }

  /** The count is the length of the filtered history, which holds exactly the in-window entries. */
  lemma {:induction false} CountIsFilterLength(history: seq<Timestamp>, now: Timestamp, inWindow: Timestamp -> bool)
    requires forall d :: inWindow(d) == InWindow(d, now)
    ensures CountInWindow(history, now) == |Seqs.Filter(history, inWindow)|
  {
    if history != [] {
      CountIsFilterLength(history[1..], now, inWindow);
    }
  }

  /** The count of a concatenation is the sum of the counts. */
  lemma {:induction false} CountAppend(a: seq<Timestamp>, b: seq<Timestamp>, now: Timestamp)
    ensures CountInWindow(a + b, now) == CountInWindow(a, now) + CountInWindow(b, now)
  {
    if a == [] {
      assert a + b == b;
    } else {
      assert (a + b)[1..] == a[1..] + b;
      CountAppend(a[1..], b, now);
    }
  }

  /**
   * The "N / 30 days" figure: the number of entries in the window, and 0 when
   * the history is absent (`?.filter(...).length || 0`).
   */
  function WindowCount(history: Option<seq<Timestamp>>, now: Timestamp): (r: nat)
    ensures history.None? ==> r == 0
    ensures history.Some? ==> r <= |history.value| && r == CountInWindow(history.value, now)
  {
    if history.None? then 0 else CountInWindow(history.value, now)
  }

  /** An entry dated after `now` never adds to the count. */
  lemma FutureEntriesIgnored(history: seq<Timestamp>, d: Timestamp, now: Timestamp)
    requires d > now
    ensures WindowCount(Some(history + [d]), now) == WindowCount(Some(history), now)
  {
    CountAppend(history, [d], now);
  }

  /**
   * `calculateProgress` on a history: 0 when it is absent, otherwise the
   * completed share of the 30 target days as a percentage, capped at 100.
   */
  function ProgressOf(history: Option<seq<Timestamp>>, now: Timestamp): (r: real)
    ensures 0.0 <= r <= 100.0
    ensures r == 100.0 <==> WindowCount(history, now) >= TargetDays
    ensures WindowCount(history, now) < TargetDays ==> r * TargetDays as real == WindowCount(history, now) as real * 100.0
  {
    if history.None? then 0.0
    else
      var percent := (CountInWindow(history.value, now) as real / TargetDays as real) * 100.0;
      if percent < 100.0 then percent else 100.0
  }

  /** `calculateProgress` on the page's habit: 0 without a habit or a history. */
  function CalculateProgress(habit: Option<Habit>, now: Timestamp): (r: real)
    ensures 0.0 <= r <= 100.0
    ensures HistoryOf(habit).None? ==> r == 0.0
    ensures r == 100.0 <==> WindowCount(HistoryOf(habit), now) >= TargetDays
    ensures WindowCount(HistoryOf(habit), now) < TargetDays ==>
              r * TargetDays as real == WindowCount(HistoryOf(habit), now) as real * 100.0
  {
    ProgressOf(HistoryOf(habit), now)
  }

  /** Appending a completion to the habit's history never lowers the page's progress. */
  lemma CompletionNeverLowersProgress(h: Habit, d: Timestamp, now: Timestamp)
    requires h.completionHistory.Some?
    ensures CalculateProgress(Some(h), now)
            <= CalculateProgress(Some(h.(completionHistory := Some(h.completionHistory.value + [d]))), now)
  {
    var history := h.completionHistory.value;
    ProgressNeverDrops(history, [], d, now);
    assert history + [] == history;
    assert history + [d] + [] == history + [d];
  }

  /** Recording one more completion, wherever it lands in the history, never lowers the progress. */
  lemma ProgressNeverDrops(before: seq<Timestamp>, after: seq<Timestamp>, d: Timestamp, now: Timestamp)
    ensures ProgressOf(Some(before + after), now) <= ProgressOf(Some(before + [d] + after), now)
  {
    CountAppend(before, after, now);
    CountAppend(before + [d], after, now);
    CountAppend(before, [d], now);
  }

  /** Entries on half of the 30 days give exactly 50 percent. */
  lemma HalfOfTheWindow(history: seq<Timestamp>, now: Timestamp)
    requires |history| == 15
    requires forall i :: 0 <= i < |history| ==> InWindow(history[i], now)
    ensures ProgressOf(Some(history), now) == 50.0
  {
  }

  /** Thirty or more entries in the window, duplicates of a day included, cap the progress at 100. */
  lemma ClampedAtFull(history: seq<Timestamp>, now: Timestamp)
    requires |history| >= TargetDays
    requires forall i :: 0 <= i < |history| ==> InWindow(history[i], now)
    ensures ProgressOf(Some(history), now) == 100.0
  {
  }

  // ---------------------------------------------------------------------------
  // Reminder time

  /** JavaScript's `a % 12`: the remainder takes the sign of `a`. */
  function JsRem12(a: int): (r: int)
    ensures a >= 0 ==> 0 <= r < 12
    ensures a < 0 ==> -12 < r <= 0
    ensures (a - r) % 12 == 0
  {
    if a >= 0 then a % 12 else -((-a) % 12)
  }

  /** `hour % 12 || 12`: NaN (None) and a zero remainder both show as 12. */
  function DisplayHour(hour: Option<int>): (r: int)
    ensures hour.None? ==> r == 12
    ensures hour.Some? && hour.value >= 0 ==> 1 <= r <= 12 && (hour.value - r) % 12 == 0
    ensures hour.Some? && hour.value < 0 ==>
              (r == 12 <==> hour.value % 12 == 0) && (r == 12 || -11 <= r <= -1) && (hour.value - r) % 12 == 0
  {
    if hour.None? then 12
    else
      var m := JsRem12(hour.value);
      if m == 0 then 12 else m
  }

  /** `hour >= 12 ? 'PM' : 'AM'`; NaN compares false, so it reads AM. */
  function Meridiem(hour: Option<int>): string {
    if hour.Some? && hour.value >= 12 then "PM" else "AM"
  }

  /**
   * `formatTime`: 'Not set' for a missing or empty value; otherwise the hour
   * before the first ':' on a 12-hour clock, the text after it as it is
   * ('undefined' when there is no ':'), and AM or PM.
   */
  function FormatTime(timeString: Option<string>): (r: string)
    ensures !Truthy(timeString) ==> r == "Not set"
  {
    if !Truthy(timeString) then "Not set"
    else
      var hour := ParseInt(FieldBefore(timeString.value, ':'));
      var minutes := FieldAfter(timeString.value, ':');
      IntToString(DisplayHour(hour)) + ":" + minutes.GetOr("undefined") + " " + Meridiem(hour)
  }

  /**
   * A time input's `HH:MM` value: the hour is shown on the 12-hour clock
   * (1 to 12), the minutes are copied verbatim, and the suffix is PM exactly
   * from hour 12 on.
   */
  lemma FormatTwentyFourHourValue(hh: string, mm: string)
    requires hh != [] && AllDigits(hh)
    requires ':' !in mm
    ensures var h := DigitsValue(hh);
            FormatTime(Some(hh + ":" + mm))
            == IntToString(DisplayHour(Some(h))) + ":" + mm + " " + (if h >= 12 then "PM" else "AM")
    ensures 1 <= DisplayHour(Some(DigitsValue(hh))) <= 12
  {
    var s := hh + ":" + mm;
    var h := DigitsValue(hh);
    TimeFields(hh, mm);
    assert Truthy(Some(s)) by { assert |s| > 0; }
    assert FormatTime(Some(s)) == IntToString(DisplayHour(Some(h))) + ":" + mm + " " + Meridiem(Some(h));
  }

  /** The two fields of an `HH:MM` value: the hour's digits read as a number, and the minutes. */
  lemma TimeFields(hh: string, mm: string)
    requires hh != [] && AllDigits(hh)
    requires ':' !in mm
    ensures ParseInt(FieldBefore(hh + ":" + mm, ':')) == Some(DigitsValue(hh) as int)
    ensures FieldAfter(hh + ":" + mm, ':') == Some(mm)
  {
    assert ':' !in hh by {
      forall i | 0 <= i < |hh| ensures hh[i] != ':' { assert IsDigit(hh[i]); }
    }
    assert hh + ":" + mm == hh + [':'] + mm;
    SplitFields(hh, ':', mm);
    ParseDigits(hh);
  }

  /** Reading the 12-hour display back as a 24-hour clock gives the original hour. */
  lemma TwelveHourRoundTrip(h: int)
    requires 0 <= h < 24
    ensures (if Meridiem(Some(h)) == "PM" then 12 else 0) + DisplayHour(Some(h)) % 12 == h
  {
  }

  // ---------------------------------------------------------------------------
  // Ownership and category styling

  /** `isUserHabit`: a user and a habit are both loaded and the habit's owner email is the user's. */
  function IsUserHabit(user: Option<User>, habit: Option<Habit>): (r: bool)
    ensures r ==> user.Some? && habit.Some?
    ensures user.Some? && habit.Some? ==> (r <==> user.value.email == habit.value.userEmail)
  {
    user.Some? && habit.Some? && user.value.email == habit.value.userEmail
  }

  const Icons: map<string, Icon> := map[
    "Health" := Dumbbell, "Productivity" := Zap, "Mindfulness" := Brain, "Learning" := BookOpen,
    "Fitness" := Target, "Social" := Users, "Other" := Sparkles]

  const Gradients: map<string, string> := map[
    "Health" := "from-green-500 to-emerald-600",
    "Productivity" := "from-blue-500 to-indigo-600",
    "Mindfulness" := "from-purple-500 to-pink-600",
    "Learning" := "from-yellow-500 to-orange-600",
    "Fitness" := "from-red-500 to-pink-600",
    "Social" := "from-cyan-500 to-blue-600",
    "Other" := "from-gray-500 to-slate-600"]

  const DefaultGradient: string := "from-orange-500 to-red-500"

  /** `icons[category] || Sparkles`. */
  function CategoryIcon(category: string): (r: Icon)
    ensures category in Icons ==> r == Icons[category]
    ensures category !in Icons ==> r == Sparkles
  {
    LookupOr(Icons, category, Sparkles)
  }

  /** `gradients[category] || 'from-orange-500 to-red-500'`. */
  function CategoryGradient(category: string): (r: string)
    ensures category in Gradients ==> r == Gradients[category]
    ensures category !in Gradients ==> r == DefaultGradient
  {
    LookupOr(Gradients, category, DefaultGradient)
  }

  /**
   * The tables here know "Health" and "Fitness" but not the "Health & Fitness"
   * the forms offer, so that category gets the fallback icon and gradient.
   */
  lemma HealthAndFitnessUnstyled()
    ensures CategoryIcon("Health & Fitness") == Sparkles
    ensures CategoryGradient("Health & Fitness") == DefaultGradient
  {
  }

  /** Any category outside the seven keys gets the Sparkles icon and the orange-to-red gradient. */
  lemma UnknownCategoryStyle(category: string)
    requires category !in Icons
    ensures CategoryIcon(category) == Sparkles && CategoryGradient(category) == DefaultGradient
  {
    assert Icons.Keys == Gradients.Keys;
  }

  // ---------------------------------------------------------------------------
  // Mark complete

  /** What the backend answers to `PUT /habits/:id/complete`. */
  datatype CompleteReply =
    | Completed(data: Option<Habit>)
    | CompleteFailed(message: Option<string>)

  /** The request the handler sends. */
  datatype CompleteRequest = CompleteRequest(path: string, completionDate: Timestamp)

  /** What the user is told. */
  datatype MarkOutcome =
    | AlreadyCompletedToday
    | Marked
    | NoData
    | MarkFailed(message: string)

  /** A backend error's own message when it has one, otherwise a generic one. */
  function FailureMessage(serverMessage: Option<string>): (r: string)
    ensures Truthy(serverMessage) ==> r == serverMessage.value
    ensures !Truthy(serverMessage) ==> r == MarkFailedMessage
    ensures r != ""
  {
    if Truthy(serverMessage) then serverMessage.value else MarkFailedMessage
  }

  const MarkFailedMessage: string := "Failed to mark habit as complete"

  class HabitDetailsPage {
    const id: string
    var habit: Option<Habit>
    var marking: bool

    constructor (id: string, habit: Option<Habit>)
      ensures this.id == id && this.habit == habit && !marking
    {
      this.id := id;
      this.habit := habit;
      marking := false;
    }

    /**
     * `handleMarkComplete`: refused locally, with no request, when the habit
     * is already completed today; otherwise one request dated `now`, the
     * returned habit replaces the shown one, and `marking` ends false.
     */
    method MarkComplete(now: Timestamp, reply: CompleteReply) returns (request: Option<CompleteRequest>, outcome: MarkOutcome)
      modifies this
      ensures old(IsCompletedToday(habit, now)) ==>
                request.None? && outcome == AlreadyCompletedToday
                && habit == old(habit) && marking == old(marking)
      ensures !old(IsCompletedToday(habit, now)) ==>
                request == Some(CompleteRequest("/habits/" + id + "/complete", now)) && !marking
      ensures !old(IsCompletedToday(habit, now)) ==>
                match reply
                case Completed(Some(h)) => habit == Some(h) && outcome == Marked
                case Completed(None) => habit == old(habit) && outcome == NoData
                case CompleteFailed(m) => habit == old(habit) && outcome == MarkFailed(FailureMessage(m))
    {
      if IsCompletedToday(habit, now) {
        return None, AlreadyCompletedToday;
      }
      marking := true;
      request := Some(CompleteRequest("/habits/" + id + "/complete", now));
      match reply {
        case Completed(data) =>
          if data.Some? {
            habit := data;
            outcome := Marked;
          } else {
            outcome := NoData;
          }
        case CompleteFailed(m) =>
          outcome := MarkFailed(FailureMessage(m));
      }
      marking := false;
    }
  }

  /**
   * Once the backend has recorded a completion at `now`, a second attempt on
   * the same UTC day is refused without a request.
   */
  method SecondCompletionSameDay(page: HabitDetailsPage, now: Timestamp, later: Timestamp, updated: Habit, second: CompleteReply)
    returns (firstRequest: Option<CompleteRequest>, secondRequest: Option<CompleteRequest>)
    requires !IsCompletedToday(page.habit, now)
    requires updated.completionHistory.Some? && now in updated.completionHistory.value
    requires UtcDay(later) == UtcDay(now)
    modifies page
    ensures firstRequest.Some? && secondRequest.None?
    ensures page.habit == Some(updated)
  {
    var o1, o2;
    firstRequest, o1 := page.MarkComplete(now, Completed(Some(updated)));
    var i :| 0 <= i < |updated.completionHistory.value| && updated.completionHistory.value[i] == now;
    CompletedByAnyEntryOfToday(updated, i, later);
    secondRequest, o2 := page.MarkComplete(later, second);
  }
}
