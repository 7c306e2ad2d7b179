/** The time-saved figures of the usage dialog (src/components/UsageModal.tsx):
    seconds saved per extracted task, per monitored chat and per processed
    message, and the rounding of a number of seconds to the largest unit
    that fits. */
module UsageModal {
  import opened Decimal
  import opened AnalyticsApi

  /** `TIME_SAVINGS`, in seconds. */
  const TaskExtraction: int := 30
  const ChatSetup: int := 120
  const MessageProcessing: int := 2

  /** The unit a duration is shown in. */
  datatype Unit = Seconds | Minutes | Hours | Days

  /** The length of a unit in seconds. */
  function UnitSeconds(u: Unit): nat {
    match u
    case Seconds => 1
    case Minutes => 60
    case Hours => 3600
    case Days => 86400
  }

  /** The unit's word; always plural. */
  function UnitName(u: Unit): string {
    match u
    case Seconds => "seconds"
    case Minutes => "minutes"
    case Hours => "hours"
    case Days => "days"
  }

  /** The if-chain of `formatTimeSaved`: the largest unit below whose next
      unit the duration stays. */
  function UnitFor(seconds: int): (u: Unit)
    ensures u == Seconds <==> seconds < 60
    ensures u == Minutes <==> 60 <= seconds < 3600
    ensures u == Hours <==> 3600 <= seconds < 86400
    ensures u == Days <==> 86400 <= seconds
  {
    if seconds < 60 then Seconds
    else if seconds < 3600 then Minutes
    else if seconds < 86400 then Hours
    else Days
  }

  /** `Math.round(s / k)`: JavaScript rounds half-way cases up, that is
      towards positive infinity. `s / k` is a quotient of integers, so the
      result is the integer nearest to it, the upper one on a tie. */
  function RoundDiv(s: int, k: int): (n: int)
    requires k > 0
    ensures 2 * n * k - k <= 2 * s < 2 * n * k + k
  {
    (2 * s + k) / (2 * k)
  }

  /** The number `formatTimeSaved` prints and the unit it prints it in. */
  function Shown(seconds: int): (int, Unit) {
    var u := UnitFor(seconds);
    (RoundDiv(seconds, UnitSeconds(u)), u)
  }

  /** `formatTimeSaved(seconds)`: `"<n> <unit>"`. */
  function FormatTimeSaved(seconds: int): string {
    var (n, u) := Shown(seconds);
    IntToString(n) + " " + UnitName(u)
  }

  /** The figures of the three cards: `count * TIME_SAVINGS.X`. */
  function TaskCardSeconds(m: UserMetrics): int { m.totalTasksExtracted * TaskExtraction }
  function ChatCardSeconds(m: UserMetrics): int { m.uniqueChatsAnalyzed * ChatSetup }
  function MessageCardSeconds(m: UserMetrics): int { m.totalMessagesAnalyzed * MessageProcessing }

  /** `calculateTimeSaved(metrics)`: `taskTime + chatTime + messageTime`,
      each computed as on its card. */
  function CalculateTimeSaved(m: UserMetrics): int {
    TaskCardSeconds(m) + ChatCardSeconds(m) + MessageCardSeconds(m)
  }

  /** The order of the units, smallest first. */
  function UnitRank(u: Unit): nat {
    match u
    case Seconds => 0
    case Minutes => 1
    case Hours => 2
    case Days => 3
  }

  /** `s` prints as no more than `t`: in a smaller unit, or in the same
      unit with a number no larger. */
  predicate PrintsAtMost(s: int, t: int) {
    var (n, u) := Shown(s);
    var (k, v) := Shown(t);
    UnitRank(u) < UnitRank(v) || (u == v && n <= k)
  }

  /** More seconds never print as less. */
  lemma ShownMonotone(s: int, t: int)
    requires s <= t
    ensures PrintsAtMost(s, t)
  {
    var u, v := UnitFor(s), UnitFor(t);
    assert UnitRank(u) <= UnitRank(v);
    if u == v {
      RoundDivMonotone(s, t, UnitSeconds(u));
    }
  }

  /** For non-negative counts, the headline never prints as less than any
      of the three cards it adds up. */
  lemma HeadlineCoversCards(m: UserMetrics)
    requires m.totalTasksExtracted >= 0 && m.uniqueChatsAnalyzed >= 0 && m.totalMessagesAnalyzed >= 0
    ensures PrintsAtMost(TaskCardSeconds(m), CalculateTimeSaved(m))
    ensures PrintsAtMost(ChatCardSeconds(m), CalculateTimeSaved(m))
    ensures PrintsAtMost(MessageCardSeconds(m), CalculateTimeSaved(m))
  {
    var total := CalculateTimeSaved(m);
    ShownMonotone(TaskCardSeconds(m), total);
    ShownMonotone(ChatCardSeconds(m), total);
    ShownMonotone(MessageCardSeconds(m), total);
  }

  /** The printed number is within half a unit of the duration. */
  lemma ShownApproximates(seconds: int)
    ensures var (n, u) := Shown(seconds); var k := UnitSeconds(u);
      2 * n * k - k <= 2 * seconds < 2 * n * k + k
  {
  }

  /** The bands: a duration under a minute is printed exactly in seconds,
      a duration in the minutes band as 1 to 60 minutes, in the hours band
      as 1 to 24 hours, and a longer one as at least one day. */
  lemma ShownBands(seconds: int)
    ensures var (n, u) := Shown(seconds);
      (u == Seconds ==> n == seconds) &&
      (u == Minutes ==> 1 <= n <= 60) &&
      (u == Hours ==> 1 <= n <= 24) &&
      (u == Days ==> n >= 1)
  {
    var (n, u) := Shown(seconds);
    var k := UnitSeconds(u);
    assert 2 * n * k - k <= 2 * seconds < 2 * n * k + k;
    if u == Minutes {
      assert 120 * n - 60 <= 2 * seconds < 120 * n + 60;
      assert 120 <= 2 * seconds < 7200;
    } else if u == Hours {
      assert 7200 * n - 3600 <= 2 * seconds < 7200 * n + 3600;
      assert 7200 <= 2 * seconds < 172800;
    } else if u == Days {
      assert 172800 * n - 86400 <= 2 * seconds < 172800 * n + 86400;
    }
  }

  /** Rounding is monotone: more seconds never print as fewer units. */
  lemma RoundDivMonotone(s: int, t: int, k: int)
    requires k > 0 && s <= t
    ensures RoundDiv(s, k) <= RoundDiv(t, k)
  {
    var a, b := RoundDiv(s, k), RoundDiv(t, k);
    assert 2 * a * k - k <= 2 * s && 2 * t < 2 * b * k + k;
    assert (a - b) * k < k;
    BelowOneUnit(a - b, k);
  }

  /** A multiple of a positive `k` below `k` has a factor below one. */
  lemma BelowOneUnit(d: int, k: int)
    requires k > 0 && d * k < k
    ensures d < 1
  {
  }

  /** The printed text splits back into the number and the unit word. */
  lemma FormatTimeSavedReadsBack(seconds: int)
    ensures var (n, u) := Shown(seconds); var text, digits := FormatTimeSaved(seconds), IntToString(n);
      |digits| < |text| && ParseInt(text[..|digits|]) == n && text[|digits|..] == " " + UnitName(u)
  {
    var (n, u) := Shown(seconds);
    var text, digits := FormatTimeSaved(seconds), IntToString(n);
    assert text == digits + (" " + UnitName(u));
    assert text[..|digits|] == digits;
    ParseIntToString(n);
  }
}
