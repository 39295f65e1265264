/**
 * The integer part of app/src/main/java/com/easyplan/util/TaskStatistics.kt:
 * counts, the per-category grouping, the capped productivity score, the
 * level thresholds, the by-priority and by-category filters, and the
 * completion streak.
 *
 * Wall-clock instants (`Date()`, `getStartOfDay`, `getDateDaysAgo`) are
 * parameters in milliseconds; `after`/`before` are strict comparisons.
 */
module Statistics {
  import opened Wrappers
  import opened Tasks
  import opened Seqs

  const DayMillis: int := 86400000
  /** `for (i in 0 until 365)`: the streak looks back at most a year. */
  const StreakHorizon: nat := 365

  function IsDone(): Task -> bool
  {
    (t: Task) => t.isCompleted
  }

  /** `isCompleted && completedAt != null`. */
  function IsStamped(): Task -> bool
  {
    (t: Task) => t.isCompleted && t.completedAt.Some?
  }

  function HasPriority(p: string): Task -> bool
  {
    (t: Task) => t.priority == p
  }

  function HasCategory(c: string): Task -> bool
  {
    (t: Task) => t.category == c
  }

  /** `isCompleted && completedAt != null && completedAt.after(cut)`. */
  function CompletedAfter(cut: Millis): Task -> bool
  {
    (t: Task) => t.isCompleted && t.completedAt.Some? && t.completedAt.value > cut
  }

  /** Completed strictly inside the open interval `(lo, hi)`. */
  function CompletedWithin(lo: Millis, hi: Millis): Task -> bool
  {
    (t: Task) => t.isCompleted && t.completedAt.Some? && lo < t.completedAt.value < hi
  }

  // ---------------------------------------------------------------------------
  // Grouping by category, in first-occurrence order (`groupBy` keeps the order
  // in which keys first appear).

  /** The categories of `s`, each once, in order of first appearance. */
  function Categories(s: seq<Task>): (cs: seq<string>)
    ensures forall i, j :: 0 <= i < j < |cs| ==> cs[i] != cs[j]
    ensures forall c :: c in cs <==> exists t :: t in s && t.category == c
  {
    if s == [] then []
    else
      var front := s[..|s| - 1];
      var last := s[|s| - 1];
      var p := Categories(front);
      assert forall t :: t in s <==> t in front || t == last;
      if last.category in p then p else p + [last.category]
  }

  /** Some task of category `c` comes before every task of category `d`. */
  predicate SeenBefore(s: seq<Task>, c: string, d: string)
  {
    exists a :: 0 <= a < |s| && s[a].category == c && forall b :: 0 <= b <= a ==> s[b].category != d
  }

  /**
   * `groupBy` keeps keys in order of first appearance: of two categories
   * listed in that order, the earlier one is seen first.
   */
  lemma {:induction false} CategoriesFirstOccurrence(s: seq<Task>)
    ensures forall i, j :: 0 <= i < j < |Categories(s)| ==>
      SeenBefore(s, Categories(s)[i], Categories(s)[j])
  {
    if s != [] {
      var front := s[..|s| - 1];
      var last := s[|s| - 1];
      var p := Categories(front);
      CategoriesFirstOccurrence(front);
      var cs := Categories(s);
      forall i, j | 0 <= i < j < |cs|
        ensures SeenBefore(s, cs[i], cs[j])
      {
        if j < |p| {
          assert cs[i] == p[i] && cs[j] == p[j];
          assert SeenBefore(front, p[i], p[j]);
          var a :| 0 <= a < |front| && front[a].category == p[i]
            && forall b :: 0 <= b <= a ==> front[b].category != p[j];
          assert s[a] == front[a];
          assert forall b :: 0 <= b <= a ==> s[b] == front[b];
        } else {
          assert last.category !in p && cs == p + [last.category];
          assert cs[i] == p[i] && cs[j] == last.category;
          assert p[i] in p;
          var t :| t in front && t.category == p[i];
          var a :| 0 <= a < |front| && front[a] == t;
          forall b | 0 <= b <= a
            ensures s[b].category != cs[j]
          {
            assert s[b] == front[b];
            assert front[b] in front;
          }
          assert s[a].category == cs[i];
        }
      }
    }
  }

  /** `tasks.groupBy { it.category }.mapValues { it.value.size }`. */
  function CategoryCounts(s: seq<Task>): (groups: seq<(string, nat)>)
    ensures |groups| == |Categories(s)|
    ensures forall i :: 0 <= i < |groups| ==>
      groups[i].0 == Categories(s)[i] && groups[i].1 == Count(s, HasCategory(groups[i].0))
  {
    var cs := Categories(s);
    seq(|cs|, i requires 0 <= i < |cs| => (cs[i], Count(s, HasCategory(cs[i]))))
  }

  function SumCounts(groups: seq<(string, nat)>): nat
  {
    if groups == [] then 0 else groups[0].1 + SumCounts(groups[1..])
  }

  /** Sum over the categories `cs` of the number of tasks of `s` in each. */
  function SumOver(s: seq<Task>, cs: seq<string>): nat
  {
    if cs == [] then 0 else Count(s, HasCategory(cs[0])) + SumOver(s, cs[1..])
  }

  lemma {:induction false} SumOverAppend(a: seq<Task>, b: seq<Task>, cs: seq<string>)
    ensures SumOver(a + b, cs) == SumOver(a, cs) + SumOver(b, cs)
  {
    if cs != [] {
      FilterAppend(a, b, HasCategory(cs[0]));
      SumOverAppend(a, b, cs[1..]);
    }
  }

  lemma {:induction false} SumOverSingle(t: Task, cs: seq<string>)
    requires forall i, j :: 0 <= i < j < |cs| ==> cs[i] != cs[j]
    ensures SumOver([t], cs) == if t.category in cs then 1 else 0
  {
    if cs != [] {
      assert [t][1..] == [];
      assert forall i, j :: 0 <= i < j < |cs[1..]| ==> cs[1..][i] != cs[1..][j] by {
        forall i, j | 0 <= i < j < |cs[1..]| ensures cs[1..][i] != cs[1..][j] {
          assert cs[1..][i] == cs[i + 1] && cs[1..][j] == cs[j + 1];
        }
      }
      SumOverSingle(t, cs[1..]);
      assert t.category in cs <==> t.category == cs[0] || t.category in cs[1..];
      if t.category == cs[0] {
        assert t.category !in cs[1..];
      }
    }
  }

  /** Over a duplicate-free list of categories that covers `s`, the counts add up to `|s|`. */
  lemma {:induction false} SumOverCovering(s: seq<Task>, cs: seq<string>)
    requires forall i, j :: 0 <= i < j < |cs| ==> cs[i] != cs[j]
    requires forall t :: t in s ==> t.category in cs
    ensures SumOver(s, cs) == |s|
  {
    if s == [] {
      SumOverEmpty(cs);
    } else {
      assert s == [s[0]] + s[1..];
      SumOverAppend([s[0]], s[1..], cs);
      SumOverSingle(s[0], cs);
      SumOverCovering(s[1..], cs);
    }
  }

  lemma {:induction false} SumOverEmpty(cs: seq<string>)
    ensures SumOver([], cs) == 0
  {
    if cs != [] {
      SumOverEmpty(cs[1..]);
    }
  }

  lemma {:induction false} SumCountsIsSumOver(s: seq<Task>, cs: seq<string>, groups: seq<(string, nat)>)
    requires |groups| == |cs|
    requires forall i :: 0 <= i < |groups| ==> groups[i].0 == cs[i] && groups[i].1 == Count(s, HasCategory(cs[i]))
    ensures SumCounts(groups) == SumOver(s, cs)
  {
    if cs != [] {
      SumCountsIsSumOver(s, cs[1..], groups[1..]);
    }
  }

  /** The values of `tasksByCategory` add up to the number of tasks. */
  lemma CategoryCountsSum(s: seq<Task>)
    ensures SumCounts(CategoryCounts(s)) == |s|
  {
    var cs := Categories(s);
    SumCountsIsSumOver(s, cs, CategoryCounts(s));
    SumOverCovering(s, cs);
  }

  // ---------------------------------------------------------------------------
  // The productivity score.

  function Min(a: int, b: int): int
  {
    if a <= b then a else b
  }

  /** `(completionRate * 0.4).toInt()` with the rate taken as the exact ratio. */
  function RatePoints(completed: nat, total: nat): (pts: nat)
    ensures completed <= total ==> pts <= 40
  {
    if total > 0 then
      assert completed <= total ==> 40 * completed <= 40 * total;
      RatePointsBound(completed, total);
      (40 * completed) / total
    else 0
  }

  lemma RatePointsBound(completed: nat, total: nat)
    requires total > 0
    ensures completed <= total ==> (40 * completed) / total <= 40
  {
    if completed <= total {
      assert 40 * completed <= 40 * total;
      assert (40 * total) / total == 40;
    }
  }

  /** `calculateProductivityScore`: capped components (40/20/20/10/10), total capped at 100. */
  function ProductivityScore(completed: nat, total: nat, today: nat, week: nat, high: nat): (score: nat)
    ensures score <= 100
    ensures completed <= total ==>
      score == RatePoints(completed, total) + Min(today * 5, 20) + Min(week * 2, 20)
               + Min(high * 2, 10) + Min(completed, 10)
  {
    var sum := RatePoints(completed, total) + Min(today * 5, 20) + Min(week * 2, 20)
               + Min(high * 2, 10) + Min(completed, 10);
    Min(sum, 100)
  }

  datatype Level = KeepGoing | Fair | Good | Great | Excellent {
    function Rank(): nat
    {
      match this
      case KeepGoing => 0
      case Fair => 1
      case Good => 2
      case Great => 3
      case Excellent => 4
    }

    /** The label shown for each level. */
    function Label(): string
    {
      match this
      case Excellent => "\U{1F525} Excellent"
      case Great => "\U{2B50} Great"
      case Good => "\U{1F44D} Good"
      case Fair => "\U{1F4C8} Fair"
      case KeepGoing => "\U{1F4AA} Keep Going"
    }
  }

  /** Each level has its own label, so the label shown names the band. */
  lemma LabelsDistinct(a: Level, b: Level)
    ensures a.Label() == b.Label() <==> a == b
  {
  }

  /** `getProductivityLevel`: one level per band of 20 points, from 80 up the top one. */
  function ProductivityLevel(score: int): (l: Level)
    ensures l.Rank() == if score < 0 then 0 else Min(score / 20, 4)
  {
    if score >= 80 then Excellent
    else if score >= 60 then Great
    else if score >= 40 then Good
    else if score >= 20 then Fair
    else KeepGoing
  }

  lemma ProductivityLevelMonotone(a: int, b: int)
    requires a <= b
    ensures ProductivityLevel(a).Rank() <= ProductivityLevel(b).Rank()
  {
  }

  // ---------------------------------------------------------------------------
  // calculateStatistics, without the floating-point fields.

  datatype Stats = Stats(
    totalTasks: nat,
    completedTasks: nat,
    pendingTasks: int,
    highPriorityTasks: nat,
    mediumPriorityTasks: nat,
    lowPriorityTasks: nat,
    tasksByCategory: seq<(string, nat)>,
    tasksCompletedToday: nat,
    tasksCompletedThisWeek: nat,
    tasksCompletedThisMonth: nat,
    productivityScore: nat)

  /** `calculateStatistics`, with the start of today, a week ago and a month ago given. */
  function CalculateStatistics(tasks: seq<Task>, today: Millis, weekAgo: Millis, monthAgo: Millis): (st: Stats)
    ensures st.totalTasks == |tasks|
    ensures st.completedTasks == Count(tasks, IsDone())
    ensures st.pendingTasks == st.totalTasks - st.completedTasks >= 0
    ensures st.highPriorityTasks + st.mediumPriorityTasks + st.lowPriorityTasks <= st.totalTasks
    ensures SumCounts(st.tasksByCategory) == st.totalTasks
    ensures monthAgo <= weekAgo <= today ==>
      st.tasksCompletedToday <= st.tasksCompletedThisWeek <= st.tasksCompletedThisMonth <= st.completedTasks
    ensures st.productivityScore <= 100
    ensures st.highPriorityTasks == Count(tasks, HasPriority("high"))
    ensures st.mediumPriorityTasks == Count(tasks, HasPriority("medium"))
    ensures st.lowPriorityTasks == Count(tasks, HasPriority("low"))
    ensures st.tasksByCategory == CategoryCounts(tasks)
    ensures st.tasksCompletedToday == Count(tasks, CompletedAfter(today))
    ensures st.tasksCompletedThisWeek == Count(tasks, CompletedAfter(weekAgo))
    ensures st.tasksCompletedThisMonth == Count(tasks, CompletedAfter(monthAgo))
    ensures st.productivityScore == ProductivityScore(st.completedTasks, st.totalTasks,
      st.tasksCompletedToday, st.tasksCompletedThisWeek, st.highPriorityTasks)
  {
    var total := |tasks|;
    var completed := Count(tasks, IsDone());
    var high := Count(tasks, HasPriority("high"));
    var medium := Count(tasks, HasPriority("medium"));
    var low := Count(tasks, HasPriority("low"));
    var byToday := Count(tasks, CompletedAfter(today));
    var byWeek := Count(tasks, CompletedAfter(weekAgo));
    var byMonth := Count(tasks, CompletedAfter(monthAgo));
    CountDisjoint3(tasks, HasPriority("high"), HasPriority("medium"), HasPriority("low"));
    CategoryCountsSum(tasks);
    CompletedCountsOrdered(tasks, today, weekAgo, monthAgo);
    Stats(total, completed, total - completed, high, medium, low, CategoryCounts(tasks),
          byToday, byWeek, byMonth, ProductivityScore(completed, total, byToday, byWeek, high))
  }

  /** Later cut-offs count fewer completions, and none counts more than all completed tasks. */
  lemma CompletedCountsOrdered(tasks: seq<Task>, today: Millis, weekAgo: Millis, monthAgo: Millis)
    ensures monthAgo <= weekAgo <= today ==>
      Count(tasks, CompletedAfter(today)) <= Count(tasks, CompletedAfter(weekAgo))
      <= Count(tasks, CompletedAfter(monthAgo)) <= Count(tasks, IsDone())
  {
    if monthAgo <= weekAgo <= today {
      CountMonotone(tasks, CompletedAfter(today), CompletedAfter(weekAgo));
      CountMonotone(tasks, CompletedAfter(weekAgo), CompletedAfter(monthAgo));
      CountMonotone(tasks, CompletedAfter(monthAgo), IsDone());
    }
  }

  /** `getTasksByPriority`: exactly the tasks with that priority, in order. */
  function GetTasksByPriority(tasks: seq<Task>, priority: string): (r: seq<Task>)
    ensures forall t :: t in r <==> t in tasks && t.priority == priority
    ensures |r| == Count(tasks, HasPriority(priority))
  {
    Filter(tasks, HasPriority(priority))
  }

  /** `getTasksByCategory`: exactly the tasks in that category, in order. */
  function GetTasksByCategory(tasks: seq<Task>, category: string): (r: seq<Task>)
    ensures forall t :: t in r <==> t in tasks && t.category == category
    ensures |r| == Count(tasks, HasCategory(category))
  {
    Filter(tasks, HasCategory(category))
  }

  /** Filtering a concatenation filters each part, so the original order is kept. */
  lemma GetTasksByPriorityKeepsOrder(a: seq<Task>, b: seq<Task>, priority: string)
    ensures GetTasksByPriority(a + b, priority) == GetTasksByPriority(a, priority) + GetTasksByPriority(b, priority)
  {
    FilterAppend(a, b, HasPriority(priority));
  }

  // ---------------------------------------------------------------------------
  // The completion streak.

  /** `getDateDaysAgo(i)` as an offset from the start of today (days of equal length). */
  function DayStart(today: Millis, i: int): Millis
  {
    today - i * DayMillis
  }

  /** Some stamped completion falls strictly inside day `i` before today. */
  predicate CompletedOnDay(tasks: seq<Task>, today: Millis, i: int)
  {
    Count(tasks, CompletedWithin(DayStart(today, i), DayStart(today, i - 1))) > 0
  }

  /**
   * The streak counted from day `i` on, as the loop counts it: a day with a
   * completion adds one, an empty day other than today ends the count.
   */
  function StreakFrom(tasks: seq<Task>, today: Millis, i: nat): nat
    decreases StreakHorizon - i
  {
    if i >= StreakHorizon then 0
    else if CompletedOnDay(tasks, today, i) then 1 + StreakFrom(tasks, today, i + 1)
    else if i > 0 then 0
    else StreakFrom(tasks, today, i + 1)
  }

  lemma {:induction false} StreakBound(tasks: seq<Task>, today: Millis, i: nat)
    ensures StreakFrom(tasks, today, i) <= if i >= StreakHorizon then 0 else StreakHorizon - i
    decreases StreakHorizon - i
  {
    if i < StreakHorizon {
      StreakBound(tasks, today, i + 1);
    }
  }

  /** A completion inside a day is a stamped completion. */
  lemma WithinIsStamped(tasks: seq<Task>, lo: Millis, hi: Millis)
    ensures Count(tasks, CompletedWithin(lo, hi)) <= Count(tasks, IsStamped())
  {
    CountMonotone(tasks, CompletedWithin(lo, hi), IsStamped());
  }

  lemma {:induction false} NoCompletionNoStreak(tasks: seq<Task>, today: Millis, i: nat)
    requires Count(tasks, IsStamped()) == 0
    ensures StreakFrom(tasks, today, i) == 0
    decreases StreakHorizon - i
  {
    if i < StreakHorizon {
      WithinIsStamped(tasks, DayStart(today, i), DayStart(today, i - 1));
      NoCompletionNoStreak(tasks, today, i + 1);
    }
  }

  /** `getCompletionStreak`, with the start of today given. */
  method GetCompletionStreak(tasks: seq<Task>, today: Millis) returns (streak: nat)
    ensures streak == StreakFrom(tasks, today, 0)
    ensures streak <= StreakHorizon
    ensures Count(tasks, IsStamped()) == 0 ==> streak == 0
  {
    StreakBound(tasks, today, 0);
    var completedTasks := Filter(tasks, IsStamped());
    if completedTasks == [] {
      NoCompletionNoStreak(tasks, today, 0);
      return 0;
    }
    streak := 0;
    var i: nat := 0;
    while i < StreakHorizon
      invariant i <= StreakHorizon
      invariant streak + StreakFrom(tasks, today, i) == StreakFrom(tasks, today, 0)
    {
      var hasTasksThisDay := CompletedOnDay(tasks, today, i);
      if hasTasksThisDay {
        assert StreakFrom(tasks, today, i) == 1 + StreakFrom(tasks, today, i + 1);
        streak := streak + 1;
      } else if i > 0 {
        assert StreakFrom(tasks, today, i) == 0;
        break;
      } else {
        assert StreakFrom(tasks, today, i) == StreakFrom(tasks, today, i + 1);
      }
      i := i + 1;
    }
  }
}
