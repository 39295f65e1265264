/**
 * The task record (app/src/main/java/com/easyplan/data/Task.kt): its
 * defaults, its two status transitions, and the string-to-enum lookups
 * for priority and category with their fallback defaults.
 *
 * Dates are milliseconds since the epoch (`Date.time`).
 */
module Tasks {
  import opened Wrappers

  type Millis = int

  datatype Task = Task(
    id: string,
    title: string,
    description: string,
    dueDate: Option<Millis>,
    dueTime: Option<string>,
    isCompleted: bool,
    priority: string,
    category: string,
    color: string,
    createdAt: Millis,
    completedAt: Option<Millis>)

  const DefaultPriority: string := "medium"
  const DefaultCategory: string := "personal"
  const DefaultColor: string := "#2196F3"

  /**
   * A task built with every optional constructor argument left at its
   * default; the generated UUID and the construction time are given.
   */
  function NewTask(id: string, title: string, now: Millis): (t: Task)
    ensures t.id == id && t.title == title && t.createdAt == now
    ensures t.description == "" && t.dueDate == None && t.dueTime == None
    ensures !t.isCompleted && t.completedAt == None
    ensures t.priority == "medium" && t.category == "personal" && t.color == "#2196F3"
    ensures CompletionConsistent(t)
  {
    Task(id, title, "", None, None, false, DefaultPriority, DefaultCategory, DefaultColor, now, None)
  }

  /** The design invariant: `completedAt` is set exactly when the task is completed. */
  predicate CompletionConsistent(t: Task)
  {
    t.completedAt.Some? <==> t.isCompleted
  }

  /** Everything but the two status fields agrees. */
  predicate SameExceptStatus(a: Task, b: Task)
  {
    && a.id == b.id && a.title == b.title && a.description == b.description
    && a.dueDate == b.dueDate && a.dueTime == b.dueTime && a.priority == b.priority
    && a.category == b.category && a.color == b.color && a.createdAt == b.createdAt
  }

  /** `markCompleted()`: completed, stamped with the current time `now`. */
  function MarkCompleted(t: Task, now: Millis): (r: Task)
    ensures r.isCompleted && r.completedAt == Some(now)
    ensures SameExceptStatus(t, r)
    ensures CompletionConsistent(r)
  {
    t.(isCompleted := true, completedAt := Some(now))
  }

  /** `markIncomplete()`: not completed, completion time cleared. */
  function MarkIncomplete(t: Task): (r: Task)
    ensures !r.isCompleted && r.completedAt == None
    ensures SameExceptStatus(t, r)
    ensures CompletionConsistent(r)
  {
    t.(isCompleted := false, completedAt := None)
  }

  /** Marking incomplete undoes marking complete, on a task that was not completed. */
  lemma CompleteThenIncomplete(t: Task, now: Millis)
    requires !t.isCompleted && t.completedAt == None
    ensures MarkIncomplete(MarkCompleted(t, now)) == t
  {
  }

  datatype Priority = High | Medium | Low {
    /** The stored string of each constant. */
    function Value(): string
    {
      match this
      case High => "high"
      case Medium => "medium"
      case Low => "low"
    }
  }

  /** `Priority.fromString`: the constant whose value matches, else `MEDIUM`. */
  function PriorityFromString(value: string): (p: Priority)
    ensures p.Value() == value || (p == Medium && value !in {"high", "medium", "low"})
  {
    if value == "high" then High
    else if value == "low" then Low
    else Medium
  }

  lemma PriorityRoundTrip(p: Priority)
    ensures PriorityFromString(p.Value()) == p
  {
  }

  datatype Category = Work | Personal | Study | Health | Shopping | Other {
    /** The stored string of each constant. */
    function Value(): string
    {
      match this
      case Work => "work"
      case Personal => "personal"
      case Study => "study"
      case Health => "health"
      case Shopping => "shopping"
      case Other => "other"
    }
  }

  /** `Category.fromString`: the constant whose value matches, else `PERSONAL`. */
  function CategoryFromString(value: string): (c: Category)
    ensures c.Value() == value
         || (c == Personal && value !in {"work", "personal", "study", "health", "shopping", "other"})
  {
    if value == "work" then Work
    else if value == "study" then Study
    else if value == "health" then Health
    else if value == "shopping" then Shopping
    else if value == "other" then Other
    else Personal
  }

  lemma CategoryRoundTrip(c: Category)
    ensures CategoryFromString(c.Value()) == c
  {
  }

  /** The ids of a list of tasks, in order. */
  function IdsOf(s: seq<Task>): (r: seq<string>)
    ensures |r| == |s|
    ensures forall i :: 0 <= i < |s| ==> r[i] == s[i].id
  {
    seq(|s|, i requires 0 <= i < |s| => s[i].id)
  }
}
