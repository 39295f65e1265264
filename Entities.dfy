/**
 * The cache row (app/src/main/java/com/easyplan/local/TaskEntity.kt): a task
 * with its dates stored as milliseconds, plus the `needsSync` flag, and the
 * two field-by-field conversions between rows and tasks.
 */
module Entities {
  import opened Wrappers
  import opened Tasks

  datatype TaskEntity = TaskEntity(
    id: string,
    title: string,
    description: string,
    dueDateMillis: Option<Millis>,
    dueTime: Option<string>,
    isCompleted: bool,
    priority: string,
    category: string,
    color: string,
    createdAtMillis: Millis,
    completedAtMillis: Option<Millis>,
    needsSync: bool)

  /** `TaskEntity.toTask()`: drops the sync flag. */
  function ToTask(e: TaskEntity): (t: Task)
    ensures t.id == e.id && t.createdAt == e.createdAtMillis
    ensures t.dueDate.None? <==> e.dueDateMillis.None?
    ensures t.completedAt.None? <==> e.completedAtMillis.None?
  {
    Task(e.id, e.title, e.description, e.dueDateMillis, e.dueTime, e.isCompleted,
         e.priority, e.category, e.color, e.createdAtMillis, e.completedAtMillis)
  }

  /** `TaskEntity.fromTask(task, needsSync)`. */
  function FromTask(t: Task, needsSync: bool): (e: TaskEntity)
    ensures e.id == t.id && e.needsSync == needsSync && e.createdAtMillis == t.createdAt
    ensures e.dueDateMillis.None? <==> t.dueDate.None?
    ensures e.completedAtMillis.None? <==> t.completedAt.None?
  {
    TaskEntity(t.id, t.title, t.description, t.dueDate, t.dueTime, t.isCompleted,
               t.priority, t.category, t.color, t.createdAt, t.completedAt, needsSync)
  }

  /** `fromTask(task)` with the flag argument left out. */
  function FromTaskDefault(t: Task): (e: TaskEntity)
    ensures !e.needsSync
  {
    FromTask(t, false)
  }

  /** A task survives being stored in a row and read back, whatever the flag. */
  lemma TaskRoundTrip(t: Task, needsSync: bool)
    ensures ToTask(FromTask(t, needsSync)) == t
  {
  }

  /** A row survives being read as a task and stored again with its own flag. */
  lemma EntityRoundTrip(e: TaskEntity)
    ensures FromTask(ToTask(e), e.needsSync) == e
  {
  }

  /** Two rows that carry the same task differ at most in their flag. */
  lemma FromTaskInjective(a: Task, b: Task, f: bool, g: bool)
    requires FromTask(a, f) == FromTask(b, g)
    ensures a == b && f == g
  {
    TaskRoundTrip(a, f);
    TaskRoundTrip(b, g);
  }

  /** Converting a list of rows to tasks, in order. */
  function ToTasks(es: seq<TaskEntity>): (ts: seq<Task>)
    ensures |ts| == |es|
    ensures forall i :: 0 <= i < |es| ==> ts[i] == ToTask(es[i])
  {
    seq(|es|, i requires 0 <= i < |es| => ToTask(es[i]))
  }

  /** Converting a list of tasks to rows with one flag, in order. */
  function FromTasks(ts: seq<Task>, needsSync: bool): (es: seq<TaskEntity>)
    ensures |es| == |ts|
    ensures forall i :: 0 <= i < |ts| ==> es[i] == FromTask(ts[i], needsSync)
  {
    seq(|ts|, i requires 0 <= i < |ts| => FromTask(ts[i], needsSync))
  }
}
