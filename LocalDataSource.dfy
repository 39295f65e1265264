/**
 * The wrapper around the cache table
 * (app/src/main/java/com/easyplan/local/TaskLocalDataSource.kt). Its DAO
 * reference is bound once by `initialize`; until then every write does
 * nothing and every read answers an empty list.
 */
module LocalDataSource {
  import opened Tasks
  import opened Entities
  import opened Dao

  class TaskLocalDataSource {
    var dao: TaskDao?

    ghost predicate Valid()
      reads this, dao
    {
      dao != null ==> dao.Valid()
    }

    /** The cached rows as seen through this wrapper: none while unbound. */
    function Cache(): Table
      reads this, dao
    {
      if dao == null then map[] else dao.rows
    }

    constructor ()
      ensures dao == null && Valid()
    {
      dao := null;
    }

    /** `initialize`: binds `db` only when no DAO is bound yet. */
    method Initialize(db: TaskDao)
      requires Valid() && db.Valid()
      modifies this
      ensures dao == (if old(dao) == null then db else old(dao))
      ensures Valid()
    {
      if dao == null {
        dao := db;
      }
    }

    /** `cacheTasks`: every task stored with `needsSync = false`, in list order. */
    method CacheTasks(ts: seq<Task>)
      requires Valid()
      modifies dao
      ensures Valid()
      ensures Cache() == if dao == null then map[] else UpsertEach(old(Cache()), FromTasks(ts, false))
    {
      if dao == null {
        return;
      }
      dao.UpsertAll(FromTasks(ts, false));
    }

    /** `upsert`: the task stored with exactly the given flag. */
    method Upsert(t: Task, needsSync: bool)
      requires Valid()
      modifies dao
      ensures Valid()
      ensures Cache() == if dao == null then map[] else old(Cache())[t.id := FromTask(t, needsSync)]
    {
      if dao == null {
        return;
      }
      dao.Upsert(FromTask(t, needsSync));
    }

    /** `delete`: removes the row for `id`, if any. */
    method Delete(id: string)
      requires Valid()
      modifies dao
      ensures Valid()
      ensures Cache() == old(Cache()) - {id}
    {
      if dao == null {
        return;
      }
      dao.DeleteById(id);
    }

    /** `getAllEntities`: every row, most recently created first. */
    method GetAllEntities() returns (r: seq<TaskEntity>)
      requires Valid()
      ensures dao == null ==> r == []
      ensures Lists(r, Cache()) && Ordered(r, true)
    {
      if dao == null {
        return [];
      }
      r := dao.GetAllTasks();
    }

    /** `getAllTasks`: every row as a task, most recently created first. */
    method GetAllTasks() returns (r: seq<Task>)
      requires Valid()
      ensures dao == null ==> r == []
      ensures ListsIds(IdsOf(r), Cache(), true)
      ensures forall i :: 0 <= i < |r| ==> r[i] == ToTask(Cache()[r[i].id])
    {
      if dao == null {
        return [];
      }
      var es := dao.GetAllTasks();
      ListingIds(es, Cache(), true);
      r := ToTasks(es);
    }

    /** `getPendingSyncTasks`: the flagged rows as tasks, oldest first. */
    method GetPendingSyncTasks() returns (r: seq<Task>)
      requires Valid()
      ensures dao == null ==> r == []
      ensures ListsIds(IdsOf(r), PendingRows(Cache()), false)
      ensures forall i :: 0 <= i < |r| ==> r[i] == ToTask(Cache()[r[i].id])
    {
      if dao == null {
        return [];
      }
      var es := dao.GetPendingSyncTasks();
      ListingIds(es, PendingRows(Cache()), false);
      r := ToTasks(es);
    }

    /** `getPendingSyncIds`: the ids of the flagged rows, oldest first. */
    method GetPendingSyncIds() returns (ids: seq<string>)
      requires Valid()
      ensures dao == null ==> ids == []
      ensures ListsIds(ids, PendingRows(Cache()), false)
    {
      if dao == null {
        return [];
      }
      var es := dao.GetPendingSyncTasks();
      ListingIds(es, PendingRows(Cache()), false);
      ids := EntityIds(es);
    }

    /** `markSynced`: clears the flag on exactly the listed ids; `[]` does nothing. */
    method MarkSynced(ids: seq<string>)
      requires Valid()
      modifies dao
      ensures Valid()
      ensures ids == [] ==> Cache() == old(Cache())
      ensures Cache() == if dao == null then map[] else WithSyncFlag(old(Cache()), ids, false)
    {
      if ids == [] {
        assert WithSyncFlag(Cache(), ids, false) == Cache();
        return;
      }
      if dao == null {
        return;
      }
      dao.UpdateSyncState(ids, false);
    }
  }
}
