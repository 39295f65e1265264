/**
 * The sync coordinator of app/src/main/java/com/easyplan/util/TaskManager.kt:
 * an in-memory task list and a set of ids awaiting sync, kept in step with
 * the local cache, the per-user document collection and the backup bin.
 *
 * The environment is given per call: `user` is `auth.currentUser?.uid`,
 * `online` is the connectivity check, and each remote request's outcome is a
 * parameter; its callback runs at once. Every mutator returns the remote
 * requests it issued.
 */
module Manager {
  import opened Wrappers
  import opened Tasks
  import opened Entities
  import opened Dao
  import opened LocalDataSource
  import opened Repository
  import opened Seqs

  /** A request to the remote stores. */
  datatype RemoteCall =
    | SetDoc(uid: string, task: Task)
    | DeleteDoc(uid: string, taskId: string)
    | CommitBatch(uid: string, batch: seq<Task>)
    | ListDocs(uid: string)
    | Backup(call: BinCall)

  /** `canSyncNow`: context initialised, signed in and online. */
  predicate CanSyncNow(ready: bool, user: Option<string>, online: bool)
  {
    ready && user.Some? && online
  }

  /** `shouldDeferSync`: signed in, but not able to reach the network. */
  predicate ShouldDeferSync(ready: bool, user: Option<string>, online: bool)
  {
    user.Some? && (!ready || !online)
  }

  /** `canDeleteWhileOffline`: a guest, or a user who can sync now. */
  predicate CanDeleteWhileOffline(ready: bool, user: Option<string>, online: bool)
  {
    user.None? || CanSyncNow(ready, user, online)
  }

  /**
   * A guest never syncs nor defers; a signed-in user does exactly one of the
   * two; deleting is refused exactly when a change would be deferred.
   */
  lemma SyncPolicy(ready: bool, user: Option<string>, online: bool)
    ensures user.None? ==> !CanSyncNow(ready, user, online) && !ShouldDeferSync(ready, user, online)
    ensures user.Some? ==> (CanSyncNow(ready, user, online) <==> !ShouldDeferSync(ready, user, online))
    ensures CanDeleteWhileOffline(ready, user, online) <==> !ShouldDeferSync(ready, user, online)
  {
  }

  /** `indexOfFirst { it.id == id }`. */
  function IndexOfFirst(s: seq<Task>, id: string): (i: int)
    ensures -1 <= i < |s|
    ensures i == -1 <==> forall k :: 0 <= k < |s| ==> s[k].id != id
    ensures i >= 0 ==> s[i].id == id && forall k :: 0 <= k < i ==> s[k].id != id
  {
    if s == [] then -1
    else if s[0].id == id then 0
    else
      var j := IndexOfFirst(s[1..], id);
      if j == -1 then -1 else j + 1
  }

  function HasOtherId(id: string): Task -> bool
  {
    (t: Task) => t.id != id
  }

  /** `removeAll { it.id == id }`: every entry with that id goes, the rest stay in order. */
  function WithoutId(s: seq<Task>, id: string): (r: seq<Task>)
    ensures forall t :: t in r <==> t in s && t.id != id
  {
    Filter(s, HasOtherId(id))
  }

  /** When no entry has the id, removing it leaves the list as it was. */
  lemma WithoutAbsentId(s: seq<Task>, id: string)
    requires forall k :: 0 <= k < |s| ==> s[k].id != id
    ensures WithoutId(s, id) == s
  {
    FilterKeepsAll(s, HasOtherId(id));
  }

  function DueOn(day: string, dayOf: Millis -> string): Task -> bool
  {
    (t: Task) => t.dueDate.Some? && dayOf(t.dueDate.value) == day
  }

  /** `toggleTaskCompletion`'s transition of one task. */
  function Toggled(t: Task, now: Millis): (r: Task)
    ensures r.isCompleted == !t.isCompleted
    ensures SameExceptStatus(t, r) && CompletionConsistent(r)
  {
    if t.isCompleted then MarkIncomplete(t) else MarkCompleted(t, now)
  }

  /** Toggling twice restores the completion flag, and an open task exactly. */
  lemma ToggleTwice(t: Task, now1: Millis, now2: Millis)
    ensures Toggled(Toggled(t, now1), now2).isCompleted == t.isCompleted
    ensures !t.isCompleted && t.completedAt == None ==> Toggled(Toggled(t, now1), now2) == t
  {
  }

  /** `ts` is the cache read back: each row once as a task, newest first. */
  predicate Mirrors(ts: seq<Task>, m: Table)
  {
    && ListsIds(IdsOf(ts), m, true)
    && forall i :: 0 <= i < |ts| ==> ts[i].id in m && ts[i] == ToTask(m[ts[i].id])
  }

  /** The ids listed by a query over the pending rows are exactly the pending ids. */
  lemma PendingIdsAreKeys(ids: seq<string>, m: Table)
    requires ListsIds(ids, PendingRows(m), false)
    ensures (set k | k in ids) == PendingKeys(m)
  {
  }

  /** `b` is the pending query read back as tasks: every flagged row once, oldest first. */
  predicate PendingBatch(b: seq<Task>, m: Table)
  {
    && ListsIds(IdsOf(b), PendingRows(m), false)
    && forall i :: 0 <= i < |b| ==> b[i].id in m && b[i] == ToTask(m[b[i].id])
  }

  /** A pending batch names exactly the flagged ids, and is empty iff none is flagged. */
  lemma PendingBatchIds(b: seq<Task>, m: Table)
    requires PendingBatch(b, m)
    ensures (set k | k in IdsOf(b)) == PendingKeys(m)
    ensures b == [] <==> PendingKeys(m) == {}
  {
    PendingIdsAreKeys(IdsOf(b), m);
    if b != [] {
      assert IdsOf(b)[0] in PendingKeys(m);
    }
  }

  /** The three demo tasks a guest starts with. */
  function SampleTasks(ids: seq<string>, today: Millis, tomorrow: Millis, now: Millis): (r: seq<Task>)
    requires |ids| == 3
    ensures |r| == 3
    ensures forall i :: 0 <= i < 3 ==> r[i].id == ids[i] && !r[i].isCompleted && r[i].priority == "medium"
  {
    [ NewTask(ids[0], "Review project proposal", now).(
        description := "Go through the quarterly project proposal and provide feedback",
        dueDate := Some(today), dueTime := Some("14:00")),
      NewTask(ids[1], "Team meeting preparation", now).(
        description := "Prepare slides and agenda for tomorrow's team meeting",
        dueDate := Some(today), dueTime := Some("16:30")),
      NewTask(ids[2], "Client presentation", now).(
        description := "Present the new design concepts to the client",
        dueDate := Some(tomorrow), dueTime := Some("10:00")) ]
  }

  class TaskManager {
    var tasks: seq<Task>
    var pendingSyncIds: set<string>
    /** `::appContext.isInitialized`. */
    var contextReady: bool
    const local: TaskLocalDataSource
    var repo: TaskRepository?

    ghost predicate Valid()
      reads this, local, local.dao
    {
      && local.Valid()
      && (contextReady <==> local.dao != null)
      && (contextReady <==> repo != null)
    }

    constructor ()
      ensures Valid() && fresh(local)
      ensures tasks == [] && pendingSyncIds == {} && !contextReady && repo == null
    {
      tasks := [];
      pendingSyncIds := {};
      contextReady := false;
      local := new TaskLocalDataSource();
      repo := null;
    }

    /** `initialize`: binds the cache and the repository once, then reloads from the cache. */
    method Initialize(db: TaskDao, savedBinId: Option<string>)
      requires Valid() && db.Valid()
      modifies this, local
      ensures Valid() && contextReady
      ensures local.dao == (if old(local.dao) == null then db else old(local.dao))
      ensures old(repo) != null ==> repo == old(repo)
      ensures old(repo) == null ==> fresh(repo) && repo.binId == savedBinId
      ensures Mirrors(tasks, local.Cache()) && pendingSyncIds == PendingKeys(local.Cache())
    {
      contextReady := true;
      local.Initialize(db);
      if repo == null {
        repo := new TaskRepository(savedBinId);
      }
      LoadFromLocal();
    }

    /** `loadFromLocal`: the list becomes the cache, newest first; pending becomes the flagged ids. */
    method LoadFromLocal()
      requires Valid()
      modifies this`tasks, this`pendingSyncIds
      ensures Valid()
      ensures Mirrors(tasks, local.Cache())
      ensures pendingSyncIds == PendingKeys(local.Cache())
    {
      var entities := local.GetAllEntities();
      ListingIds(entities, local.Cache(), true);
      tasks := ToTasks(entities);
      var ids := local.GetPendingSyncIds();
      PendingIdsAreKeys(ids, local.Cache());
      pendingSyncIds := set k | k in ids;
    }

    /** `getPendingSyncCount`. */
    function GetPendingSyncCount(): (n: nat)
      reads this
      ensures n == 0 <==> pendingSyncIds == {}
    {
      |pendingSyncIds|
    }

    /** `getTasksForDate`: the tasks due on the calendar day `dayOf(date)`, in list order. */
    function GetTasksForDate(date: Millis, dayOf: Millis -> string): (r: seq<Task>)
      reads this
      ensures forall t :: t in r <==> t in tasks && t.dueDate.Some? && dayOf(t.dueDate.value) == dayOf(date)
    {
      Filter(tasks, DueOn(dayOf(date), dayOf))
    }

    /** `pushTaskToFirestore` without its continuation: on success the row is clean and the id not pending. */
    method PushTaskToFirestore(task: Task, user: Option<string>, pushOk: bool) returns (calls: seq<RemoteCall>)
      requires Valid()
      modifies this`pendingSyncIds, local.dao
      ensures Valid()
      ensures user.None? ==> calls == [] && pendingSyncIds == old(pendingSyncIds) && local.Cache() == old(local.Cache())
      ensures user.Some? ==> calls == [SetDoc(user.value, task)]
      ensures user.Some? && pushOk ==> pendingSyncIds == old(pendingSyncIds) - {task.id}
      ensures user.Some? && pushOk ==>
        local.Cache() == if local.dao == null then map[] else old(local.Cache())[task.id := FromTask(task, false)]
      ensures user.Some? && !pushOk ==>
        pendingSyncIds == old(pendingSyncIds) + {task.id} && local.Cache() == old(local.Cache())
    {
      if user.None? {
        return [];
      }
      calls := [SetDoc(user.value, task)];
      if pushOk {
        local.Upsert(task, false);
        pendingSyncIds := pendingSyncIds - {task.id};
      } else {
        pendingSyncIds := pendingSyncIds + {task.id};
      }
    }

    /** `syncToRestApi`: exports the whole list to the backup bin when initialised and online. */
    method SyncToRestApi(user: Option<string>, online: bool, reply: Reply, now: Millis)
      returns (ok: bool, calls: seq<RemoteCall>)
      requires Valid()
      modifies repo
      ensures Valid()
      ensures !(contextReady && online) ==> !ok && calls == [] && (repo != null ==> repo.binId == old(repo.binId))
      ensures contextReady && online ==>
        && calls == [Backup(ExportCall(old(repo.binId), TaskCollection(tasks, UserIdFor(user), now)))]
        && repo.binId == BinAfterExport(old(repo.binId), reply)
        && ok == ExportSucceeded(old(repo.binId), reply)
    {
      if !contextReady || !online {
        return false, [];
      }
      var call;
      ok, call := repo.SyncToJsonBin(tasks, user, now, reply);
      calls := [Backup(call)];
    }

    /**
     * `addTask`: appended to the list; cached with the deferred-sync flag;
     * pushed (then exported) only when it can sync now.
     */
    method AddTask(task: Task, user: Option<string>, online: bool, pushOk: bool, reply: Reply, now: Millis)
      returns (calls: seq<RemoteCall>)
      requires Valid()
      modifies this, local.dao, repo
      ensures Valid() && contextReady == old(contextReady) && repo == old(repo)
      ensures tasks == old(tasks) + [task]
      ensures local.Cache() == if local.dao == null then map[]
        else old(local.Cache())[task.id := FromTask(task, ShouldDeferSync(contextReady, user, online))]
      ensures pendingSyncIds ==
        if ShouldDeferSync(contextReady, user, online) || (CanSyncNow(contextReady, user, online) && !pushOk)
        then old(pendingSyncIds) + {task.id} else old(pendingSyncIds) - {task.id}
      ensures !CanSyncNow(contextReady, user, online) ==>
        calls == [] && (repo != null ==> repo.binId == old(repo.binId))
      ensures user.None? ==> calls == [] && task.id !in pendingSyncIds
      ensures CanSyncNow(contextReady, user, online) ==>
        && calls == [SetDoc(user.value, task),
                     Backup(ExportCall(old(repo.binId), TaskCollection(tasks, UserIdFor(user), now)))]
        && repo.binId == BinAfterExport(old(repo.binId), reply)
    {
      tasks := tasks + [task];
      var needsDeferredSync := ShouldDeferSync(contextReady, user, online);
      local.Upsert(task, needsDeferredSync);
      if needsDeferredSync {
        pendingSyncIds := pendingSyncIds + {task.id};
      } else {
        pendingSyncIds := pendingSyncIds - {task.id};
      }
      if CanSyncNow(contextReady, user, online) {
        calls := PushTaskToFirestore(task, user, pushOk);
        var _, backup := SyncToRestApi(user, online, reply, now);
        calls := calls + backup;
      } else {
        calls := [];
      }
    }

    /**
     * `updateTask`: an unknown id changes nothing; otherwise only the first
     * entry with that id is replaced, then cached and pushed as in `addTask`
     * (without the export).
     */
    method UpdateTask(updated: Task, user: Option<string>, online: bool, pushOk: bool)
      returns (calls: seq<RemoteCall>)
      requires Valid()
      modifies this, local.dao
      ensures Valid() && contextReady == old(contextReady) && repo == old(repo)
      ensures IndexOfFirst(old(tasks), updated.id) == -1 ==>
        && tasks == old(tasks) && pendingSyncIds == old(pendingSyncIds)
        && local.Cache() == old(local.Cache()) && calls == []
      ensures IndexOfFirst(old(tasks), updated.id) >= 0 ==>
        && tasks == old(tasks)[IndexOfFirst(old(tasks), updated.id) := updated]
        && local.Cache() == (if local.dao == null then map[]
             else old(local.Cache())[updated.id := FromTask(updated, ShouldDeferSync(contextReady, user, online))])
        && pendingSyncIds == (if ShouldDeferSync(contextReady, user, online) || (CanSyncNow(contextReady, user, online) && !pushOk)
             then old(pendingSyncIds) + {updated.id} else old(pendingSyncIds) - {updated.id})
        && calls == (if CanSyncNow(contextReady, user, online) then [SetDoc(user.value, updated)] else [])
      ensures |tasks| == |old(tasks)|
    {
      var index := IndexOfFirst(tasks, updated.id);
      if index == -1 {
        return [];
      }
      tasks := tasks[index := updated];
      var needsDeferredSync := ShouldDeferSync(contextReady, user, online);
      local.Upsert(updated, needsDeferredSync);
      if needsDeferredSync {
        pendingSyncIds := pendingSyncIds + {updated.id};
      } else {
        pendingSyncIds := pendingSyncIds - {updated.id};
      }
      if CanSyncNow(contextReady, user, online) {
        calls := PushTaskToFirestore(updated, user, pushOk);
      } else {
        calls := [];
      }
    }

    /**
     * `deleteTask`: refused for a signed-in user who cannot sync now; an id
     * not in the list changes nothing (even if the cache holds it); otherwise
     * gone from the list, the cache and the pending set.
     */
    method DeleteTask(taskId: string, user: Option<string>, online: bool) returns (calls: seq<RemoteCall>)
      requires Valid()
      modifies this, local.dao
      ensures Valid() && contextReady == old(contextReady) && repo == old(repo)
      ensures !CanDeleteWhileOffline(contextReady, user, online) ==>
        && tasks == old(tasks) && pendingSyncIds == old(pendingSyncIds)
        && local.Cache() == old(local.Cache()) && calls == []
      ensures IndexOfFirst(old(tasks), taskId) == -1 ==>
        && tasks == old(tasks) && pendingSyncIds == old(pendingSyncIds)
        && local.Cache() == old(local.Cache()) && calls == []
      ensures CanDeleteWhileOffline(contextReady, user, online) && IndexOfFirst(old(tasks), taskId) >= 0 ==>
        && tasks == WithoutId(old(tasks), taskId)
        && local.Cache() == old(local.Cache()) - {taskId}
        && pendingSyncIds == old(pendingSyncIds) - {taskId}
        && calls == (if user.Some? then [DeleteDoc(user.value, taskId)] else [])
    {
      var canDelete := CanDeleteWhileOffline(contextReady, user, online);
      if !canDelete {
        return [];
      }
      var removed := IndexOfFirst(tasks, taskId) != -1;
      ghost var before := tasks;
      tasks := WithoutId(tasks, taskId);
      if !removed {
        WithoutAbsentId(before, taskId);
        return [];
      }
      local.Delete(taskId);
      pendingSyncIds := pendingSyncIds - {taskId};
      calls := if user.Some? then [DeleteDoc(user.value, taskId)] else [];
    }

    /** `toggleTaskCompletion`: flips the first task with that id, then updates it. */
    method ToggleTaskCompletion(taskId: string, user: Option<string>, online: bool, pushOk: bool, now: Millis)
      returns (calls: seq<RemoteCall>)
      requires Valid()
      modifies this, local.dao
      ensures Valid() && contextReady == old(contextReady) && repo == old(repo)
      ensures IndexOfFirst(old(tasks), taskId) == -1 ==>
        && tasks == old(tasks) && pendingSyncIds == old(pendingSyncIds)
        && local.Cache() == old(local.Cache()) && calls == []
      ensures IndexOfFirst(old(tasks), taskId) >= 0 ==>
        var i := IndexOfFirst(old(tasks), taskId);
        && tasks == old(tasks)[i := Toggled(old(tasks)[i], now)]
        && tasks[i].isCompleted == !old(tasks)[i].isCompleted
        && CompletionConsistent(tasks[i])
        && local.Cache() == (if local.dao == null then map[]
             else old(local.Cache())[taskId := FromTask(tasks[i], ShouldDeferSync(contextReady, user, online))])
        && pendingSyncIds == (if ShouldDeferSync(contextReady, user, online) || (CanSyncNow(contextReady, user, online) && !pushOk)
             then old(pendingSyncIds) + {taskId} else old(pendingSyncIds) - {taskId})
        && calls == (if CanSyncNow(contextReady, user, online) then [SetDoc(user.value, tasks[i])] else [])
    {
      var index := IndexOfFirst(tasks, taskId);
      if index == -1 {
        return [];
      }
      var toggled := Toggled(tasks[index], now);
      calls := UpdateTask(toggled, user, online, pushOk);
    }

    /**
     * `loadTasksForUser`: for a signed-in user, every fetched task is cached
     * clean and the list reloaded from the cache; rows the fetch did not
     * return are kept.
     */
    method LoadTasksForUser(user: Option<string>, fetched: Option<seq<Task>>) returns (calls: seq<RemoteCall>)
      requires Valid()
      modifies this, local.dao
      ensures Valid() && contextReady == old(contextReady) && repo == old(repo)
      ensures user.None? ==> calls == []
      ensures user.Some? ==> calls == [ListDocs(user.value)]
      ensures user.None? || fetched.None? ==>
        tasks == old(tasks) && pendingSyncIds == old(pendingSyncIds) && local.Cache() == old(local.Cache())
      ensures user.Some? && fetched.Some? ==>
        && local.Cache() == (if local.dao == null then map[] else UpsertEach(old(local.Cache()), FromTasks(fetched.value, false)))
        && (local.dao != null ==> old(local.Cache()).Keys <= local.Cache().Keys)
        && Mirrors(tasks, local.Cache())
        && pendingSyncIds == PendingKeys(local.Cache())
    {
      if user.None? {
        return [];
      }
      calls := [ListDocs(user.value)];
      if fetched.None? {
        return;
      }
      var remote := fetched.value;
      var rows := FromTasks(remote, false);
      var i := 0;
      while i < |remote|
        invariant 0 <= i <= |remote|
        invariant Valid() && contextReady == old(contextReady) && repo == old(repo)
        invariant local.Cache() == if local.dao == null then map[] else UpsertEach(old(local.Cache()), rows[..i])
      {
        assert rows[..i + 1][..i] == rows[..i];
        local.Upsert(remote[i], false);
        i := i + 1;
      }
      assert rows[..|remote|] == rows;
      LoadFromLocal();
    }

    /**
     * `syncPendingTasks`: when it can sync, commits every flagged cache row
     * in one batch; on success clears their flags and pending ids and
     * exports; on failure clears nothing.
     */
    method SyncPendingTasks(user: Option<string>, online: bool, commitOk: bool, reply: Reply, now: Millis)
      returns (ok: bool, calls: seq<RemoteCall>)
      requires Valid()
      modifies this`pendingSyncIds, local.dao, repo
      ensures Valid() && repo == old(repo)
      ensures !CanSyncNow(contextReady, user, online) ==>
        && !ok && calls == []
        && pendingSyncIds == old(pendingSyncIds) && local.Cache() == old(local.Cache())
        && (repo != null ==> repo.binId == old(repo.binId))
      ensures CanSyncNow(contextReady, user, online) && PendingKeys(old(local.Cache())) == {} ==>
        && ok && calls == []
        && pendingSyncIds == old(pendingSyncIds) && local.Cache() == old(local.Cache())
        && repo.binId == old(repo.binId)
      ensures CanSyncNow(contextReady, user, online) && PendingKeys(old(local.Cache())) != {} ==>
        && ok == commitOk && |calls| >= 1 && calls[0].CommitBatch? && calls[0].uid == user.value
        && PendingBatch(calls[0].batch, old(local.Cache()))
      ensures CanSyncNow(contextReady, user, online) && PendingKeys(old(local.Cache())) != {} && commitOk ==>
        && local.Cache() == WithSyncFlag(old(local.Cache()), IdsOf(calls[0].batch), false)
        && PendingKeys(local.Cache()) == {}
        && pendingSyncIds == old(pendingSyncIds) - PendingKeys(old(local.Cache()))
        && calls == [calls[0], Backup(ExportCall(old(repo.binId), TaskCollection(tasks, UserIdFor(user), now)))]
        && repo.binId == BinAfterExport(old(repo.binId), reply)
      ensures CanSyncNow(contextReady, user, online) && PendingKeys(old(local.Cache())) != {} && !commitOk ==>
        && |calls| == 1
        && pendingSyncIds == old(pendingSyncIds) && local.Cache() == old(local.Cache())
        && repo.binId == old(repo.binId)
    {
      if !CanSyncNow(contextReady, user, online) {
        return false, [];
      }
      var pending := local.GetPendingSyncTasks();
      assert PendingBatch(pending, local.Cache());
      PendingBatchIds(pending, local.Cache());
      if pending == [] {
        return true, [];
      }
      calls := [CommitBatch(user.value, pending)];
      if commitOk {
        var pendingIds := IdsOf(pending);
        ghost var before := local.Cache();
        local.MarkSynced(pendingIds);
        WithSyncFlagEffect(before, pendingIds, false);
        pendingSyncIds := pendingSyncIds - (set k | k in pendingIds);
        var _, backup := SyncToRestApi(user, online, reply, now);
        calls := calls + backup;
        ok := true;
      } else {
        ok := false;
      }
    }

    /**
     * `loadFromRestApi`: when online, a bin that yields tasks replaces the
     * list, is cached clean, and empties the pending set; otherwise nothing
     * changes. `NetworkUtils.isOnline(appContext)` needs the context, so
     * this requires `initialize` to have run.
     */
    method LoadFromRestApi(online: bool, reply: Reply) returns (calls: seq<RemoteCall>)
      requires Valid() && contextReady
      modifies this`tasks, this`pendingSyncIds, local.dao
      ensures Valid() && repo == old(repo) && repo.binId == old(repo.binId)
      ensures !online ==> calls == [] && tasks == old(tasks) && pendingSyncIds == old(pendingSyncIds)
      ensures online ==> calls == if repo.binId.None? then [] else [Backup(GetBin(repo.binId.value))]
      ensures var loaded := if !online || repo.binId.None? then None else LoadedTasks(reply);
        && (loaded.Some? ==>
             tasks == loaded.value && pendingSyncIds == {}
             && local.Cache() == UpsertEach(old(local.Cache()), FromTasks(loaded.value, false)))
        && (loaded.None? ==>
             tasks == old(tasks) && pendingSyncIds == old(pendingSyncIds) && local.Cache() == old(local.Cache()))
    {
      if !online {
        return [];
      }
      var loaded, binCalls := repo.LoadFromJsonBin(reply);
      calls := if binCalls == [] then [] else [Backup(binCalls[0])];
      if loaded.Some? {
        tasks := loaded.value;
        local.CacheTasks(tasks);
        pendingSyncIds := {};
      }
    }

    /** `initializeSampleTasks`: a guest with an empty list gets the three demo tasks, kept local. */
    method InitializeSampleTasks(user: Option<string>, online: bool, ids: seq<string>,
                                 today: Millis, tomorrow: Millis, now: Millis)
      returns (calls: seq<RemoteCall>)
      requires Valid() && |ids| == 3
      modifies this, local.dao, repo
      ensures Valid() && calls == [] && repo == old(repo)
      ensures repo != null ==> repo.binId == old(repo.binId)
      ensures user.None? && old(tasks) == [] ==>
        var samples := SampleTasks(ids, today, tomorrow, now);
        && tasks == samples
        && local.Cache() == (if local.dao == null then map[]
             else old(local.Cache())[ids[0] := FromTask(samples[0], false)]
                                    [ids[1] := FromTask(samples[1], false)]
                                    [ids[2] := FromTask(samples[2], false)])
        && pendingSyncIds == old(pendingSyncIds) - {ids[0], ids[1], ids[2]}
      ensures !(user.None? && old(tasks) == []) ==>
        tasks == old(tasks) && pendingSyncIds == old(pendingSyncIds) && local.Cache() == old(local.Cache())
    {
      calls := [];
      if user.None? && tasks == [] {
        var samples := SampleTasks(ids, today, tomorrow, now);
        var c := AddTask(samples[0], user, online, false, NetworkFailure, now);
        c := AddTask(samples[1], user, online, false, NetworkFailure, now);
        c := AddTask(samples[2], user, online, false, NetworkFailure, now);
        assert tasks == [samples[0], samples[1], samples[2]];
      }
    }
  }

  /**
   * Offline then online: a signed-in user's task added while offline is
   * queued (pending in memory and flagged in the cache); a later successful
   * batch sync leaves its row clean with the same fields and nothing pending.
   */
  method OfflineAddThenSync(m: TaskManager, task: Task, uid: string, reply: Reply, now: Millis)
    returns (queued: bool, ok: bool)
    requires m.Valid() && m.contextReady
    modifies m, m.local.dao, m.repo
    ensures queued && ok
    ensures task.id in m.local.Cache() && m.local.Cache()[task.id] == FromTask(task, false)
    ensures task.id !in m.pendingSyncIds && PendingKeys(m.local.Cache()) == {}
  {
    var _ := m.AddTask(task, Some(uid), false, false, reply, now);
    queued := task.id in m.pendingSyncIds && task.id in PendingKeys(m.local.Cache());
    ghost var before := m.local.Cache();
    var calls;
    ok, calls := m.SyncPendingTasks(Some(uid), true, true, reply, now);
    WithSyncFlagEffect(before, IdsOf(calls[0].batch), false);
    PendingBatchIds(calls[0].batch, before);
    assert task.id in (set k | k in IdsOf(calls[0].batch));
  }

  /**
   * A failed single push only records the id in memory: the cache row stays
   * clean, so a later batch sync finds nothing to send and reports success
   * while the id is still counted as pending.
   */
  method FailedPushNotRetried(m: TaskManager, task: Task, uid: string, reply: Reply, now: Millis)
    returns (ok: bool, calls: seq<RemoteCall>)
    requires m.Valid() && m.contextReady && PendingKeys(m.local.Cache()) == {}
    modifies m, m.local.dao, m.repo
    ensures ok && calls == []
    ensures task.id in m.pendingSyncIds && m.GetPendingSyncCount() > 0
    ensures task.id in m.local.Cache() && !m.local.Cache()[task.id].needsSync
  {
    ghost var before := m.local.Cache();
    var _ := m.AddTask(task, Some(uid), true, false, reply, now);
    assert m.local.Cache() == before[task.id := FromTask(task, false)];
    forall k | k in m.local.Cache()
      ensures !m.local.Cache()[k].needsSync
    {
      if k != task.id {
        assert k !in PendingKeys(before);
      }
    }
    ok, calls := m.SyncPendingTasks(Some(uid), true, true, reply, now);
  }
}
