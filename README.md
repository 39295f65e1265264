# EasyPlan offline-first task store, in Dafny

This project models the task store of the EasyPlan Android app and proves
properties of the model. The store has four layers:

- **The task record** (`Tasks`). It holds the defaults and the two status
  transitions. Priority and category strings convert to enums with a fallback.
- **The local cache** (`Entities`, `Dao`, `LocalDataSource`).
  - The cache is a table of rows keyed by task id. Each row carries a
    `needsSync` flag.
  - The table supports a replace-on-conflict upsert, a bulk upsert, delete by
    id, and a bulk flag update.
  - Two ordered queries read it: every row newest first, and the flagged rows
    oldest first.
  - A wrapper around the table does nothing, and reads nothing, until its
    table is bound.
- **The backup bin** (`Repository`). It stores one bin id. An export creates
  a bin when no id is stored; it keeps the returned id only if the create
  succeeded and the reply carries one. Otherwise the export overwrites the
  stored bin. An import fails at once when no id is stored.
- **The sync coordinator** (`Manager`). It keeps an in-memory task list and a
  set of ids awaiting sync. Each change decides whether to defer the task,
  push it or refuse, based on three inputs: sign-in, connectivity and
  whether the context is initialised.

`Statistics` models the integer parts of the task statistics: counts, the
grouping by category, the capped productivity score, the level thresholds,
the filters and the completion streak. `Biometric` models the app-lock
preference logic.

Everything outside the store is an input:

- The signed-in user is an `Option<string>` uid.
- Connectivity is a `bool`.
- "Now" and day boundaries are integer milliseconds.
- Each remote request's outcome is a parameter: a push or commit succeeded,
  a bin reply, or the fetched documents. Its callback runs straight after
  the request.

Every coordinator and repository method returns the remote requests it
issued, so a contract can say that nothing was sent. `Table` is a
`map<string, TaskEntity>`. The two queries are methods. Tasks that share a
creation time can come back in any order, so each query is specified by
what it returns: each row exactly once, ordered by `createdAtMillis`.

Two behaviours of the code, as written, are modelled and shown by the
scenario methods at the end of `Manager.dfy`:

- `OfflineAddThenSync`: a task added offline by a signed-in user is flagged.
  A later successful batch sync leaves its row clean and nothing pending.
- `FailedPushNotRetried`: a failed single push only adds the id to the
  in-memory set. The cache row stays clean, so the next batch sync sends
  nothing and still reports success.

`loadTasksForUser` upserts the fetched rows and never deletes rows that exist
only locally.

## Model

| member | source | states |
|---|---|---|
| Tasks.NewTask | app/src/main/java/com/easyplan/data/Task.kt:34-45 | a task with every optional field at its default: empty description, no due date or time, not completed, no completion time, priority "medium", category "personal", color "#2196F3" |
| Tasks.MarkCompleted | app/src/main/java/com/easyplan/data/Task.kt:118-121 | completed and stamped with `now`; every other field unchanged; `completedAt` set iff completed |
| Tasks.MarkIncomplete | app/src/main/java/com/easyplan/data/Task.kt:126-129 | not completed and `completedAt` cleared; every other field unchanged |
| Tasks.CompleteThenIncomplete | app/src/main/java/com/easyplan/data/Task.kt:118-129 | on an open task, marking incomplete undoes marking complete |
| Tasks.PriorityFromString | app/src/main/java/com/easyplan/data/Task.kt:70-80 | the constant whose value is the string, MEDIUM for any other string |
| Tasks.PriorityRoundTrip | app/src/main/java/com/easyplan/data/Task.kt:70-80 | `fromString(p.value) == p` for every priority |
| Tasks.CategoryFromString | app/src/main/java/com/easyplan/data/Task.kt:85-103 | the constant whose value is the string, PERSONAL for any other string |
| Tasks.CategoryRoundTrip | app/src/main/java/com/easyplan/data/Task.kt:85-103 | `fromString(c.value) == c` for every category |
| Entities.ToTask | app/src/main/java/com/easyplan/local/TaskEntity.kt:29-41 | keeps the id and creation time; a null due or completion time stays null |
| Entities.FromTask | app/src/main/java/com/easyplan/local/TaskEntity.kt:44-57 | the row carries exactly the given flag; null times stay null |
| Entities.FromTaskDefault | app/src/main/java/com/easyplan/local/TaskEntity.kt:44 | the flag defaults to false |
| Entities.TaskRoundTrip | app/src/main/java/com/easyplan/local/TaskEntity.kt:29-57 | `toTask(fromTask(t, b)) == t` for every flag |
| Entities.EntityRoundTrip | app/src/main/java/com/easyplan/local/TaskEntity.kt:29-57 | `fromTask(toTask(e), e.needsSync) == e` |
| Entities.FromTaskInjective | app/src/main/java/com/easyplan/local/TaskEntity.kt:44-57 | equal rows come from equal tasks and flags |
| Dao.OrderedRows | app/src/main/java/com/easyplan/local/TaskDao.kt:18-22 | lists every row of the table exactly once, ordered by creation time in the requested direction |
| Dao.ListingIds | app/src/main/java/com/easyplan/local/TaskDao.kt:18-22 | the ids of a listing of the table are each key exactly once, in the same order |
| Dao.UpsertEachKeyed | app/src/main/java/com/easyplan/local/TaskDao.kt:24-28 | replace-on-conflict upserts keep every row under its own id |
| Dao.UpsertEachLastWins | app/src/main/java/com/easyplan/local/TaskDao.kt:27-28 | after a bulk upsert, an id's row is its last occurrence in the list |
| Dao.UpsertEachOthers | app/src/main/java/com/easyplan/local/TaskDao.kt:27-28 | a bulk upsert leaves every id it does not mention untouched |
| Dao.WithSyncFlagEffect | app/src/main/java/com/easyplan/local/TaskDao.kt:33-34 | the flag update sets the flag on exactly the listed ids and changes no other field or row; clearing removes exactly those ids from the pending rows |
| Dao.TaskDao.GetAllTasks | app/src/main/java/com/easyplan/local/TaskDao.kt:18-19 | every row exactly once, newest first |
| Dao.TaskDao.GetPendingSyncTasks | app/src/main/java/com/easyplan/local/TaskDao.kt:21-22 | exactly the flagged rows, oldest first |
| Dao.TaskDao.Upsert | app/src/main/java/com/easyplan/local/TaskDao.kt:24-25 | the table with the row stored under its id, inserted or replaced |
| Dao.TaskDao.UpsertAll | app/src/main/java/com/easyplan/local/TaskDao.kt:27-28 | the same table as upserting each row in order |
| Dao.TaskDao.DeleteById | app/src/main/java/com/easyplan/local/TaskDao.kt:30-31 | that row removed; an absent id leaves the table unchanged |
| Dao.TaskDao.UpdateSyncState | app/src/main/java/com/easyplan/local/TaskDao.kt:33-34 | the table after setting the flag on the listed ids |
| LocalDataSource.TaskLocalDataSource.Initialize | app/src/main/java/com/easyplan/local/TaskLocalDataSource.kt:16-21 | binds the table only if none is bound yet |
| LocalDataSource.TaskLocalDataSource.CacheTasks | app/src/main/java/com/easyplan/local/TaskLocalDataSource.kt:23-27 | every given task upserted in order with the flag false; nothing happens while unbound |
| LocalDataSource.TaskLocalDataSource.Upsert | app/src/main/java/com/easyplan/local/TaskLocalDataSource.kt:29-33 | the task stored with exactly the given flag; nothing happens while unbound |
| LocalDataSource.TaskLocalDataSource.Delete | app/src/main/java/com/easyplan/local/TaskLocalDataSource.kt:35-39 | the row for the id removed; nothing happens while unbound |
| LocalDataSource.TaskLocalDataSource.GetAllTasks | app/src/main/java/com/easyplan/local/TaskLocalDataSource.kt:41-46 | every cached row as a task, newest first; empty while unbound |
| LocalDataSource.TaskLocalDataSource.GetAllEntities | app/src/main/java/com/easyplan/local/TaskLocalDataSource.kt:48-51 | every cached row, newest first; empty while unbound |
| LocalDataSource.TaskLocalDataSource.GetPendingSyncTasks | app/src/main/java/com/easyplan/local/TaskLocalDataSource.kt:53-58 | the flagged rows as tasks, oldest first; empty while unbound |
| LocalDataSource.TaskLocalDataSource.GetPendingSyncIds | app/src/main/java/com/easyplan/local/TaskLocalDataSource.kt:60-63 | the ids of the flagged rows, oldest first, as the pending-task query lists them; empty while unbound |
| LocalDataSource.TaskLocalDataSource.MarkSynced | app/src/main/java/com/easyplan/local/TaskLocalDataSource.kt:65-70 | an empty list does nothing; otherwise the flag is cleared on exactly the listed ids |
| Repository.UserIdFor | app/src/main/java/com/easyplan/repository/TaskRepository.kt:65-69 | the exported collection's user id is the current uid, or "guest" without one |
| Repository.ExportCall | app/src/main/java/com/easyplan/repository/TaskRepository.kt:71-81 | a create exactly when no bin id is stored, otherwise an update of the stored bin; never both |
| Repository.BinAfterExport | app/src/main/java/com/easyplan/repository/TaskRepository.kt:71-118 | a stored id never changes; without one, the id a successful create returned, if any |
| Repository.StoredBinOnlyUpdated | app/src/main/java/com/easyplan/repository/TaskRepository.kt:71-81 | once an id is stored, every later export is an update of that bin |
| Repository.CreateAtMostOnce | app/src/main/java/com/easyplan/repository/TaskRepository.kt:71-118 | from no bin, the first export creates one; after a create that returned an id, no later export creates |
| Repository.TaskRepository.SyncToJsonBin | app/src/main/java/com/easyplan/repository/TaskRepository.kt:64-82 | issues the create-or-update request for the whole list and leaves the stored id as a create or update leaves it |
| Repository.TaskRepository.CreateNewBin | app/src/main/java/com/easyplan/repository/TaskRepository.kt:87-118 | reports true and stores the id only if the reply is a success carrying `metadata.id`; otherwise false, id unchanged |
| Repository.TaskRepository.UpdateExistingBin | app/src/main/java/com/easyplan/repository/TaskRepository.kt:120-145 | an update of the given bin; true iff the reply is a success; the stored id is not touched |
| Repository.TaskRepository.LoadFromJsonBin | app/src/main/java/com/easyplan/repository/TaskRepository.kt:147-183 | no stored id: no request and no tasks; otherwise one read of the stored bin, giving the record's tasks on success and nothing on an error or network failure |
| Repository.TaskRepository.GetBinId | app/src/main/java/com/easyplan/repository/TaskRepository.kt:216 | the stored bin id, absent when none is stored; `ClearBinId` makes it absent |
| Repository.TaskRepository.ClearBinId | app/src/main/java/com/easyplan/repository/TaskRepository.kt:216-224 | no id stored afterwards, so the next export creates a new bin |
| Manager.CanSyncNow | app/src/main/java/com/easyplan/util/TaskManager.kt:60-61 | sync runs only when the context is initialised, a user is signed in and the device is online; `Manager.SyncPolicy` relates it to deferral |
| Manager.ShouldDeferSync | app/src/main/java/com/easyplan/util/TaskManager.kt:63-64 | a change is deferred only for a signed-in user who is offline or not yet initialised; `Manager.SyncPolicy` proves it excludes syncing |
| Manager.CanDeleteWhileOffline | app/src/main/java/com/easyplan/util/TaskManager.kt:295 | deleting is allowed for a guest or a user who can sync now; `Manager.SyncPolicy` proves it is the negation of deferral |
| Manager.SyncPolicy | app/src/main/java/com/easyplan/util/TaskManager.kt:60-64 | a guest neither syncs nor defers; a signed-in user does exactly one of the two; deleting is allowed exactly when a change would not be deferred |
| Manager.IndexOfFirst | app/src/main/java/com/easyplan/util/TaskManager.kt:186 | the first index with that id, or -1 iff no entry has it |
| Manager.WithoutId | app/src/main/java/com/easyplan/util/TaskManager.kt:211 | exactly the entries with another id remain |
| Manager.WithoutAbsentId | app/src/main/java/com/easyplan/util/TaskManager.kt:211-215 | removing an id no entry has leaves the list as it was |
| Manager.Toggled | app/src/main/java/com/easyplan/util/TaskManager.kt:223-231 | the completion flag flips, `completedAt` is set iff completed, and nothing else changes |
| Manager.ToggleTwice | app/src/main/java/com/easyplan/util/TaskManager.kt:223-231 | toggling twice restores the flag, and restores an open task exactly |
| Manager.PendingBatchIds | app/src/main/java/com/easyplan/util/TaskManager.kt:265-283 | the batch read from the cache names exactly the flagged ids and is empty iff none is flagged |
| Manager.SampleTasks | app/src/main/java/com/easyplan/util/TaskManager.kt:297-329 | three open, medium-priority demo tasks under the given ids |
| Manager.TaskManager.Initialize | app/src/main/java/com/easyplan/util/TaskManager.kt:37-45 | binds the cache and creates the repository only once, then reloads from the cache |
| Manager.TaskManager.LoadFromLocal | app/src/main/java/com/easyplan/util/TaskManager.kt:47-58 | the list is the cache rows as tasks, newest first; the pending set is exactly the flagged ids |
| Manager.TaskManager.GetPendingSyncCount | app/src/main/java/com/easyplan/util/TaskManager.kt:66-68 | zero iff nothing is pending |
| Manager.TaskManager.GetTasksForDate | app/src/main/java/com/easyplan/util/TaskManager.kt:176-179 | exactly the tasks whose due date falls on the same calendar day as `date` |
| Manager.TaskManager.PushTaskToFirestore | app/src/main/java/com/easyplan/util/TaskManager.kt:89-110 | without a user nothing is sent; on success the row is stored clean and the id leaves the pending set; on failure only the id is added |
| Manager.TaskManager.SyncToRestApi | app/src/main/java/com/easyplan/util/TaskManager.kt:127-146 | skipped and reports false unless initialised and online; otherwise one export of the whole list |
| Manager.TaskManager.AddTask | app/src/main/java/com/easyplan/util/TaskManager.kt:70-87 | appended; cached with the flag true exactly when signed in and unable to sync; pending iff deferred or the push failed; a push and export only when it can sync; a guest sends nothing and leaves nothing pending |
| Manager.TaskManager.UpdateTask | app/src/main/java/com/easyplan/util/TaskManager.kt:185-202 | an unknown id changes nothing; otherwise only the first matching entry is replaced, the length is kept, and the task is cached, marked pending and pushed as when adding, without an export; the repository is untouched |
| Manager.TaskManager.DeleteTask | app/src/main/java/com/easyplan/util/TaskManager.kt:204-221 | refused with nothing changed for a signed-in user who cannot sync; an unknown id changes nothing; otherwise every entry with the id leaves the list, the cache and the pending set, and a signed-in user's delete is sent; the repository is untouched |
| Manager.TaskManager.ToggleTaskCompletion | app/src/main/java/com/easyplan/util/TaskManager.kt:223-231 | an unknown id changes nothing; otherwise the first matching task flips its flag and keeps `completedAt` set iff completed, is cached with the flag true exactly when deferred, is pending iff deferred or its push failed, and is pushed only when it can sync; the repository is untouched |
| Manager.TaskManager.LoadTasksForUser | app/src/main/java/com/easyplan/util/TaskManager.kt:233-257 | a guest sends nothing; fetched tasks are cached clean without removing any row, and the list and pending set are reloaded from the cache; a failed fetch changes nothing; the repository is untouched |
| Manager.TaskManager.SyncPendingTasks | app/src/main/java/com/easyplan/util/TaskManager.kt:259-293 | false with no change, bin id included, unless it can sync; true with no change when nothing is flagged; otherwise one batch of exactly the flagged rows, and on success their flags and pending ids are cleared and an export follows whose effect on the bin id is stated, while on failure nothing is cleared |
| Manager.TaskManager.LoadFromRestApi | app/src/main/java/com/easyplan/util/TaskManager.kt:148-172 | offline changes nothing; imported tasks replace the list, are cached clean, and empty the pending set; no import changes nothing; the stored bin id is untouched |
| Manager.TaskManager.InitializeSampleTasks | app/src/main/java/com/easyplan/util/TaskManager.kt:297-329 | a guest with an empty list gets the three demo tasks, each cached clean and not pending, without any remote request; otherwise nothing changes; the bin id is untouched |
| Manager.OfflineAddThenSync | app/src/main/java/com/easyplan/util/TaskManager.kt:259-293 | a signed-in user's offline task is queued, and a later successful sync leaves its row clean with nothing pending |
| Manager.FailedPushNotRetried | app/src/main/java/com/easyplan/util/TaskManager.kt:89-110 | after a failed single push the row stays clean, so the next batch sync sends nothing and reports true while the id is still pending |
| Statistics.Categories | app/src/main/java/com/easyplan/util/TaskStatistics.kt:67 | the categories present, each once |
| Statistics.CategoriesFirstOccurrence | app/src/main/java/com/easyplan/util/TaskStatistics.kt:67 | the categories come in order of first appearance: of two listed categories, some task of the earlier one precedes every task of the later one |
| Statistics.CategoryCounts | app/src/main/java/com/easyplan/util/TaskStatistics.kt:67-68 | one pair per category present, in the order of `Categories` (first appearance, by CategoriesFirstOccurrence), with the number of tasks in that category |
| Statistics.CategoryCountsSum | app/src/main/java/com/easyplan/util/TaskStatistics.kt:67-68 | the per-category counts sum to the number of tasks |
| Statistics.CalculateStatistics | app/src/main/java/com/easyplan/util/TaskStatistics.kt:53-123 | total is the list size, completed the completed count, pending their difference and never negative; each priority count is the number of tasks with that priority, and high + medium + low is at most the total; the category map is CategoryCounts of the tasks and sums to the total; today's, this week's and this month's completions are the completed, stamped tasks after each cut-off, ordered as their cut-offs; the score is ProductivityScore of those counts and at most 100 |
| Statistics.CompletedCountsOrdered | app/src/main/java/com/easyplan/util/TaskStatistics.kt:71-88 | a later cut-off never counts more completions, and none counts more than all completed tasks |
| Statistics.RatePoints | app/src/main/java/com/easyplan/util/TaskStatistics.kt:139 | the completion-rate component is at most 40 |
| Statistics.ProductivityScore | app/src/main/java/com/easyplan/util/TaskStatistics.kt:129-154 | at most 100, and below the cap the sum of the components capped at 40/20/20/10/10 |
| Statistics.ProductivityLevel | app/src/main/java/com/easyplan/util/TaskStatistics.kt:279-287 | one level per band of 20 points, from 80 up the top level |
| Statistics.LabelsDistinct | app/src/main/java/com/easyplan/util/TaskStatistics.kt:279-287 | the five returned labels are pairwise different, so the label names the level's band |
| Statistics.ProductivityLevelMonotone | app/src/main/java/com/easyplan/util/TaskStatistics.kt:279-287 | a higher score never gives a lower level |
| Statistics.GetTasksByPriority | app/src/main/java/com/easyplan/util/TaskStatistics.kt:159-161 | exactly the tasks with that priority |
| Statistics.GetTasksByPriorityKeepsOrder | app/src/main/java/com/easyplan/util/TaskStatistics.kt:159-161 | the filter distributes over concatenation, so the original order is kept |
| Statistics.GetTasksByCategory | app/src/main/java/com/easyplan/util/TaskStatistics.kt:166-168 | exactly the tasks in that category |
| Statistics.StreakBound | app/src/main/java/com/easyplan/util/TaskStatistics.kt:220 | the streak counted from day `i` is at most the days left in the year-long window |
| Statistics.NoCompletionNoStreak | app/src/main/java/com/easyplan/util/TaskStatistics.kt:212-215 | without a completed, stamped task the streak is 0 |
| Statistics.GetCompletionStreak | app/src/main/java/com/easyplan/util/TaskStatistics.kt:211-236 | the streak the day-by-day definition gives; at most 365; 0 when nothing is completed |
| Seqs.Filter | app/src/main/java/com/easyplan/util/TaskStatistics.kt:160 | keeps exactly the elements that satisfy the predicate, and no more of them than the input has |
| Seqs.CountDisjoint3 | app/src/main/java/com/easyplan/util/TaskStatistics.kt:62-64 | three mutually exclusive conditions count at most the whole list |
| Seqs.CountMonotone | app/src/main/java/com/easyplan/util/TaskStatistics.kt:75-88 | a weaker condition counts at least as many elements |
| Biometric.BiometricPrefs.IsEnabledForCurrentUser | app/src/main/java/com/easyplan/security/BiometricHelper.kt:59-64 | the flag is set, the saved uid is non-empty, and it equals the current uid; `EnabledOnlyForSavedUser` proves at most one user qualifies |
| Biometric.BiometricPrefs.ShouldPromptForBiometrics | app/src/main/java/com/easyplan/security/BiometricHelper.kt:66-71 | a user is signed in and the lock is on for them; `NoPromptWithoutUser` proves no prompt without a user |
| Biometric.BiometricPrefs.SetEnabled | app/src/main/java/com/easyplan/security/BiometricHelper.kt:45-57 | the flag is set as asked; turning on records a non-empty current uid, or keeps the saved one without a user; turning off removes the uid, so no user is enabled |
| Biometric.BiometricPrefs.EnabledOnlyForSavedUser | app/src/main/java/com/easyplan/security/BiometricHelper.kt:59-64 | at most one user, with a non-empty uid, is enabled |
| Biometric.BiometricPrefs.NoPromptWithoutUser | app/src/main/java/com/easyplan/security/BiometricHelper.kt:66-71 | no prompt without a signed-in user; prompting is the same as enabled-for-this-user |

## Left out

- Activities, fragments and notifications are not part of this model. They
  are UI and OS wiring.
- Firebase Auth, Firestore, Retrofit and `NetworkUtils` become inputs. The
  user uid, connectivity and each request's outcome are parameters, and
  requests are reported as values. Firestore's conversion of documents to
  tasks (`mapNotNull` of `toObject`) is the `fetched` list itself.
- Callbacks are modelled as running straight after their request. Concurrent
  or interleaved callbacks, threads and the connectivity listener are not
  modelled.
- Task objects are values. The source mutates the task found by
  `toggleTaskCompletion` in place, and any other holder of that object sees
  the change. The model instead replaces the list entry with a new value.
- Dates are integer milliseconds with no 64-bit bound. `Date()` and
  `System.currentTimeMillis` are `now` parameters. UUID generation is
  replaced by ids that are given.
- Manager.TaskManager.GetTasksForDate: `SimpleDateFormat` is the parameter
  `dayOf`, a function from milliseconds to the formatted day, so locale and
  time-zone formatting are not modelled.
- Statistics.GetCompletionStreak: day boundaries are `today - i * 86400000`,
  so calendar days of other lengths, such as at daylight-saving changes, are
  not modelled.
- Statistics.RatePoints: `(completionRate * 0.4).toInt()` is computed as
  `(40 * completed) / total` on exact integers. Float rounding of the rate is
  not modelled.
- Statistics.CalculateStatistics: `completionRate`, `averageCompletionTime`
  and `formatCompletionRate` are floating-point and not modelled. The
  category map is a list of (category, count) pairs, in order of first
  appearance as `groupBy` builds it.
- The date-window filters `getOverdueTasks`, `getTasksDueToday` and
  `getTasksDueThisWeek` are Calendar computations and not part of this
  model.
- Manager.TaskManager.LoadFromRestApi requires the context to be
  initialised. Before `initialize`, the connectivity check reads an
  uninitialised `lateinit` property and throws.
- The "repository missing" branches of `syncToRestApi` and
  `loadFromRestApi`, and the missing-uid return in `syncPendingTasks`, cannot
  be reached under the model's invariant: the repository exists exactly when
  the context is initialised. They are not modelled.
- The outcome of `pushDeleteToFirestore` only produces a log line, so it is
  not a parameter.
- `TaskRepository.syncToFirestore` is not called by the coordinator and is
  not part of this model.
- Logging is not modelled, including the log line in `loadFromLocal`'s catch
  block. Room exceptions are not modelled either.
- `getAllTasks`, `getTodayTasks` and `getJsonBinId` of the coordinator are
  plain reads of the list, of `getTasksForDate` and of the stored bin id, and
  are not separate members.
- `isBiometricAvailable`, `buildPromptInfo` and `createPrompt` are Android
  API plumbing and are not part of this model.
