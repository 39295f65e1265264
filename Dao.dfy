/**
 * The cache table behind app/src/main/java/com/easyplan/local/TaskDao.kt:
 * rows keyed by task id, REPLACE-on-conflict inserts, delete by id, a bulk
 * flag update, and the two ordered queries.
 */
module Dao {
  import opened Tasks
  import opened Entities

  type Table = map<string, TaskEntity>

  /** The primary key: every row is stored under its own id. */
  predicate KeyedById(m: Table)
  {
    forall k :: k in m ==> m[k].id == k
  }

  /** `needsSync = 1`: the rows still waiting to be pushed. */
  function PendingRows(m: Table): (p: Table)
    ensures p.Keys <= m.Keys
    ensures forall k :: k in p <==> k in m && m[k].needsSync
    ensures forall k :: k in p ==> p[k] == m[k]
  {
    map k | k in m && m[k].needsSync :: m[k]
  }

  /** The ids of the pending rows. */
  function PendingKeys(m: Table): set<string>
  {
    PendingRows(m).Keys
  }

  /** `a` may come before `b` in a listing ordered by `createdAtMillis`. */
  predicate InOrder(a: TaskEntity, b: TaskEntity, descending: bool)
  {
    if descending then a.createdAtMillis >= b.createdAtMillis
    else a.createdAtMillis <= b.createdAtMillis
  }

  /** `ORDER BY createdAtMillis DESC` (or `ASC`). */
  predicate Ordered(r: seq<TaskEntity>, descending: bool)
  {
    forall i, j :: 0 <= i < j < |r| ==> InOrder(r[i], r[j], descending)
  }

  /** `r` lists every row of `m` whose id is in `done`, each exactly once. */
  predicate ListsSome(r: seq<TaskEntity>, m: Table, done: set<string>)
  {
    && (forall i :: 0 <= i < |r| ==> r[i].id in done && r[i].id in m && m[r[i].id] == r[i])
    && (forall i, j :: 0 <= i < j < |r| ==> r[i].id != r[j].id)
    && (forall k :: k in done ==> exists i :: 0 <= i < |r| && r[i].id == k)
  }

  /** `r` lists every row of `m` exactly once. */
  predicate Lists(r: seq<TaskEntity>, m: Table)
  {
    ListsSome(r, m, m.Keys)
  }

  /** Inserting a row not yet listed, anywhere, lists one row more. */
  lemma InsertStep(r: seq<TaskEntity>, m: Table, done: set<string>, p: nat, e: TaskEntity)
    requires ListsSome(r, m, done)
    requires e.id in m && m[e.id] == e && e.id !in done
    requires p <= |r|
    ensures ListsSome(r[..p] + [e] + r[p..], m, done + {e.id})
  {
    var s := r[..p] + [e] + r[p..];
    assert |s| == |r| + 1;
    assert s[p] == e;
    assert forall i :: 0 <= i < p ==> s[i] == r[i];
    assert forall i :: p < i < |s| ==> s[i] == r[i - 1];
    forall i | 0 <= i < |s|
      ensures s[i].id in done + {e.id} && s[i].id in m && m[s[i].id] == s[i]
    {
      if i != p {
        assert s[i] == r[if i < p then i else i - 1];
      }
    }
    forall i, j | 0 <= i < j < |s|
      ensures s[i].id != s[j].id
    {
      if i != p && j != p {
        assert s[i] == r[if i < p then i else i - 1];
        assert s[j] == r[if j < p then j else j - 1];
      } else if i == p {
        assert s[j] == r[j - 1];
      } else {
        assert s[i] == r[i];
      }
    }
    forall k | k in done + {e.id}
      ensures exists i :: 0 <= i < |s| && s[i].id == k
    {
      if k == e.id {
        assert s[p].id == k;
      } else {
        var i :| 0 <= i < |r| && r[i].id == k;
        if i < p {
          assert s[i].id == k;
        } else {
          assert s[i + 1].id == k;
        }
      }
    }
  }

  /** Inserts `e` into the ordered list `r` after every row that may precede it. */
  method InsertOrdered(r: seq<TaskEntity>, e: TaskEntity, descending: bool)
    returns (s: seq<TaskEntity>, p: nat)
    requires Ordered(r, descending)
    ensures p <= |r| && s == r[..p] + [e] + r[p..]
    ensures Ordered(s, descending)
  {
    p := 0;
    while p < |r| && InOrder(r[p], e, descending)
      invariant 0 <= p <= |r|
      invariant forall i :: 0 <= i < p ==> InOrder(r[i], e, descending)
    {
      p := p + 1;
    }
    s := r[..p] + [e] + r[p..];
    assert forall i :: 0 <= i < p ==> s[i] == r[i];
    assert forall i :: p < i < |s| ==> s[i] == r[i - 1];
  }

  /**
   * The result of a SELECT over the whole of `m`, ordered by creation time;
   * rows with equal creation times come in an unspecified order.
   */
  method OrderedRows(m: Table, descending: bool) returns (r: seq<TaskEntity>)
    requires KeyedById(m)
    ensures Lists(r, m)
    ensures Ordered(r, descending)
  {
    var left := m.Keys;
    r := [];
    while left != {}
      invariant left <= m.Keys
      invariant ListsSome(r, m, m.Keys - left)
      invariant Ordered(r, descending)
      decreases left
    {
      var k :| k in left;
      var p;
      var before := r;
      r, p := InsertOrdered(r, m[k], descending);
      InsertStep(before, m, m.Keys - left, p, m[k]);
      assert (m.Keys - left) + {k} == m.Keys - (left - {k});
      left := left - {k};
    }
    assert m.Keys - left == m.Keys;
  }

  /** The ids of a list of rows, in order: the ids of the rows read as tasks. */
  function EntityIds(es: seq<TaskEntity>): (ids: seq<string>)
    ensures |ids| == |es|
    ensures forall i :: 0 <= i < |es| ==> ids[i] == es[i].id
  {
    IdsOf(ToTasks(es))
  }

  /** `ids` names every row of `m` exactly once, ordered by creation time. */
  predicate ListsIds(ids: seq<string>, m: Table, descending: bool)
  {
    && (forall i :: 0 <= i < |ids| ==> ids[i] in m)
    && (forall i, j :: 0 <= i < j < |ids| ==> ids[i] != ids[j])
    && (forall k :: k in m ==> k in ids)
    && (forall i, j :: 0 <= i < j < |ids| ==> InOrder(m[ids[i]], m[ids[j]], descending))
  }

  /** The ids of an ordered listing of `m` are an ordered listing of its keys. */
  lemma ListingIds(es: seq<TaskEntity>, m: Table, descending: bool)
    requires Lists(es, m) && Ordered(es, descending)
    ensures ListsIds(EntityIds(es), m, descending)
  {
    var ids := EntityIds(es);
    forall k | k in m
      ensures k in ids
    {
      var i :| 0 <= i < |es| && es[i].id == k;
      assert ids[i] == k;
    }
  }

  /** Upserting the rows of `es` one after another, the later winning. */
  function UpsertEach(m: Table, es: seq<TaskEntity>): (r: Table)
    ensures forall k :: k in r <==> k in m || exists i :: 0 <= i < |es| && es[i].id == k
  {
    if es == [] then m
    else
      var last := es[|es| - 1];
      var r' := UpsertEach(m, es[..|es| - 1]);
      assert forall i :: 0 <= i < |es| - 1 ==> es[..|es| - 1][i] == es[i];
      r'[last.id := last]
  }

  /** Upserting keeps the primary key. */
  lemma {:induction false} UpsertEachKeyed(m: Table, es: seq<TaskEntity>)
    requires KeyedById(m)
    ensures KeyedById(UpsertEach(m, es))
  {
    if es != [] {
      UpsertEachKeyed(m, es[..|es| - 1]);
    }
  }

  /** After upserting `es`, the row for an id in `es` is its last occurrence. */
  lemma {:induction false} UpsertEachLastWins(m: Table, es: seq<TaskEntity>, i: nat)
    requires i < |es|
    requires forall j :: i < j < |es| ==> es[j].id != es[i].id
    ensures es[i].id in UpsertEach(m, es) && UpsertEach(m, es)[es[i].id] == es[i]
  {
    if i < |es| - 1 {
      var front := es[..|es| - 1];
      assert front[i] == es[i];
      assert forall j :: i < j < |front| ==> front[j] == es[j];
      UpsertEachLastWins(m, front, i);
    }
  }

  /** Upserting `es` leaves every row whose id is not in `es` untouched. */
  lemma {:induction false} UpsertEachOthers(m: Table, es: seq<TaskEntity>, k: string)
    requires forall i :: 0 <= i < |es| ==> es[i].id != k
    ensures k in UpsertEach(m, es) <==> k in m
    ensures k in m ==> UpsertEach(m, es)[k] == m[k]
  {
    if es != [] {
      var front := es[..|es| - 1];
      assert forall i :: 0 <= i < |front| ==> front[i] == es[i];
      UpsertEachOthers(m, front, k);
    }
  }

  /** `UPDATE tasks SET needsSync = :f WHERE id IN (:ids)`. */
  function WithSyncFlag(m: Table, ids: seq<string>, f: bool): (r: Table)
    ensures r.Keys == m.Keys
  {
    map k | k in m :: if k in ids then m[k].(needsSync := f) else m[k]
  }

  /**
   * The bulk flag update touches only the flag, and only on the listed ids;
   * clearing it removes exactly those ids from the pending rows.
   */
  lemma WithSyncFlagEffect(m: Table, ids: seq<string>, f: bool)
    ensures forall k :: k in m ==>
      WithSyncFlag(m, ids, f)[k].needsSync == (if k in ids then f else m[k].needsSync)
    ensures forall k :: k in m ==>
      WithSyncFlag(m, ids, f)[k] == m[k].(needsSync := WithSyncFlag(m, ids, f)[k].needsSync)
    ensures KeyedById(m) ==> KeyedById(WithSyncFlag(m, ids, f))
    ensures !f ==> PendingKeys(WithSyncFlag(m, ids, f)) == PendingKeys(m) - (set k | k in ids)
  {
  }

  class TaskDao {
    var rows: Table

    ghost predicate Valid()
      reads this
    {
      KeyedById(rows)
    }

    constructor ()
      ensures Valid() && rows == map[]
    {
      rows := map[];
    }

    /** `SELECT * FROM tasks ORDER BY createdAtMillis DESC`. */
    method GetAllTasks() returns (r: seq<TaskEntity>)
      requires Valid()
      ensures Lists(r, rows) && Ordered(r, true)
    {
      r := OrderedRows(rows, true);
    }

    /** `SELECT * FROM tasks WHERE needsSync = 1 ORDER BY createdAtMillis ASC`. */
    method GetPendingSyncTasks() returns (r: seq<TaskEntity>)
      requires Valid()
      ensures Lists(r, PendingRows(rows)) && Ordered(r, false)
      ensures forall i :: 0 <= i < |r| ==> r[i].needsSync
    {
      r := OrderedRows(PendingRows(rows), false);
    }

    /** `@Insert(onConflict = REPLACE)` of one row. */
    method Upsert(e: TaskEntity)
      requires Valid()
      modifies this
      ensures Valid()
      ensures rows == old(rows)[e.id := e]
    {
      rows := rows[e.id := e];
    }

    /** `@Insert(onConflict = REPLACE)` of a list: the rows in order. */
    method UpsertAll(es: seq<TaskEntity>)
      requires Valid()
      modifies this
      ensures Valid()
      ensures rows == UpsertEach(old(rows), es)
    {
      var i := 0;
      while i < |es|
        invariant 0 <= i <= |es|
        invariant rows == UpsertEach(old(rows), es[..i])
        invariant Valid()
      {
        assert es[..i + 1][..i] == es[..i];
        rows := rows[es[i].id := es[i]];
        i := i + 1;
      }
      assert es[..|es|] == es;
    }

    /** `DELETE FROM tasks WHERE id = :taskId`; an absent id changes nothing. */
    method DeleteById(id: string)
      requires Valid()
      modifies this
      ensures Valid()
      ensures rows == old(rows) - {id}
      ensures id !in old(rows) ==> rows == old(rows)
    {
      rows := rows - {id};
    }

    /** `UPDATE tasks SET needsSync = :needsSync WHERE id IN (:taskIds)`. */
    method UpdateSyncState(ids: seq<string>, needsSync: bool)
      requires Valid()
      modifies this
      ensures Valid()
      ensures rows == WithSyncFlag(old(rows), ids, needsSync)
    {
      WithSyncFlagEffect(rows, ids, needsSync);
      rows := WithSyncFlag(rows, ids, needsSync);
    }
  }
}
