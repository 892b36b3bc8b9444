/**
 * The `groups` table behind `DatabaseStorage`, as an in-memory table: the
 * rows in table order and the serial counter that hands out ids. The SQL the
 * adapter issues is modelled by what it means here: `where id = ?` selects
 * the rows with that id, `returning` hands back the rows written.
 */
module Storage {
  import opened Wrappers
  import opened Schema

  /** The first row whose id is `id`: `const [group] = select ... where id = ?`. */
  function Find(rows: seq<Group>, id: int): (r: Option<Group>)
    ensures r.Some? ==> r.value in rows && r.value.id == id
    ensures r.None? <==> forall g :: g in rows ==> g.id != id
  {
    if |rows| == 0 then None
    else if rows[0].id == id then Some(rows[0])
    else Find(rows[1..], id)
  }

  /** No two rows share an id (the `id` column is the primary key). */
  predicate UniqueIds(rows: seq<Group>)
  {
    forall i, j :: 0 <= i < j < |rows| ==> rows[i].id != rows[j].id
  }

  /** With unique ids, the row found is the one row carrying that id. */
  lemma {:induction false} FindUnique(rows: seq<Group>, g: Group)
    requires UniqueIds(rows) && g in rows
    ensures Find(rows, g.id) == Some(g)
  {
    if rows[0] != g {
      assert g in rows[1..];
      var k :| 1 <= k < |rows| && rows[k] == g;
      assert rows[0].id != g.id;
      FindUnique(rows[1..], g);
    }
  }

  /** `update groups set ... where id = ?`: the patch applied to every row with that id. */
  function UpdateRows(rows: seq<Group>, id: int, p: GroupPatch): (r: seq<Group>)
    ensures |r| == |rows|
    ensures forall i :: 0 <= i < |rows| ==>
      r[i] == if rows[i].id == id then ApplyPatch(rows[i], p) else rows[i]
  {
    if |rows| == 0 then []
    else [if rows[0].id == id then ApplyPatch(rows[0], p) else rows[0]] + UpdateRows(rows[1..], id, p)
  }

  /** `delete from groups where id = ?`: the rows with other ids, in their order. */
  function DeleteRows(rows: seq<Group>, id: int): (r: seq<Group>)
    ensures forall g :: g in r <==> g in rows && g.id != id
    ensures (forall g :: g in rows ==> g.id != id) ==> r == rows
    ensures |r| <= |rows|
  {
    if |rows| == 0 then []
    else if rows[0].id == id then DeleteRows(rows[1..], id)
    else [rows[0]] + DeleteRows(rows[1..], id)
  }

  /** The table: its rows, in table order, and the next value of the `id` serial. */
  datatype Table = Table(rows: seq<Group>, nextId: int)

  /** Ids are unique, start at 1 and are all below the serial's next value. */
  ghost predicate TableValid(t: Table)
  {
    && 1 <= t.nextId
    && UniqueIds(t.rows)
    && forall g :: g in t.rows ==> 1 <= g.id < t.nextId
  }

  /** The empty table of a fresh database. */
  const EmptyTable: Table := Table([], 1)

  /** `insert into groups values (...) returning *`. */
  function InsertRow(t: Table, input: InsertGroup): (r: (Table, Group))
    ensures r.0.rows == t.rows + [r.1] && r.0.nextId == t.nextId + 1
    ensures r.1.id == t.nextId && Fields(r.1) == input
  {
    var g := WithId(input, t.nextId);
    (Table(t.rows + [g], t.nextId + 1), g)
  }

  /** `update groups set ... where id = ? returning *`, keeping the first returned row. */
  function UpdateRow(t: Table, id: int, p: GroupPatch): (r: (Table, Option<Group>))
    ensures r.0.nextId == t.nextId && |r.0.rows| == |t.rows|
    ensures r.1.None? <==> forall g :: g in t.rows ==> g.id != id
    ensures r.1.Some? ==> r.1.value.id == id && r.1.value in r.0.rows
  {
    var returned := match Find(t.rows, id)
      case None => None
      case Some(g) => Some(ApplyPatch(g, p));
    (Table(UpdateRows(t.rows, id, p), t.nextId), returned)
  }

  /** `delete from groups where id = ?`. */
  function DeleteRow(t: Table, id: int): (r: Table)
    ensures r.nextId == t.nextId
    ensures forall g :: g in r.rows <==> g in t.rows && g.id != id
  {
    Table(DeleteRows(t.rows, id), t.nextId)
  }

  /**
   * `createGroup` adds exactly one row, carrying the input and an id no
   * existing row has, and returns it; looking that id up finds it.
   */
  lemma InsertRowSound(t: Table, input: InsertGroup)
    requires TableValid(t)
    ensures var (t', g) := InsertRow(t, input);
      && TableValid(t')
      && t'.rows == t.rows + [g]
      && Fields(g) == input
      && (forall h :: h in t.rows ==> h.id != g.id)
      && Find(t'.rows, g.id) == Some(g)
  {
    var (t', g) := InsertRow(t, input);
    assert forall h :: h in t.rows ==> h.id != g.id;
    assert UniqueIds(t'.rows) by {
      forall i, j | 0 <= i < j < |t'.rows| ensures t'.rows[i].id != t'.rows[j].id {
        if j == |t.rows| {
          assert t'.rows[i] in t.rows;
        } else {
          assert t'.rows[i] == t.rows[i] && t'.rows[j] == t.rows[j];
        }
      }
    }
    FindUnique(t'.rows, g);
  }

  /** Updating keeps every row's id, so the table stays valid. */
  lemma UpdateRowValid(t: Table, id: int, p: GroupPatch)
    requires TableValid(t)
    ensures TableValid(UpdateRow(t, id, p).0)
  {
    var r := UpdateRows(t.rows, id, p);
    assert forall i :: 0 <= i < |r| ==> r[i].id == t.rows[i].id;
    forall g | g in r ensures 1 <= g.id < t.nextId {
      var i :| 0 <= i < |r| && r[i] == g;
      assert t.rows[i] in t.rows;
    }
  }

  /**
   * `updateGroup(id, u)` overwrites the fields present in `u` on the row with
   * that id and returns it; every other row is unchanged. On an absent id it
   * changes nothing and returns nothing.
   */
  lemma UpdateRowSound(t: Table, id: int, p: GroupPatch)
    requires TableValid(t)
    ensures var (t', r) := UpdateRow(t, id, p);
      && TableValid(t')
      && t'.nextId == t.nextId
      && (Find(t.rows, id).None? ==> t' == t && r.None?)
      && (forall g :: g in t.rows && g.id != id ==> g in t'.rows)
      && (forall g :: g in t'.rows && g.id != id ==> g in t.rows)
      && (Find(t.rows, id).Some? ==>
            r == Some(ApplyPatch(Find(t.rows, id).value, p)) && Find(t'.rows, id) == r)
  {
    UpdateRowValid(t, id, p);
    UpdateKeepsOthers(t.rows, id, p);
    UpdateFindsPatched(t, id, p);
  }

  /** Rows with another id are exactly those of the table before the update. */
  lemma UpdateKeepsOthers(rows: seq<Group>, id: int, p: GroupPatch)
    ensures forall g :: g in rows && g.id != id ==> g in UpdateRows(rows, id, p)
    ensures forall g :: g in UpdateRows(rows, id, p) && g.id != id ==> g in rows
  {
    var r := UpdateRows(rows, id, p);
    forall g | g in rows && g.id != id ensures g in r {
      var i :| 0 <= i < |rows| && rows[i] == g;
      assert r[i] == g;
    }
    forall g | g in r && g.id != id ensures g in rows {
      var i :| 0 <= i < |r| && r[i] == g;
      assert rows[i] == g;
    }
  }

  /** An update of an absent id changes nothing; of a present id, the patched row is then found. */
  lemma UpdateFindsPatched(t: Table, id: int, p: GroupPatch)
    requires TableValid(t)
    ensures Find(t.rows, id).None? ==> UpdateRows(t.rows, id, p) == t.rows
    ensures Find(t.rows, id).Some? ==>
      Find(UpdateRows(t.rows, id, p), id) == Some(ApplyPatch(Find(t.rows, id).value, p))
  {
    var r := UpdateRows(t.rows, id, p);
    if Find(t.rows, id).None? {
      assert r == t.rows;
    } else {
      var g := Find(t.rows, id).value;
      var i :| 0 <= i < |t.rows| && t.rows[i] == g;
      assert r[i] == ApplyPatch(g, p);
      UpdateRowValid(t, id, p);
      FindUnique(r, ApplyPatch(g, p));
    }
  }

  /** Applying the same update twice leaves the same table as applying it once. */
  lemma UpdateRowIdempotent(t: Table, id: int, p: GroupPatch)
    ensures var t1 := UpdateRow(t, id, p).0;
      UpdateRow(t1, id, p).0 == t1
  {
    var t1 := UpdateRow(t, id, p).0;
    var t2 := UpdateRow(t1, id, p).0;
    forall i | 0 <= i < |t.rows| ensures t2.rows[i] == t1.rows[i] {
      ApplyPatchSound(t.rows[i], p);
    }
  }

  /**
   * `deleteGroup(id)` removes the row with that id and no other; on an
   * absent id it is a no-op. The table stays valid.
   */
  lemma DeleteRowSound(t: Table, id: int)
    requires TableValid(t)
    ensures var t' := DeleteRow(t, id);
      && TableValid(t')
      && t'.nextId == t.nextId
      && Find(t'.rows, id).None?
      && (forall g :: g in t'.rows <==> g in t.rows && g.id != id)
      && (Find(t.rows, id).None? ==> t' == t)
      && (Find(t.rows, id).Some? ==> |t'.rows| == |t.rows| - 1)
  {
    DeleteRowsUnique(t.rows, id);
    if Find(t.rows, id).Some? {
      DeleteRowsCount(t.rows, id);
    }
  }

  /** The rows after the first of a table with unique ids: unique, and none shares the first's id. */
  lemma TailUnique(rows: seq<Group>)
    requires UniqueIds(rows) && |rows| > 0
    ensures UniqueIds(rows[1..])
    ensures forall g :: g in rows[1..] ==> g.id != rows[0].id
  {
    forall i, j | 0 <= i < j < |rows[1..]| ensures rows[1..][i].id != rows[1..][j].id {
      assert rows[1..][i] == rows[i + 1] && rows[1..][j] == rows[j + 1];
    }
    forall g | g in rows[1..] ensures g.id != rows[0].id {
      var k :| 0 <= k < |rows[1..]| && rows[1..][k] == g;
      assert rows[k + 1] == g;
    }
  }

  /** A row whose id no other row has can be put in front of a table with unique ids. */
  lemma ConsUnique(g: Group, rest: seq<Group>)
    requires UniqueIds(rest) && forall h :: h in rest ==> h.id != g.id
    ensures UniqueIds([g] + rest)
  {
    var r := [g] + rest;
    forall i, j | 0 <= i < j < |r| ensures r[i].id != r[j].id {
      assert r[j] == rest[j - 1];
      if i > 0 {
        assert r[i] == rest[i - 1];
      }
    }
  }

  /** Deleting keeps ids unique. */
  lemma {:induction false} DeleteRowsUnique(rows: seq<Group>, id: int)
    requires UniqueIds(rows)
    ensures UniqueIds(DeleteRows(rows, id))
  {
    if |rows| > 0 {
      TailUnique(rows);
      DeleteRowsUnique(rows[1..], id);
      if rows[0].id != id {
        ConsUnique(rows[0], DeleteRows(rows[1..], id));
      }
    }
  }

  /** With unique ids, deleting a present id removes exactly one row. */
  lemma {:induction false} DeleteRowsCount(rows: seq<Group>, id: int)
    requires UniqueIds(rows) && Find(rows, id).Some?
    ensures |DeleteRows(rows, id)| == |rows| - 1
  {
    TailUnique(rows);
    if rows[0].id != id {
      DeleteRowsCount(rows[1..], id);
    }
  }

  /** Deleting twice leaves the same table as deleting once. */
  lemma DeleteRowIdempotent(t: Table, id: int)
    ensures DeleteRow(DeleteRow(t, id), id) == DeleteRow(t, id)
  {
  }

  /** The table the `storage` singleton stands for. */
  class GroupStore {
    var rows: seq<Group>
    var nextId: int

    ghost predicate Valid()
      reads this
    {
      TableValid(Table(rows, nextId))
    }

    function Value(): Table
      reads this
    {
      Table(rows, nextId)
    }

    constructor ()
      ensures Valid() && Value() == EmptyTable
    {
      rows := [];
      nextId := 1;
    }

    /** `getGroups`: every row of the table. */
    method GetGroups() returns (groups: seq<Group>)
      ensures groups == rows
    {
      groups := rows;
    }

    /** `getGroup(id)`: the row with that id, or nothing when there is none. */
    method GetGroup(id: int) returns (group: Option<Group>)
      requires Valid()
      ensures group.Some? ==> group.value in rows && group.value.id == id
      ensures group.None? <==> forall g :: g in rows ==> g.id != id
      ensures forall g :: g in rows && g.id == id ==> group == Some(g)
    {
      group := Find(rows, id);
      forall g | g in rows && g.id == id ensures group == Some(g) {
        FindUnique(rows, g);
      }
    }

    /** `createGroup(input)`: one new row with a fresh serial id, returned. */
    method CreateGroup(input: InsertGroup) returns (group: Group)
      requires Valid()
      modifies this
      ensures Valid()
      ensures (Value(), group) == InsertRow(old(Value()), input)
      ensures forall g :: g in old(rows) ==> g.id != group.id
    {
      InsertRowSound(Value(), input);
      group := WithId(input, nextId);
      rows := rows + [group];
      nextId := nextId + 1;
    }

    /** `updateGroup(id, updates)`: the updated row, or nothing when no row has that id. */
    method UpdateGroup(id: int, updates: GroupPatch) returns (updated: Option<Group>)
      requires Valid()
      modifies this
      ensures Valid()
      ensures (Value(), updated) == UpdateRow(old(Value()), id, updates)
    {
      UpdateRowValid(Value(), id, updates);
      var found := Find(rows, id);
      rows := UpdateRows(rows, id, updates);
      updated := if found.Some? then Some(ApplyPatch(found.value, updates)) else None;
    }

    /** `deleteGroup(id)`: the row with that id is gone; an absent id is no error. */
    method DeleteGroup(id: int)
      requires Valid()
      modifies this
      ensures Valid()
      ensures Value() == DeleteRow(old(Value()), id)
    {
      DeleteRowSound(Value(), id);
      rows := DeleteRows(rows, id);
    }
  }
}
