/**
 * The in-memory status lookup: the list of (id, code) rows as loaded, and
 * one index by code and one by id. A later row overwrites an earlier one
 * with the same code or id.
 */
module StatusCache {
  import opened Options
  import opened Statuses

  /** One row of the status table. */
  datatype StatusRow = StatusRow(id: int, code: string)

  datatype Cache = Cache(statuses: seq<StatusRow>, byCode: map<string, StatusRow>, byId: map<int, StatusRow>)

  /** Loading one more row: append it and let it win both indexes. */
  function Add(c: Cache, row: StatusRow): Cache
  {
    Cache(c.statuses + [row], c.byCode[row.code := row], c.byId[row.id := row])
  }

  /** The cache built from `rows`, in list order. */
  function Load(rows: seq<StatusRow>): (c: Cache)
    ensures c.statuses == rows
    ensures forall code :: code in c.byCode ==> c.byCode[code].code == code
    ensures forall id :: id in c.byId ==> c.byId[id].id == id
    decreases |rows|
  {
    if rows == [] then Cache([], map[], map[])
    else
      var init := rows[..|rows| - 1];
      assert init + [rows[|rows| - 1]] == rows;
      Add(Load(init), rows[|rows| - 1])
  }

  function GetIdByCode(c: Cache, code: string): Option<int>
  {
    if code in c.byCode then Some(c.byCode[code].id) else None
  }

  function GetCodeById(c: Cache, id: int): Option<string>
  {
    if id in c.byId then Some(c.byId[id].code) else None
  }

  /** The rows as loaded, in order and with duplicates. */
  function GetAllStatuses(c: Cache): seq<StatusRow>
  {
    c.statuses
  }

  /** The id of an enum case, looked up by its backing code. */
  function GetIdByEnum(c: Cache, s: Status): Option<int>
  {
    GetIdByCode(c, Code(s))
  }

  /** `rows[i]` is the last row with code `code`. */
  predicate LastWithCode(rows: seq<StatusRow>, i: int, code: string)
  {
    0 <= i < |rows| && rows[i].code == code &&
    forall j :: i < j < |rows| ==> rows[j].code != code
  }

  /** `rows[i]` is the last row with id `id`. */
  predicate LastWithId(rows: seq<StatusRow>, i: int, id: int)
  {
    0 <= i < |rows| && rows[i].id == id &&
    forall j :: i < j < |rows| ==> rows[j].id != id
  }

  /**
   * A code resolves to the id of the last loaded row with that code, and
   * to nothing when no row has it.
   */
  lemma {:induction false} GetIdByCodeIsLast(rows: seq<StatusRow>, code: string)
    ensures GetIdByCode(Load(rows), code).None? <==>
      forall i :: 0 <= i < |rows| ==> rows[i].code != code
    ensures forall i :: LastWithCode(rows, i, code) ==> GetIdByCode(Load(rows), code) == Some(rows[i].id)
    decreases |rows|
  {
    if rows != [] {
      var init := rows[..|rows| - 1];
      var last := rows[|rows| - 1];
      assert Load(rows) == Add(Load(init), last);
      assert forall i :: 0 <= i < |init| ==> init[i] == rows[i];
      GetIdByCodeIsLast(init, code);
      if last.code == code {
        assert GetIdByCode(Load(rows), code) == Some(last.id);
        assert forall i :: LastWithCode(rows, i, code) ==> i == |rows| - 1;
      } else {
        assert GetIdByCode(Load(rows), code) == GetIdByCode(Load(init), code);
        forall i | LastWithCode(rows, i, code) ensures GetIdByCode(Load(rows), code) == Some(rows[i].id) {
          assert LastWithCode(init, i, code);
        }
      }
    }
  }

  /**
   * An id resolves to the code of the last loaded row with that id, and to
   * nothing when no row has it.
   */
  lemma {:induction false} GetCodeByIdIsLast(rows: seq<StatusRow>, id: int)
    ensures GetCodeById(Load(rows), id).None? <==>
      forall i :: 0 <= i < |rows| ==> rows[i].id != id
    ensures forall i :: LastWithId(rows, i, id) ==> GetCodeById(Load(rows), id) == Some(rows[i].code)
    decreases |rows|
  {
    if rows != [] {
      var init := rows[..|rows| - 1];
      var last := rows[|rows| - 1];
      assert Load(rows) == Add(Load(init), last);
      assert forall i :: 0 <= i < |init| ==> init[i] == rows[i];
      GetCodeByIdIsLast(init, id);
      if last.id == id {
        assert GetCodeById(Load(rows), id) == Some(last.code);
        assert forall i :: LastWithId(rows, i, id) ==> i == |rows| - 1;
      } else {
        assert GetCodeById(Load(rows), id) == GetCodeById(Load(init), id);
        forall i | LastWithId(rows, i, id) ensures GetCodeById(Load(rows), id) == Some(rows[i].code) {
          assert LastWithId(init, i, id);
        }
      }
    }
  }

  /** An enum case resolves through its backing code: to the last row carrying that code. */
  lemma GetIdByEnumIsLast(rows: seq<StatusRow>, s: Status)
    ensures GetIdByEnum(Load(rows), s).None? <==>
      forall i :: 0 <= i < |rows| ==> rows[i].code != Code(s)
    ensures forall i :: LastWithCode(rows, i, Code(s)) ==> GetIdByEnum(Load(rows), s) == Some(rows[i].id)
  {
    GetIdByCodeIsLast(rows, Code(s));
  }

  /** No two rows share an id, and no two share a code. */
  predicate UniqueRows(rows: seq<StatusRow>)
  {
    forall i, j :: 0 <= i < j < |rows| ==> rows[i].id != rows[j].id && rows[i].code != rows[j].code
  }

  /** With unique rows the two lookups are inverse on every loaded row. */
  lemma LookupsInverse(rows: seq<StatusRow>, i: int)
    requires UniqueRows(rows) && 0 <= i < |rows|
    ensures GetIdByCode(Load(rows), rows[i].code) == Some(rows[i].id)
    ensures GetCodeById(Load(rows), rows[i].id) == Some(rows[i].code)
  {
    assert LastWithCode(rows, i, rows[i].code);
    assert LastWithId(rows, i, rows[i].id);
    GetIdByCodeIsLast(rows, rows[i].code);
    GetCodeByIdIsLast(rows, rows[i].id);
  }

  /** The empty cache resolves nothing. */
  lemma EmptyCacheResolvesNothing(code: string, id: int, s: Status)
    ensures GetIdByCode(Load([]), code).None?
    ensures GetCodeById(Load([]), id).None?
    ensures GetIdByEnum(Load([]), s).None?
    ensures GetAllStatuses(Load([])) == []
  {
  }

  /**
   * The row loaded last wins both indexes, whatever rows came before it,
   * and every row stays listed.
   */
  lemma LastWriteWins(rows: seq<StatusRow>, row: StatusRow)
    ensures GetIdByCode(Load(rows + [row]), row.code) == Some(row.id)
    ensures GetCodeById(Load(rows + [row]), row.id) == Some(row.code)
    ensures GetAllStatuses(Load(rows + [row])) == rows + [row]
  {
    assert (rows + [row])[..|rows|] == rows;
  }
}
