/**
 * The editable record table of frontend/src/components/DataGrid.jsx: the
 * optimistic cell update that is reverted when the save fails, the delete of
 * a row by id, and the colour of the proficiency badge. The server's answer
 * is a parameter (`saved`, `deleted`), and `setData` replaces the grid's
 * `data` field.
 */
module DataGrid {
  import opened Wrappers
  import opened Seqs

  /** A cell value of a row object. */
  datatype Cell = Text(text: string) | Number(number: int)

  /** A row is a JavaScript object: column name to cell value. */
  type Row = map<string, Cell>

  /** `row.id === rowId`. */
  predicate HasId(row: Row, rowId: Cell) {
    "id" in row && row["id"] == rowId
  }

  function IdIs(rowId: Cell): Row -> bool {
    row => HasId(row, rowId)
  }

  /** `data.findIndex(row => row.id === rowId)`: the first row with the id, or -1. */
  function FindIndex(rows: seq<Row>, rowId: Cell): (i: int)
    ensures -1 <= i < |rows|
    ensures i == -1 <==> forall k :: 0 <= k < |rows| ==> !HasId(rows[k], rowId)
    ensures i >= 0 ==> HasId(rows[i], rowId) && forall k :: 0 <= k < i ==> !HasId(rows[k], rowId)
  {
    FindFirst(rows, IdIs(rowId))
  }

  /**
   * The optimistic table: a copy of `rows` whose row with the id is replaced
   * by `{ ...oldRow, [columnId]: newValue }`.
   */
  function Optimistic(rows: seq<Row>, rowId: Cell, columnId: string, newValue: Cell): (r: seq<Row>)
    requires FindIndex(rows, rowId) >= 0
    ensures |r| == |rows|
    ensures var i := FindIndex(rows, rowId);
      && (forall k :: 0 <= k < |rows| && k != i ==> r[k] == rows[k])
      && r[i].Keys == rows[i].Keys + {columnId}
      && r[i][columnId] == newValue
      && (forall c :: c in rows[i] && c != columnId ==> r[i][c] == rows[i][c])
  {
    var i := FindIndex(rows, rowId);
    rows[i := rows[i][columnId := newValue]]
  }

  /** Unless the edited column is `id` itself, the edited row is still the one found by its id. */
  lemma OptimisticKeepsRowFound(rows: seq<Row>, rowId: Cell, columnId: string, newValue: Cell)
    requires FindIndex(rows, rowId) >= 0 && columnId != "id"
    ensures FindIndex(Optimistic(rows, rowId, columnId, newValue), rowId) == FindIndex(rows, rowId)
  {
    var i := FindIndex(rows, rowId);
    var r := Optimistic(rows, rowId, columnId, newValue);
    assert HasId(r[i], rowId);
    forall k | 0 <= k < i ensures !HasId(r[k], rowId) {
      assert r[k] == rows[k];
    }
    FindFirstIsFirst(r, IdIs(rowId), i);
  }

  /** Putting the captured old row back into the captured table gives that table exactly. */
  lemma RevertUndoesOptimistic(rows: seq<Row>, rowId: Cell, columnId: string, newValue: Cell)
    requires FindIndex(rows, rowId) >= 0
    ensures var i := FindIndex(rows, rowId);
      Optimistic(rows, rowId, columnId, newValue)[i := rows[i]] == rows
  {
    var i := FindIndex(rows, rowId);
    var r := Optimistic(rows, rowId, columnId, newValue)[i := rows[i]];
    assert forall k :: 0 <= k < |rows| ==> r[k] == rows[k];
  }

  function KeepOther(rowId: Cell): Row -> bool {
    row => !HasId(row, rowId)
  }

  /** `prev.filter(row => row.id !== rowId)`. */
  function WithoutRow(rows: seq<Row>, rowId: Cell): (r: seq<Row>)
    ensures IsSubsequence(r, rows)
    ensures forall k :: 0 <= k < |r| ==> !HasId(r[k], rowId)
  {
    FilterIsSubsequence(rows, KeepOther(rowId));
    Filter(rows, KeepOther(rowId))
  }

  /** Deleting drops every row with the id and keeps every other row as often as it occurred. */
  lemma WithoutRowMultiplicity(rows: seq<Row>, rowId: Cell, row: Row)
    ensures multiset(WithoutRow(rows, rowId))[row] == if HasId(row, rowId) then 0 else multiset(rows)[row]
  {
    FilterMultiplicity(rows, KeepOther(rowId), row);
  }

  /** Deleting an id no row carries changes nothing. */
  lemma WithoutAbsentRow(rows: seq<Row>, rowId: Cell)
    requires FindIndex(rows, rowId) == -1
    ensures WithoutRow(rows, rowId) == rows
  {
    FilterAllKept(rows, KeepOther(rowId));
  }

  /** `updateStatus`: `null`, `'saving'`, `'success'` or `'error'`. */
  datatype UpdateStatus = Idle | Saving | Success | Failure

  /** `editingCell`: `{ rowId, columnId, value }`. */
  datatype EditingCell = EditingCell(rowId: Cell, columnId: string, value: Cell)

  /** What `handleCellUpdate` captures before it awaits the server: the table and the row index. */
  datatype PendingUpdate = PendingUpdate(before: seq<Row>, index: nat)

  class Grid {
    var data: seq<Row>
    var updateStatus: UpdateStatus
    var editingCell: Option<EditingCell>

    constructor (rows: seq<Row>)
      ensures data == rows && updateStatus == Idle && editingCell == None
    {
      data := rows;
      updateStatus := Idle;
      editingCell := None;
    }

    /**
     * `handleCellUpdate` up to the `await`: the optimistic table is shown and
     * the status is `'saving'`. The row must exist.
     */
    method BeginCellUpdate(rowId: Cell, columnId: string, newValue: Cell) returns (p: PendingUpdate)
      requires FindIndex(data, rowId) >= 0
      modifies this
      ensures p == PendingUpdate(old(data), FindIndex(old(data), rowId))
      ensures data == Optimistic(old(data), rowId, columnId, newValue)
      ensures updateStatus == Saving && editingCell == old(editingCell)
    {
      var rowIndex := FindIndex(data, rowId);
      var oldRow := data[rowIndex];
      var newRow := oldRow[columnId := newValue];
      var newData := data;
      newData := newData[rowIndex := newRow];
      p := PendingUpdate(data, rowIndex);
      data := newData;
      updateStatus := Saving;
    }

    /**
     * `handleCellUpdate` after the `await`: on success the optimistic table
     * stays and the status is `'success'`; on failure the captured table is
     * restored exactly and the status is `'error'`. The edit ends either way.
     */
    method FinishCellUpdate(p: PendingUpdate, saved: bool)
      requires p.index < |p.before|
      modifies this
      ensures data == if saved then old(data) else p.before
      ensures updateStatus == if saved then Success else Failure
      ensures editingCell == None
    {
      if saved {
        updateStatus := Success;
      } else {
        var oldRow := p.before[p.index];
        var revertedData := p.before;
        revertedData := revertedData[p.index := oldRow];
        data := revertedData;
        updateStatus := Failure;
      }
      editingCell := None;
    }

    /** The whole `handleCellUpdate`, with the server's answer as `saved`. */
    method HandleCellUpdate(rowId: Cell, columnId: string, newValue: Cell, saved: bool)
      requires FindIndex(data, rowId) >= 0
      modifies this
      ensures data == if saved then Optimistic(old(data), rowId, columnId, newValue) else old(data)
      ensures updateStatus == if saved then Success else Failure
      ensures editingCell == None
    {
      var p := BeginCellUpdate(rowId, columnId, newValue);
      FinishCellUpdate(p, saved);
    }

    /**
     * `handleDelete`: only when the user confirms and the server deletes are
     * the rows with the id dropped; otherwise nothing changes.
     */
    method HandleDelete(rowId: Cell, confirmed: bool, deleted: bool)
      modifies this
      ensures data == if confirmed && deleted then WithoutRow(old(data), rowId) else old(data)
      ensures updateStatus == old(updateStatus) && editingCell == old(editingCell)
    {
      if confirmed {
        if deleted {
          data := WithoutRow(data, rowId);
        }
      }
    }
  }

  /** The proficiency badge colours. */
  datatype Badge = Red | Yellow | Green

  /** Green from 4 up, yellow from 3 up, red below. */
  function BadgeColor(level: int): (b: Badge)
    ensures b == Green <==> level >= 4
    ensures b == Yellow <==> 3 <= level < 4
    ensures b == Red <==> level < 3
  {
    if level >= 4 then Green else if level >= 3 then Yellow else Red
  }

  function BadgeRank(b: Badge): nat {
    match b
    case Red => 0
    case Yellow => 1
    case Green => 2
  }

  /** A higher level never gets a lower badge. */
  lemma BadgeColorMonotonic(a: int, b: int)
    requires a <= b
    ensures BadgeRank(BadgeColor(a)) <= BadgeRank(BadgeColor(b))
  {
  }
}
