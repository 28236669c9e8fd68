/**
 * A stand-in for the spreadsheet library: a sheet is a map from row index to
 * the row's cell texts, and `CreateRow` replaces the row at an index.
 */
module Spreadsheet {
  type Rows = map<nat, seq<string>>

  /** Row indices `start`, ..., `start + n - 1`. */
  function RowRange(start: nat, n: nat): (r: set<nat>)
    ensures forall k :: k in r <==> start <= k < start + n
    ensures |r| == n
    decreases n
  {
    if n == 0 then {} else RowRange(start, n - 1) + {start + n - 1}
  }

  /** `rows` with `block[i]` written at row `start + i`, for every `i`, first to last. */
  function Place(rows: Rows, start: nat, block: seq<seq<string>>): Rows
    decreases |block|
  {
    if block == [] then rows
    else Place(rows, start, block[..|block| - 1])[start + |block| - 1 := block[|block| - 1]]
  }

  /**
   * After placing, the rows are the old ones and those of the block; the
   * block's rows hold its entries and every other old row is kept.
   */
  lemma {:induction false} PlaceSpec(rows: Rows, start: nat, block: seq<seq<string>>)
    ensures var r := Place(rows, start, block);
      && (forall k :: k in r <==> k in rows || start <= k < start + |block|)
      && (forall i :: 0 <= i < |block| ==> r[start + i] == block[i])
      && (forall k :: k in rows && !(start <= k < start + |block|) ==> r[k] == rows[k])
    decreases |block|
  {
    if block != [] {
      PlaceSpec(rows, start, block[..|block| - 1]);
    }
  }

  /** A block placed after every existing row adds its rows and keeps the others. */
  lemma PlaceAfter(rows: Rows, start: nat, block: seq<seq<string>>)
    requires forall k :: k in rows ==> k < start
    ensures var r := Place(rows, start, block);
      && |r.Keys| == |rows| + |block|
      && (forall k :: k in r <==> k in rows || start <= k < start + |block|)
      && (forall k :: k in rows ==> k in r && r[k] == rows[k])
      && (forall i :: 0 <= i < |block| ==> start + i in r && r[start + i] == block[i])
  {
    PlaceSpec(rows, start, block);
    PlaceSize(rows, start, block);
  }

  /** A block placed below every existing row adds exactly its length to the row count. */
  lemma PlaceSize(rows: Rows, start: nat, block: seq<seq<string>>)
    requires forall k :: k in rows ==> k < start
    ensures |Place(rows, start, block).Keys| == |rows| + |block|
  {
    PlaceSpec(rows, start, block);
    assert rows.Keys !! RowRange(start, |block|);
    assert Place(rows, start, block).Keys == rows.Keys + RowRange(start, |block|);
  }

  /** A sheet of a workbook. */
  class Sheet {
    const name: string
    var rows: Rows

    constructor (name: string)
      ensures this.name == name && rows == map[]
    {
      this.name := name;
      rows := map[];
    }

    /** Creates the row at `rowIndex` holding `cells`, one cell per entry, replacing any row there. */
    method CreateRow(rowIndex: nat, cells: seq<string>)
      modifies this
      ensures rows == old(rows)[rowIndex := cells]
    {
      rows := rows[rowIndex := cells];
    }
  }

  /** The three sheets of the report. */
  datatype Workbook = Workbook(details: Sheet, summary: Sheet, wishlist: Sheet)
}
