/**
 * What the three SQLAlchemy tables of liteflow (liteflow/models.py) share: an integer
 * primary key the database assigns, and the removal of one row.
 */
module Tables {

  /**
   * The id the database gives the next row of a table whose rows have ids `id`: one more
   * than the largest id in use, and at least 1.
   */
  function NextId<T>(rows: seq<T>, id: T -> int): (r: int)
    ensures forall i :: 0 <= i < |rows| ==> id(rows[i]) < r
    ensures r >= 1
  {
    if |rows| == 0 then 1
    else
      var rest := NextId(rows[1..], id);
      assert forall i :: 1 <= i < |rows| ==> rows[i] == rows[1..][i - 1];
      if id(rows[0]) + 1 > rest then id(rows[0]) + 1 else rest
  }

  /** The table without the row at position `i`, as `session.delete(row)` leaves it. */
  function RemoveAt<T>(rows: seq<T>, i: nat): (r: seq<T>)
    requires i < |rows|
    ensures |r| == |rows| - 1
    ensures forall j :: 0 <= j < i ==> r[j] == rows[j]
    ensures forall j :: i <= j < |r| ==> r[j] == rows[j + 1]
  {
    rows[..i] + rows[i + 1..]
  }
}
