/** The sensor table beside the canvas (DrawTableModel): one row per listed
    mote, an "X" and a "Y" column and then one column per sensed field, each
    cell the decimal text of a number. */
module Table {
  import opened Basics
  import opened Decimal
  import opened Motes
  import opened Registry

  /** `getColumnCount`: the two position columns and one per field. */
  function ColumnCount(fields: seq<string>): nat {
    |fields| + 2
  }

  /** `getColumnName` */
  function ColumnName(fields: seq<string>, col: int): string
    requires 0 <= col < ColumnCount(fields)
  {
    if col == 0 then "X" else if col == 1 then "Y" else fields[col - 2]
  }

  /** The header row, left to right. */
  function Header(fields: seq<string>): seq<string> {
    seq(ColumnCount(fields), c requires 0 <= c < ColumnCount(fields) => ColumnName(fields, c))
  }

  /** The header reads "X", "Y" and then the field names in order. */
  lemma HeaderLayout(fields: seq<string>)
    ensures |Header(fields)| == |fields| + 2
    ensures Header(fields) == ["X", "Y"] + fields
  {
    var h := Header(fields);
    forall c | 0 <= c < |h| ensures h[c] == (["X", "Y"] + fields)[c] {
      if c >= 2 {
        assert (["X", "Y"] + fields)[c] == fields[c - 2];
      }
    }
  }

  /** `getRowCount`: one row per listed mote. */
  function RowCount(d: Document): nat
    reads d
  {
    |d.motes|
  }

  /** With the registry's index exact, the rows and the registered ids
      match one to one: every id names a row, distinct ids name distinct
      rows, and every row is named by an id, the id of the mote shown in it. */
  lemma RowsMatchIds(d: Document)
    requires MotesIndexed(d.motes, d.moteIndex)
    ensures forall id :: id in d.moteIndex ==> d.moteIndex[id] < RowCount(d)
    ensures forall a, b :: a in d.moteIndex && b in d.moteIndex && d.moteIndex[a] == d.moteIndex[b] ==> a == b
    ensures forall row :: 0 <= row < RowCount(d) ==> row in d.moteIndex.Values
  {
    forall row | 0 <= row < RowCount(d) ensures row in d.moteIndex.Values {
      var id := d.motes[row].id;
      assert id in d.moteIndex && d.moteIndex[id] == row;
    }
  }

  /** `getValueAt`: the decimal text of the mote's x, its y, or its reading
      of field `col - 2` (0 past the last field). */
  function GetValueAt(d: Document, row: int, col: int): string
    requires 0 <= row < |d.motes| && 0 <= col
    reads d, d.motes[row], d.motes[row].values
  {
    var m := d.motes[row];
    IntToString(if col == 0 then m.x else if col == 1 then m.y else m.GetValue(col - 2))
  }

  /** Every cell is an integer in the notation of RFC 8259 section 6 and
      reads back as the mote's coordinate or its reading of the column's
      field; columns past the last field read 0. */
  lemma CellReadsBack(d: Document, row: int, col: int)
    requires 0 <= row < |d.motes| && 0 <= col
    requires d.motes[row].Shaped()
    ensures IsJsonInt(GetValueAt(d, row, col))
    ensures var m := d.motes[row];
      ParseInt(GetValueAt(d, row, col)) == Some(
        if col == 0 then m.x
        else if col == 1 then m.y
        else if col - 2 < |m.fields| then m.values[col - 2]
        else 0)
  {
    var m := d.motes[row];
    IntToStringRoundTrip(if col == 0 then m.x else if col == 1 then m.y else m.GetValue(col - 2));
  }

  /** The row `findModel` as written reports for a list, whatever mote it
      is asked about. */
  function AsWrittenRow(motes: seq<Mote>): int {
    if |motes| == 0 then -1 else 0
  }

  /** `findModel` as written: the `return i` sits after the identity test
      rather than inside it, so the first pass of the loop returns. */
  method FindModelAsWritten(d: Document, changed: Mote) returns (row: int)
    ensures row == AsWrittenRow(d.motes)
  {
    for i := 0 to |d.motes| {
      return i;
    }
    return -1;
  }

  /** For a list of two distinct motes, the as-written search reports row
      0 for the second mote, which sits in row 1. */
  lemma FindModelAsWrittenMisses(a: Mote, b: Mote)
    requires a != b
    ensures IndexOf([a, b], b) == 1
    ensures AsWrittenRow([a, b]) == 0 != IndexOf([a, b], b)
  {
    assert [a, b][1..] == [b];
  }

  /** `findModel` with the return inside the identity test: the row of the
      first listed mote that is `changed` itself, or -1 when it is not
      listed. */
  method FindModel(d: Document, changed: Mote) returns (row: int)
    ensures -1 <= row < |d.motes|
    ensures row == -1 <==> changed !in d.motes
    ensures row >= 0 ==> d.motes[row] == changed && changed !in d.motes[..row]
  {
    var i := 0;
    while i < |d.motes|
      invariant 0 <= i <= |d.motes|
      invariant changed !in d.motes[..i]
    {
      if d.motes[i] == changed {
        return i;
      }
      assert d.motes[..i + 1] == d.motes[..i] + [d.motes[i]];
      i := i + 1;
    }
    assert d.motes[..i] == d.motes;
    return -1;
  }
}
