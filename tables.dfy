/**
 * The data-frame steps the normalizers share: rewriting column names,
 * and strict selection of a fixed list of columns (`df[[...]]`).
 */
module Tables {
  import opened Wrappers
  import opened Payload

  /** A data frame: its column names and, per row, one cell per column. */
  datatype Frame = Frame(columns: seq<string>, rows: seq<seq<Json>>)

  /** `df.columns = rename(df.columns)` for one record. */
  function RenameRow(row: Row, rename: string -> string): (r: Row)
    ensures |r| == |row|
    ensures forall i :: 0 <= i < |row| ==> r[i] == Member(rename(row[i].key), row[i].value)
  {
    if row == [] then [] else [Member(rename(row[0].key), row[0].value)] + RenameRow(row[1..], rename)
  }

  function RenameRows(rows: seq<Row>, rename: string -> string): (r: seq<Row>)
    ensures |r| == |rows|
    ensures forall i :: 0 <= i < |rows| ==> r[i] == RenameRow(rows[i], rename)
  {
    seq(|rows|, i requires 0 <= i < |rows| => RenameRow(rows[i], rename))
  }

  /** The frame built from `rows` has column `name`: some record has it. */
  predicate HasColumn(rows: seq<Row>, name: string) {
    exists i :: 0 <= i < |rows| && Get(rows[i], name).Some?
  }

  /** The requested columns the frame lacks, in request order. */
  function MissingColumns(rows: seq<Row>, wanted: seq<string>): (r: seq<string>)
    ensures forall c :: c in r <==> c in wanted && !HasColumn(rows, c)
  {
    if wanted == [] then []
    else (if HasColumn(rows, wanted[0]) then [] else [wanted[0]]) + MissingColumns(rows, wanted[1..])
  }

  /**
   * `df[wanted]`: the frame with exactly the `wanted` columns in that order,
   * one row per record, a record's missing cell NaN; a `KeyError` naming
   * the missing columns when the frame lacks any of them.
   */
  function SelectColumns(rows: seq<Row>, wanted: seq<string>): (r: Result<Frame, seq<string>>)
    ensures r.Success? <==> forall c :: c in wanted ==> HasColumn(rows, c)
    ensures r.Success? ==>
      && r.value.columns == wanted
      && |r.value.rows| == |rows|
      && forall i :: 0 <= i < |rows| ==> |r.value.rows[i]| == |wanted|
    ensures r.Success? ==>
      forall i, j :: 0 <= i < |rows| && 0 <= j < |wanted| ==> r.value.rows[i][j] == Cell(rows[i], wanted[j])
    ensures r.Failure? ==> r.error != [] && forall c :: c in r.error <==> c in wanted && !HasColumn(rows, c)
  {
    var missing := MissingColumns(rows, wanted);
    if missing != [] then
      assert missing[0] in missing;
      Failure(missing)
    else
      assert forall c :: c in wanted ==> HasColumn(rows, c) by {
        forall c | c in wanted ensures HasColumn(rows, c) {
          assert c !in missing;
        }
      }
      Success(Frame(wanted, seq(|rows|, i requires 0 <= i < |rows| =>
        seq(|wanted|, j requires 0 <= j < |wanted| => Cell(rows[i], wanted[j])))))
  }

  /** After renaming, a record has column `name` exactly when one of its original names is rewritten to it. */
  lemma {:induction false} GetRenamed(row: Row, rename: string -> string, name: string)
    ensures Get(RenameRow(row, rename), name).Some? <==> exists m :: m in row && rename(m.key) == name
  {
    var r := RenameRow(row, rename);
    if exists m :: m in row && rename(m.key) == name {
      var m :| m in row && rename(m.key) == name;
      var i :| 0 <= i < |row| && row[i] == m;
      assert r[i] in r && r[i].key == name;
    }
    if Get(r, name).Some? {
      var i :| 0 <= i < |r| && r[i].key == name;
      assert row[i] in row;
    }
  }
}
