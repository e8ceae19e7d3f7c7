/**
 * The training table training_data.csv with columns timestamp, dryness and
 * fire_occurred. scripts/fire_overlay.py rewrites it whole and
 * scripts/module3_stream.py appends to it (pandas `to_csv` with mode "a",
 * writing the header only when the file does not exist yet).
 */
module TrainingTable {
  import opened Calendar

  /** A timestamp: a calendar date and the seconds elapsed since its midnight. */
  datatype DateTime = DateTime(date: Date, seconds: real)

  /** A date at midnight, as `datetime.strptime(ts, "%Y%m%d")` yields it. */
  function Midnight(d: Date): (t: DateTime)
    ensures t.date == d && t.seconds == 0.0
  {
    DateTime(d, 0.0)
  }

  /** One sampled pixel: when, its dryness index, and whether it burned. */
  datatype Row = Row(timestamp: DateTime, dryness: real, fireOccurred: int)

  /** A line of the CSV file: the column header or one record. */
  datatype CsvLine = Header | Record(row: Row)

  /** The record lines of a batch of rows, in order. */
  function Records(rows: seq<Row>): (ls: seq<CsvLine>)
    ensures |ls| == |rows|
    ensures forall k :: 0 <= k < |rows| ==> ls[k] == Record(rows[k])
  {
    seq(|rows|, k requires 0 <= k < |rows| => Record(rows[k]))
  }

  /** The rows `pd.read_csv` gives back: the records of the file, in order. */
  function RowsOf(lines: seq<CsvLine>): seq<Row>
  {
    if lines == [] then []
    else (if lines[0].Record? then [lines[0].row] else []) + RowsOf(lines[1..])
  }

  /** How many header lines the file holds. */
  function HeaderCount(lines: seq<CsvLine>): nat
  {
    if lines == [] then 0
    else (if lines[0].Header? then 1 else 0) + HeaderCount(lines[1..])
  }

  /** Reading a file made of two parts reads the first part's rows, then the second's. */
  lemma {:induction false} RowsOfAppend(a: seq<CsvLine>, b: seq<CsvLine>)
    ensures RowsOf(a + b) == RowsOf(a) + RowsOf(b)
    ensures HeaderCount(a + b) == HeaderCount(a) + HeaderCount(b)
  {
    if a != [] {
      assert (a + b)[1..] == a[1..] + b;
      RowsOfAppend(a[1..], b);
    } else {
      assert a + b == b;
    }
  }

  /** The records of a batch read back as the batch, with no header among them. */
  lemma {:induction false} RowsOfRecords(rows: seq<Row>)
    ensures RowsOf(Records(rows)) == rows
    ensures HeaderCount(Records(rows)) == 0
  {
    if rows != [] {
      assert Records(rows)[1..] == Records(rows[1..]);
      RowsOfRecords(rows[1..]);
    }
  }

  /** The CSV file as it lies on disk; `present` is `os.path.exists`. */
  class TrainingCsv {
    var present: bool
    var lines: seq<CsvLine>

    /** A table pandas wrote: absent and empty, or one header line followed by records. */
    ghost predicate Valid()
      reads this
    {
      && (present <==> lines != [])
      && (present ==> lines[0] == Header && HeaderCount(lines) == 1)
    }

    /** The rows `pd.read_csv` returns for the file. */
    function Rows(): seq<Row>
      reads this
    {
      RowsOf(lines)
    }

    /** Before the first run the file does not exist. */
    constructor ()
      ensures Valid() && !present && lines == []
    {
      present := false;
      lines := [];
    }

    /**
     * `batch.to_csv(path, mode="a", header=not os.path.exists(path),
     * index=False)`: the existing lines are kept as they are, the header is
     * written only when the file did not exist, and the table grows by
     * exactly the batch.
     */
    method Append(batch: seq<Row>)
      requires Valid()
      modifies this
      ensures Valid() && present
      ensures lines == old(lines) + (if old(present) then [] else [Header]) + Records(batch)
      ensures Rows() == old(Rows()) + batch
      ensures |Rows()| == |old(Rows())| + |batch|
    {
      var head: seq<CsvLine> := if present then [] else [Header];
      RowsOfAppend(lines, head);
      RowsOfAppend(lines + head, Records(batch));
      RowsOfRecords(batch);
      assert RowsOf([Header]) == [] && HeaderCount([Header]) == 1;
      lines := lines + head + Records(batch);
      present := true;
    }

    /** `full.to_csv(path, index=False)`: the file is replaced by a header and the given rows. */
    method Overwrite(rows: seq<Row>)
      modifies this
      ensures Valid() && present
      ensures lines == [Header] + Records(rows)
      ensures Rows() == rows
    {
      RowsOfAppend([Header], Records(rows));
      RowsOfRecords(rows);
      assert RowsOf([Header]) == [] && HeaderCount([Header]) == 1;
      lines := [Header] + Records(rows);
      present := true;
    }
  }
}
