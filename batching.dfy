/** The batch files `processAllPosts` writes: every time the result list
    reaches a multiple of twenty rows the last twenty go to a new file, and at
    the end any remainder goes to one more. This module states which files a
    list of rows must produce and proves that they partition the list. */
module Batching {
  import opened Report

  const BatchSize: nat := 20

  /** One call of `writeResultsToCsv`: the file name and the rows written. */
  datatype CsvWrite = CsvWrite(filename: string, rows: seq<Row>)

  function Digit(d: nat): (c: char)
    requires d < 10
    ensures '0' <= c <= '9'
  {
    (d + '0' as int) as char
  }

  /** The decimal rendering of a number, as a template literal prints it. */
  function Decimal(n: nat): (s: string)
    ensures |s| >= 1
    ensures n >= 10 ==> |s| >= 2
    ensures forall i :: 0 <= i < |s| ==> '0' <= s[i] <= '9'
    decreases n
  {
    if n < 10 then [Digit(n)] else Decimal(n / 10) + [Digit(n % 10)]
  }

  /** The name `${output}_batch${k}.csv`. */
  function BatchFile(output: string, k: nat): string {
    output + "_batch" + Decimal(k) + ".csv"
  }

  /** The first `k` full batches of `rows`: batch `i` holds rows
      `[20 (i - 1), 20 i)`. */
  function FullBatches(output: string, rows: seq<Row>, k: nat): (ws: seq<CsvWrite>)
    requires BatchSize * k <= |rows|
    ensures |ws| == k
  {
    if k == 0 then []
    else FullBatches(output, rows, k - 1)
           + [CsvWrite(BatchFile(output, k), rows[BatchSize * (k - 1)..BatchSize * k])]
  }

  /** Every file a run that produced `rows` writes, in order: the full batches,
      then the remainder if there is one. */
  function Batches(output: string, rows: seq<Row>): seq<CsvWrite> {
    var full := |rows| / BatchSize;
    FullBatches(output, rows, full)
      + if |rows| % BatchSize != 0
        then [CsvWrite(BatchFile(output, full + 1), rows[BatchSize * full..])]
        else []
  }

  /** All rows of a sequence of writes, in write order. */
  function Flatten(ws: seq<CsvWrite>): seq<Row> {
    if ws == [] then [] else Flatten(ws[..|ws| - 1]) + ws[|ws| - 1].rows
  }

  /** Full batches depend only on the rows they cover. */
  lemma {:induction false} FullBatchesPrefix(output: string, rows: seq<Row>, more: seq<Row>, k: nat)
    requires BatchSize * k <= |rows|
    ensures FullBatches(output, rows + more, k) == FullBatches(output, rows, k)
  {
    if k > 0 {
      FullBatchesPrefix(output, rows, more, k - 1);
      assert (rows + more)[BatchSize * (k - 1)..BatchSize * k] == rows[BatchSize * (k - 1)..BatchSize * k];
    }
  }

  /** Batch `i + 1` of the full batches holds rows `[20 i, 20 i + 20)`. */
  lemma {:induction false} FullBatchesAt(output: string, rows: seq<Row>, k: nat, i: nat)
    requires BatchSize * k <= |rows| && i < k
    ensures FullBatches(output, rows, k)[i]
         == CsvWrite(BatchFile(output, i + 1), rows[BatchSize * i..BatchSize * i + BatchSize])
  {
    if i < k - 1 {
      FullBatchesAt(output, rows, k - 1, i);
    }
  }

  lemma {:induction false} FlattenFullBatches(output: string, rows: seq<Row>, k: nat)
    requires BatchSize * k <= |rows|
    ensures Flatten(FullBatches(output, rows, k)) == rows[..BatchSize * k]
  {
    if k > 0 {
      var ws := FullBatches(output, rows, k);
      assert ws[..|ws| - 1] == FullBatches(output, rows, k - 1);
      FlattenFullBatches(output, rows, k - 1);
      assert rows[..BatchSize * (k - 1)] + rows[BatchSize * (k - 1)..BatchSize * k] == rows[..BatchSize * k];
    }
  }

  /** The batch files partition the result list: read back in order, they
      give every row exactly once. */
  lemma BatchesPartition(output: string, rows: seq<Row>)
    ensures Flatten(Batches(output, rows)) == rows
  {
    var full := |rows| / BatchSize;
    var fb := FullBatches(output, rows, full);
    FlattenFullBatches(output, rows, full);
    if |rows| % BatchSize != 0 {
      var ws := Batches(output, rows);
      assert ws[..|ws| - 1] == fb;
      assert rows[..BatchSize * full] + rows[BatchSize * full..] == rows;
    } else {
      assert Batches(output, rows) == fb;
    }
  }

  /** The shape of the batch files: there are ceil(n / 20) of them, the k-th is
      named `${output}_batch${k}.csv`, every one but the last holds exactly 20
      rows, the last holds `n mod 20` rows when that is non-zero, and batch k
      holds rows `[20 (k - 1), 20 (k - 1) + |batch|)`. */
  lemma BatchesShape(output: string, rows: seq<Row>)
    ensures |Batches(output, rows)| == (|rows| + BatchSize - 1) / BatchSize
    ensures forall i :: 0 <= i < |Batches(output, rows)| ==>
      var w := Batches(output, rows)[i];
      && w.filename == BatchFile(output, i + 1)
      && 1 <= |w.rows| <= BatchSize
      && (i < |Batches(output, rows)| - 1 ==> |w.rows| == BatchSize)
      && BatchSize * i + |w.rows| <= |rows|
      && w.rows == rows[BatchSize * i..BatchSize * i + |w.rows|]
    ensures |rows| % BatchSize != 0 ==> |Batches(output, rows)[|Batches(output, rows)| - 1].rows| == |rows| % BatchSize
  {
    var full := |rows| / BatchSize;
    var ws := Batches(output, rows);
    forall i | 0 <= i < full
      ensures ws[i] == CsvWrite(BatchFile(output, i + 1), rows[BatchSize * i..BatchSize * i + BatchSize])
    {
      FullBatchesAt(output, rows, full, i);
    }
  }

  lemma DigitInjective(a: nat, b: nat)
    requires a < 10 && b < 10 && Digit(a) == Digit(b)
    ensures a == b
  {
    assert Digit(a) as int == a + '0' as int;
    assert Digit(b) as int == b + '0' as int;
  }

  /** Distinct numbers print differently. */
  lemma {:induction false} DecimalInjective(a: nat, b: nat)
    requires Decimal(a) == Decimal(b)
    ensures a == b
    decreases a
  {
    var sa, sb := Decimal(a), Decimal(b);
    if a < 10 && b < 10 {
      DigitInjective(a, b);
    } else if a >= 10 && b >= 10 {
      assert sa[|sa| - 1] == Digit(a % 10) && sb[|sb| - 1] == Digit(b % 10);
      DigitInjective(a % 10, b % 10);
      assert sa[..|sa| - 1] == Decimal(a / 10);
      assert sb[..|sb| - 1] == Decimal(b / 10);
      DecimalInjective(a / 10, b / 10);
    }
  }

  /** Batch numbers name distinct files, so no batch file overwrites another. */
  lemma BatchFileInjective(output: string, j: nat, k: nat)
    requires BatchFile(output, j) == BatchFile(output, k)
    ensures j == k
  {
    var pre := output + "_batch";
    var dj, dk := Decimal(j), Decimal(k);
    assert BatchFile(output, j) == pre + dj + ".csv";
    assert BatchFile(output, k) == pre + dk + ".csv";
    assert |dj| == |dk|;
    assert dj == BatchFile(output, j)[|pre|..|pre| + |dj|];
    assert dk == BatchFile(output, k)[|pre|..|pre| + |dk|];
    DecimalInjective(j, k);
  }

  /** Scenario: 45 rows make exactly three files, of 20, 20 and 5 rows. */
  lemma FortyFiveRows(output: string, rows: seq<Row>)
    requires |rows| == 45
    ensures |Batches(output, rows)| == 3
    ensures Batches(output, rows)[0] == CsvWrite(output + "_batch1.csv", rows[..20])
    ensures Batches(output, rows)[1] == CsvWrite(output + "_batch2.csv", rows[20..40])
    ensures Batches(output, rows)[2] == CsvWrite(output + "_batch3.csv", rows[40..])
  {
    assert Decimal(1) == "1" && Decimal(2) == "2" && Decimal(3) == "3";
    FullBatchesAt(output, rows, 2, 0);
    FullBatchesAt(output, rows, 2, 1);
  }

  /** A run with fewer than twenty rows writes them all to batch 1. */
  lemma ShortRunOneFile(output: string, rows: seq<Row>)
    requires 0 < |rows| < BatchSize
    ensures Batches(output, rows) == [CsvWrite(output + "_batch1.csv", rows)]
  {
    assert Decimal(1) == "1";
    assert BatchFile(output, 1) == output + "_batch1.csv";
    assert Batches(output, rows) == [] + [CsvWrite(BatchFile(output, 1), rows[0..])];
  }

  /** A run whose row count is a multiple of 20 (none included) writes no extra file. */
  lemma ExactMultipleNoRemainder(output: string, rows: seq<Row>)
    requires |rows| % BatchSize == 0
    ensures Batches(output, rows) == FullBatches(output, rows, |rows| / BatchSize)
    ensures rows == [] ==> Batches(output, rows) == []
  {
  }
}
