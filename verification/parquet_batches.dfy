/**
 * `ParquetDataSet.iter_batches` (src/crypto_trader/data/parquet_loader.py):
 * the loaded table cut into consecutive slices of `batch_size` rows.  The
 * rows are an abstract sequence; reading the file is not modelled.
 */
module ParquetBatches {
  import opened Common

  /** `range()` raises when its step is zero. */
  datatype BatchError = ZeroStep

  function Min(a: int, b: int): int {
    if a <= b then a else b
  }

  /** The reference chunking: a full slice of `size` rows, then the rest. */
  function Chunks<T>(rows: seq<T>, size: nat): seq<seq<T>>
    requires size > 0
    decreases |rows|
  {
    if rows == [] then []
    else if |rows| <= size then [rows]
    else [rows[..size]] + Chunks(rows[size..], size)
  }

  function Flatten<T>(batches: seq<seq<T>>): seq<T>
    decreases |batches|
  {
    if batches == [] then [] else batches[0] + Flatten(batches[1..])
  }

  /**
   * `iter_batches`, with the yielded slices collected in order: slices
   * `[start, start + batch_size)` for `start` in `range(0, n, batch_size)`.
   * A zero batch size raises; a negative one gives an empty range.
   */
  method IterBatches<T>(rows: seq<T>, batchSize: int) returns (r: Result<seq<seq<T>>, BatchError>)
    ensures batchSize == 0 ==> r == Failure(ZeroStep)
    ensures batchSize < 0 ==> r == Success([])
    ensures batchSize > 0 ==> r == Success(Chunks(rows, batchSize))
  {
    if batchSize == 0 {
      return Failure(ZeroStep);
    }
    if batchSize < 0 {
      return Success([]);
    }
    var totalRows := |rows|;
    var batches: seq<seq<T>> := [];
    var start := 0;
    while start < totalRows
      invariant 0 <= start
      invariant start < totalRows ==> batches + Chunks(rows[start..], batchSize) == Chunks(rows, batchSize)
      invariant start >= totalRows ==> batches == Chunks(rows, batchSize)
      decreases totalRows - start
    {
      var batch := rows[start..Min(start + batchSize, totalRows)];
      ghost var rest := rows[start..];
      if start + batchSize < totalRows {
        assert rest[batchSize..] == rows[start + batchSize..];
        assert batch == rest[..batchSize];
        assert Chunks(rest, batchSize) == [batch] + Chunks(rows[start + batchSize..], batchSize);
      } else {
        assert batch == rest;
        assert Chunks(rest, batchSize) == [batch];
      }
      batches := batches + [batch];
      start := start + batchSize;
    }
    if totalRows == 0 {
      assert rows == [];
    }
    r := Success(batches);
  }

  /** Joining the batches gives the rows back. */
  lemma {:induction false} ChunksFlatten<T>(rows: seq<T>, size: nat)
    requires size > 0
    ensures Flatten(Chunks(rows, size)) == rows
    decreases |rows|
  {
    if rows != [] && |rows| > size {
      ChunksFlatten(rows[size..], size);
      assert rows[..size] + rows[size..] == rows;
    } else if rows != [] {
      assert Flatten([rows]) == rows + Flatten([]);
    }
  }

  /** Every batch is non-empty and no longer than `size`; all but the last are exactly `size` long. */
  lemma {:induction false} ChunkSizes<T>(rows: seq<T>, size: nat)
    requires size > 0
    ensures var c := Chunks(rows, size);
      && (forall i :: 0 <= i < |c| ==> 0 < |c[i]| <= size)
      && (forall i :: 0 <= i < |c| - 1 ==> |c[i]| == size)
    decreases |rows|
  {
    if rows != [] && |rows| > size {
      ChunkSizes(rows[size..], size);
      var c := Chunks(rows, size);
      assert forall i :: 1 <= i < |c| ==> c[i] == Chunks(rows[size..], size)[i - 1];
    }
  }

  /**
   * There are ceil(n / size) batches: the fewest whose capacity covers the
   * rows.  So an empty table gives no batch at all.
   */
  lemma {:induction false} ChunkCount<T>(rows: seq<T>, size: nat)
    requires size > 0
    ensures var count := |Chunks(rows, size)|;
      (count - 1) * size < |rows| <= count * size
    decreases |rows|
  {
    if rows != [] && |rows| > size {
      var rest := rows[size..];
      ChunkCount(rest, size);
      var count := |Chunks(rest, size)|;
      assert (count + 1) * size == count * size + size;
      assert count * size == (count - 1) * size + size;
    }
  }

  /** Batch `k` holds the rows from `k * size` up to the next multiple of `size` or the end. */
  lemma {:induction false} ChunkAt<T>(rows: seq<T>, size: nat, k: nat)
    requires size > 0 && k < |Chunks(rows, size)|
    ensures k * size < |rows|
    ensures Chunks(rows, size)[k] == rows[k * size..Min(k * size + size, |rows|)]
    decreases |rows|
  {
    if |rows| > size && k > 0 {
      var rest := rows[size..];
      ChunkAt(rest, size, k - 1);
      assert (k - 1) * size + size == k * size;
      assert rest[(k - 1) * size..Min((k - 1) * size + size, |rest|)]
          == rows[k * size..Min(k * size + size, |rows|)];
    }
  }

  /** The unit scenario: one row in batches of one gives one batch holding that row. */
  lemma OneRowExample<T>(row: T)
    ensures Chunks([row], 1) == [[row]]
  {}
}
