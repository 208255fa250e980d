/**
 * `process_and_upload` of scripts/upload_to_r2.py: the per-file publish
 * sequence.  The file is converted when it is a CSV, compressed when asked,
 * and described by a metadata record.  Its data object is uploaded first.
 * The metadata object is written and the temporary files are removed only
 * when that upload reports success.
 *
 * The file system, the libraries and the bucket are not modelled; what they
 * report for a file is a `FileIo` value, and what the sequence does to the
 * outside world is a log of `Effect`s.
 */
module Publish {
  import opened Common
  import opened PyStr
  import opened Naming
  import opened Catalog

  /** What the libraries, the file system and the bucket report for one file. */
  datatype FileIo = FileIo(
    converted: bool,      // the CSV fitted the Parquet schema
    checksum: string,     // SHA-256 of the file to upload
    sizeBytes: nat,       // its size on disk
    bars: nat,            // the row count of the Parquet table
    uploadedAt: string,   // the clock reading for `uploadedAt`
    dataUploaded: bool)   // what `upload_to_r2` returned

  /** One action on the file system or the bucket, in the order it happens. */
  datatype Effect =
    | WriteParquet(source: string, target: string)
    | WriteCompressed(source: string, target: string)
    | UploadData(path: string, key: string)
    | PutMetadata(key: string, metadata: Metadata)
    | RemoveFile(path: string)
    | PutIndex(index: CatalogIndex)

  /** `True`, `False`, or the exception that escapes. */
  datatype Outcome = Published | UploadFailed | Raised(error: PipelineError)

  datatype Processed = Processed(outcome: Outcome, effects: seq<Effect>)

  predicate IsCsv(f: FileInfo) {
    f.desc.format == "csv"
  }

  /** The Parquet file that is compressed or uploaded: the converted copy of a CSV, else the file itself. */
  function ParquetPath(f: FileInfo): string {
    if IsCsv(f) then Replace(f.localPath, ".csv", ".parquet") else f.localPath
  }

  function CompressedPath(f: FileInfo): string {
    ParquetPath(f) + ".zst"
  }

  /** The file whose bytes are uploaded. */
  function UploadPath(f: FileInfo, compress: bool): string {
    if compress then CompressedPath(f) else ParquetPath(f)
  }

  /** Steps 1 and 2: the files written before anything is uploaded. */
  function Preparation(f: FileInfo, compress: bool): seq<Effect> {
    (if IsCsv(f) then [WriteParquet(f.localPath, ParquetPath(f))] else [])
    + (if compress then [WriteCompressed(ParquetPath(f), CompressedPath(f))] else [])
  }

  /** The removal of the temporary files, under the source's two conditions. */
  function Cleanup(f: FileInfo, compress: bool): seq<Effect> {
    (if IsCsv(f) && ParquetPath(f) != f.localPath then [RemoveFile(ParquetPath(f))] else [])
    + (if compress && CompressedPath(f) != ParquetPath(f) then [RemoveFile(CompressedPath(f))] else [])
  }

  /** What one call of `process_and_upload` returns or raises, and what it does. */
  function ProcessSpec(f: FileInfo, compress: bool, io: FileIo, toMs: DateToMs): Processed {
    if IsCsv(f) && !io.converted then Processed(Raised(SchemaMismatch(f.localPath)), [])
    else
      var prepared := Preparation(f, compress);
      match GenerateMetadata(f.desc, io.checksum, io.sizeBytes, io.bars, io.uploadedAt, toMs)
      case Failure(e) => Processed(Raised(e), prepared)
      case Success(m) =>
        var upload := UploadData(UploadPath(f, compress), DataKey(m.asset, m.timeframe, m.quarter));
        if !io.dataUploaded then Processed(UploadFailed, prepared + [upload])
        else
          Processed(Published,
                    prepared + [upload, PutMetadata(MetadataKey(m.asset, m.timeframe, m.quarter), m)]
                    + Cleanup(f, compress))
  }

  /**
   * `process_and_upload`, step by step: convert, compress, describe, upload
   * the data, and only then write the metadata and clean up.
   */
  method ProcessAndUpload(f: FileInfo, compress: bool, io: FileIo, toMs: DateToMs)
    returns (outcome: Outcome, effects: seq<Effect>)
    ensures Processed(outcome, effects) == ProcessSpec(f, compress, io, toMs)
  {
    effects := [];
    var localPath := f.localPath;
    var parquetPath: string;
    if f.desc.format == "csv" {
      if !io.converted {
        return Raised(SchemaMismatch(localPath)), effects;
      }
      parquetPath := Replace(localPath, ".csv", ".parquet");
      effects := effects + [WriteParquet(localPath, parquetPath)];
    } else {
      parquetPath := localPath;
    }
    var compressedPath, uploadFile, written := CompressStep(f, compress, parquetPath);
    effects := effects + written;
    assert effects == Preparation(f, compress) && uploadFile == UploadPath(f, compress);
    var metadata := GenerateMetadata(f.desc, io.checksum, io.sizeBytes, io.bars, io.uploadedAt, toMs);
    if metadata.Failure? {
      return Raised(metadata.error), effects;
    }
    var m := metadata.value;
    var dataKey := DataKey(m.asset, m.timeframe, m.quarter);
    var metadataKey := MetadataKey(m.asset, m.timeframe, m.quarter);
    var upload := UploadData(uploadFile, dataKey);
    if !io.dataUploaded {
      return UploadFailed, effects + [upload];
    }
    var removals := RemoveTemporaries(f, compress, parquetPath, compressedPath);
    effects := effects + [upload, PutMetadata(metadataKey, m)] + removals;
    outcome := Published;
  }

  /** Step 2: compress the Parquet file when asked; the upload takes the compressed copy then. */
  method CompressStep(f: FileInfo, compress: bool, parquetPath: string)
    returns (compressedPath: string, uploadFile: string, written: seq<Effect>)
    requires parquetPath == ParquetPath(f)
    ensures compress ==> compressedPath == CompressedPath(f)
    ensures uploadFile == UploadPath(f, compress)
    ensures written == if compress then [WriteCompressed(ParquetPath(f), CompressedPath(f))] else []
  {
    compressedPath := "";
    written := [];
    if compress {
      compressedPath := parquetPath + ".zst";
      written := [WriteCompressed(parquetPath, compressedPath)];
      uploadFile := compressedPath;
    } else {
      uploadFile := parquetPath;
    }
  }

  /** Step 8: remove the converted and the compressed copy, each only when it is a new file. */
  method RemoveTemporaries(f: FileInfo, compress: bool, parquetPath: string, compressedPath: string)
    returns (removals: seq<Effect>)
    requires parquetPath == ParquetPath(f)
    requires compress ==> compressedPath == CompressedPath(f)
    ensures removals == Cleanup(f, compress)
  {
    removals := [];
    if f.desc.format == "csv" && parquetPath != f.localPath {
      removals := removals + [RemoveFile(parquetPath)];
    }
    if compress && compressedPath != parquetPath {
      removals := removals + [RemoveFile(compressedPath)];
    }
  }

  // ---------------------------------------------------------------------------
  // Properties of the publish sequence

  /** The call returns `True` exactly when conversion, metadata and the data upload all succeed. */
  lemma OutcomeCases(f: FileInfo, compress: bool, io: FileIo, toMs: DateToMs)
    ensures var p := ProcessSpec(f, compress, io, toMs);
      var described := GenerateMetadata(f.desc, io.checksum, io.sizeBytes, io.bars, io.uploadedAt, toMs).Success?;
      && (p.outcome == Published <==> (!IsCsv(f) || io.converted) && described && io.dataUploaded)
      && (p.outcome == UploadFailed <==> (!IsCsv(f) || io.converted) && described && !io.dataUploaded)
      && (p.outcome.Raised? && !(IsCsv(f) && !io.converted) ==>
            p.outcome.error == GenerateMetadata(f.desc, io.checksum, io.sizeBytes, io.bars, io.uploadedAt, toMs).error)
  {}

  predicate Publishes(e: Effect) {
    e.PutMetadata? || e.RemoveFile?
  }

  /**
   * Metadata is written and files are removed only in a call that returns
   * `True`, and only after the data upload.
   */
  lemma UploadPrecedesPublication(f: FileInfo, compress: bool, io: FileIo, toMs: DateToMs, j: nat)
    requires var p := ProcessSpec(f, compress, io, toMs); j < |p.effects| && Publishes(p.effects[j])
    ensures var p := ProcessSpec(f, compress, io, toMs);
      p.outcome == Published && exists i :: 0 <= i < j && p.effects[i].UploadData?
  {
    var p := ProcessSpec(f, compress, io, toMs);
    var u := |Preparation(f, compress)|;
    assert p.effects[u].UploadData?;
  }

  /**
   * A failed data upload returns `False` with the upload as the last action:
   * no metadata is written and nothing is removed.
   */
  lemma UploadFailureStops(f: FileInfo, compress: bool, io: FileIo, toMs: DateToMs)
    requires ProcessSpec(f, compress, io, toMs).outcome == UploadFailed
    ensures var p := ProcessSpec(f, compress, io, toMs);
      && |p.effects| > 0 && p.effects[|p.effects| - 1].UploadData?
      && forall e :: e in p.effects ==> !Publishes(e)
  {}

  /** The paths a log writes and removes. */
  function Written(effects: seq<Effect>): set<string> {
    set e | e in effects && (e.WriteParquet? || e.WriteCompressed?) :: e.target
  }

  function Removed(effects: seq<Effect>): set<string> {
    set e | e in effects && e.RemoveFile? :: e.path
  }

  lemma WrittenAndRemovedDistribute(a: seq<Effect>, b: seq<Effect>)
    ensures Written(a + b) == Written(a) + Written(b)
    ensures Removed(a + b) == Removed(a) + Removed(b)
  {
    assert forall e :: e in a + b <==> e in a || e in b;
  }

  /** The compressed copy is longer than both the file and its Parquet copy. */
  lemma CompressedPathIsNew(f: FileInfo)
    ensures CompressedPath(f) != f.localPath && CompressedPath(f) != ParquetPath(f)
  {
    if IsCsv(f) {
      ReplaceNotShorter(f.localPath, ".csv", ".parquet");
    }
    assert |CompressedPath(f)| > |ParquetPath(f)| >= |f.localPath|;
  }

  lemma PreparationWrites(f: FileInfo, compress: bool)
    ensures Removed(Preparation(f, compress)) == {}
    ensures Written(Preparation(f, compress))
            == (if IsCsv(f) then {ParquetPath(f)} else {}) + (if compress then {CompressedPath(f)} else {})
  {
    var a := if IsCsv(f) then [WriteParquet(f.localPath, ParquetPath(f))] else [];
    var b := if compress then [WriteCompressed(ParquetPath(f), CompressedPath(f))] else [];
    WrittenAndRemovedDistribute(a, b);
  }

  lemma CleanupRemoves(f: FileInfo, compress: bool)
    ensures Written(Cleanup(f, compress)) == {}
    ensures Removed(Cleanup(f, compress))
            == (if IsCsv(f) then {ParquetPath(f)} - {f.localPath} else {}) + (if compress then {CompressedPath(f)} else {})
  {
    CompressedPathIsNew(f);
    var a := if IsCsv(f) && ParquetPath(f) != f.localPath then [RemoveFile(ParquetPath(f))] else [];
    var b := if compress && CompressedPath(f) != ParquetPath(f) then [RemoveFile(CompressedPath(f))] else [];
    WrittenAndRemovedDistribute(a, b);
  }

  /**
   * A published file leaves no temporary file behind and its source file is
   * never removed; a call that fails or raises removes nothing, so its
   * temporary files stay on disk.
   */
  lemma TemporaryFiles(f: FileInfo, compress: bool, io: FileIo, toMs: DateToMs)
    ensures var p := ProcessSpec(f, compress, io, toMs);
      Removed(p.effects) == if p.outcome == Published then Written(p.effects) - {f.localPath} else {}
  {
    var p := ProcessSpec(f, compress, io, toMs);
    var prepared := Preparation(f, compress);
    PreparationWrites(f, compress);
    CompressedPathIsNew(f);
    if IsCsv(f) && !io.converted {
    } else {
      var metadata := GenerateMetadata(f.desc, io.checksum, io.sizeBytes, io.bars, io.uploadedAt, toMs);
      if metadata.Success? {
        var m := metadata.value;
        var middle := [UploadData(UploadPath(f, compress), DataKey(m.asset, m.timeframe, m.quarter)),
                       PutMetadata(MetadataKey(m.asset, m.timeframe, m.quarter), m)];
        assert Written(middle) == {} && Removed(middle) == {};
        WrittenAndRemovedDistribute(prepared, middle);
        if io.dataUploaded {
          CleanupRemoves(f, compress);
          WrittenAndRemovedDistribute(prepared + middle, Cleanup(f, compress));
        } else {
          WrittenAndRemovedDistribute(prepared, middle[..1]);
        }
      }
    }
  }

  /**
   * A published file's data object lies under its partition's data key and
   * its metadata under the partition's metadata key.  The data key ends in
   * `.parquet.zst` even without compression, and the metadata always claims
   * zstd level 3.
   */
  lemma PublishedObjects(f: FileInfo, compress: bool, io: FileIo, toMs: DateToMs)
    requires ProcessSpec(f, compress, io, toMs).outcome == Published
    ensures var p := ProcessSpec(f, compress, io, toMs);
      var m := GenerateMetadata(f.desc, io.checksum, io.sizeBytes, io.bars, io.uploadedAt, toMs).value;
      var q := DetermineQuarter(f.desc.startDate).value;
      && UploadData(UploadPath(f, compress), DataKey(f.desc.asset, f.desc.timeframe, q)) in p.effects
      && PutMetadata(MetadataKey(f.desc.asset, f.desc.timeframe, q), m) in p.effects
      && m.compressed && m.compressionFormat == "zstd" && m.compressionLevel == 3
  {
    var p := ProcessSpec(f, compress, io, toMs);
    var u := |Preparation(f, compress)|;
    assert p.effects[u].UploadData? && p.effects[u + 1].PutMetadata?;
  }

  /** The keys a log uploads data under. */
  function UploadKeys(effects: seq<Effect>): set<string> {
    set e | e in effects && e.UploadData? :: e.key
  }

  lemma UploadKeysAppend(a: seq<Effect>, b: seq<Effect>)
    ensures UploadKeys(a + b) == UploadKeys(a) + UploadKeys(b)
  {
    assert forall e :: e in a + b <==> e in a || e in b;
  }

  /** Preparation and cleanup write and remove local files only; they upload nothing. */
  lemma LocalStepsUploadNothing(f: FileInfo, compress: bool)
    ensures UploadKeys(Preparation(f, compress)) == {}
    ensures UploadKeys(Cleanup(f, compress)) == {}
  {
    var prep := Preparation(f, compress);
    assert forall e :: e in prep ==> !e.UploadData?;
    var clean := Cleanup(f, compress);
    assert forall e :: e in clean ==> !e.UploadData?;
  }

  /**
   * A call that does not raise uploads data under exactly one key, its
   * partition's data key; a call that raises uploads nothing.
   */
  lemma UploadKeyOfPartition(f: FileInfo, compress: bool, io: FileIo, toMs: DateToMs)
    ensures var p := ProcessSpec(f, compress, io, toMs);
      UploadKeys(p.effects)
      == if p.outcome.Raised? then {}
         else {DataKey(f.desc.asset, f.desc.timeframe, DetermineQuarter(f.desc.startDate).value)}
  {
    var p := ProcessSpec(f, compress, io, toMs);
    var prep := Preparation(f, compress);
    LocalStepsUploadNothing(f, compress);
    if !(IsCsv(f) && !io.converted) {
      var metadata := GenerateMetadata(f.desc, io.checksum, io.sizeBytes, io.bars, io.uploadedAt, toMs);
      if metadata.Success? {
        var m := metadata.value;
        var upload := UploadData(UploadPath(f, compress), DataKey(m.asset, m.timeframe, m.quarter));
        assert UploadKeys([upload]) == {upload.key};
        UploadKeysAppend(prep, [upload]);
        if io.dataUploaded {
          var put := PutMetadata(MetadataKey(m.asset, m.timeframe, m.quarter), m);
          assert UploadKeys([upload, put]) == {upload.key};
          UploadKeysAppend(prep, [upload, put]);
          UploadKeysAppend(prep + [upload, put], Cleanup(f, compress));
        }
      }
    }
  }

  /** Whether the file is compressed changes neither the outcome nor the key the data goes to. */
  lemma CompressionKeepsKeys(f: FileInfo, io: FileIo, toMs: DateToMs)
    ensures ProcessSpec(f, true, io, toMs).outcome == ProcessSpec(f, false, io, toMs).outcome
    ensures UploadKeys(ProcessSpec(f, true, io, toMs).effects) == UploadKeys(ProcessSpec(f, false, io, toMs).effects)
  {
    UploadKeyOfPartition(f, true, io, toMs);
    UploadKeyOfPartition(f, false, io, toMs);
  }

  /**
   * Two files of one asset and timeframe whose start dates fall in the same
   * quarter are uploaded under the same key, so the later overwrites the
   * earlier.
   */
  lemma SamePartitionSameKey(f1: FileInfo, f2: FileInfo, compress: bool, io1: FileIo, io2: FileIo, toMs: DateToMs)
    requires !ProcessSpec(f1, compress, io1, toMs).outcome.Raised?
    requires !ProcessSpec(f2, compress, io2, toMs).outcome.Raised?
    requires f1.desc.asset == f2.desc.asset && f1.desc.timeframe == f2.desc.timeframe
    requires DetermineQuarter(f1.desc.startDate) == DetermineQuarter(f2.desc.startDate)
    ensures UploadKeys(ProcessSpec(f1, compress, io1, toMs).effects) == UploadKeys(ProcessSpec(f2, compress, io2, toMs).effects)
  {
    UploadKeyOfPartition(f1, compress, io1, toMs);
    UploadKeyOfPartition(f2, compress, io2, toMs);
  }

  /** The metadata of a basic-tier file starting on 2024-05-01 names quarter 2024-Q2 and tier 4. */
  lemma ExampleMetadata(d: Descriptor, io: FileIo, toMs: DateToMs)
    requires d.startDate == "20240501" && d.dataType == "ohlcv"
    requires toMs(d.startDate).Some? && toMs(d.endDate).Some?
    ensures var m := GenerateMetadata(d, io.checksum, io.sizeBytes, io.bars, io.uploadedAt, toMs);
      m.Success? && m.value.quarter == "2024-Q2" && TierName(m.value.dataTier) == "TIER_4_BASIC"
  {
    QuarterExamples(d.startDate);
    TierExamples();
  }

  /**
   * The documented example end to end: the file
   * `BINANCE_BTCUSDT_20240501_20240503_ohlcv_1min.csv`, converted and
   * uploaded, is published under `XXBTZUSD/1m/2024-Q2.parquet.zst` with its
   * metadata beside it in the basic tier, and the index lists it once under
   * XXBTZUSD / 1m.
   */
  lemma ExamplePublished(tokens: seq<string>, f: FileInfo, io: FileIo, toMs: DateToMs)
    requires ExampleTokens(tokens)
    requires f.desc == Descriptor("BINANCE", "XXBTZUSD", "20240501", "20240503", "ohlcv", "1m", "csv",
                                  ComposeName(tokens, "csv"))
    requires io.converted && io.dataUploaded
    requires toMs(f.desc.startDate).Some? && toMs(f.desc.endDate).Some?
    ensures var p := ProcessSpec(f, true, io, toMs);
      var m := GenerateMetadata(f.desc, io.checksum, io.sizeBytes, io.bars, io.uploadedAt, toMs);
      && Discover([ListedFile(f.localPath, f.desc.filename)]) == [f]
      && m.Success? && m.value.quarter == "2024-Q2" && TierName(m.value.dataTier) == "TIER_4_BASIC"
      && p.outcome == Published
      && UploadData(CompressedPath(f), DataKey("XXBTZUSD", "1m", "2024-Q2")) in p.effects
      && PutMetadata(MetadataKey("XXBTZUSD", "1m", "2024-Q2"), m.value) in p.effects
      && AllDated([f], toMs)
      && Lookup(Group([f], toMs), "XXBTZUSD", "1m")
         == [Entry("2024-Q2", toMs(f.desc.startDate).value, toMs(f.desc.endDate).value)]
  {
    ExampleFileScan(tokens, f.localPath);
    ExampleMetadata(f.desc, io, toMs);
    OutcomeCases(f, true, io, toMs);
    PublishedObjects(f, true, io, toMs);
    GroupOne(f, toMs);
  }
}
