/**
 * Naming rules of the historical-data uploader (scripts/upload_to_r2.py):
 * how an exchange file name is parsed, how tickers and timeframe tokens are
 * normalised, how the calendar quarter and the data tier are derived, which
 * object keys a partition is stored under, what the per-partition metadata
 * record holds, and which listed files the directory scan keeps.
 */
module Naming {
  import opened Common
  import opened PyStr

  // ---------------------------------------------------------------------------
  // Entities

  /** The record `parse_filename` returns (the dict without `local_path`). */
  datatype Descriptor = Descriptor(
    exchange: string,
    asset: string,
    startDate: string,
    endDate: string,
    dataType: string,
    timeframe: string,
    format: string,
    filename: string)

  /** A discovered file: the parsed record plus the `local_path` the scan adds. */
  datatype FileInfo = FileInfo(desc: Descriptor, localPath: string)

  /** One regular file reported by the directory walk: its full path and final component. */
  datatype ListedFile = ListedFile(path: string, name: string)

  /** The exceptions the pipeline lets escape. */
  datatype PipelineError =
    | MonthNotInteger(text: string)    // int() on the month digits raised ValueError
    | DateUnparsable(date: string)     // datetime.strptime raised ValueError
    | SchemaMismatch(path: string)     // the CSV did not fit the Parquet schema

  /** `date_to_timestamp`: milliseconds for a `YYYYMMDD` string, `None` where strptime raises. */
  type DateToMs = string -> Option<int>

  datatype DataTier = Tier1Premium | Tier3Standard | Tier4Basic

  /** The per-partition metadata document, field for field. */
  datatype Metadata = Metadata(
    asset: string,
    timeframe: string,
    quarter: string,
    startDate: int,
    endDate: int,
    bars: nat,
    dataTier: DataTier,
    source: string,
    compressed: bool,
    compressionFormat: string,
    compressionLevel: int,
    sizeBytes: nat,
    checksumSha256: string,
    uploadedAt: string,
    version: string)

  // ---------------------------------------------------------------------------
  // Normalisation tables

  const AssetTable: map<string, string> := map[
    "BTCUSDT" := "XXBTZUSD",
    "BTCUSD" := "XXBTZUSD",
    "ETHUSDT" := "XETHZUSD",
    "ETHUSD" := "XETHZUSD",
    "SOLUSDT" := "SOLUSD",
    "SOLUSD" := "SOLUSD"]

  const TimeframeTable: map<string, string> := map[
    "1min" := "1m",
    "5min" := "5m",
    "15min" := "15m",
    "1hour" := "1h",
    "1h" := "1h",
    "4hour" := "4h",
    "4h" := "4h",
    "1day" := "1d",
    "1d" := "1d"]

  /** Looks the upper-cased ticker up; a miss keeps the ticker as written. */
  function NormalizeAsset(asset: string): (r: string)
    ensures r == asset || r in AssetTable.Values
    ensures r != asset ==> Upper(asset) in AssetTable
  {
    if Upper(asset) in AssetTable then AssetTable[Upper(asset)] else asset
  }

  /** Looks the lower-cased token up; a miss keeps the token as written. */
  function NormalizeTimeframe(timeframe: string): (r: string)
    ensures r == timeframe || r in TimeframeTable.Values
    ensures r != timeframe ==> Lower(timeframe) in TimeframeTable
  {
    if Lower(timeframe) in TimeframeTable then TimeframeTable[Lower(timeframe)] else timeframe
  }

  /** Tickers that agree up to case normalise alike when the table knows them. */
  lemma NormalizeAssetIgnoresCase(s: string, t: string)
    requires Upper(s) == Upper(t) && Upper(s) in AssetTable
    ensures NormalizeAsset(s) == NormalizeAsset(t) == AssetTable[Upper(s)]
  {}

  /** Timeframe tokens that agree up to case normalise alike when the table knows them. */
  lemma NormalizeTimeframeIgnoresCase(s: string, t: string)
    requires Lower(s) == Lower(t) && Lower(s) in TimeframeTable
    ensures NormalizeTimeframe(s) == NormalizeTimeframe(t) == TimeframeTable[Lower(s)]
  {}

  lemma NormalizeAssetIdempotent(asset: string)
    ensures NormalizeAsset(NormalizeAsset(asset)) == NormalizeAsset(asset)
  {
    var u := Upper(asset);
    if u in AssetTable {
      var r := AssetTable[u];
      assert r == "XXBTZUSD" || r == "XETHZUSD" || r == "SOLUSD";
      assert HasNoLower(r);
      UpperOfUpperCase(r);
    }
  }

  lemma NormalizeTimeframeIdempotent(timeframe: string)
    ensures NormalizeTimeframe(NormalizeTimeframe(timeframe)) == NormalizeTimeframe(timeframe)
  {
    var l := Lower(timeframe);
    if l in TimeframeTable {
      var r := TimeframeTable[l];
      assert r in {"1m", "5m", "15m", "1h", "4h", "1d"};
      assert HasNoUpper(r);
      LowerOfLowerCase(r);
    }
  }

  /** Matching ignores case; a miss is returned verbatim, original case kept. */
  lemma NormalizationExamples()
    ensures NormalizeAsset("btcusdt") == "XXBTZUSD"
    ensures NormalizeAsset("EthUsd") == "XETHZUSD"
    ensures NormalizeAsset("DOGEUSDT") == "DOGEUSDT"
    ensures NormalizeAsset("dogeusdt") == "dogeusdt"
    ensures NormalizeTimeframe("1MIN") == "1m"
    ensures NormalizeTimeframe("1min") == "1m"
    ensures NormalizeTimeframe("30Min") == "30Min"
  {
    assert Upper("btcusdt") == "BTCUSDT";
    assert Upper("EthUsd") == "ETHUSD";
    assert Upper("DOGEUSDT") == "DOGEUSDT";
    assert Upper("dogeusdt") == "DOGEUSDT";
    assert Lower("1MIN") == "1min";
    assert Lower("1min") == "1min";
    assert Lower("30Min") == "30min";
  }

  // ---------------------------------------------------------------------------
  // File names

  /**
   * `parse_filename`: the stem split on `_` must give at least six tokens and
   * the first must upper-case to BINANCE; further tokens are ignored.
   */
  function ParseFilename(name: string): (r: Option<Descriptor>)
    ensures var parts := Split(Stem(name), '_');
      r.Some? <==> |parts| >= 6 && Upper(parts[0]) == "BINANCE"
    ensures r.Some? ==> Upper(r.value.exchange) == "BINANCE" && r.value.filename == name
    ensures r.Some? ==> var parts := Split(Stem(name), '_');
      && r.value.exchange == parts[0]
      && r.value.startDate == parts[2] && r.value.endDate == parts[3] && r.value.dataType == parts[4]
  {
    var parts := Split(Stem(name), '_');
    if |parts| >= 6 && Upper(parts[0]) == "BINANCE" then
      var suffix := Suffix(name);
      Some(Descriptor(
        exchange := parts[0],
        asset := NormalizeAsset(parts[1]),
        startDate := parts[2],
        endDate := parts[3],
        dataType := parts[4],
        timeframe := NormalizeTimeframe(parts[5]),
        format := Slice(suffix, 1, |suffix|),
        filename := name))
    else
      None
  }

  /** A file name in the exchange convention: `_`-joined tokens, a dot, an extension. */
  function ComposeName(tokens: seq<string>, extension: string): string {
    Join(tokens, '_') + "." + extension
  }

  lemma {:induction false} JoinLongerThanFirst(tokens: seq<string>, sep: char)
    requires |tokens| >= 1
    ensures |Join(tokens, sep)| >= |tokens[0]|
  {}

  /**
   * Round trip: a name composed from separator-free tokens parses back to
   * those tokens (asset and timeframe normalised, exchange case kept, tokens
   * after the sixth dropped) with the extension as the format.
   */
  lemma {:induction false} ParseComposedName(tokens: seq<string>, extension: string)
    requires |tokens| >= 6 && Upper(tokens[0]) == "BINANCE"
    requires forall i :: 0 <= i < |tokens| ==> '_' !in tokens[i]
    requires |extension| > 0 && '.' !in extension
    ensures ParseFilename(ComposeName(tokens, extension)) == Some(Descriptor(
      tokens[0], NormalizeAsset(tokens[1]), tokens[2], tokens[3], tokens[4],
      NormalizeTimeframe(tokens[5]), extension, ComposeName(tokens, extension)))
    ensures Suffix(ComposeName(tokens, extension)) == "." + extension
  {
    var joined := Join(tokens, '_');
    var name := ComposeName(tokens, extension);
    JoinLongerThanFirst(tokens, '_');
    assert |joined| >= 7;
    assert name[|joined|] == '.';
    assert name[|joined| + 1..] == extension;
    var i := RFind(name, '.');
    assert i == |joined|;
    assert Stem(name) == joined;
    var suffix := Suffix(name);
    assert suffix == "." + extension;
    assert Slice(suffix, 1, |suffix|) == extension;
    SplitJoin(tokens, '_');
    assert Split(Stem(name), '_') == tokens;
  }

  // ---------------------------------------------------------------------------
  // Quarter and tier

  /**
   * `determine_quarter`: the first four characters verbatim, then `-Q` and
   * `(month - 1) // 3 + 1` for the integer at positions 4-5.  Dafny's `/` by
   * the positive constant 3 floors, as Python's `//` does.
   */
  function DetermineQuarter(dateStr: string): (r: Result<string, PipelineError>)
    ensures r.Success? <==> ParseInt(Slice(dateStr, 4, 6)).Some?
    ensures r.Failure? ==> r.error == MonthNotInteger(Slice(dateStr, 4, 6))
  {
    var year := Slice(dateStr, 0, 4);
    var monthText := Slice(dateStr, 4, 6);
    match ParseInt(monthText)
    case None => Failure(MonthNotInteger(monthText))
    case Some(month) => Success(year + "-Q" + IntToString((month - 1) / 3 + 1))
  }

  /** The month number written at positions 4-5 of a `YYYYMMDD` string. */
  function MonthNumber(dateStr: string): nat
    requires |dateStr| >= 6 && IsDigit(dateStr[4]) && IsDigit(dateStr[5])
  {
    10 * DigitValue(dateStr[4]) + DigitValue(dateStr[5])
  }

  /** For two digits at positions 4-5, the quarter is `(month - 1) // 3 + 1` after the verbatim year. */
  lemma QuarterOfTwoDigitMonth(dateStr: string)
    requires |dateStr| >= 6 && IsDigit(dateStr[4]) && IsDigit(dateStr[5])
    ensures DetermineQuarter(dateStr)
         == Success(dateStr[..4] + "-Q" + IntToString((MonthNumber(dateStr) - 1) / 3 + 1))
  {
    var monthText := Slice(dateStr, 4, 6);
    assert monthText == dateStr[4..6];
    ParseTwoDigits(monthText);
    assert Slice(dateStr, 0, 4) == dateStr[..4];
  }

  /**
   * For a calendar month, the quarter is the q in 1..4 whose three months
   * (3q-2, 3q-1, 3q) contain it, and the year is copied verbatim.
   */
  lemma QuarterOfCalendarMonth(dateStr: string, q: nat)
    requires |dateStr| >= 6 && IsDigit(dateStr[4]) && IsDigit(dateStr[5])
    requires 1 <= q <= 4 && 3 * q - 2 <= MonthNumber(dateStr) <= 3 * q
    ensures DetermineQuarter(dateStr) == Success(dateStr[..4] + "-Q" + [DigitChar(q)])
  {
    QuarterOfTwoDigitMonth(dateStr);
    var m := MonthNumber(dateStr);
    assert (m - 1) / 3 + 1 == q;
  }

  /** Every calendar month falls in exactly one quarter. */
  lemma CalendarMonthHasQuarter(dateStr: string) returns (q: nat)
    requires |dateStr| >= 6 && IsDigit(dateStr[4]) && IsDigit(dateStr[5])
    requires 1 <= MonthNumber(dateStr) <= 12
    ensures 1 <= q <= 4
    ensures DetermineQuarter(dateStr) == Success(dateStr[..4] + "-Q" + [DigitChar(q)])
  {
    q := (MonthNumber(dateStr) - 1) / 3 + 1;
    QuarterOfCalendarMonth(dateStr, q);
  }

  /** The documented examples. */
  lemma QuarterExamples(date: string)
    ensures date == "20240501" ==> DetermineQuarter(date) == Success("2024-Q2")
    ensures date == "20241231" ==> DetermineQuarter(date) == Success("2024-Q4")
    ensures date == "20240101" ==> DetermineQuarter(date) == Success("2024-Q1")
  {
    if date == "20240501" {
      assert date[4] == '0' && date[5] == '5';
      QuarterOfCalendarMonth(date, 2);
      assert date[..4] + "-Q" + [DigitChar(2)] == "2024-Q2";
    } else if date == "20241231" {
      assert date[4] == '1' && date[5] == '2';
      QuarterOfCalendarMonth(date, 4);
      assert date[..4] + "-Q" + [DigitChar(4)] == "2024-Q4";
    } else if date == "20240101" {
      assert date[4] == '0' && date[5] == '1';
      QuarterOfCalendarMonth(date, 1);
      assert date[..4] + "-Q" + [DigitChar(1)] == "2024-Q1";
    }
  }

  /** Two start dates in the same quarter give the same quarter, hence the same object keys. */
  lemma SameQuarterExample(june: string, april: string)
    ensures june == "20240615" && april == "20240401" ==> DetermineQuarter(june) == DetermineQuarter(april)
  {
    if june == "20240615" && april == "20240401" {
      assert june[4] == '0' && june[5] == '6' && april[4] == '0' && april[5] == '4';
      QuarterOfCalendarMonth(june, 2);
      QuarterOfCalendarMonth(april, 2);
      assert june[..4] == april[..4];
    }
  }

  /** The month is not range-checked: 13 gives quarter 5, 00 gives quarter 0. */
  lemma QuarterOfOutOfRangeMonth(date: string)
    ensures date == "20241301" ==> DetermineQuarter(date) == Success("2024-Q5")
    ensures date == "20240001" ==> DetermineQuarter(date) == Success("2024-Q0")
  {
    if date == "20241301" {
      assert date[4] == '1' && date[5] == '3';
      QuarterOfTwoDigitMonth(date);
      assert IntToString((MonthNumber(date) - 1) / 3 + 1) == "5";
      assert date[..4] + "-Q" + "5" == "2024-Q5";
    } else if date == "20240001" {
      assert date[4] == '0' && date[5] == '0';
      QuarterOfTwoDigitMonth(date);
      assert IntToString((MonthNumber(date) - 1) / 3 + 1) == "0";
      assert date[..4] + "-Q" + "0" == "2024-Q0";
    }
  }

  /** A date string too short to hold a month raises. */
  lemma QuarterOfShortDate()
    ensures DetermineQuarter("2024") == Failure(MonthNotInteger(""))
  {
    assert Slice("2024", 4, 6) == "";
  }

  /** The case-sensitive three-way classification of `generate_metadata`. */
  function DataTierOf(dataType: string): (t: DataTier)
    ensures t == Tier1Premium <==> dataType == "book"
    ensures t == Tier3Standard <==> dataType == "trades"
    ensures t == Tier4Basic <==> dataType != "book" && dataType != "trades"
  {
    if dataType == "trades" then Tier3Standard
    else if dataType == "book" then Tier1Premium
    else Tier4Basic
  }

  /** The `dataTier` string written into the metadata document. */
  function TierName(t: DataTier): (r: string)
    ensures r in {"TIER_1_PREMIUM", "TIER_3_STANDARD", "TIER_4_BASIC"}
  {
    match t
    case Tier1Premium => "TIER_1_PREMIUM"
    case Tier3Standard => "TIER_3_STANDARD"
    case Tier4Basic => "TIER_4_BASIC"
  }

  lemma TierExamples()
    ensures TierName(DataTierOf("book")) == "TIER_1_PREMIUM"
    ensures TierName(DataTierOf("trades")) == "TIER_3_STANDARD"
    ensures TierName(DataTierOf("ohlcv")) == "TIER_4_BASIC"
    ensures TierName(DataTierOf("Book")) == "TIER_4_BASIC"
    ensures forall s, t :: TierName(s) == TierName(t) ==> s == t
  {}

  // ---------------------------------------------------------------------------
  // Object keys

  function KeyPrefix(asset: string, timeframe: string, quarter: string): string {
    asset + "/" + timeframe + "/" + quarter
  }

  /** The data object's key; the `.parquet.zst` suffix does not depend on compression. */
  function DataKey(asset: string, timeframe: string, quarter: string): (r: string)
    ensures var prefix := KeyPrefix(asset, timeframe, quarter);
      |r| == |prefix| + 12 && r[..|prefix|] == prefix && r[|prefix|..] == ".parquet.zst"
  {
    KeyPrefix(asset, timeframe, quarter) + ".parquet.zst"
  }

  /** The metadata object's key, beside the data object under the same prefix. */
  function MetadataKey(asset: string, timeframe: string, quarter: string): (r: string)
    ensures var prefix := KeyPrefix(asset, timeframe, quarter);
      |r| == |prefix| + 14 && r[..|prefix|] == prefix && r[|prefix|..] == "_metadata.json"
  {
    KeyPrefix(asset, timeframe, quarter) + "_metadata.json"
  }

  /** The two objects of a partition share their prefix and never collide. */
  lemma PartitionKeysDiffer(asset: string, timeframe: string, quarter: string)
    ensures DataKey(asset, timeframe, quarter) != MetadataKey(asset, timeframe, quarter)
  {
    assert |DataKey(asset, timeframe, quarter)| != |MetadataKey(asset, timeframe, quarter)|;
  }

  /**
   * The data key can be split back into its parts when asset and timeframe
   * hold no `/`; so different partitions get different keys.
   */
  lemma {:induction false} DataKeySplits(asset: string, timeframe: string, quarter: string)
    requires '/' !in asset && '/' !in timeframe && '/' !in quarter
    ensures Split(DataKey(asset, timeframe, quarter), '/') == [asset, timeframe, quarter + ".parquet.zst"]
  {
    var last := quarter + ".parquet.zst";
    assert '/' !in last by {
      assert forall i :: 0 <= i < |last| ==> last[i] == (if i < |quarter| then quarter[i] else ".parquet.zst"[i - |quarter|]);
    }
    var parts := [asset, timeframe, last];
    assert Join(parts, '/') == DataKey(asset, timeframe, quarter) by {
      assert parts[1..][1..] == [last];
      assert Join(parts[1..], '/') == timeframe + "/" + last;
      assert Join(parts, '/') == asset + "/" + (timeframe + "/" + last);
    }
    SplitJoin(parts, '/');
  }

  lemma DataKeyInjective(a1: string, t1: string, q1: string, a2: string, t2: string, q2: string)
    requires '/' !in a1 && '/' !in t1 && '/' !in q1
    requires '/' !in a2 && '/' !in t2 && '/' !in q2
    requires DataKey(a1, t1, q1) == DataKey(a2, t2, q2)
    ensures a1 == a2 && t1 == t2 && q1 == q2
  {
    DataKeySplits(a1, t1, q1);
    DataKeySplits(a2, t2, q2);
    var s1, s2 := q1 + ".parquet.zst", q2 + ".parquet.zst";
    assert s1 == s2;
    assert q1 == s1[..|q1|] && q2 == s2[..|q2|];
  }

  // ---------------------------------------------------------------------------
  // Metadata

  /**
   * `generate_metadata`, with the file size, the row count, the clock reading
   * and the checksum passed in.  The quarter is derived before either date is
   * converted, so a bad month is the error reported first.
   */
  function GenerateMetadata(d: Descriptor, checksum: string, sizeBytes: nat, bars: nat,
                            uploadedAt: string, toMs: DateToMs): (r: Result<Metadata, PipelineError>)
    ensures r.Success? <==>
      DetermineQuarter(d.startDate).Success? && toMs(d.startDate).Some? && toMs(d.endDate).Some?
    ensures r.Failure? && DetermineQuarter(d.startDate).Success? ==> r.error.DateUnparsable?
    ensures r.Success? ==>
      && DetermineQuarter(d.startDate) == Success(r.value.quarter)
      && r.value.asset == d.asset && r.value.timeframe == d.timeframe && r.value.source == d.exchange
      && r.value.dataTier == DataTierOf(d.dataType)
      && r.value.compressed && r.value.compressionFormat == "zstd" && r.value.compressionLevel == 3
  {
    var tier := DataTierOf(d.dataType);
    match DetermineQuarter(d.startDate)
    case Failure(e) => Failure(e)
    case Success(quarter) =>
      match toMs(d.startDate)
      case None => Failure(DateUnparsable(d.startDate))
      case Some(startMs) =>
        match toMs(d.endDate)
        case None => Failure(DateUnparsable(d.endDate))
        case Some(endMs) =>
          Success(Metadata(
            asset := d.asset,
            timeframe := d.timeframe,
            quarter := quarter,
            startDate := startMs,
            endDate := endMs,
            bars := bars,
            dataTier := tier,
            source := d.exchange,
            compressed := true,
            compressionFormat := "zstd",
            compressionLevel := 3,
            sizeBytes := sizeBytes,
            checksumSha256 := checksum,
            uploadedAt := uploadedAt,
            version := "1.0"))
  }

  // ---------------------------------------------------------------------------
  // Directory scan

  /** Whether the scan keeps a listed file: a `.csv` or `.parquet` suffix and a name that parses. */
  predicate Kept(l: ListedFile) {
    (Suffix(l.name) == ".csv" || Suffix(l.name) == ".parquet") && ParseFilename(l.name).Some?
  }

  /** The record the scan yields for a kept file: the parsed name plus its path. */
  function FileOf(l: ListedFile): FileInfo
    requires Kept(l)
  {
    FileInfo(ParseFilename(l.name).value, l.path)
  }

  /** A kept file's record carries its suffix without the dot as the format. */
  lemma KeptFormat(l: ListedFile)
    requires Kept(l)
    ensures FileOf(l).desc.format == "csv" || FileOf(l).desc.format == "parquet"
  {
    var suffix := Suffix(l.name);
    assert Slice(suffix, 1, |suffix|) == suffix[1..];
  }

  /**
   * The filter of `scan_data_directory` over an explicit listing: keep a file
   * whose suffix is `.csv` or `.parquet` and whose name parses, in listing order.
   */
  function Discover(listing: seq<ListedFile>): (files: seq<FileInfo>)
    ensures |files| <= |listing|
    ensures forall i :: 0 <= i < |files| ==> files[i].desc.format == "csv" || files[i].desc.format == "parquet"
    decreases |listing|
  {
    if listing == [] then []
    else
      var n := |listing| - 1;
      var earlier := Discover(listing[..n]);
      var entry := listing[n];
      if Kept(entry) then
        KeptFormat(entry);
        earlier + [FileOf(entry)]
      else
        earlier
  }

  /** The scan's last step: the last listed file is appended when it is kept. */
  lemma DiscoverLast(listing: seq<ListedFile>)
    requires listing != []
    ensures var n := |listing| - 1;
      Discover(listing) == Discover(listing[..n]) + (if Kept(listing[n]) then [FileOf(listing[n])] else [])
  {}

  /** Scanning a listing in two parts gives the two results one after the other: order is kept. */
  lemma {:induction false} DiscoverAppend(a: seq<ListedFile>, b: seq<ListedFile>)
    ensures Discover(a + b) == Discover(a) + Discover(b)
    decreases |b|
  {
    if b == [] {
      assert a + b == a;
    } else {
      var n := |b| - 1;
      var ab := a + b;
      assert ab[..|ab| - 1] == a + b[..n];
      assert ab[|ab| - 1] == b[n];
      DiscoverLast(ab);
      DiscoverLast(b);
      DiscoverAppend(a, b[..n]);
    }
  }

  /** A one-file listing yields that file's record exactly when the file is kept. */
  lemma DiscoverOne(l: ListedFile)
    ensures Discover([l]) == if Kept(l) then [FileOf(l)] else []
  {
    DiscoverLast([l]);
    assert [l][..0] == [];
  }

  /** A record the scan yields for a listing is still yielded once one more file is listed. */
  lemma DiscoverKeepsEarlier(listing: seq<ListedFile>, f: FileInfo)
    requires listing != [] && f in Discover(listing[..|listing| - 1])
    ensures f in Discover(listing)
  {
    DiscoverLast(listing);
  }

  /** The last listed file yields its record when it is kept. */
  lemma DiscoverYieldsLast(listing: seq<ListedFile>)
    requires listing != [] && Kept(listing[|listing| - 1])
    ensures FileOf(listing[|listing| - 1]) in Discover(listing)
  {
    DiscoverLast(listing);
  }

  /** Every kept file of the listing yields its record. */
  lemma {:induction false} DiscoverComplete(listing: seq<ListedFile>, l: ListedFile)
    requires l in listing && Kept(l)
    ensures FileOf(l) in Discover(listing)
    decreases |listing|
  {
    var n := |listing| - 1;
    if l == listing[n] {
      DiscoverYieldsLast(listing);
    } else {
      var prefix := listing[..n];
      assert listing == prefix + [listing[n]];
      DiscoverComplete(prefix, l);
      DiscoverKeepsEarlier(listing, FileOf(l));
    }
  }

  /** Every record the scan yields comes from a kept file of the listing. */
  lemma {:induction false} DiscoverSound(listing: seq<ListedFile>, f: FileInfo)
    requires f in Discover(listing)
    ensures exists i :: 0 <= i < |listing| && Kept(listing[i]) && f == FileOf(listing[i])
    decreases |listing|
  {
    var n := |listing| - 1;
    var prefix := listing[..n];
    DiscoverLast(listing);
    if f in Discover(prefix) {
      DiscoverSound(prefix, f);
      var i :| 0 <= i < n && Kept(prefix[i]) && f == FileOf(prefix[i]);
      assert listing[i] == prefix[i];
    } else {
      assert Kept(listing[n]) && f == FileOf(listing[n]);
    }
  }

  /** Each record the scan yields is exactly what its own file name parses to. */
  lemma DiscoveredNamesParse(listing: seq<ListedFile>, k: nat)
    requires k < |Discover(listing)|
    ensures ParseFilename(Discover(listing)[k].desc.filename) == Some(Discover(listing)[k].desc)
  {
    DiscoverSound(listing, Discover(listing)[k]);
  }

  /** The scan yields exactly the records of the kept files of the listing. */
  lemma DiscoverMembers(listing: seq<ListedFile>, f: FileInfo)
    ensures f in Discover(listing) <==>
      exists i :: 0 <= i < |listing| && Kept(listing[i]) && f == FileOf(listing[i])
  {
    if f in Discover(listing) {
      DiscoverSound(listing, f);
    }
    if exists i :: 0 <= i < |listing| && Kept(listing[i]) && f == FileOf(listing[i]) {
      var i :| 0 <= i < |listing| && Kept(listing[i]) && f == FileOf(listing[i]);
      DiscoverComplete(listing, listing[i]);
    }
  }

  /** The tokens of the documented example file `BINANCE_BTCUSDT_20240501_20240503_ohlcv_1min.csv`. */
  predicate ExampleTokens(tokens: seq<string>) {
    && |tokens| == 6
    && tokens[0] == "BINANCE" && tokens[1] == "BTCUSDT" && tokens[2] == "20240501"
    && tokens[3] == "20240503" && tokens[4] == "ohlcv" && tokens[5] == "1min"
  }

  lemma ExampleTokensSeparatorFree(tokens: seq<string>)
    requires ExampleTokens(tokens)
    ensures |tokens| == 6 && Upper(tokens[0]) == "BINANCE"
    ensures forall i :: 0 <= i < |tokens| ==> '_' !in tokens[i]
    ensures tokens[0] == "BINANCE" && tokens[2] == "20240501" && tokens[3] == "20240503" && tokens[4] == "ohlcv"
  {
    assert Upper("BINANCE") == "BINANCE";
  }

  lemma ExampleTokensNormalised(tokens: seq<string>)
    requires ExampleTokens(tokens)
    ensures NormalizeAsset(tokens[1]) == "XXBTZUSD" && NormalizeTimeframe(tokens[5]) == "1m"
  {
    assert Upper("BTCUSDT") == "BTCUSDT";
    assert Lower("1min") == "1min";
  }

  /** The documented example file parses to a normalised XXBTZUSD / 1m descriptor of type `ohlcv`. */
  lemma ExampleFileParses(tokens: seq<string>)
    requires ExampleTokens(tokens)
    ensures ParseFilename(ComposeName(tokens, "csv"))
            == Some(Descriptor("BINANCE", "XXBTZUSD", "20240501", "20240503", "ohlcv", "1m", "csv",
                               ComposeName(tokens, "csv")))
    ensures Suffix(ComposeName(tokens, "csv")) == ".csv"
  {
    ExampleTokensSeparatorFree(tokens);
    ExampleTokensNormalised(tokens);
    ParseComposedName(tokens, "csv");
  }

  /** The scan keeps the documented example file. */
  lemma ExampleFileScan(tokens: seq<string>, path: string)
    requires ExampleTokens(tokens)
    ensures var name := ComposeName(tokens, "csv");
      Discover([ListedFile(path, name)])
      == [FileInfo(Descriptor("BINANCE", "XXBTZUSD", "20240501", "20240503", "ohlcv", "1m", "csv", name), path)]
  {
    ExampleFileParses(tokens);
    DiscoverOne(ListedFile(path, ComposeName(tokens, "csv")));
  }
}
