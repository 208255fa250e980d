# Crypto-Trader: a verified model of the data uploader, order store, feature flags and row batching

This project models, in Dafny, the parts of the Crypto-Trader repository that hold logic rather than
library calls:

- **The historical-data uploader** (`scripts/upload_to_r2.py`). It turns exchange file names
  (`BINANCE_ASSET_START_END_TYPE_TF.csv|parquet`) into partition descriptors. It normalises tickers
  and timeframe tokens through fixed tables and derives a calendar quarter from the start date. It
  then publishes each file. A CSV is converted to Parquet first and the file is optionally compressed.
  The data object goes under `asset/timeframe/quarter.parquet.zst`, and only then is the metadata
  written under `asset/timeframe/quarter_metadata.json` and the temporary files removed. Finally the
  files that published are aggregated into a nested `asset → timeframe → [entry]` index.
- **The in-memory order store** (`src/crypto_trader/orders/order_tracker.py`): a class holding a dict
  of order objects, with submit, status update, lookup and listing.
- **Environment feature flags** (`src/crypto_trader/feature_flags.py`): `CRYPTO_FLAG_*` variables
  parsed into lower-case flag names with a truthiness test, and a case-insensitive lookup with a
  default.
- **Row batching** (`src/crypto_trader/data/parquet_loader.py`): `iter_batches` cutting the rows into
  consecutive slices.

Files:

| file | module | contents |
|---|---|---|
| `common.dfy` | `Common` | `Option`, `Result` |
| `pystr.dfy` | `PyStr` | the Python string behaviour the code relies on: `upper`/`lower` (ASCII), `split`, `join`, clamped slicing, `startswith`, `rfind`, `pathlib` stem and suffix, `int()`, `str()` on integers, `str.replace` |
| `naming.dfy` | `Naming` | file-name parsing, normalisation, quarter, tier, object keys, metadata record, directory-scan filter |
| `catalog.dfy` | `Catalog` | `generate_index` over an insertion-ordered dict |
| `publish.dfy` | `Publish` | `process_and_upload` as a method producing an effect log, proved against `ProcessSpec` |
| `upload_run.dfy` | `UploadRun` | `main`'s confirmation, publishing loop and index step |
| `orders.dfy` | `Orders` | `OrderStatus`, `Order` and `OrderTracker` classes |
| `feature_flags.dfy` | `Flags` | `from_env` loop and `is_enabled` |
| `parquet_batches.dfy` | `ParquetBatches` | `iter_batches` loop and the chunking laws |

How the outside world appears in the model:

- For each file, what the libraries, the disk and the bucket report is one `FileIo` value. It holds
  whether the CSV converted, the checksum, the size, the row count, the `uploadedAt` clock reading
  and the boolean returned by `upload_to_r2`. `main` receives one per loop position.
- `date_to_timestamp` is a parameter `toMs: string -> Option<int>`, where `None` means `strptime`
  raised.
- The interactive answer to the confirmation prompt is a `response` parameter.
- The clock reading for `generatedAt` is a `now` parameter.
- What the code does to the disk and the bucket is recorded as a sequence of `Effect`s: writes,
  uploads, metadata puts, removals and the index put.

Behaviour of the code that the model keeps, and that the lemmas make visible:

- **Exceptions end the whole run.** `main` catches only the boolean returned by the data upload.
  A CSV that does not fit the Parquet schema, a month that `int()` rejects, or a date that `strptime`
  rejects raises out of `process_and_upload`. Nothing catches it, so the whole batch stops, and no
  index is uploaded. A CSV that does not fit the schema is documented as a failure of that one file,
  but the code aborts the whole run; nothing documents what a bad month or date should do. The
  model follows the code (`UploadRun.RunUpload`, `UploadRun.BatchStopsAtFirstRaise`).
- **Temporary files leak on failure.** A file whose upload fails keeps its converted and compressed
  copies on disk (`Publish.TemporaryFiles`).
- **The metadata always claims compression.** It says zstd level 3 even with `--no-compress`, and
  the data key always ends in `.parquet.zst` (`Publish.PublishedObjects`, `Publish.CompressionKeepsKeys`).
- **Partitions can collide.** Two files of one asset and timeframe whose start dates fall in the same
  quarter share their object keys, so the later upload overwrites the earlier. The index still lists
  both entries (`Publish.SamePartitionSameKey`, `Catalog.GroupLookup`).
- **Months are not range-checked.** `20241301` gives `2024-Q5` and `20240001` gives `2024-Q0`
  (`Naming.QuarterOfOutOfRangeMonth`).
- **The index is rebuilt from this run's files only** (`Catalog.GenerateIndex`).

## Model

| member | source | states |
|---|---|---|
| PyStr.Split | scripts/upload_to_r2.py:64 | `str.split` on one character always yields at least one part |
| PyStr.SplitJoin | scripts/upload_to_r2.py:64 | splitting the `_`-join of separator-free tokens gives the tokens back |
| PyStr.RFind | scripts/upload_to_r2.py:63 | the last occurrence of a character, `-1` exactly when absent; no occurrence after it (the basis of `stem` and `suffix`) |
| PyStr.ParseTwoDigits | scripts/upload_to_r2.py:111 | `int()` of two decimal digits is their value |
| PyStr.ReplaceNotShorter | scripts/upload_to_r2.py:140 | replacing `.csv` by the longer `.parquet` never shortens the path |
| Naming.NormalizeAsset | scripts/upload_to_r2.py:81-92 | the result is the input unchanged or one of the table's Kraken tickers, and it differs from the input only when the upper-cased input is a table key |
| Naming.NormalizeTimeframe | scripts/upload_to_r2.py:94-106 | the result is the input unchanged or one of the table's canonical tokens, and it differs from the input only when the lower-cased input is a table key |
| Naming.NormalizeAssetIgnoresCase | scripts/upload_to_r2.py:81-92 | any two casings of a ticker the table knows normalise to the same table value |
| Naming.NormalizeTimeframeIgnoresCase | scripts/upload_to_r2.py:94-106 | any two casings of a timeframe token the table knows normalise to the same table value |
| Naming.NormalizeAssetIdempotent | scripts/upload_to_r2.py:81-92 | normalising a ticker twice equals normalising it once |
| Naming.NormalizeTimeframeIdempotent | scripts/upload_to_r2.py:94-106 | normalising a timeframe twice equals normalising it once |
| Naming.NormalizationExamples | scripts/upload_to_r2.py:81-106 | examples: `btcusdt` and `EthUsd` hit the table, `1MIN` and `1min` both give `1m`; the misses `DOGEUSDT`, `dogeusdt` and `30Min` are returned verbatim in their own case |
| Naming.ParseFilename | scripts/upload_to_r2.py:61-79 | a record exactly when the stem has at least six `_` tokens and the first upper-cases to `BINANCE`; the exchange (in its own case), the two dates and the data type are the tokens verbatim, and the filename is the full name |
| Naming.ParseComposedName | scripts/upload_to_r2.py:61-79 | a name built from six or more separator-free tokens and an extension parses to those tokens (asset and timeframe normalised, extra tokens ignored) with the extension as format |
| Naming.DetermineQuarter | scripts/upload_to_r2.py:108-113 | succeeds exactly when `int()` accepts characters 4-5; the error carries that text |
| Naming.QuarterOfTwoDigitMonth | scripts/upload_to_r2.py:108-113 | for two month digits the result is the verbatim year, `-Q`, and `(month - 1) // 3 + 1` |
| Naming.QuarterOfCalendarMonth | scripts/upload_to_r2.py:108-113 | a month in 3q-2..3q gives quarter q, for q in 1..4 |
| Naming.CalendarMonthHasQuarter | scripts/upload_to_r2.py:108-113 | every month 1..12 gives a quarter in 1..4 |
| Naming.QuarterExamples | scripts/upload_to_r2.py:108-113 | `20240501` → `2024-Q2`, `20241231` → `2024-Q4`, `20240101` → `2024-Q1` |
| Naming.SameQuarterExample | scripts/upload_to_r2.py:108-113 | April and June of one year give the same quarter |
| Naming.QuarterOfOutOfRangeMonth | scripts/upload_to_r2.py:108-113 | months 13 and 00 are not rejected: quarters 5 and 0 |
| Naming.QuarterOfShortDate | scripts/upload_to_r2.py:108-113 | a date too short to hold a month raises with the empty month text |
| Naming.DataTierOf | scripts/upload_to_r2.py:186-192 | `book` ⇔ premium tier, `trades` ⇔ standard tier, anything else ⇔ basic tier, compared case-sensitively |
| Naming.TierName | scripts/upload_to_r2.py:188-192 | the `dataTier` string is one of `TIER_1_PREMIUM`, `TIER_3_STANDARD`, `TIER_4_BASIC` |
| Naming.TierExamples | scripts/upload_to_r2.py:186-192 | the tier strings of `book`, `trades`, `ohlcv` and `Book`; distinct tiers have distinct names |
| Naming.DataKey | scripts/upload_to_r2.py:267 | the data key is the partition prefix `asset/timeframe/quarter` followed by `.parquet.zst` |
| Naming.MetadataKey | scripts/upload_to_r2.py:268 | the metadata key is the same partition prefix followed by `_metadata.json` |
| Naming.PartitionKeysDiffer | scripts/upload_to_r2.py:267-268 | a partition's data key and metadata key never coincide |
| Naming.DataKeySplits | scripts/upload_to_r2.py:267 | the data key splits on `/` into asset, timeframe and `quarter.parquet.zst` |
| Naming.DataKeyInjective | scripts/upload_to_r2.py:267 | partitions with `/`-free names have distinct data keys |
| Naming.GenerateMetadata | scripts/upload_to_r2.py:179-212 | succeeds exactly when the quarter and both dates convert; a failure after a good quarter is a date error; the record carries the descriptor's asset, timeframe, exchange, tier and quarter and always claims zstd level 3 |
| Naming.Discover | scripts/upload_to_r2.py:44-59 | every yielded record has format `csv` or `parquet`, and there are no more records than listed files |
| Naming.DiscoverOne | scripts/upload_to_r2.py:51-56 | a single listed file yields the record of its parsed name and path exactly when its suffix is `.csv` or `.parquet` and its name parses; otherwise nothing |
| Naming.DiscoverAppend | scripts/upload_to_r2.py:51-56 | scanning a listing in two parts gives the two results one after the other, so records come in listing order |
| Naming.DiscoverMembers | scripts/upload_to_r2.py:51-56 | a record is yielded exactly when some listed file is kept and yields it |
| Naming.DiscoveredNamesParse | scripts/upload_to_r2.py:53-55 | each yielded record is exactly what its own file name parses to |
| Naming.ExampleFileParses | scripts/upload_to_r2.py:61-106 | the documented name `BINANCE_BTCUSDT_20240501_20240503_ohlcv_1min.csv` parses to exchange `BINANCE`, asset `XXBTZUSD`, timeframe `1m`, type `ohlcv`, format `csv` |
| Naming.ExampleFileScan | scripts/upload_to_r2.py:44-59 | the scan keeps the documented example file, with its path |

| Catalog.EntryMatchesMetadata | scripts/upload_to_r2.py:307-311 | an index entry holds the same quarter and dates as the metadata written for that file |
| Catalog.InsertThenAppend | scripts/upload_to_r2.py:301-311 | inserting the missing asset and timeframe keys and then appending equals adding one entry to the mapping |
| Catalog.IndexFile | scripts/upload_to_r2.py:296-311 | one loop pass fails exactly when the file's quarter or a date raises, with that error; otherwise it adds the file's entry |
| Catalog.GroupLookup | scripts/upload_to_r2.py:294-311 | each file contributes exactly one entry, to the list under its own asset and timeframe, in input order |
| Catalog.GroupOne | scripts/upload_to_r2.py:294-311 | a single dated file gives exactly one entry, its own, under its asset and timeframe |
| Catalog.GroupAssets | scripts/upload_to_r2.py:294-305 | the asset keys are exactly the distinct assets of the files |
| Catalog.GroupCount | scripts/upload_to_r2.py:294-311 | the list lengths add up to the number of files |
| Catalog.IndexTotals | scripts/upload_to_r2.py:313-319 | `totalAssets` is the number of distinct assets and the entries number `totalFiles` |
| Catalog.GenerateIndex | scripts/upload_to_r2.py:292-319 | succeeds exactly when every file's quarter and dates convert, giving the grouped mapping, both totals, version `1.0` and the clock reading; otherwise it fails with the first failing file's error |
| Publish.ProcessAndUpload | scripts/upload_to_r2.py:238-290 | the step sequence (convert, compress, describe, upload data, then metadata and cleanup) produces `ProcessSpec`'s outcome and effects |
| Publish.CompressStep | scripts/upload_to_r2.py:249-254 | with compression the `.zst` copy is written and becomes the upload file; without it the Parquet file is uploaded and nothing is written |
| Publish.RemoveTemporaries | scripts/upload_to_r2.py:284-288 | the removals are exactly the cleanup the two conditions select |
| Publish.OutcomeCases | scripts/upload_to_r2.py:238-290 | `True` exactly when conversion, metadata and upload succeed; `False` exactly when only the upload fails; otherwise the metadata error escapes |
| Publish.UploadPrecedesPublication | scripts/upload_to_r2.py:270-288 | metadata writes and removals happen only in a call returning `True`, and after the data upload |
| Publish.UploadFailureStops | scripts/upload_to_r2.py:270-272 | a failed upload is the last action: no metadata and no removal |
| Publish.CompressedPathIsNew | scripts/upload_to_r2.py:149 | the compressed copy's path differs from the source file and from the Parquet file |
| Publish.TemporaryFiles | scripts/upload_to_r2.py:284-288 | on success the removed files are the written ones minus the source file; on failure nothing is removed |
| Publish.PublishedObjects | scripts/upload_to_r2.py:262-281 | a published file's data goes under its partition's data key and its metadata under the metadata key, claiming zstd level 3 |
| Publish.UploadKeyOfPartition | scripts/upload_to_r2.py:262-271 | a call that does not raise uploads data under exactly its partition's key; one that raises uploads nothing |
| Publish.CompressionKeepsKeys | scripts/upload_to_r2.py:249-268 | compression changes neither the outcome nor the data key |
| Publish.SamePartitionSameKey | scripts/upload_to_r2.py:262-268 | two files of one asset, timeframe and quarter are uploaded under the same key |
| Publish.ExampleMetadata | scripts/upload_to_r2.py:108-113 | a basic `ohlcv` file starting `20240501` gets metadata with quarter `2024-Q2` and tier `TIER_4_BASIC` |
| Publish.ExamplePublished | scripts/upload_to_r2.py:238-319 | the documented example end to end: scanned, published under `XXBTZUSD/1m/2024-Q2.parquet.zst` with its metadata key beside it in tier `TIER_4_BASIC`, and listed once in the index under `XXBTZUSD` / `1m` |
| UploadRun.BatchCompletes | scripts/upload_to_r2.py:375-381 | the loop ends without an exception exactly when no file raises |
| UploadRun.BatchKeepsSuccesses | scripts/upload_to_r2.py:375-381 | without an exception, `processed_files` is the order-preserving subsequence of files whose processing returned `True` |
| UploadRun.BatchStopsAtFirstRaise | scripts/upload_to_r2.py:375-381 | with an exception, the run stops at the first raising file, keeping the successes before it |
| UploadRun.SucceededAreDated | scripts/upload_to_r2.py:380-385 | every kept file has a valid quarter and dates, so building the index cannot raise |
| UploadRun.AllPublishedAllKept | scripts/upload_to_r2.py:375-381 | when every file publishes, every file is kept |
| UploadRun.OneUploadFailureBatch | scripts/upload_to_r2.py:375-390 | N files with exactly one failed upload complete with the other N-1 files kept, in order |
| UploadRun.ProcessFiles | scripts/upload_to_r2.py:373-381 | a dry run keeps every discovered file with no effects; otherwise the loop gives the batch `BatchOf` describes: outcome by outcome, stopping at the first exception |
| UploadRun.RunUpload | scripts/upload_to_r2.py:360-393 | no files gives exit 1 and nothing else; an answer other than `yes` gives exit 0 and nothing else; a dry run keeps every file without effects or index; otherwise the loop's result, with the index of the kept files uploaded last unless an exception ended the run |
| Orders.StatusValue | src/crypto_trader/orders/order_tracker.py:10-13 | each status has one of the three string values |
| Orders.StatusValueInjective | src/crypto_trader/orders/order_tracker.py:10-13 | distinct statuses have distinct values |
| Orders.Order.constructor | src/crypto_trader/orders/order_tracker.py:16-24 | a new order keeps its fields and starts `PENDING` |
| Orders.Order.WithStatus | src/crypto_trader/orders/order_tracker.py:16-24 | an order built with an explicit status keeps it |
| Orders.OrderTracker.constructor | src/crypto_trader/orders/order_tracker.py:30-31 | a new store is empty |
| Orders.OrderTracker.Submit | src/crypto_trader/orders/order_tracker.py:33-36 | a fresh id adds exactly that order, last in order; an existing id raises and leaves the store unchanged |
| Orders.OrderTracker.UpdateStatus | src/crypto_trader/orders/order_tracker.py:38-41 | a known id gets the new status (any status to any status) and nothing else changes; an unknown id raises and changes nothing |
| Orders.OrderTracker.ListOrders | src/crypto_trader/orders/order_tracker.py:43-44 | every stored order exactly once, in submission order |
| Orders.OrderTracker.GetOrder | src/crypto_trader/orders/order_tracker.py:46-49 | the stored order object for a known id; `KeyError` otherwise |
| Orders.SubmitGetScenario | tests/test_order_tracker.py:4-10 | a submitted order is found under its id with its symbol and `PENDING` |
| Orders.UpdateScenario | tests/test_order_tracker.py:13-18 | after an update to `FILLED` the store and the caller's reference both see it; another order stays `PENDING`, and the listing is unchanged |
| Flags.FromEnv | src/crypto_trader/feature_flags.py:15-24 | the loop builds the dict that `ParsedFlags` describes |
| Flags.IsTruthy | src/crypto_trader/feature_flags.py:23 | each of `1`, `true`, `yes`, `on` switches a flag on, and any value that does is one to four characters long |
| Flags.IsEnabled | src/crypto_trader/feature_flags.py:26-28 | the stored flag under the lower-cased name, or the default when there is none |
| Flags.ParsedFlagValue | src/crypto_trader/feature_flags.py:18-23 | a flag exists exactly when some key defines it; its value is the truthiness of the last pair defining it |
| Flags.FlagNamesAreLowerCase | src/crypto_trader/feature_flags.py:22 | every flag name is lower case |
| Flags.PrefixIsCaseSensitive | src/crypto_trader/feature_flags.py:21 | a key whose first twelve characters spell `CRYPTO_FLAG_` in any other casing defines no flag |
| Flags.TruthinessIgnoresCase | src/crypto_trader/feature_flags.py:23 | a value's truthiness does not depend on its case |
| Flags.IsEnabledIgnoresCase | src/crypto_trader/feature_flags.py:26-28 | any casing of a name finds the same flag |
| Flags.FromEnvThenIsEnabled | src/crypto_trader/feature_flags.py:16-28 | the lookup after parsing gives the last defining pair's truthiness, or the default when no key defines the name |
| Flags.ExperimentalFlagExample | tests/test_feature_flags.py:4-8 | `CRYPTO_FLAG_EXPERIMENTAL=true` turns on `experimental`; `missing` takes the default `False` |
| ParquetBatches.IterBatches | src/crypto_trader/data/parquet_loader.py:38-44 | a positive batch size yields the chunks in order; zero raises; a negative size yields nothing |
| ParquetBatches.ChunksFlatten | src/crypto_trader/data/parquet_loader.py:43-44 | joining the batches gives all rows back |
| ParquetBatches.ChunkSizes | src/crypto_trader/data/parquet_loader.py:43-44 | every batch is non-empty and at most the batch size; all but the last are exactly the batch size |
| ParquetBatches.ChunkCount | src/crypto_trader/data/parquet_loader.py:42-43 | the batch count is ceil(n / size), so an empty table gives no batch |
| ParquetBatches.ChunkAt | src/crypto_trader/data/parquet_loader.py:43-44 | batch k holds rows k·size up to (k+1)·size or the end |
| ParquetBatches.OneRowExample | tests/test_parquet_loader.py:17-19 | one row in batches of one gives one batch holding that row |

## Left out

- Bucket client work is not modelled: construction, `upload_fileobj`, `put_object` and `upload_index`
  are network I/O. The upload result is a boolean parameter, and a metadata or index put is an effect
  that cannot fail.
- The internals of CSV-to-Parquet conversion, zstd compression, SHA-256 hashing, file sizes and the
  Parquet row count are foreign libraries and disk I/O. Their results come from `FileIo`, and only
  the schema check's outcome is kept.
- Exceptions raised by compression, checksum, `getsize`, `read_table`, `put_object` or `os.remove`
  are not modelled, because the model has no failing disk or network. Only the schema, month and date
  exceptions are.
- `date_to_timestamp` is an opaque parameter. It depends on the machine's local time zone and on a
  float multiplication.
- `datetime.now()` and `datetime.utcnow()` are parameters (`uploadedAt`, `now`, `createdAt`).
- The directory walk (`rglob`, `is_file`) is not modelled. `Naming.Discover` filters an explicit
  listing in walk order.
- Argument parsing, `input()`, tqdm progress bars and printed messages are left out; the answer to
  the prompt is a parameter.
- `upper()` and `lower()` are modelled for ASCII letters only. Python's Unicode case mappings,
  including those that change length, are left out. `int()` accepts ASCII digits and whitespace only.
- JSON serialisation of the metadata and index documents is left out; they are records.
- Orders.Order: `symbol`, `side`, `quantity`, `price` and `created_at` are constants, because the
  dataclass allows reassigning them but no code does. Floats are kept as bit patterns, since no
  arithmetic is done on them.
- Orders.OrderTracker: the store relies on an order's id never changing after submission, which the
  constant `orderId` guarantees. Python would let a caller change it.
- ParquetBatches.IterBatches: `iter_batches` is a generator and reads the file first. The model
  returns the list of all batches of a given row sequence, and it gives `ZeroStep` at once for a
  zero batch size, where Python raises on the first `next()`.
- `ParquetDataSet.load` and `_require_pandas` are not modelled; they are thin pandas wrappers.
- create_icons.py, src/crypto_trader/observability/logger.py, src/crypto_trader/diagnostics.py and
  src/crypto_trader/__main__.py are not modelled. They are drawing, logging-library, platform-query
  and command-line glue.
