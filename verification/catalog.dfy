/**
 * The catalog index of the uploader (`generate_index` in
 * scripts/upload_to_r2.py): the processed files grouped by asset, then by
 * timeframe, into lists of quarter and date-range entries.  The index is
 * rebuilt from the given files alone on every run.
 */
module Catalog {
  import opened Common
  import opened PyStr
  import opened Naming

  // ---------------------------------------------------------------------------
  // Python dicts with string keys

  /** A dict: its entries and the order in which its keys were first inserted. */
  datatype Dict<V> = Dict(keys: seq<string>, entries: map<string, V>)

  ghost predicate WellFormed<V>(d: Dict<V>) {
    && (forall i, j :: 0 <= i < j < |d.keys| ==> d.keys[i] != d.keys[j])
    && (forall k :: k in d.entries <==> k in d.keys)
  }

  function EmptyDict<V>(): (d: Dict<V>)
    ensures WellFormed(d)
  {
    Dict([], map[])
  }

  /** `d[k] = v`: a new key goes last, an existing key keeps its place. */
  function Put<V>(d: Dict<V>, k: string, v: V): (r: Dict<V>)
    requires WellFormed(d)
    ensures WellFormed(r)
  {
    if k in d.entries then Dict(d.keys, d.entries[k := v]) else Dict(d.keys + [k], d.entries[k := v])
  }

  lemma PutTwice<V>(d: Dict<V>, k: string, v1: V, v2: V)
    requires WellFormed(d)
    ensures Put(Put(d, k, v1), k, v2) == Put(d, k, v2)
  {}

  /** The sum of `weight` over the values of the listed keys. */
  function SumOf<V>(keys: seq<string>, m: map<string, V>, weight: V -> nat): nat
    decreases |keys|
  {
    if keys == [] then 0
    else
      var k := keys[|keys| - 1];
      SumOf(keys[..|keys| - 1], m, weight) + (if k in m then weight(m[k]) else 0)
  }

  lemma {:induction false} SumOfOtherKey<V>(keys: seq<string>, m: map<string, V>, weight: V -> nat, k: string, v: V)
    requires k !in keys
    ensures SumOf(keys, m[k := v], weight) == SumOf(keys, m, weight)
    decreases |keys|
  {
    if keys != [] {
      SumOfOtherKey(keys[..|keys| - 1], m, weight, k, v);
    }
  }

  lemma {:induction false} SumOfUpdate<V>(keys: seq<string>, m: map<string, V>, weight: V -> nat, k: string, v: V)
    requires forall i, j :: 0 <= i < j < |keys| ==> keys[i] != keys[j]
    requires k in keys && k in m
    ensures SumOf(keys, m[k := v], weight) + weight(m[k]) == SumOf(keys, m, weight) + weight(v)
    decreases |keys|
  {
    var n := |keys| - 1;
    if keys[n] == k {
      assert k !in keys[..n];
      SumOfOtherKey(keys[..n], m, weight, k, v);
    } else {
      assert k in keys[..n];
      SumOfUpdate(keys[..n], m, weight, k, v);
    }
  }

  /** Storing `v` under `k` changes the total by the weight of `v` minus that of the value it replaces. */
  lemma PutSum<V>(d: Dict<V>, weight: V -> nat, k: string, v: V)
    requires WellFormed(d)
    ensures var r := Put(d, k, v);
      SumOf(r.keys, r.entries, weight) + (if k in d.entries then weight(d.entries[k]) else 0)
      == SumOf(d.keys, d.entries, weight) + weight(v)
  {
    if k in d.entries {
      SumOfUpdate(d.keys, d.entries, weight, k, v);
    } else {
      var r := Put(d, k, v);
      assert r.keys[..|r.keys| - 1] == d.keys;
      SumOfOtherKey(d.keys, d.entries, weight, k, v);
    }
  }

  // ---------------------------------------------------------------------------
  // The index

  /** One entry of a timeframe's list: `{quarter, startDate, endDate}`. */
  datatype Entry = Entry(quarter: string, startDate: int, endDate: int)

  type Timeframes = Dict<seq<Entry>>
  type Assets = Dict<Timeframes>

  /** The `index.json` document. */
  datatype CatalogIndex = CatalogIndex(
    version: string,
    generatedAt: string,
    assets: Assets,
    totalAssets: nat,
    totalFiles: nat)

  ghost predicate IndexWellFormed(g: Assets) {
    WellFormed(g) && forall a :: a in g.entries ==> WellFormed(g.entries[a])
  }

  /** The entry a file contributes: its quarter, then its two dates; each step may raise. */
  function EntryOf(d: Descriptor, toMs: DateToMs): Result<Entry, PipelineError> {
    match DetermineQuarter(d.startDate)
    case Failure(e) => Failure(e)
    case Success(quarter) =>
      match toMs(d.startDate)
      case None => Failure(DateUnparsable(d.startDate))
      case Some(startMs) =>
        match toMs(d.endDate)
        case None => Failure(DateUnparsable(d.endDate))
        case Some(endMs) => Success(Entry(quarter, startMs, endMs))
  }

  /** The index entry agrees with the metadata document written for the same file. */
  lemma EntryMatchesMetadata(d: Descriptor, checksum: string, sizeBytes: nat, bars: nat,
                             uploadedAt: string, toMs: DateToMs)
    requires GenerateMetadata(d, checksum, sizeBytes, bars, uploadedAt, toMs).Success?
    ensures var m := GenerateMetadata(d, checksum, sizeBytes, bars, uploadedAt, toMs).value;
      EntryOf(d, toMs) == Success(Entry(m.quarter, m.startDate, m.endDate))
  {}

  /** Every file's quarter and dates convert without raising. */
  predicate AllDated(files: seq<FileInfo>, toMs: DateToMs) {
    forall i :: 0 <= i < |files| ==> EntryOf(files[i].desc, toMs).Success?
  }

  /** One pass of the loop body: file entry `e` under the descriptor's asset and timeframe. */
  function AddEntry(g: Assets, d: Descriptor, e: Entry): (r: Assets)
    requires IndexWellFormed(g)
    ensures IndexWellFormed(r)
  {
    var inner := if d.asset in g.entries then g.entries[d.asset] else EmptyDict();
    var list := if d.timeframe in inner.entries then inner.entries[d.timeframe] else [];
    Put(g, d.asset, Put(inner, d.timeframe, list + [e]))
  }

  /** The `assets` mapping built from `files`, in order. */
  function Group(files: seq<FileInfo>, toMs: DateToMs): (g: Assets)
    requires AllDated(files, toMs)
    ensures IndexWellFormed(g)
    decreases |files|
  {
    if files == [] then EmptyDict()
    else
      var n := |files| - 1;
      assert AllDated(files[..n], toMs) by {
        forall i | 0 <= i < n ensures EntryOf(files[..n][i].desc, toMs).Success? {
          assert files[..n][i] == files[i];
        }
      }
      AddEntry(Group(files[..n], toMs), files[n].desc, EntryOf(files[n].desc, toMs).value)
  }

  /** Extending the files by one dated file adds its entry to the mapping. */
  lemma GroupExtend(files: seq<FileInfo>, i: nat, toMs: DateToMs)
    requires i < |files| && AllDated(files[..i], toMs) && EntryOf(files[i].desc, toMs).Success?
    ensures AllDated(files[..i + 1], toMs)
    ensures Group(files[..i + 1], toMs)
            == AddEntry(Group(files[..i], toMs), files[i].desc, EntryOf(files[i].desc, toMs).value)
  {
    var prefix := files[..i + 1];
    assert prefix[..i] == files[..i];
    assert prefix == files[..i] + [files[i]];
    AllDatedAppend(files[..i], files[i], toMs);
    GroupAppend(files[..i], files[i], toMs);
  }

  lemma AllDatedAppend(files: seq<FileInfo>, f: FileInfo, toMs: DateToMs)
    requires AllDated(files, toMs) && EntryOf(f.desc, toMs).Success?
    ensures AllDated(files + [f], toMs)
  {
    var s := files + [f];
    forall j | 0 <= j < |s| ensures EntryOf(s[j].desc, toMs).Success? {
      if j < |files| {
        assert s[j] == files[j];
      }
    }
  }

  lemma GroupAppend(files: seq<FileInfo>, f: FileInfo, toMs: DateToMs)
    requires AllDated(files, toMs) && AllDated(files + [f], toMs)
    ensures Group(files + [f], toMs) == AddEntry(Group(files, toMs), f.desc, EntryOf(f.desc, toMs).value)
  {
    var s := files + [f];
    assert s[..|s| - 1] == files;
    assert s[|s| - 1] == f;
  }

  /** `assets[asset][timeframe]`, or the empty list where there is none. */
  function Lookup(g: Assets, asset: string, timeframe: string): seq<Entry> {
    if asset in g.entries && timeframe in g.entries[asset].entries
    then g.entries[asset].entries[timeframe]
    else []
  }

  /** The entries of the files that carry `asset` and `timeframe`, in input order. */
  function EntriesFor(files: seq<FileInfo>, toMs: DateToMs, asset: string, timeframe: string): seq<Entry>
    requires AllDated(files, toMs)
    decreases |files|
  {
    if files == [] then []
    else
      var n := |files| - 1;
      var d := files[n].desc;
      assert AllDated(files[..n], toMs) by {
        forall i | 0 <= i < n ensures EntryOf(files[..n][i].desc, toMs).Success? {
          assert files[..n][i] == files[i];
        }
      }
      EntriesFor(files[..n], toMs, asset, timeframe)
      + (if d.asset == asset && d.timeframe == timeframe then [EntryOf(d, toMs).value] else [])
  }

  /** The set of assets the files carry. */
  function AssetsOf(files: seq<FileInfo>): set<string>
    decreases |files|
  {
    if files == [] then {} else AssetsOf(files[..|files| - 1]) + {files[|files| - 1].desc.asset}
  }

  lemma {:induction false} AssetsOfMembers(files: seq<FileInfo>, a: string)
    ensures a in AssetsOf(files) <==> exists i :: 0 <= i < |files| && files[i].desc.asset == a
    decreases |files|
  {
    if files != [] {
      var n := |files| - 1;
      AssetsOfMembers(files[..n], a);
      if a in AssetsOf(files[..n]) {
        var i :| 0 <= i < n && files[..n][i].desc.asset == a;
        assert files[i] == files[..n][i];
      }
      if exists i :: 0 <= i < |files| && files[i].desc.asset == a {
        var i :| 0 <= i < |files| && files[i].desc.asset == a;
        if i < n {
          assert files[..n][i] == files[i];
        }
      }
    }
  }

  /**
   * Each file contributes exactly one entry, to the list under its own asset
   * and timeframe, and each list keeps the input order.
   */
  lemma {:induction false} GroupLookup(files: seq<FileInfo>, toMs: DateToMs, asset: string, timeframe: string)
    requires AllDated(files, toMs)
    ensures Lookup(Group(files, toMs), asset, timeframe) == EntriesFor(files, toMs, asset, timeframe)
    decreases |files|
  {
    if files != [] {
      var n := |files| - 1;
      var d := files[n].desc;
      var e := EntryOf(d, toMs).value;
      var g := Group(files[..n], toMs);
      assert Group(files, toMs) == AddEntry(g, d, e);
      GroupLookup(files[..n], toMs, asset, timeframe);
      AddEntryLookup(g, d, e, asset, timeframe);
    }
  }

  /** Adding an entry appends it to its own list and leaves every other list alone. */
  lemma AddEntryLookup(g: Assets, d: Descriptor, e: Entry, asset: string, timeframe: string)
    requires IndexWellFormed(g)
    ensures Lookup(AddEntry(g, d, e), asset, timeframe)
            == Lookup(g, asset, timeframe) + (if d.asset == asset && d.timeframe == timeframe then [e] else [])
  {}

  /** A single dated file gives one list, under its own asset and timeframe, holding its entry. */
  lemma GroupOne(f: FileInfo, toMs: DateToMs)
    requires EntryOf(f.desc, toMs).Success?
    ensures AllDated([f], toMs)
    ensures Lookup(Group([f], toMs), f.desc.asset, f.desc.timeframe) == [EntryOf(f.desc, toMs).value]
  {
    assert AllDated([f], toMs);
    GroupLookup([f], toMs, f.desc.asset, f.desc.timeframe);
    assert [f][..0] == [];
  }

  /** The asset keys of the index are exactly the distinct assets of the files. */
  lemma {:induction false} GroupAssets(files: seq<FileInfo>, toMs: DateToMs)
    requires AllDated(files, toMs)
    ensures Group(files, toMs).entries.Keys == AssetsOf(files)
    decreases |files|
  {
    if files != [] {
      GroupAssets(files[..|files| - 1], toMs);
    }
  }

  function ListLength(list: seq<Entry>): nat {
    |list|
  }

  function TimeframeTotal(t: Timeframes): nat {
    SumOf(t.keys, t.entries, ListLength)
  }

  /** The total number of entries over all lists of the index. */
  function EntryCount(g: Assets): nat {
    SumOf(g.keys, g.entries, TimeframeTotal)
  }

  lemma AddEntryCount(g: Assets, d: Descriptor, e: Entry)
    requires IndexWellFormed(g)
    ensures EntryCount(AddEntry(g, d, e)) == EntryCount(g) + 1
  {
    var inner := if d.asset in g.entries then g.entries[d.asset] else EmptyDict();
    var list := if d.timeframe in inner.entries then inner.entries[d.timeframe] else [];
    var inner' := Put(inner, d.timeframe, list + [e]);
    PutSum(inner, ListLength, d.timeframe, list + [e]);
    assert TimeframeTotal(inner') == TimeframeTotal(inner) + 1;
    PutSum(g, TimeframeTotal, d.asset, inner');
  }

  /** The list lengths of the index add up to the number of files. */
  lemma {:induction false} GroupCount(files: seq<FileInfo>, toMs: DateToMs)
    requires AllDated(files, toMs)
    ensures EntryCount(Group(files, toMs)) == |files|
    decreases |files|
  {
    if files != [] {
      var n := |files| - 1;
      GroupCount(files[..n], toMs);
      AddEntryCount(Group(files[..n], toMs), files[n].desc, EntryOf(files[n].desc, toMs).value);
    }
  }

  /** The totals `generate_index` writes: one asset per distinct asset, one entry per file. */
  lemma IndexTotals(files: seq<FileInfo>, toMs: DateToMs)
    requires AllDated(files, toMs)
    ensures |Group(files, toMs).entries| == |AssetsOf(files)|
    ensures EntryCount(Group(files, toMs)) == |files|
  {
    var g := Group(files, toMs);
    GroupAssets(files, toMs);
    GroupCount(files, toMs);
    assert |g.entries| == |g.entries.Keys|;
  }

  // ---------------------------------------------------------------------------
  // generate_index

  /** Creating the missing keys first, then appending, builds the same mapping as `AddEntry`. */
  lemma InsertThenAppend(g: Assets, g1: Assets, g2: Assets, d: Descriptor, e: Entry)
    requires IndexWellFormed(g)
    requires g1 == if d.asset !in g.entries then Put(g, d.asset, EmptyDict()) else g
    requires g2 == if d.timeframe !in g1.entries[d.asset].entries
                   then Put(g1, d.asset, Put(g1.entries[d.asset], d.timeframe, [])) else g1
    ensures IndexWellFormed(g2) && d.asset in g2.entries && d.timeframe in g2.entries[d.asset].entries
    ensures Put(g2, d.asset, Put(g2.entries[d.asset], d.timeframe, g2.entries[d.asset].entries[d.timeframe] + [e]))
            == AddEntry(g, d, e)
  {
    var a, t := d.asset, d.timeframe;
    var inner := g1.entries[a];
    assert [] + [e] == [e];
    if t !in inner.entries {
      PutTwice(inner, t, [], [e]);
      PutTwice(g1, a, Put(inner, t, []), Put(inner, t, [e]));
      if a !in g.entries {
        PutTwice(g, a, EmptyDict(), Put(inner, t, [e]));
      }
    }
  }

  /**
   * One pass of `generate_index`'s loop: creates the asset and timeframe keys
   * when missing, then appends the file's entry.  The quarter is computed
   * before the keys are created and the dates after, as in the source.
   */
  method IndexFile(assets: Assets, d: Descriptor, toMs: DateToMs) returns (r: Result<Assets, PipelineError>)
    requires IndexWellFormed(assets)
    ensures r.Failure? <==> EntryOf(d, toMs).Failure?
    ensures r.Failure? ==> r.error == EntryOf(d, toMs).error
    ensures r.Success? ==> r.value == AddEntry(assets, d, EntryOf(d, toMs).value)
  {
    var asset := d.asset;
    var timeframe := d.timeframe;
    var quarter := DetermineQuarter(d.startDate);
    if quarter.Failure? {
      return Failure(quarter.error);
    }
    var g := assets;
    if asset !in g.entries {
      g := Put(g, asset, EmptyDict());
    }
    ghost var withAsset := g;
    if timeframe !in g.entries[asset].entries {
      g := Put(g, asset, Put(g.entries[asset], timeframe, []));
    }
    var startMs := toMs(d.startDate);
    if startMs.None? {
      return Failure(DateUnparsable(d.startDate));
    }
    var endMs := toMs(d.endDate);
    if endMs.None? {
      return Failure(DateUnparsable(d.endDate));
    }
    var entry := Entry(quarter.value, startMs.value, endMs.value);
    InsertThenAppend(assets, withAsset, g, d, entry);
    var list := g.entries[asset].entries[timeframe];
    g := Put(g, asset, Put(g.entries[asset], timeframe, list + [entry]));
    return Success(g);
  }

  /**
   * `generate_index`: the files' entries grouped by asset and timeframe, with
   * the totals; an exception for one file abandons the whole index.
   */
  method GenerateIndex(files: seq<FileInfo>, toMs: DateToMs, generatedAt: string)
    returns (r: Result<CatalogIndex, PipelineError>)
    ensures r.Success? <==> AllDated(files, toMs)
    ensures r.Success? ==>
      && r.value.assets == Group(files, toMs)
      && r.value.totalFiles == |files| == EntryCount(r.value.assets)
      && r.value.totalAssets == |AssetsOf(files)|
      && r.value.version == "1.0" && r.value.generatedAt == generatedAt
    ensures r.Failure? ==>
      exists i :: 0 <= i < |files| && AllDated(files[..i], toMs)
                  && EntryOf(files[i].desc, toMs) == Failure(r.error)
  {
    var assets: Assets := EmptyDict();
    for i := 0 to |files|
      invariant AllDated(files[..i], toMs)
      invariant assets == Group(files[..i], toMs)
    {
      var step := IndexFile(assets, files[i].desc, toMs);
      if step.Failure? {
        return Failure(step.error);
      }
      GroupExtend(files, i, toMs);
      assets := step.value;
    }
    assert files[..|files|] == files;
    IndexTotals(files, toMs);
    r := Success(CatalogIndex("1.0", generatedAt, assets, |assets.entries|, |files|));
  }
}
