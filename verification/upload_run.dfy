/**
 * `main` of scripts/upload_to_r2.py after argument parsing and the directory
 * scan: the confirmation, the loop that publishes each discovered file and
 * keeps the ones that succeeded, and the index built from those.
 *
 * An exception that escapes `process_and_upload` or `generate_index` is not
 * caught by `main`: it ends the whole run, and no index is uploaded.
 */
module UploadRun {
  import opened Common
  import opened PyStr
  import opened Naming
  import opened Catalog
  import opened Publish

  /** How the run ends: `main`'s return value, or an escaping exception. */
  datatype Exit = Exited(code: int) | Crashed(error: PipelineError)

  datatype Run = Run(exit: Exit, processed: seq<FileInfo>, effects: seq<Effect>, index: Option<CatalogIndex>)

  /** The state of the publishing loop: the files kept so far, the log, and an escaped exception. */
  datatype Batch = Batch(processed: seq<FileInfo>, effects: seq<Effect>, failure: Option<PipelineError>)

  /** What one call of `process_and_upload` does to the `i`-th file of the batch. */
  type Step = (FileInfo, nat) -> Processed

  /** The step `main` runs: `process_and_upload` with the outside world's answers for file `i`. */
  function Publisher(compress: bool, io: nat -> FileIo, toMs: DateToMs): Step {
    (f: FileInfo, i: nat) => ProcessSpec(f, compress, io(i), toMs)
  }

  /** The publishing loop over `files`; nothing runs after an exception. */
  function BatchOf(files: seq<FileInfo>, step: Step): Batch
    decreases |files|
  {
    if files == [] then Batch([], [], None)
    else
      var n := |files| - 1;
      var b := BatchOf(files[..n], step);
      if b.failure.Some? then b
      else
        var p := step(files[n], n);
        match p.outcome
        case Raised(e) => Batch(b.processed, b.effects + p.effects, Some(e))
        case Published => Batch(b.processed + [files[n]], b.effects + p.effects, None)
        case UploadFailed => Batch(b.processed, b.effects + p.effects, None)
  }

  /** What processing the `i`-th file returns or raises. */
  function OutcomeAt(files: seq<FileInfo>, step: Step, i: nat): Outcome
    requires i < |files|
  {
    step(files[i], i).outcome
  }

  /** The files whose processing returned `True`, in their original order. */
  function Succeeded(files: seq<FileInfo>, step: Step): seq<FileInfo>
    decreases |files|
  {
    if files == [] then []
    else
      var n := |files| - 1;
      Succeeded(files[..n], step) + (if OutcomeAt(files, step, n) == Published then [files[n]] else [])
  }

  /** A prefix's outcomes are those of the whole sequence. */
  lemma PrefixOutcomes(files: seq<FileInfo>, step: Step, k: nat)
    requires k <= |files|
    ensures forall i :: 0 <= i < k ==> OutcomeAt(files[..k], step, i) == OutcomeAt(files, step, i)
  {
    forall i | 0 <= i < k ensures OutcomeAt(files[..k], step, i) == OutcomeAt(files, step, i) {
      assert files[..k][i] == files[i];
    }
  }

  /** The loop ends without an exception exactly when no file raises. */
  lemma {:induction false} BatchCompletes(files: seq<FileInfo>, step: Step)
    ensures BatchOf(files, step).failure.None? <==> forall i :: 0 <= i < |files| ==> !OutcomeAt(files, step, i).Raised?
    decreases |files|
  {
    if files != [] {
      var n := |files| - 1;
      BatchCompletes(files[..n], step);
      PrefixOutcomes(files, step, n);
      if BatchOf(files[..n], step).failure.Some? {
        var i :| 0 <= i < n && OutcomeAt(files[..n], step, i).Raised?;
        assert OutcomeAt(files, step, i).Raised?;
      } else {
        assert BatchOf(files, step).failure.None? <==> !OutcomeAt(files, step, n).Raised?;
        if !OutcomeAt(files, step, n).Raised? {
          assert forall i :: 0 <= i < |files| ==> !OutcomeAt(files, step, i).Raised? by {
            forall i | 0 <= i < |files| ensures !OutcomeAt(files, step, i).Raised? {
              if i < n {
                assert !OutcomeAt(files[..n], step, i).Raised?;
              }
            }
          }
        }
      }
    }
  }

  /** Without an exception, the kept files are those whose processing returned `True`, in discovery order. */
  lemma {:induction false} BatchKeepsSuccesses(files: seq<FileInfo>, step: Step)
    requires BatchOf(files, step).failure.None?
    ensures BatchOf(files, step).processed == Succeeded(files, step)
    decreases |files|
  {
    if files != [] {
      BatchKeepsSuccesses(files[..|files| - 1], step);
    }
  }

  /** With an exception, the run stops at the first file that raised and keeps the successes before it. */
  lemma {:induction false} BatchStopsAtFirstRaise(files: seq<FileInfo>, step: Step)
    requires BatchOf(files, step).failure.Some?
    ensures var b := BatchOf(files, step);
      exists k :: 0 <= k < |files| && OutcomeAt(files, step, k) == Raised(b.failure.value)
        && (forall i :: 0 <= i < k ==> !OutcomeAt(files, step, i).Raised?)
        && b.processed == Succeeded(files[..k], step)
    decreases |files|
  {
    var n := |files| - 1;
    var prefix := files[..n];
    var b0 := BatchOf(prefix, step);
    PrefixOutcomes(files, step, n);
    if b0.failure.Some? {
      BatchStopsAtFirstRaise(prefix, step);
      var k :| 0 <= k < n && OutcomeAt(prefix, step, k) == Raised(b0.failure.value)
            && (forall i :: 0 <= i < k ==> !OutcomeAt(prefix, step, i).Raised?)
            && b0.processed == Succeeded(prefix[..k], step);
      assert prefix[..k] == files[..k];
    } else {
      BatchCompletes(prefix, step);
      BatchKeepsSuccesses(prefix, step);
      assert files[..n] == prefix;
    }
  }

  /** When every file publishes, every file is kept. */
  lemma {:induction false} AllPublishedAllKept(files: seq<FileInfo>, step: Step)
    requires forall i :: 0 <= i < |files| ==> OutcomeAt(files, step, i) == Published
    ensures Succeeded(files, step) == files
    decreases |files|
  {
    if files != [] {
      var n := |files| - 1;
      PrefixOutcomes(files, step, n);
      AllPublishedAllKept(files[..n], step);
      assert files[..n] + [files[n]] == files;
    }
  }

  /** One file whose upload fails, among files that otherwise publish, is the only one left out. */
  lemma {:induction false} OneUploadFailure(files: seq<FileInfo>, step: Step, k: nat)
    requires k < |files|
    requires OutcomeAt(files, step, k) == UploadFailed
    requires forall i :: 0 <= i < |files| && i != k ==> OutcomeAt(files, step, i) == Published
    ensures Succeeded(files, step) == files[..k] + files[k + 1..]
    decreases |files|
  {
    var n := |files| - 1;
    var prefix := files[..n];
    PrefixOutcomes(files, step, n);
    if k == n {
      AllPublishedAllKept(prefix, step);
      assert files[k + 1..] == [];
    } else {
      OneUploadFailure(prefix, step, k);
      assert prefix[..k] == files[..k];
      assert prefix[k + 1..] + [files[n]] == files[k + 1..];
    }
  }

  /**
   * A batch of N files where exactly one upload fails, and every other file
   * publishes, completes with N - 1 kept files: the index is built from those.
   */
  lemma OneUploadFailureBatch(files: seq<FileInfo>, step: Step, k: nat)
    requires k < |files|
    requires OutcomeAt(files, step, k) == UploadFailed
    requires forall i :: 0 <= i < |files| && i != k ==> OutcomeAt(files, step, i) == Published
    ensures var b := BatchOf(files, step);
      && b.failure.None?
      && b.processed == files[..k] + files[k + 1..]
      && |b.processed| == |files| - 1
  {
    BatchCompletes(files, step);
    BatchKeepsSuccesses(files, step);
    OneUploadFailure(files, step, k);
  }

  lemma {:induction false} BatchAfterCrash(files: seq<FileInfo>, step: Step, k: nat)
    requires k <= |files| && BatchOf(files[..k], step).failure.Some?
    ensures BatchOf(files, step) == BatchOf(files[..k], step)
    decreases |files|
  {
    if k < |files| {
      var n := |files| - 1;
      assert files[..n][..k] == files[..k];
      BatchAfterCrash(files[..n], step, k);
    } else {
      assert files[..k] == files;
    }
  }

  /** A file that was published carries a valid quarter and two convertible dates, so the index cannot fail. */
  lemma {:induction false} SucceededAreDated(files: seq<FileInfo>, compress: bool, io: nat -> FileIo, toMs: DateToMs)
    ensures AllDated(Succeeded(files, Publisher(compress, io, toMs)), toMs)
    decreases |files|
  {
    if files != [] {
      var n := |files| - 1;
      var step := Publisher(compress, io, toMs);
      SucceededAreDated(files[..n], compress, io, toMs);
      if OutcomeAt(files, step, n) == Published {
        var f := files[n];
        assert ProcessSpec(f, compress, io(n), toMs).outcome == Published;
        EntryMatchesMetadata(f.desc, io(n).checksum, io(n).sizeBytes, io(n).bars, io(n).uploadedAt, toMs);
        var kept := Succeeded(files[..n], step);
        assert Succeeded(files, step) == kept + [f];
        forall i | 0 <= i < |kept + [f]| ensures EntryOf((kept + [f])[i].desc, toMs).Success? {
          if i < |kept| {
            assert (kept + [f])[i] == kept[i];
          }
        }
      }
    }
  }

  /**
   * `main` from the confirmation on.  `response` is the answer typed at the
   * prompt, `io(i)` what the outside world reports for the `i`-th file, and
   * `now` the clock reading for the index.
   */
  method RunUpload(discovered: seq<FileInfo>, dryRun: bool, compress: bool, response: string,
                   io: nat -> FileIo, toMs: DateToMs, now: string)
    returns (run: Run)
    ensures |discovered| == 0 ==> run == Run(Exited(1), [], [], None)
    ensures |discovered| > 0 && !dryRun && Lower(response) != "yes" ==> run == Run(Exited(0), [], [], None)
    ensures |discovered| > 0 && dryRun ==> run == Run(Exited(0), discovered, [], None)
    ensures |discovered| > 0 && !dryRun && Lower(response) == "yes" ==>
      var b := BatchOf(discovered, Publisher(compress, io, toMs));
      && run.processed == b.processed
      && (b.failure.Some? ==> run == Run(Crashed(b.failure.value), b.processed, b.effects, None))
      && (b.failure.None? ==>
            && AllDated(b.processed, toMs)
            && run.exit == Exited(0)
            && run.index.Some?
            && run.index.value.assets == Group(b.processed, toMs)
            && run.index.value.totalFiles == |b.processed|
            && run.index.value.totalAssets == |AssetsOf(b.processed)|
            && run.index.value.generatedAt == now
            && run.effects == b.effects + [PutIndex(run.index.value)])
  {
    if |discovered| == 0 {
      return Run(Exited(1), [], [], None);
    }
    if !dryRun && Lower(response) != "yes" {
      return Run(Exited(0), [], [], None);
    }
    var processed, effects, failure := ProcessFiles(discovered, dryRun, compress, io, toMs);
    if failure.Some? {
      return Run(Crashed(failure.value), processed, effects, None);
    }
    if !dryRun {
      ghost var step := Publisher(compress, io, toMs);
      BatchKeepsSuccesses(discovered, step);
      SucceededAreDated(discovered, compress, io, toMs);
      var index := GenerateIndex(processed, toMs, now);
      effects := effects + [PutIndex(index.value)];
      return Run(Exited(0), processed, effects, Some(index.value));
    }
    run := Run(Exited(0), processed, effects, None);
  }

  /**
   * The loop of `main` over the discovered files: a dry run keeps every
   * file; otherwise each file is processed in turn, kept when it publishes,
   * and an exception ends the loop.
   */
  method ProcessFiles(discovered: seq<FileInfo>, dryRun: bool, compress: bool, io: nat -> FileIo, toMs: DateToMs)
    returns (processed: seq<FileInfo>, effects: seq<Effect>, failure: Option<PipelineError>)
    ensures dryRun ==> processed == discovered && effects == [] && failure == None
    ensures !dryRun ==> Batch(processed, effects, failure) == BatchOf(discovered, Publisher(compress, io, toMs))
  {
    ghost var step := Publisher(compress, io, toMs);
    processed, effects, failure := [], [], None;
    for i := 0 to |discovered|
      invariant dryRun ==> processed == discovered[..i] && effects == []
      invariant !dryRun ==> BatchOf(discovered[..i], step) == Batch(processed, effects, None)
      invariant failure == None
    {
      assert discovered[..i + 1][..i] == discovered[..i];
      if dryRun {
        processed := processed + [discovered[i]];
      } else {
        var outcome, fx := ProcessAndUpload(discovered[i], compress, io(i), toMs);
        effects := effects + fx;
        if outcome.Raised? {
          BatchAfterCrash(discovered, step, i + 1);
          failure := Some(outcome.error);
          return;
        }
        if outcome == Published {
          processed := processed + [discovered[i]];
        }
      }
    }
    assert discovered[..|discovered|] == discovered;
  }
}
