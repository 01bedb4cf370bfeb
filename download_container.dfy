/**
 * download_container_from_azure.py: every name in the container's manifest is put on a queue
 * and a worker downloads each blob whose tier allows it, marking every item done exactly once
 * whatever happens to it. One worker is modelled, running after the enqueue loop.
 */
module DownloadContainer {
  import opened Wrappers
  import opened Checksum
  import opened BlobStore
  import opened AzureClient
  import opened TaskQueue

  /** The tiers the worker accepts for download. */
  predicate Downloadable(tier: string)
  {
    tier == "Hot" || tier == "Cool"
  }

  /**
   * What happened to one item. Reading the properties of a missing blob raises; for a tier
   * that cannot be downloaded the error message itself raises (it reads an attribute the
   * arguments do not have), so both end in the exception handler.
   */
  datatype ItemOutcome = BlobMissing | NotDownloadable | Fetched(result: DownloadResult)

  datatype ItemStep = ItemStep(outcome: ItemOutcome, calls: seq<Call>, files: map<string, seq<byte>>)

  /**
   * One item of the worker loop, with `download_blob` at its default `attempt=0`. It ends in
   * BlobMissing exactly when the blob is gone and in NotDownloadable exactly when its tier
   * does not allow a download; then nothing is called or written. Every call it makes
   * downloads that blob, and no file but `destination/name` changes.
   */
  function DownloadItem(blobs: map<string, Blob>, files: map<string, seq<byte>>, name: string, destination: string,
                        overwrite: bool, depth: nat): (s: ItemStep)
    ensures s.outcome.BlobMissing? <==> name !in blobs
    ensures s.outcome.NotDownloadable? <==> name in blobs && !Downloadable(blobs[name].tier)
    ensures !s.outcome.Fetched? ==> s.calls == [] && s.files == files
    ensures forall k :: 0 <= k < |s.calls| ==> s.calls[k] == DownloadCall(name)
    ensures forall p :: p != DestPath(destination, name) ==> FileAt(s.files, p) == FileAt(files, p)
  {
    if name !in blobs then ItemStep(BlobMissing, [], files)
    else if !Downloadable(blobs[name].tier) then ItemStep(NotDownloadable, [], files)
    else
      var path := DestPath(destination, name);
      var run := DownloadSpec(RemoteBytes(blobs, name), FileAt(files, path), blobs[name].metadata, overwrite, 0, depth);
      ItemStep(Fetched(run.result), DownloadCalls(name, run.downloads), WithFile(files, path, run.file))
  }

  datatype ContainerRun = ContainerRun(outcomes: seq<ItemOutcome>, calls: seq<Call>, files: map<string, seq<byte>>)

  /** The worker over the queued names, in queue order. */
  function DownloadAll(blobs: map<string, Blob>, files: map<string, seq<byte>>, names: seq<string>, destination: string,
                       overwrite: bool, depth: nat): (run: ContainerRun)
    ensures |run.outcomes| == |names|
    decreases |names|
  {
    if names == [] then ContainerRun([], [], files)
    else
      var n := |names| - 1;
      var prev := DownloadAll(blobs, files, names[..n], destination, overwrite, depth);
      var s := DownloadItem(blobs, prev.files, names[n], destination, overwrite, depth);
      ContainerRun(prev.outcomes + [s.outcome], prev.calls + s.calls, s.files)
  }

  /**
   * Each item's outcome is decided by its own blob: missing, of a tier that cannot be
   * downloaded, or fetched.
   */
  lemma {:induction false} OutcomesFollowTiers(blobs: map<string, Blob>, files: map<string, seq<byte>>, names: seq<string>,
                                              destination: string, overwrite: bool, depth: nat)
    ensures var run := DownloadAll(blobs, files, names, destination, overwrite, depth);
      forall k :: 0 <= k < |names| ==>
        (run.outcomes[k].BlobMissing? <==> names[k] !in blobs) &&
        (run.outcomes[k].NotDownloadable? <==> names[k] in blobs && !Downloadable(blobs[names[k]].tier))
    decreases |names|
  {
    if names != [] {
      var n := |names| - 1;
      OutcomesFollowTiers(blobs, files, names[..n], destination, overwrite, depth);
      var prev := DownloadAll(blobs, files, names[..n], destination, overwrite, depth);
      var s := DownloadItem(blobs, prev.files, names[n], destination, overwrite, depth);
      var outcomes := prev.outcomes + [s.outcome];
      forall k | 0 <= k < |names|
        ensures (outcomes[k].BlobMissing? <==> names[k] !in blobs) &&
                (outcomes[k].NotDownloadable? <==> names[k] in blobs && !Downloadable(blobs[names[k]].tier))
      {
        if k < n {
          assert outcomes[k] == prev.outcomes[k] && names[..n][k] == names[k];
        }
      }
    }
  }

  /** Every call in `calls` downloads one of `names` whose blob exists with a downloadable tier. */
  predicate DownloadsOfDownloadable(calls: seq<Call>, names: seq<string>, blobs: map<string, Blob>)
  {
    forall k :: 0 <= k < |calls| ==>
      calls[k].DownloadCall? && calls[k].name in names && calls[k].name in blobs && Downloadable(blobs[calls[k].name].tier)
  }

  /** Every remote call the worker makes is a download of a queued blob whose tier allows it. */
  lemma {:induction false} OnlyDownloadableFetched(blobs: map<string, Blob>, files: map<string, seq<byte>>, names: seq<string>,
                                                  destination: string, overwrite: bool, depth: nat)
    ensures DownloadsOfDownloadable(DownloadAll(blobs, files, names, destination, overwrite, depth).calls, names, blobs)
    decreases |names|
  {
    if names != [] {
      var n := |names| - 1;
      OnlyDownloadableFetched(blobs, files, names[..n], destination, overwrite, depth);
      var prev := DownloadAll(blobs, files, names[..n], destination, overwrite, depth);
      var s := DownloadItem(blobs, prev.files, names[n], destination, overwrite, depth);
      var calls := DownloadAll(blobs, files, names, destination, overwrite, depth).calls;
      assert calls == prev.calls + s.calls;
      forall k | 0 <= k < |calls|
        ensures calls[k].DownloadCall? && calls[k].name in names && calls[k].name in blobs && Downloadable(blobs[calls[k].name].tier)
      {
        if k < |prev.calls| {
          assert calls[k] == prev.calls[k];
          assert prev.calls[k].name in names[..n];
        } else {
          assert calls[k] == s.calls[k - |prev.calls|] == DownloadCall(names[n]);
          assert s.outcome.Fetched?;
        }
      }
    }
  }

  /** Only files at `destination/name` for queued names are written; every other path is untouched. */
  lemma {:induction false} OtherFilesUntouched(blobs: map<string, Blob>, files: map<string, seq<byte>>, names: seq<string>,
                                              destination: string, overwrite: bool, depth: nat, p: string)
    requires forall k :: 0 <= k < |names| ==> p != DestPath(destination, names[k])
    ensures FileAt(DownloadAll(blobs, files, names, destination, overwrite, depth).files, p) == FileAt(files, p)
    decreases |names|
  {
    if names != [] {
      var n := |names| - 1;
      OtherFilesUntouched(blobs, files, names[..n], destination, overwrite, depth, p);
      var prev := DownloadAll(blobs, files, names[..n], destination, overwrite, depth);
    }
  }

  /** One pass of the worker loop body, acting on the container's call trace and the file system. */
  method DownloadOne(c: Container, fs: LocalFs, name: string, destination: string, overwrite: bool, depth: nat)
    returns (outcome: ItemOutcome)
    modifies c`calls, fs
    ensures var s := DownloadItem(c.blobs, old(fs.files), name, destination, overwrite, depth);
      outcome == s.outcome && c.calls == old(c.calls) + s.calls && fs.files == s.files
  {
    if name !in c.blobs {
      return BlobMissing;
    }
    var info := c.blobs[name];
    if !Downloadable(info.tier) {
      return NotDownloadable;
    }
    var r := DownloadBlob(c, fs, name, info, destination, overwrite, 0, depth);
    outcome := Fetched(r);
  }

  /**
   * The worker: take each item in turn, handle it, and mark it done whatever the outcome
   * (the exception handler marks it done too and carries on).
   */
  method Worker(c: Container, fs: LocalFs, q: WorkQueue, destination: string, overwrite: bool, depth: nat)
    returns (outcomes: seq<ItemOutcome>)
    requires q.unfinished == |q.items|
    modifies c`calls, fs, q
    ensures q.items == [] && q.JoinReturns()
    ensures var run := DownloadAll(c.blobs, old(fs.files), old(q.items), destination, overwrite, depth);
      outcomes == run.outcomes && c.calls == old(c.calls) + run.calls && fs.files == run.files
  {
    ghost var queued, files0, calls0 := q.items, fs.files, c.calls;
    ghost var run := ContainerRun([], [], files0);
    outcomes := [];
    var i := 0;
    while q.items != []
      invariant 0 <= i <= |queued| && q.items == queued[i..] && q.unfinished == |queued| - i
      invariant run == DownloadAll(c.blobs, files0, queued[..i], destination, overwrite, depth)
      invariant outcomes == run.outcomes && c.calls == calls0 + run.calls && fs.files == run.files
      decreases |q.items|
    {
      ghost var s := DownloadItem(c.blobs, run.files, queued[i], destination, overwrite, depth);
      WorkerAdvance(c.blobs, files0, queued, i, destination, overwrite, depth, run);
      var name := q.Get();
      var outcome := DownloadOne(c, fs, name, destination, overwrite, depth);
      q.TaskDone();
      ConcatAssoc(calls0, run.calls, s.calls);
      run := ContainerRun(run.outcomes + [s.outcome], run.calls + s.calls, s.files);
      outcomes := outcomes + [outcome];
      i := i + 1;
    }
    assert queued[..i] == queued;
  }

  /** One turn of the worker, on the `i`-th queued name. */
  lemma WorkerAdvance(blobs: map<string, Blob>, files: map<string, seq<byte>>, queued: seq<string>, i: nat,
                      destination: string, overwrite: bool, depth: nat, prev: ContainerRun)
    requires i < |queued| && prev == DownloadAll(blobs, files, queued[..i], destination, overwrite, depth)
    ensures var s := DownloadItem(blobs, prev.files, queued[i], destination, overwrite, depth);
      DownloadAll(blobs, files, queued[..i + 1], destination, overwrite, depth) ==
        ContainerRun(prev.outcomes + [s.outcome], prev.calls + s.calls, s.files)
  {
    assert queued[..i + 1][..i] == queued[..i];
  }

  /**
   * The script after connecting: enqueue the manifest, then let one worker drain the queue.
   * `--overwrite` stores False, so downloads overwrite unless the flag is given. Every item is
   * marked done exactly once, so `q.join()` returns.
   */
  method DownloadContainer(c: Container, fs: LocalFs, manifest: seq<string>, destination: string, overwriteFlag: bool, depth: nat)
    returns (q: WorkQueue, outcomes: seq<ItemOutcome>)
    modifies c`calls, fs
    ensures fresh(q) && q.items == [] && q.JoinReturns()
    ensures var run := DownloadAll(c.blobs, old(fs.files), manifest, destination, !overwriteFlag, depth);
      outcomes == run.outcomes && c.calls == old(c.calls) + run.calls && fs.files == run.files
  {
    q := Enqueue(manifest);
    outcomes := Worker(c, fs, q, destination, !overwriteFlag, depth);
  }
}
