/**
 * download_file_from_azure.py: download one named blob, after checking that the container
 * lists it and that its tier can be downloaded.
 */
module DownloadFile {
  import opened Wrappers
  import opened Checksum
  import opened BlobStore
  import opened AzureClient
  import opened DownloadContainer

  datatype FileRun = FileRun(ending: Ending, calls: seq<Call>, files: map<string, seq<byte>>)

  /**
   * The guard chain. A name missing from the manifest exits 1; a listed blob that has since
   * disappeared makes reading its properties raise; a tier other than Hot or Cool exits 2;
   * otherwise `download_blob` runs once (default `attempt=0`) and its exception, if any, ends
   * the script.
   */
  function DownloadFileSpec(blobs: map<string, Blob>, files: map<string, seq<byte>>, manifest: seq<string>, name: string,
                            destination: string, overwrite: bool, depth: nat): (r: FileRun)
    ensures name !in manifest ==> r == FileRun(Exit(1), [], files)
    ensures name in manifest && name !in blobs ==> r == FileRun(Crashed("ResourceNotFoundError"), [], files)
    ensures name in manifest && name in blobs && !Downloadable(blobs[name].tier) ==> r == FileRun(Exit(2), [], files)
    ensures r.calls != [] ==> name in manifest && name in blobs && Downloadable(blobs[name].tier)
    ensures forall k :: 0 <= k < |r.calls| ==> r.calls[k] == DownloadCall(name)
    ensures forall p :: p != DestPath(destination, name) ==> FileAt(r.files, p) == FileAt(files, p)
    ensures name in manifest && name in blobs && Downloadable(blobs[name].tier) ==>
      var path := DestPath(destination, name);
      var run := DownloadSpec(RemoteBytes(blobs, name), FileAt(files, path), blobs[name].metadata, overwrite, 0, depth);
      r.calls == DownloadCalls(name, run.downloads) && r.files == WithFile(files, path, run.file) &&
      (run.result.Returned? ==> r.ending == Finished) && (run.result.Failed? ==> r.ending == Crashed(run.result.error))
  {
    if name !in manifest then FileRun(Exit(1), [], files)
    else if name !in blobs then FileRun(Crashed("ResourceNotFoundError"), [], files)
    else if !Downloadable(blobs[name].tier) then FileRun(Exit(2), [], files)
    else
      var path := DestPath(destination, name);
      var run := DownloadSpec(RemoteBytes(blobs, name), FileAt(files, path), blobs[name].metadata, overwrite, 0, depth);
      FileRun(if run.result.Failed? then Crashed(run.result.error) else Finished,
              DownloadCalls(name, run.downloads), WithFile(files, path, run.file))
  }

  /**
   * For a listed name the script does exactly what one item of the container download worker
   * does: the same calls and the same files, ending in exit 2 where the worker logs a
   * non-downloadable tier, and raising where the worker's handler catches an exception.
   */
  lemma SameAsContainerWorker(blobs: map<string, Blob>, files: map<string, seq<byte>>, manifest: seq<string>, name: string,
                              destination: string, overwrite: bool, depth: nat)
    requires name in manifest
    ensures var r := DownloadFileSpec(blobs, files, manifest, name, destination, overwrite, depth);
      var s := DownloadItem(blobs, files, name, destination, overwrite, depth);
      r.calls == s.calls && r.files == s.files &&
      (r.ending == Exit(2) <==> s.outcome == NotDownloadable) &&
      (r.ending == Finished <==> s.outcome.Fetched? && s.outcome.result.Returned?)
  {
  }

  /**
   * The script after connecting and listing the manifest. `--overwrite` stores False, so the
   * download overwrites unless the flag is given.
   */
  method DownloadFile(c: Container, fs: LocalFs, manifest: seq<string>, name: string, destination: string,
                      overwriteFlag: bool, depth: nat) returns (ending: Ending)
    modifies c`calls, fs
    ensures var r := DownloadFileSpec(c.blobs, old(fs.files), manifest, name, destination, !overwriteFlag, depth);
      ending == r.ending && c.calls == old(c.calls) + r.calls && fs.files == r.files
  {
    if name !in manifest {
      return Exit(1);
    }
    if name !in c.blobs {
      return Crashed("ResourceNotFoundError");
    }
    var info := c.blobs[name];
    if !Downloadable(info.tier) {
      return Exit(2);
    }
    var r := DownloadBlob(c, fs, name, info, destination, !overwriteFlag, 0, depth);
    ending := if r.Failed? then Crashed(r.error) else Finished;
  }
}
