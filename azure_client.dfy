/**
 * azure_client/azure_client.py: the container-connect decision, `upload_blob` (checksum-tagged
 * upload with an update/overwrite decision) and `download_blob` (existing-file guards, download,
 * verification, and retry by recursion), over the abstract store of module BlobStore.
 */
module AzureClient {
  import opened Wrappers
  import opened Checksum
  import opened BlobStore

  // ---------------------------------------------------------------------------
  // connect_container

  datatype ConnectOutcome =
    | Connected(created: bool)     // the container client is returned; `created` if create_container was called
    | Raised(errorCode: string)    // create_container answered with an error code
    | Exited(code: int)            // exit(code)

  /**
   * `connect_container(service, container, create)`, given the names of the service's
   * containers and the error code `create_container` would answer with (None on success).
   */
  function ConnectContainer(existing: seq<string>, container: string, create: bool, createError: Option<string>): (r: ConnectOutcome)
    ensures container in existing ==> r == Connected(false)
    ensures r == Connected(true) <==> container !in existing && create && createError.None?
    ensures r.Raised? <==> container !in existing && create && createError.Some?
    ensures r.Raised? ==> r.errorCode == createError.value
    ensures r.Exited? <==> container !in existing && !create
    ensures r.Exited? ==> r.code == 1
  {
    if container !in existing && create then
      if createError.Some? then Raised(createError.value) else Connected(true)
    else if container !in existing && !create then Exited(1)
    else Connected(false)
  }

  // ---------------------------------------------------------------------------
  // upload_blob

  /** What the client functions return: `{'operation': 'no-op'}`, or the service's response. */
  datatype Operation = NoOp | Response

  datatype UploadResult = UploadReturned(op: Operation) | UploadRaised(error: string)

  /** `blob_properties['metadata']['md5']`, with a missing key read as `''`. */
  function RemoteMd5(b: Blob): string
  {
    if "md5" in b.metadata then b.metadata["md5"] else ""
  }

  /** A blob with no `md5` metadata never matches a local checksum. */
  lemma MissingMd5NeverMatches(b: Blob, local: HexDigest)
    requires "md5" !in b.metadata
    ensures RemoteMd5(b) != local
  {
  }

  /** The outcome of one `upload_blob` call: its return value, the remote calls, the blobs after. */
  datatype UploadStep = UploadStep(result: UploadResult, calls: seq<Call>, blobs: map<string, Blob>)

  /**
   * `upload_blob(container, filename, azure_filename, tier, update, overwrite)` where the
   * local file holds `content`. Without `update` the file is sent as a new blob, which the
   * service refuses with ResourceExistsError when the name is taken. With `update` the blob
   * must exist (reading its properties raises otherwise); equal checksums leave everything
   * as it was, and differing ones replace the blob (delete, then upload) only when
   * `overwrite` is set. Whatever happens, only the blob `name` is touched.
   */
  function UploadSpec(blobs: map<string, Blob>, content: seq<byte>, name: string, tier: StandardTier, update: bool, overwrite: bool)
    : (s: UploadStep)
    ensures forall x :: x != name ==> (x in s.blobs <==> x in blobs) && (x in blobs ==> s.blobs[x] == blobs[x])
    ensures forall k :: 0 <= k < |s.calls| ==> s.calls[k].name == name
  {
    var md5 := Md5(content);
    if !update then
      if name in blobs then UploadStep(UploadRaised("ResourceExistsError"), [UploadCall(name, tier.Name(), md5)], blobs)
      else UploadStep(UploadReturned(Response), [UploadCall(name, tier.Name(), md5)], blobs[name := Uploaded(content, tier, md5)])
    else if name !in blobs then
      UploadStep(UploadRaised("ResourceNotFoundError"), [], blobs)
    else if md5 != RemoteMd5(blobs[name]) && overwrite then
      var deleted := blobs - {name};
      assert deleted[name := Uploaded(content, tier, md5)] == blobs[name := Uploaded(content, tier, md5)];
      UploadStep(UploadReturned(Response), [DeleteCall(name), UploadCall(name, tier.Name(), md5)], deleted[name := Uploaded(content, tier, md5)])
    else
      UploadStep(UploadReturned(NoOp), [], blobs)
  }

  /**
   * `upload_blob` raises exactly when asked to update a blob that does not exist
   * (ResourceNotFoundError) or to send a new blob under a name already taken
   * (ResourceExistsError). It stores the file exactly when sending a new name, or when
   * updating an existing blob whose checksum differs with overwrite set; then that blob is
   * the local content tagged with its checksum, and the last call is the upload. Otherwise
   * the blobs are unchanged, and no call is made unless a new blob was attempted.
   */
  lemma UploadOutcomes(blobs: map<string, Blob>, content: seq<byte>, name: string, tier: StandardTier, update: bool, overwrite: bool)
    ensures var s := UploadSpec(blobs, content, name, tier, update, overwrite);
      && (s.result.UploadRaised? <==> (update && name !in blobs) || (!update && name in blobs))
      && (s.result.UploadRaised? ==> s.result.error == if update then "ResourceNotFoundError" else "ResourceExistsError")
      && (s.result == UploadReturned(Response) <==>
            (!update && name !in blobs) || (update && name in blobs && RemoteMd5(blobs[name]) != Md5(content) && overwrite))
      && (s.result == UploadReturned(Response) ==>
            s.blobs == blobs[name := Uploaded(content, tier, Md5(content))] &&
            s.calls != [] && s.calls[|s.calls| - 1] == UploadCall(name, tier.Name(), Md5(content)))
      && (s.result != UploadReturned(Response) ==> s.blobs == blobs)
      && (!update ==> s.calls == [UploadCall(name, tier.Name(), Md5(content))])
      && (update && s.result != UploadReturned(Response) ==> s.calls == [])
  {
  }

  /**
   * Whenever `upload_blob` sends the file, the blob then carries the local checksum, so a
   * second call with `update` set is a no-op that changes nothing.
   */
  lemma UploadThenUpdateIsNoOp(blobs: map<string, Blob>, content: seq<byte>, name: string, tier: StandardTier, update: bool, overwrite: bool,
                               tier': StandardTier, overwrite': bool)
    requires UploadSpec(blobs, content, name, tier, update, overwrite).result == UploadReturned(Response)
    ensures var after := UploadSpec(blobs, content, name, tier, update, overwrite).blobs;
      name in after && RemoteMd5(after[name]) == Md5(content) &&
      UploadSpec(after, content, name, tier', true, overwrite') == UploadStep(UploadReturned(NoOp), [], after)
  {
  }

  /** `upload_blob`, acting on the container. */
  method UploadBlob(c: Container, content: seq<byte>, azureFilename: string, tier: StandardTier, update: bool, overwrite: bool)
    returns (r: UploadResult)
    modifies c
    ensures var s := UploadSpec(old(c.blobs), content, azureFilename, tier, update, overwrite);
      r == s.result && c.blobs == s.blobs && c.calls == old(c.calls) + s.calls
  {
    var fileMd5, _ := FileMd5(content);
    r := UploadReturned(NoOp);  // the default return value
    if update {
      if azureFilename !in c.blobs {
        return UploadRaised("ResourceNotFoundError");
      }
      var blobMd5 := RemoteMd5(c.blobs[azureFilename]);
      if fileMd5 != blobMd5 {
        if overwrite {
          c.Delete(azureFilename);
          var err := c.Upload(azureFilename, content, tier, fileMd5);
          r := UploadReturned(Response);
        }
      }
    } else {
      var err := c.Upload(azureFilename, content, tier, fileMd5);
      if err.Some? {
        return UploadRaised(err.value);
      }
      r := UploadReturned(Response);
    }
  }

  // ---------------------------------------------------------------------------
  // download_blob

  datatype DownloadResult = Returned(op: Operation) | Failed(error: string)

  /**
   * The outcome of one top-level `download_blob` call: its return value (or exception), how
   * many downloads it made, the destination file afterwards (None: absent), and whether it
   * reached the "giving up" branch.
   */
  datatype DownloadRun = DownloadRun(result: DownloadResult, downloads: nat, file: Option<seq<byte>>, gaveUp: bool)

  /** `pathlib.Path(f'{destination}/{name}')`, without normalisation. */
  function DestPath(destination: string, name: string): string
  {
    destination + "/" + name
  }

  /**
   * `download_blob(blob, blob_info, destination, overwrite, attempt)`. `remote` is what a
   * download of the blob delivers (None: the blob is gone), `local` the destination file
   * before the call, `metadata` the metadata in `blob_info`. A retry re-enters with `attempt`
   * set to 1 (`attempt =+ 1` assigns); `depth` is how many more nested calls Python's
   * recursion limit allows before the call itself raises RecursionError.
   */
  function DownloadSpec(remote: Option<seq<byte>>, local: Option<seq<byte>>, metadata: map<string, string>,
                        overwrite: bool, attempt: int, depth: nat): (run: DownloadRun)
    ensures run.result == Returned(Response) ==> run.downloads > 0 && remote.Some? && run.file == remote
    ensures run.downloads == 0 ==> run.file == local
    decreases depth
  {
    if "md5" !in metadata then DownloadRun(Failed("KeyError"), 0, local, false)
    else
      var blobMd5 := metadata["md5"];
      if !overwrite && local.Some? then DownloadRun(Returned(NoOp), 0, local, false)
      else if overwrite && local.Some? && Md5(local.value) == blobMd5 then DownloadRun(Returned(NoOp), 0, local, false)
      // the file is opened for writing (truncated) before the transfer starts
      else if remote.None? then DownloadRun(Failed("ResourceNotFoundError"), 1, Some([]), false)
      else if Md5(remote.value) == blobMd5 then DownloadRun(Returned(Response), 1, remote, false)
      else if attempt >= 2 then DownloadRun(Returned(Response), 1, remote, true)
      else if depth == 0 then DownloadRun(Failed("RecursionError"), 1, remote, false)
      else
        var retry := DownloadSpec(remote, remote, metadata, overwrite, 1, depth - 1);
        retry.(downloads := 1 + retry.downloads)
  }

  /** Without overwrite, an existing destination file is left alone and nothing is downloaded. */
  lemma DownloadKeepsExistingFile(remote: Option<seq<byte>>, local: Option<seq<byte>>, metadata: map<string, string>, attempt: int, depth: nat)
    requires "md5" in metadata && local.Some?
    ensures DownloadSpec(remote, local, metadata, false, attempt, depth) == DownloadRun(Returned(NoOp), 0, local, false)
  {
  }

  /** With overwrite, an existing file whose checksum already matches is not downloaded again. */
  lemma DownloadSkipsMatchingFile(remote: Option<seq<byte>>, local: Option<seq<byte>>, metadata: map<string, string>, attempt: int, depth: nat)
    requires "md5" in metadata && local.Some? && Md5(local.value) == metadata["md5"]
    ensures DownloadSpec(remote, local, metadata, true, attempt, depth) == DownloadRun(Returned(NoOp), 0, local, false)
  {
  }

  /** Metadata without `md5` makes the call raise before anything is touched. */
  lemma DownloadNeedsMd5Metadata(remote: Option<seq<byte>>, local: Option<seq<byte>>, metadata: map<string, string>, overwrite: bool, attempt: int, depth: nat)
    requires "md5" !in metadata
    ensures DownloadSpec(remote, local, metadata, overwrite, attempt, depth) == DownloadRun(Failed("KeyError"), 0, local, false)
  {
  }

  /** A download whose bytes match the declared checksum is written once and verified. */
  lemma DownloadVerified(data: seq<byte>, local: Option<seq<byte>>, metadata: map<string, string>, overwrite: bool, attempt: int, depth: nat)
    requires "md5" in metadata && Md5(data) == metadata["md5"]
    requires local.None? || (overwrite && Md5(local.value) != metadata["md5"])
    ensures DownloadSpec(Some(data), local, metadata, overwrite, attempt, depth) == DownloadRun(Returned(Response), 1, Some(data), false)
  {
  }

  /**
   * The "giving up" branch is reachable only from a call made with `attempt >= 2`: every
   * retry is made with `attempt == 1`.
   */
  lemma {:induction false} GiveUpNeedsAttemptTwo(remote: Option<seq<byte>>, local: Option<seq<byte>>, metadata: map<string, string>,
                                                 overwrite: bool, attempt: int, depth: nat)
    requires DownloadSpec(remote, local, metadata, overwrite, attempt, depth).gaveUp
    ensures attempt >= 2
    decreases depth
  {
    if attempt < 2 && "md5" in metadata && remote.Some? && depth > 0 {
      var blobMd5 := metadata["md5"];
      if !(!overwrite && local.Some?) && !(overwrite && local.Some? && Md5(local.value) == blobMd5) && Md5(remote.value) != blobMd5 {
        GiveUpNeedsAttemptTwo(remote, remote, metadata, overwrite, 1, depth - 1);
      }
    }
  }

  /**
   * With overwrite and a blob whose bytes never match its declared checksum, a call with
   * `attempt` 0 or 1 downloads again and again, never reaches the give-up branch, and ends
   * only when the recursion limit raises RecursionError, after `depth + 1` downloads.
   */
  lemma {:induction false} PersistentMismatchHitsRecursionLimit(data: seq<byte>, local: Option<seq<byte>>, metadata: map<string, string>,
                                                                attempt: int, depth: nat)
    requires "md5" in metadata && Md5(data) != metadata["md5"]
    requires attempt < 2
    requires local.None? || Md5(local.value) != metadata["md5"]
    ensures DownloadSpec(Some(data), local, metadata, true, attempt, depth) == DownloadRun(Failed("RecursionError"), depth + 1, Some(data), false)
    decreases depth
  {
    if depth > 0 {
      PersistentMismatchHitsRecursionLimit(data, Some(data), metadata, 1, depth - 1);
    }
  }

  /** A call that starts at `attempt` 2 or more gives up after a single mismatching download. */
  lemma GivesUpFromAttemptTwo(data: seq<byte>, local: Option<seq<byte>>, metadata: map<string, string>, overwrite: bool, attempt: int, depth: nat)
    requires "md5" in metadata && Md5(data) != metadata["md5"]
    requires attempt >= 2
    requires local.None? || (overwrite && Md5(local.value) != metadata["md5"])
    ensures DownloadSpec(Some(data), local, metadata, overwrite, attempt, depth) == DownloadRun(Returned(Response), 1, Some(data), true)
  {
  }

  /**
   * Without overwrite, a mismatching download is retried into the existing-file guard: the
   * retry returns no-op at once, so the call returns no-op after a single download and leaves
   * the mismatching file in place.
   */
  lemma NoOverwriteRetryReturnsNoOp(data: seq<byte>, metadata: map<string, string>, attempt: int, depth: nat)
    requires "md5" in metadata && Md5(data) != metadata["md5"]
    requires attempt < 2 && depth > 0
    ensures DownloadSpec(Some(data), None, metadata, false, attempt, depth) == DownloadRun(Returned(NoOp), 1, Some(data), false)
  {
  }

  /** A call never makes more downloads than the recursion allows frames. */
  lemma {:induction false} DownloadsBounded(remote: Option<seq<byte>>, local: Option<seq<byte>>, metadata: map<string, string>,
                                            overwrite: bool, attempt: int, depth: nat)
    ensures DownloadSpec(remote, local, metadata, overwrite, attempt, depth).downloads <= depth + 1
    decreases depth
  {
    if depth > 0 {
      DownloadsBounded(remote, remote, metadata, overwrite, 1, depth - 1);
    }
  }

  /** `n` downloads of `name`. */
  function DownloadCalls(name: string, n: nat): (calls: seq<Call>)
    ensures |calls| == n && forall k :: 0 <= k < n ==> calls[k] == DownloadCall(name)
  {
    if n == 0 then [] else DownloadCalls(name, n - 1) + [DownloadCall(name)]
  }

  /** The local files after a run that leaves `file` at `path`. */
  function WithFile(files: map<string, seq<byte>>, path: string, file: Option<seq<byte>>): map<string, seq<byte>>
  {
    if file.Some? then files[path := file.value] else files - {path}
  }

  /** What a download of `name` delivers: its bytes, or None when the blob does not exist. */
  function RemoteBytes(blobs: map<string, Blob>, name: string): Option<seq<byte>>
  {
    if name in blobs then Some(blobs[name].content) else None
  }

  /** The file at `path`, if there is one. */
  function FileAt(files: map<string, seq<byte>>, path: string): Option<seq<byte>>
  {
    if path in files then Some(files[path]) else None
  }

  lemma WithFileOverwrites(files: map<string, seq<byte>>, path: string, data: seq<byte>, file: Option<seq<byte>>)
    ensures WithFile(files[path := data], path, file) == WithFile(files, path, file)
  {
  }

  /** `download_blob`, acting on the container (for its downloads) and the local file system. */
  method DownloadBlob(c: Container, fs: LocalFs, name: string, info: Blob, destination: string, overwrite: bool, attempt: int, depth: nat)
    returns (r: DownloadResult)
    modifies c`calls, fs
    ensures var run := DownloadSpec(RemoteBytes(c.blobs, name), FileAt(old(fs.files), DestPath(destination, name)), info.metadata, overwrite, attempt, depth);
      r == run.result && c.calls == old(c.calls) + DownloadCalls(name, run.downloads) &&
      fs.files == WithFile(old(fs.files), DestPath(destination, name), run.file)
    decreases depth, 2
  {
    var path := DestPath(destination, name);
    if "md5" !in info.metadata {
      return Failed("KeyError");
    }
    var blobMd5 := info.metadata["md5"];
    var isFile := path in fs.files;
    if !overwrite && isFile {
      return Returned(NoOp);
    } else if overwrite && isFile {
      var localMd5, _ := FileMd5(fs.files[path]);
      if localMd5 == blobMd5 {
        return Returned(NoOp);
      }
    }
    r := FetchAndVerify(c, fs, name, info, destination, overwrite, attempt, depth);
  }

  /** The part of `download_blob` after the existing-file guards: write, verify, retry. */
  method FetchAndVerify(c: Container, fs: LocalFs, name: string, info: Blob, destination: string, overwrite: bool, attempt: int, depth: nat)
    returns (r: DownloadResult)
    requires "md5" in info.metadata
    modifies c`calls, fs
    ensures var run := DownloadSpec(RemoteBytes(c.blobs, name), None, info.metadata, overwrite, attempt, depth);
      r == run.result && c.calls == old(c.calls) + DownloadCalls(name, run.downloads) &&
      fs.files == WithFile(old(fs.files), DestPath(destination, name), run.file)
    decreases depth, 1
  {
    var path := DestPath(destination, name);
    var blobMd5 := info.metadata["md5"];
    fs.Write(path, []);
    var data := c.Download(name);
    if data.None? {
      return Failed("ResourceNotFoundError");
    }
    fs.Write(path, data.value);
    var localMd5, _ := FileMd5(fs.files[path]);
    if localMd5 == blobMd5 {
      r := Returned(Response);
    } else if attempt >= 2 {
      r := Returned(Response);
    } else if depth == 0 {
      r := Failed("RecursionError");
    } else {
      r := Retry(c, fs, name, info, destination, overwrite, depth, data.value);
      RetryAccounting(old(c.calls), old(fs.files), path, name, data.value,
                      DownloadSpec(data, data, info.metadata, overwrite, 1, depth - 1));
    }
  }

  /**
   * The retry after a mismatching download: `download_blob` again with `attempt` 1, the
   * mismatching file now in place.
   */
  method Retry(c: Container, fs: LocalFs, name: string, info: Blob, destination: string, overwrite: bool, depth: nat, data: seq<byte>)
    returns (r: DownloadResult)
    requires depth > 0 && RemoteBytes(c.blobs, name) == Some(data) && FileAt(fs.files, DestPath(destination, name)) == Some(data)
    modifies c`calls, fs
    ensures var retry := DownloadSpec(Some(data), Some(data), info.metadata, overwrite, 1, depth - 1);
      r == retry.result && c.calls == old(c.calls) + DownloadCalls(name, retry.downloads) &&
      fs.files == WithFile(old(fs.files), DestPath(destination, name), retry.file)
    decreases depth, 0
  {
    var retryAttempt := 1;  // `attempt =+ 1`
    r := DownloadBlob(c, fs, name, info, destination, overwrite, retryAttempt, depth - 1);
  }

  /** One download followed by the retry's, and the file the retry leaves in place of the written one. */
  lemma RetryAccounting(calls: seq<Call>, files: map<string, seq<byte>>, path: string, name: string, data: seq<byte>, retry: DownloadRun)
    ensures calls + [DownloadCall(name)] + DownloadCalls(name, retry.downloads) == calls + DownloadCalls(name, 1 + retry.downloads)
    ensures WithFile(files[path := []][path := data], path, retry.file) == WithFile(files, path, retry.file)
  {
    assert DownloadCalls(name, 1) == [DownloadCall(name)];
    DownloadCallsAppend(name, 1, retry.downloads);
    ConcatAssoc(calls, [DownloadCall(name)], DownloadCalls(name, retry.downloads));
    assert files[path := []][path := data] == files[path := data];
    WithFileOverwrites(files, path, data, retry.file);
  }

  lemma {:induction false} DownloadCallsAppend(name: string, m: nat, n: nat)
    ensures DownloadCalls(name, m) + DownloadCalls(name, n) == DownloadCalls(name, m + n)
    decreases n
  {
    if n > 0 {
      DownloadCallsAppend(name, m, n - 1);
    }
  }
}
