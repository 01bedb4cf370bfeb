# azure_backup: a verified model of the checksum-synchronisation core

azure_backup is a set of Python command-line scripts around Azure Blob Storage. They upload a
folder to a container, download one blob or a whole container, rehydrate archived blobs, and
list a container. Underneath the SDK glue is a small content-checksum synchronisation engine:

- `upload_blob` tags every blob with the MD5 of its content, and on an update compares the
  stored checksum with the local one before replacing anything.
- `download_blob` skips files that are already present or already match, writes a download,
  verifies it against the stored checksum, and retries by recursion.
- A persistent cache (`md5summer`) keeps `"<md5> <path>"` lines in a file.
- The scripts wrap these in guard chains and queue workers.

This project models that engine in Dafny, over an abstract blob store instead of the SDK, and
proves what each piece promises.

Modules, one per source file (plus shared pieces):

- `Wrappers`: `Option`, the script endings `Exit(code)` / `Crashed(error)` / `Finished`,
  and `Flatten`.
- `Checksum`: bytes, the 32-hex-digit digest type, MD5 as an uninterpreted function, and
  the chunked read loop of `get_md5sum`.
- `PyStr`: the Python string operations the scripts rely on, with Python's semantics:
  - `str.find`;
  - `str.split(sep)` and its last piece;
  - `str.split()` on whitespace;
  - `readlines()`;
  - ASCII `str.lower()`.
- `BlobStore`:
  - the abstract store, a class `Container` with `blobs` (name to content, metadata, tier,
    archive status), the service's tier-change refusals and a trace of the remote calls;
  - a class `LocalFs` for the local files;
  - the `StandardBlobTier` and `RehydratePriority` enumerations.
- `AzureClient` (azure_client/azure_client.py): `connect_container`, `upload_blob` and
  `download_blob`.
- `Md5Summer` (azure_client/md5summer.py): the cache class, with its line parser.
- `UploadFolder` (upload_folder_to_azure.py): remote-name derivation and the upload loop.
- `TaskQueue`: the queue the container scripts share with their worker.
- `DownloadContainer` (download_container_from_azure.py) and `DownloadFile`
  (download_file_from_azure.py).
- `Rehydration`: the tier decision shared by the two rehydrate scripts.
- `RehydrateContainer` (rehydrate_container.py) and `RehydrateFile` (rehydrate_file.py).
- `ListContainer` (list_container.py).

Code that changes state is modelled as methods on the `Container`, `LocalFs`, `WorkQueue`
and `Md5Summer` classes. Each such method is proved equal to a pure specification function:
`UploadSpec`, `DownloadSpec`, `SyncSpec`, `DownloadAll`, `RehydrateAll` and so on. The
lemmas state the source's promises about those functions.

Behaviours of the code that the model keeps exactly as written:

- `attempt =+ 1` in `download_blob` assigns 1 rather than incrementing. So with
  `overwrite=True` and a persistent mismatch, the give-up branch is never reached; the
  recursion ends only at Python's recursion limit (`PersistentMismatchHitsRecursionLimit`).
- With `overwrite=False`, a mismatching download is retried into the existing-file guard,
  which returns no-op at once (`NoOverwriteRetryReturnsNoOp`).
- `md5summer.get_md5sum` returns `None` for a cached but stale entry. The code falls
  through both branches, so it neither recomputes the digest nor appends a line.
- `md5summer.get_md5sum` never adds a computed digest to its dictionary.
- A path containing spaces is keyed in the cache by its first fragment only, so a later
  lookup of the whole path misses (`SpacedEntryPersists`).
- A path containing a line break is split by the next read of the cache into two lines.
  For the name `a\nb` the second line, `b`, has one word, so the next constructor raises
  IndexError (`LineBreakNameSplits`).
- The container download worker's log message for an undownloadable tier reads an
  attribute the arguments do not have. The resulting exception lands in the handler, which
  still marks the item done.
- `upload_blob` without `update` calls the SDK's `upload_blob` with its default
  `overwrite=False`, which raises ResourceExistsError for a name that already exists. The
  folder loop reads the manifest once, so a new name shared by two files is uploaded for
  the first and raises for the second, ending the run (`ManifestNotRefreshed`).
- The rehydrate worker marks an item done only on success or on `BlobBeingRehydrated`.
  - Any other service error leaves its item unfinished, so `q.join()` never returns.
  - An invalid tier or priority raises a `ValueError` that has no `error_code`. The handler
    then raises `AttributeError`, which ends the worker thread.

## Model

| member | source | states |
|---|---|---|
| Checksum.Read | azure_client/azure_client.py:17 | `fp.read(n)` at position `pos` returns the next `min(n, remaining)` bytes of the file, exactly those |
| Checksum.FileMd5 | azure_client/azure_client.py:14-20 | the hash is fed non-empty chunks of at most 8192 bytes, all full but the last, whose concatenation is the whole file; the digest is the MD5 of the content |
| AzureClient.ConnectContainer | azure_client/azure_client.py:26-47 | an existing container is returned without creating anything; a missing one with `create` is created, raising exactly when `create_container` answers an error code (with that code); a missing one without `create` exits 1 |
| AzureClient.MissingMd5NeverMatches | azure_client/azure_client.py:86-91 | a blob without `md5` metadata is read as `''`, which never equals a local checksum |
| AzureClient.UploadOutcomes | azure_client/azure_client.py:65-115 | raises exactly for an update of a missing blob (ResourceNotFoundError) or a plain upload of an existing one (ResourceExistsError), changing nothing; returns the response exactly for a plain upload of a new name, or an update with differing checksums and overwrite, and then only that blob changes, to the local content tagged with its MD5, the last call being the upload; a plain upload always makes exactly its one upload call; an update that sends nothing makes no call |
| AzureClient.UploadThenUpdateIsNoOp | azure_client/azure_client.py:84-104 | after an upload, an update call for the same content is a no-op that changes nothing |
| AzureClient.UploadBlob | azure_client/azure_client.py:65-115 | the method's result, blobs and call trace are those of `UploadSpec`: `delete_blob` strictly before `upload_blob` when replacing; without `update` the upload is sent as is and its ResourceExistsError is raised |
| AzureClient.DownloadNeedsMd5Metadata | azure_client/azure_client.py:120 | metadata without `md5` raises KeyError before any file or download |
| AzureClient.DownloadKeepsExistingFile | azure_client/azure_client.py:123-127 | without overwrite an existing destination file is left as it is, nothing is downloaded, no-op is returned |
| AzureClient.DownloadSkipsMatchingFile | azure_client/azure_client.py:128-133 | with overwrite an existing file whose MD5 equals the blob's is not downloaded again |
| AzureClient.DownloadVerified | azure_client/azure_client.py:135-145 | a download whose bytes match the blob's checksum is written once and returns the response |
| AzureClient.GiveUpNeedsAttemptTwo | azure_client/azure_client.py:148-152 | the give-up branch is reached only from a call made with `attempt >= 2`, since every retry passes 1 |
| AzureClient.PersistentMismatchHitsRecursionLimit | azure_client/azure_client.py:144-152 | with overwrite, `attempt` 0 or 1 and bytes that never match, the call downloads `depth + 1` times and ends in RecursionError, never giving up |
| AzureClient.GivesUpFromAttemptTwo | azure_client/azure_client.py:146-150 | from `attempt >= 2` a mismatching download gives up after one transfer |
| AzureClient.NoOverwriteRetryReturnsNoOp | azure_client/azure_client.py:123-152 | without overwrite a mismatching download is retried into the existing-file guard: one download, no-op returned, the mismatching file kept |
| AzureClient.DownloadsBounded | azure_client/azure_client.py:151-152 | a call never downloads more often than the recursion allows frames |
| AzureClient.DownloadBlob | azure_client/azure_client.py:118-154 | the method's result, download calls and final local files are those of `DownloadSpec` |
| AzureClient.FetchAndVerify | azure_client/azure_client.py:135-154 | truncating open, one download, verification, and the retry, matching `DownloadSpec` past the guards |
| AzureClient.Retry | azure_client/azure_client.py:151-152 | the retry re-enters `download_blob` with `attempt` 1 and the just-written file in place |
| BlobStore.ParseTier | upload_folder_to_azure.py:55 | `StandardBlobTier(s)` succeeds exactly for the name of a tier, and yields that tier |
| BlobStore.ParsePriority | rehydrate_container.py:44 | `RehydratePriority(s)` succeeds exactly for the name of a priority, and yields it |
| BlobStore.Container.SetTier | azure_client/azure_client.py:57-63 | the refusal code (BlobNotFound, a service fault, BlobBeingRehydrated) and the tier effect: leaving Archive marks the blob pending, other changes apply at once |
| PyStr.JoinSplit | upload_folder_to_azure.py:38-47 | joining `x.split(sep)` with `sep` gives back `x` |
| PyStr.Split | upload_folder_to_azure.py:38 | `x.split(sep)` always has at least one piece |
| PyStr.SplitFromPieces | upload_folder_to_azure.py:38 | the scan cuts at the leftmost occurrence: each piece runs from its start to the leftmost `sep` at or after it, or to the end, and the next piece starts right after that `sep` |
| PyStr.SplitFirstPiece | upload_folder_to_azure.py:38 | `x.split(sep)[0]` is `x` up to the leftmost occurrence of `sep` (as `find` reports it), or all of `x` |
| PyStr.SplitSecondPiece | upload_folder_to_azure.py:38 | when `sep` occurs, `x.split(sep)[1]` exists and is the piece right after its leftmost occurrence |
| PyStr.SplitPiecesFree | upload_folder_to_azure.py:38 | no piece of `x.split(sep)` contains `sep` |
| PyStr.SplitHasSecondPiece | upload_folder_to_azure.py:38 | `x.split(sep)[1]` exists exactly when `sep` occurs in `x` |
| PyStr.SplitLast | upload_folder_to_azure.py:39-47 | `x.split(sep)[-1]` is a suffix of `x` free of `sep`, all of `x` when `sep` is absent, otherwise directly preceded by `sep` |
| PyStr.SplitLastIsLastPiece | upload_folder_to_azure.py:39-47 | the last-piece function is the last element of `x.split(sep)` |
| PyStr.SplitAfterSeparator | upload_folder_to_azure.py:38-47 | `(sep + r).split(sep)` is `['', r]` when `r` is free of `sep` |
| PyStr.WordsFlatten | azure_client/md5summer.py:19 | the words of `line.strip().split()`, concatenated, are exactly the line's non-whitespace characters in order |
| PyStr.Words | azure_client/md5summer.py:19 | `line.strip().split()` yields non-empty words without whitespace |
| PyStr.WordsCons | azure_client/md5summer.py:19 | a word followed by whitespace is the first word, and splitting goes on after it |
| PyStr.WordsTrailingSpace | azure_client/md5summer.py:19 | trailing whitespace adds no word |
| PyStr.Lines | azure_client/md5summer.py:18 | `readlines()` yields no more lines than characters, and none exactly for empty text |
| PyStr.LineShape | azure_client/md5summer.py:18 | a line holds `'\n'` only as its last character, and every line but the last ends in `'\n'` |
| PyStr.LinesFlatten | azure_client/md5summer.py:18 | the lines, concatenated, give back the text they were cut from, and none is empty |
| PyStr.Newlines | azure_client/md5summer.py:17 | text-mode reading delivers no `'\r'` and is no longer than the file text |
| PyStr.NewlinesStep | azure_client/md5summer.py:17 | text-mode reading, character by character: `'\r\n'` becomes one `'\n'`, a `'\r'` not followed by `'\n'` becomes `'\n'`, every other character is kept |
| PyStr.NewlinesNoReturn | azure_client/md5summer.py:17 | text without `'\r'` reads unchanged |
| PyStr.NewlinesAppend | azure_client/md5summer.py:17 | text not ending in `'\r'` translates independently of what follows it |
| PyStr.NewlinesLast | azure_client/md5summer.py:17 | text ending in `'\n'` still ends in `'\n'` once translated |
| PyStr.ReadLines | azure_client/md5summer.py:17-18 | `readlines()` on a text-mode file: non-empty lines that concatenate to the newline-translated text |
| PyStr.LinesAppend | azure_client/md5summer.py:18 | the lines of newline-terminated text followed by more text are its lines followed by those of the rest |
| PyStr.Lower | rehydrate_container.py:40 | `lower()` maps each upper-case ASCII letter to its lower-case letter (32 code points on) and changes nothing else |
| Md5Summer.ParseLine | azure_client/md5summer.py:19-20 | a line yields `d[1] -> d[0]` of its words, and fails exactly when it has fewer than two words |
| Md5Summer.MalformedLineFails | azure_client/md5summer.py:19-20 | a line with fewer than two words (a blank line) makes reading the whole file fail |
| Md5Summer.CleanLinesHaveTwoWords | azure_client/md5summer.py:17-20 | a file that reads cleanly has at least two words on every line |
| Md5Summer.KeyedIffNamed | azure_client/md5summer.py:17-20 | a path is a key exactly when some line names it |
| Md5Summer.LastLineWins | azure_client/md5summer.py:17-20 | the entry for a path is the checksum on the last line naming it: later lines override earlier ones |
| Md5Summer.CacheLineReadsBack | azure_client/md5summer.py:19-34 | the appended line, parsed as one line, is keyed by the first word of the file name; a whitespace-only name makes it unreadable |
| Md5Summer.PlainNameReadsBack | azure_client/md5summer.py:19-34 | the appended line for a file name without whitespace, parsed as one line, gives the whole name and its digest |
| Md5Summer.SpacedNameKeyedByFirstFragment | azure_client/md5summer.py:19-34 | the appended line for a name `first + ' ' + more`, parsed as one line, is keyed by `first` only |
| Md5Summer.AppendedLinePersists | azure_client/md5summer.py:17-34 | appending the line for a name without a line break to a newline-terminated cache file gives a file that reads, in text mode, as the old dictionary updated at the name's first word, or fails for a whitespace-only name |
| Md5Summer.AppendedEntryPersists | azure_client/md5summer.py:17-34 | appending the line for a plain name to a newline-terminated cache file gives a file that reads, in text mode, as the old dictionary plus that entry |
| Md5Summer.SpacedEntryPersists | azure_client/md5summer.py:17-34 | after appending the line for `first + ' ' + more`, the file reads as the old dictionary with the digest keyed by `first` alone |
| Md5Summer.LineBreakNameSplits | azure_client/md5summer.py:17-34 | the line appended for the name `a\nb` reads back as two lines, `digest a` and `b`, and the whole file then fails to read |
| Md5Summer.CachedAnswer | azure_client/md5summer.py:22-35 | a known path answers its cached digest while the recorded time is strictly later, `None` otherwise; an unknown path answers its MD5 |
| Md5Summer.CacheAppend | azure_client/md5summer.py:27-35 | only an unknown path appends, exactly `digest + ' ' + filename + '\n'` |
| Md5Summer.ParseCache | azure_client/md5summer.py:18-20 | a dictionary read from the file maps single words to single words |
| Md5Summer.Md5Summer.Open | azure_client/md5summer.py:8-20 | a missing cache file is created empty; the recorded time is taken once; the dictionary is the file read in text mode (universal newlines) line by line, or the constructor fails |
| Md5Summer.Md5Summer.GetMd5sum | azure_client/md5summer.py:22-35 | answer as `CachedAnswer`, cache file grown by `CacheAppend`; the dictionary and recorded time never change, so a repeated miss appends again |
| UploadFolder.FinalFolder | upload_folder_to_azure.py:37-43 | absolute folder: present exactly when `parent + '/'` occurs in the normalised folder, and then the piece right after its leftmost occurrence, up to the next occurrence or the end; relative folder: the folder as given |
| UploadFolder.RemoteName | upload_folder_to_azure.py:39-47 | a remote name is a suffix of the local path, free of the separator it was split on |
| UploadFolder.RemoteNames | upload_folder_to_azure.py:35-47 | one name per file in file order, each that file's `RemoteName`; fails exactly when `FINAL_FOLDER` does |
| UploadFolder.AbsoluteFolderNames | upload_folder_to_azure.py:37-41 | for `parent/leaf/rel` under absolute `parent/leaf` the remote name is `leaf/rel`, or `rel` with stripping |
| UploadFolder.RelativeStrippedNames | upload_folder_to_azure.py:42-45 | a relative folder with stripping uploads `folder/rel` as `rel` |
| AzureClient.UploadSpec | azure_client/azure_client.py:65-115 | a call touches only its own blob: every other name keeps its presence and its blob, and every remote call names that blob |
| AzureClient.DownloadSpec | azure_client/azure_client.py:118-154 | a returned response follows at least one download and leaves the blob's bytes in the file; with no download the local file is as it was |
| BlobStore.Container.Upload | azure_client/azure_client.py:96-112 | `upload_blob` with the default `overwrite=False`: an existing name raises ResourceExistsError and changes nothing, a new one is stored with its tier and MD5 metadata; the call is traced either way |
| BlobStore.Container.Delete | azure_client/azure_client.py:94 | `delete_blob` removes that name only, and is traced |
| BlobStore.Container.Download | azure_client/azure_client.py:139-141 | `download_blob` yields the stored bytes of the blob, or nothing if it is gone, and is traced; the blobs do not change |
| UploadFolder.RouteFor | upload_folder_to_azure.py:49-65 | `update` exactly for names in the manifest; `overwrite` only for those, and only with the flag |
| UploadFolder.SyncStopsAtError | upload_folder_to_azure.py:49-65 | once an exception ends the loop, later files change nothing |
| UploadFolder.SyncNeverMissesBlob | upload_folder_to_azure.py:49-58 | with a manifest of the existing blobs and distinct remote names the loop never raises, keeps every blob and leaves every file's name present |
| UploadFolder.ManifestNotRefreshed | upload_folder_to_azure.py:27-65 | two files with the same new name are both sent as plain uploads, as the manifest is read once: the first creates the blob, the second raises ResourceExistsError and leaves the first file's blob in place |
| UploadFolder.SyncSettles | upload_folder_to_azure.py:49-65 | after an error-free run every file's name exists and matches its checksum or was kept on purpose |
| UploadFolder.SyncSpec | upload_folder_to_azure.py:49-65 | the loop adds blobs and never loses one, and every blob after it existed before or is the name of a file |
| UploadFolder.UploadSucceeds | upload_folder_to_azure.py:49-58 | a file whose name is in the manifest exactly when its blob exists is sent without an exception, loses no blob and leaves its name present |
| UploadFolder.SettledSyncIsQuiet | upload_folder_to_azure.py:49-65 | a settled folder produces no remote call |
| UploadFolder.SecondRunIsQuiet | upload_folder_to_azure.py:27-65 | re-running over an unchanged folder makes no remote call |
| UploadFolder.BadTierFails | upload_folder_to_azure.py:55-64 | an invalid tier name raises ValueError on the first file, before any call |
| UploadFolder.UploadFolder | upload_folder_to_azure.py:27-65 | manifest taken first, names derived (IndexError leaves the store untouched), then the loop as `SyncSpec` |
| UploadFolder.UploadEach | upload_folder_to_azure.py:49-65 | the loop's error, blobs and calls are those of `SyncSpec` |
| TaskQueue.WorkQueue.Put | download_container_from_azure.py:53 | `q.put` appends the item and adds one unfinished task |
| TaskQueue.WorkQueue.Get | download_container_from_azure.py:34 | `q.get` takes the oldest item; the unfinished count is unchanged |
| TaskQueue.WorkQueue.TaskDone | download_container_from_azure.py:39-46 | `q.task_done` removes one unfinished task and leaves the items as they are |
| TaskQueue.Enqueue | download_container_from_azure.py:52-53 | every manifest name is put once, in manifest order, each an unfinished task |
| DownloadContainer.DownloadItem | download_container_from_azure.py:33-47 | a missing blob and an undownloadable tier are recognised exactly, with no call or write; every call downloads that blob; no other file changes |
| DownloadContainer.DownloadAll | download_container_from_azure.py:31-47 | every queued item gets one outcome |
| DownloadContainer.OutcomesFollowTiers | download_container_from_azure.py:34-42 | each outcome is decided by that item's own blob: missing, tier not Hot or Cool, or fetched |
| DownloadContainer.OnlyDownloadableFetched | download_container_from_azure.py:37-42 | every remote call downloads a queued blob whose tier is Hot or Cool |
| DownloadContainer.OtherFilesUntouched | download_container_from_azure.py:40-41 | no path other than `destination/name` of a queued name changes |
| DownloadContainer.DownloadOne | download_container_from_azure.py:34-47 | one loop pass does what `DownloadItem` says to calls and files |
| DownloadContainer.Worker | download_container_from_azure.py:31-47 | the queue is drained and every item marked done exactly once, so `join` returns; calls and files as `DownloadAll` |
| DownloadContainer.DownloadContainer | download_container_from_azure.py:20-55 | overwrite is the negation of `--overwrite`; the manifest is enqueued and drained; `join` returns |
| DownloadFile.DownloadFileSpec | download_file_from_azure.py:25-36 | unlisted name exits 1, a listed but vanished blob raises ResourceNotFoundError, tier not Hot or Cool exits 2, all with no call; otherwise the calls and the file are those of `download_blob` (`DownloadSpec`) on that blob, finishing when it returns and raising its error when it raises; only `destination/name` may change |
| DownloadFile.SameAsContainerWorker | download_file_from_azure.py:27-33 | for a listed name: the same calls and files as one container-worker item, exit 2 exactly where the worker skips the tier |
| DownloadFile.DownloadFile | download_file_from_azure.py:19-36 | the script's ending, calls and files are those of `DownloadFileSpec`, with overwrite the negation of the flag |
| Rehydration.Decide | rehydrate_container.py:37-45 | already at tier exactly when the tier equals the target; already pending exactly when not, and the status is `rehydrate-pending-to-` plus the lower-cased target |
| Rehydration.RequestThenPending | rehydrate_container.py:40-44 | leaving Archive makes the next decision for that tier "already pending" |
| Rehydration.RequestThenAtTier | rehydrate_container.py:37-44 | any other accepted change makes the next decision "already at tier" |
| RehydrateContainer.RehydrateItem | rehydrate_container.py:33-54 | NotFound exactly for a missing blob; no blob added or lost; a call exactly when a change was attempted; the worker dies exactly on a needed change with an invalid tier or priority |
| RehydrateContainer.RehydrateAll | rehydrate_container.py:31-54 | the worker handles a prefix of the queue, stopping short only by dying |
| RehydrateContainer.CountDoneAll | rehydrate_container.py:37-50 | every outcome is counted done exactly when each one reaches `task_done` |
| RehydrateContainer.KeysKept | rehydrate_container.py:43-45 | the run adds or loses no blob |
| RehydrateContainer.NotFoundExactlyMissing | rehydrate_container.py:36-54 | an item ends NotFound exactly when its blob was missing |
| RehydrateContainer.DiesOnlyLast | rehydrate_container.py:46-54 | the worker died on no item but possibly the last it handled |
| RehydrateContainer.JoinReturnsIff | rehydrate_container.py:31-62 | `join` returns exactly when every queued item was handled and marked done |
| RehydrateContainer.MissingBlobBlocksJoin | rehydrate_container.py:51-62 | a queued name whose blob is gone keeps `join` from returning |
| RehydrateContainer.ValidArgumentsKeepWorker | rehydrate_container.py:44-54 | with a valid tier and priority the worker survives and handles every item |
| RehydrateContainer.AllAtTierIsQuiet | rehydrate_container.py:37-39 | when every blob is at the target tier nothing is called or changed and `join` returns |
| RehydrateContainer.StopsAfterDeath | rehydrate_container.py:46-54 | after the worker dies the remaining items are never handled |
| RehydrateContainer.RehydrateOne | rehydrate_container.py:33-54 | one loop pass does what `RehydrateItem` says to blobs and calls |
| RehydrateContainer.Worker | rehydrate_container.py:31-54 | outcomes, blobs, calls as `RehydrateAll`; unfinished tasks are those not marked done; unhandled items stay queued |
| RehydrateContainer.RehydrateContainer | rehydrate_container.py:26-62 | the manifest is enqueued and worked; `join` returns exactly when every item was marked done |
| RehydrateFile.RehydrateFileSpec | rehydrate_file.py:27-39 | missing blob exits 1; at tier or pending exits 0, with no call; a needed change with an invalid tier or priority raises ValueError with no call; with valid names exactly one `set_blob_tier(target, priority)`, the blobs as the service's tier effect, finishing exactly when the change was accepted and otherwise raising the refusal code |
| RehydrateFile.SameAsContainerWorker | rehydrate_file.py:27-39 | the same calls and blobs as one container-worker item, with endings matching its outcomes |
| RehydrateFile.SecondRequestSeesPending | rehydrate_file.py:15-39 | with the defaults, a second run on an archived blob finds it pending and exits 0 |
| RehydrateFile.RehydrateFile | rehydrate_file.py:15-39 | defaults Cool and Standard; ending, blobs and calls as `RehydrateFileSpec` |
| ListContainer.DisplayName | list_container.py:38 | names over 75 characters become `'.../'` and their last 75 characters (79 in all); shorter names are unchanged; the tail is kept |
| ListContainer.SizeAtMostTotal | list_container.py:36-37 | every blob's size is at most the total |
| ListContainer.SumSizesAppend | list_container.py:36-37 | the total of two listings in sequence is the sum of their totals |
| ListContainer.SumSizesPermutation | list_container.py:36-37 | any permutation of the listing has the same total |
| ListContainer.Tabulate | list_container.py:34-39 | one row per blob in listing order, and the running total is the sum of the sizes |
| ListContainer.ListContainer | list_container.py:19-41 | a wrong argument count or a missing container exits 1; otherwise the blob rows then a single `TOTALS`/`NA` row with the total size |

## Left out

- The Azure SDK (`BlobServiceClient`, `ContainerClient`, `BlobClient`, `connect_service`)
  is replaced by the abstract `Container`. It records deletes, uploads, downloads and tier
  changes, but not property reads or listings.
  - The error codes the SDK would raise are plain strings.
  - A tier-change refusal other than BlobNotFound and BlobBeingRehydrated is an input
    (`tierFaults`).
- The MD5 algorithm (hashlib) is an uninterpreted function. Nothing is claimed about
  collisions.
- Threads, `queue.Queue` blocking and the waiting in `q.join()` are not modelled. Each
  container script runs one worker after the enqueue loop. Whether `join` would return is
  `WorkQueue.JoinReturns`.
- Real file system access (`os.walk`, `glob`, `open`, `os.makedirs`, `getmtime`,
  `datetime`) and pathlib normalisation (`parents[0]`, `str(Path(...))`) are not modelled.
  - The file list, file contents, existence, modification times (as integers), the folder's
    parent and its normalised form are inputs.
  - `os.makedirs` is not modelled. A directory is not a file in `LocalFs`.
- The `BlobClient.exists()` call in rehydrate_file.py is read as "the name is in the
  container".
- `human_readable` in list_container.py is not modelled (floating point and
  `%`-formatting). A row's size column holds the byte count it would format.
- Printing the table, the usage text and all logging are not modelled.
  azure_client/logger.py is not part of this model.
- `get_blob_manifest` and `get_blob_list_information` are not modelled: the manifest and
  the listing are inputs.
- argparse and dotenv are not modelled.
  - The scripts' parsed arguments are parameters.
  - Defaults appear where the model needs them: Cool and Standard in rehydrate_file.py, and
    the negated `--overwrite` flag.
  - For rehydrate_container.py the target and priority are given already defaulted.
- The `retries` and `debug` parameters of `upload_blob` are not modelled, because the
  function never reads them.
- upload_to_azure.py and upload_file_to_azure.py are not part of this model. They repeat
  the `upload_blob` routing of the folder loop.
- Python's recursion limit is modelled as a `depth` bound on nested `download_blob` calls.
  Reaching it raises RecursionError.
- `str.split()` treats as whitespace only the ASCII whitespace characters plus U+001C to
  U+001F, U+0085 and U+00A0, not every Unicode space.
- Text-mode reading of the cache file decodes it with the platform's encoding. That
  decoding is not modelled: a character of the model stands for a decoded code point. The
  universal-newline translation is modelled (`Newlines`).
- Other clients of the same container are not modelled. A blob created by someone else
  between the manifest read and an upload is not represented.
- BlobStore.Container.Download: every download delivers the stored bytes. A corrupted
  transfer is not represented.
- AzureClient.DownloadSpec: every retry is fed the same stored bytes, so a checksum mismatch
  persists across retries. A retry that recovers from a corrupted transfer and returns the
  response is not represented.
- PyStr.Lower: `lower()` is modelled for ASCII letters only, not Unicode case mapping.
- The scripts' own calls to `connect_container` are not repeated in their models: the container
  is given. The connect decision is modelled once, as `ConnectContainer`, and the listing script
  uses it.
- UploadFolder.UploadEach: an invalid tier name is checked once before the loop rather than
  at each call. This gives the same ValueError on the first file and no call, as
  `BadTierFails` proves.
