/**
 * upload_folder_to_azure.py: derive a remote name for every file under a local folder, then
 * upload each file, asking for a checksum comparison (`update`) only for names the container
 * already held when the script started.
 */
module UploadFolder {
  import opened Wrappers
  import opened Checksum
  import opened PyStr
  import opened BlobStore
  import opened AzureClient

  /** `os.sep` on the systems the script targets. */
  const PathSep: string := "/"

  predicate IsAbsolute(folder: string)
  {
    |folder| > 0 && folder[0] == '/'
  }

  /**
   * `FINAL_FOLDER`. For an absolute folder it is the second piece of the normalised folder
   * split on its parent plus the separator, and None stands for the IndexError raised when the
   * parent is not found there (a folder directly under `/`, whose parent is `/` itself, splits
   * on `//`). For a relative folder it is the folder exactly as given.
   */
  function FinalFolder(folder: string, normFolder: string, parent: string): (r: Option<string>)
    ensures IsAbsolute(folder) ==> (r.Some? <==> Contains(normFolder, parent + PathSep))
    ensures IsAbsolute(folder) && r.Some? ==> !Contains(r.value, parent + PathSep)
    ensures IsAbsolute(folder) && r.Some? ==>
      Contains(normFolder, parent + PathSep) &&
      IsPieceAt(normFolder, parent + PathSep, FindFrom(normFolder, parent + PathSep, 0).value + |parent + PathSep|, r.value)
    ensures !IsAbsolute(folder) ==> r == Some(folder)
  {
    if IsAbsolute(folder) then
      var pieces := Split(normFolder, parent + PathSep);
      SplitHasSecondPiece(normFolder, parent + PathSep);
      SplitPiecesFree(normFolder, parent + PathSep);
      if |pieces| < 2 then None
      else
        SplitSecondPiece(normFolder, parent + PathSep);
        Some(pieces[1])
    else Some(folder)
  }

  /**
   * The remote name of one file: the last piece after the parent folder (skipped for a
   * relative folder with stripping), then, with stripping, the last piece after the final
   * folder name. It is always a suffix of the local path.
   */
  function RemoteName(path: string, parent: string, final: string, absolute: bool, strip: bool): (name: string)
    ensures IsSuffix(name, path)
    ensures !strip ==> !Contains(name, parent + PathSep)
    ensures strip ==> !Contains(name, final + PathSep)
  {
    var first := if absolute || !strip then SplitLast(path, parent + PathSep) else path;
    assert IsSuffix(path, path);
    if strip then
      var name := SplitLast(first, final + PathSep);
      SuffixTransitive(name, first, path);
      name
    else first
  }

  /** `azure_filename_list`, or None when computing `FINAL_FOLDER` raises. */
  function RemoteNames(folder: string, normFolder: string, parent: string, paths: seq<string>, strip: bool): (names: Option<seq<string>>)
    ensures names.Some? <==> FinalFolder(folder, normFolder, parent).Some?
    ensures names.Some? ==> |names.value| == |paths|
    ensures names.Some? ==> forall k :: 0 <= k < |paths| ==> IsSuffix(names.value[k], paths[k])
    ensures names.Some? ==> forall k :: 0 <= k < |paths| ==>
      names.value[k] == RemoteName(paths[k], parent, FinalFolder(folder, normFolder, parent).value, IsAbsolute(folder), strip)
  {
    var final := FinalFolder(folder, normFolder, parent);
    if final.None? then None
    else Some(seq(|paths|, k requires 0 <= k < |paths| => RemoteName(paths[k], parent, final.value, IsAbsolute(folder), strip)))
  }

  /**
   * For the usual layout, an absolute folder `parent/leaf` holding `parent/leaf/rel`, the
   * remote name is `leaf/rel`, or just `rel` with stripping: the path relative to the folder's
   * parent, or to the folder itself.
   */
  lemma AbsoluteFolderNames(folder: string, parent: string, leaf: string, rel: string, strip: bool)
    requires IsAbsolute(folder)
    requires !Contains(leaf, parent + PathSep) && !Contains(leaf + PathSep + rel, parent + PathSep)
    requires strip ==> !Contains(rel, leaf + PathSep)
    ensures var normFolder := parent + PathSep + leaf;
      FinalFolder(folder, normFolder, parent) == Some(leaf) &&
      RemoteName(normFolder + PathSep + rel, parent, leaf, true, strip) == if strip then rel else leaf + PathSep + rel
  {
    var sep := parent + PathSep;
    SplitAfterSeparator(leaf, sep);
    assert parent + PathSep + leaf + PathSep + rel == sep + (leaf + PathSep + rel);
    SplitAfterSeparator(leaf + PathSep + rel, sep);
    if strip {
      assert leaf + PathSep + rel == (leaf + PathSep) + rel;
      SplitAfterSeparator(rel, leaf + PathSep);
    }
  }

  /** For a relative folder with stripping, `folder/rel` is uploaded as `rel`. */
  lemma RelativeStrippedNames(folder: string, parent: string, rel: string)
    requires !IsAbsolute(folder) && !Contains(rel, folder + PathSep)
    ensures FinalFolder(folder, folder, parent) == Some(folder)
    ensures RemoteName(folder + PathSep + rel, parent, folder, false, true) == rel
  {
    assert folder + PathSep + rel == (folder + PathSep) + rel;
    SplitAfterSeparator(rel, folder + PathSep);
  }

  /** The arguments `upload_blob` gets for one file. */
  datatype Route = Route(update: bool, overwrite: bool)

  /**
   * A name the container held at the start is uploaded with `update=True` and the script's
   * overwrite flag; any other with the defaults `update=False, overwrite=False`.
   */
  function RouteFor(name: string, manifest: set<string>, overwrite: bool): (r: Route)
    ensures r.update <==> name in manifest
    ensures r.overwrite <==> name in manifest && overwrite
  {
    if name in manifest then Route(true, overwrite) else Route(false, false)
  }

  /** A local file found under the folder. */
  datatype LocalFile = LocalFile(path: string, content: seq<byte>)

  function Paths(files: seq<LocalFile>): (paths: seq<string>)
    ensures |paths| == |files| && forall k :: 0 <= k < |files| ==> paths[k] == files[k].path
  {
    seq(|files|, k requires 0 <= k < |files| => files[k].path)
  }

  /** Where the loop stops (the exception raised, if any), the calls it made, and the blobs after. */
  datatype FolderRun = FolderRun(error: Option<string>, calls: seq<Call>, blobs: map<string, Blob>)

  /**
   * The upload loop over the pairs of `zip(file_list, azure_filename_list)`, against a manifest
   * fixed before the loop. `tier` is None where `StandardBlobTier(tier)` raises ValueError,
   * which happens when the first file is reached. The first exception ends the run.
   */
  function SyncSpec(blobs: map<string, Blob>, manifest: set<string>, files: seq<LocalFile>, names: seq<string>,
                    tier: Option<StandardTier>, overwrite: bool): (run: FolderRun)
    requires |names| == |files|
    ensures blobs.Keys <= run.blobs.Keys
    ensures forall x :: x in run.blobs ==> x in blobs || x in names
    decreases |files|
  {
    if files == [] then FolderRun(None, [], blobs)
    else
      var n := |files| - 1;
      var prev := SyncSpec(blobs, manifest, files[..n], names[..n], tier, overwrite);
      if prev.error.Some? then prev
      else if tier.None? then FolderRun(Some("ValueError"), prev.calls, prev.blobs)
      else
        var route := RouteFor(names[n], manifest, overwrite);
        var s := UploadSpec(prev.blobs, files[n].content, names[n], tier.value, route.update, route.overwrite);
        FolderRun(if s.result.UploadRaised? then Some(s.result.error) else None, prev.calls + s.calls, s.blobs)
  }

  /** One more file at the end of the loop. */
  lemma SyncStep(blobs: map<string, Blob>, manifest: set<string>, files: seq<LocalFile>, names: seq<string>,
                 file: LocalFile, name: string, tier: Option<StandardTier>, overwrite: bool)
    requires |names| == |files|
    ensures var prev := SyncSpec(blobs, manifest, files, names, tier, overwrite);
      var run := SyncSpec(blobs, manifest, files + [file], names + [name], tier, overwrite);
      (prev.error.Some? ==> run == prev) &&
      (prev.error.None? && tier.None? ==> run == FolderRun(Some("ValueError"), prev.calls, prev.blobs)) &&
      (prev.error.None? && tier.Some? ==>
        var route := RouteFor(name, manifest, overwrite);
        var s := UploadSpec(prev.blobs, file.content, name, tier.value, route.update, route.overwrite);
        run == FolderRun(if s.result.UploadRaised? then Some(s.result.error) else None, prev.calls + s.calls, s.blobs))
  {
    assert (files + [file])[..|files|] == files && (names + [name])[..|names|] == names;
  }

  /** Once an exception has ended the loop, the later files change nothing. */
  lemma {:induction false} SyncStopsAtError(blobs: map<string, Blob>, manifest: set<string>, files: seq<LocalFile>, names: seq<string>,
                                            tier: Option<StandardTier>, overwrite: bool, i: nat)
    requires |names| == |files| && i <= |files|
    requires SyncSpec(blobs, manifest, files[..i], names[..i], tier, overwrite).error.Some?
    ensures SyncSpec(blobs, manifest, files, names, tier, overwrite) == SyncSpec(blobs, manifest, files[..i], names[..i], tier, overwrite)
    decreases |files|
  {
    if i == |files| {
      assert files[..i] == files && names[..i] == names;
    } else {
      var n := |files| - 1;
      assert files[..n][..i] == files[..i] && names[..n][..i] == names[..i];
      SyncStopsAtError(blobs, manifest, files[..n], names[..n], tier, overwrite, i);
    }
  }

  /**
   * With the manifest read from the container and distinct remote names, the loop never
   * raises: each name in the manifest finds its blob, and each other name is still free when
   * its file is sent. Afterwards every blob found is still there and every name has a blob.
   */
  lemma {:induction false} SyncNeverMissesBlob(blobs: map<string, Blob>, manifest: set<string>, files: seq<LocalFile>, names: seq<string>,
                                              tier: StandardTier, overwrite: bool)
    requires |names| == |files| && manifest == blobs.Keys && Distinct(names)
    ensures var run := SyncSpec(blobs, manifest, files, names, Some(tier), overwrite);
      run.error.None? && blobs.Keys <= run.blobs.Keys && forall k :: 0 <= k < |names| ==> names[k] in run.blobs
    decreases |files|
  {
    if files != [] {
      var n := |files| - 1;
      DistinctPrefix(names, n);
      SyncNeverMissesBlob(blobs, manifest, files[..n], names[..n], tier, overwrite);
      var prev := SyncSpec(blobs, manifest, files[..n], names[..n], Some(tier), overwrite);
      assert names[n] in prev.blobs ==> names[n] in blobs;
      UploadSucceeds(prev.blobs, manifest, files[n].content, names[n], tier, overwrite);
      SyncAdvance(blobs, manifest, files, names, n, tier, overwrite, prev);
      assert files[..n + 1] == files && names[..n + 1] == names;
      var route := RouteFor(names[n], manifest, overwrite);
      var last := UploadSpec(prev.blobs, files[n].content, names[n], tier, route.update, route.overwrite);
      assert SyncSpec(blobs, manifest, files, names, Some(tier), overwrite).blobs == last.blobs;
      PrefixNamesKept(names, n, prev.blobs, last.blobs);
    }
  }

  /** Names present before the last upload are still present after it. */
  lemma PrefixNamesKept(names: seq<string>, n: nat, prev: map<string, Blob>, last: map<string, Blob>)
    requires n + 1 == |names|
    requires forall k :: 0 <= k < |names[..n]| ==> names[..n][k] in prev
    requires prev.Keys <= last.Keys && names[n] in last
    ensures forall k :: 0 <= k < |names| ==> names[k] in last
  {
    forall k | 0 <= k < |names|
      ensures names[k] in last
    {
      if k < n {
        assert names[..n][k] == names[k];
      }
    }
  }

  /** A file whose name is in the manifest exactly when it has a blob is uploaded without error. */
  lemma UploadSucceeds(blobs: map<string, Blob>, manifest: set<string>, content: seq<byte>, name: string,
                       tier: StandardTier, overwrite: bool)
    requires name in manifest <==> name in blobs
    ensures var route := RouteFor(name, manifest, overwrite);
      var s := UploadSpec(blobs, content, name, tier, route.update, route.overwrite);
      s.result.UploadReturned? && blobs.Keys <= s.blobs.Keys && name in s.blobs
  {
    var route := RouteFor(name, manifest, overwrite);
    UploadOutcomes(blobs, content, name, tier, route.update, route.overwrite);
  }

  /** A prefix of distinct names is distinct, and the next name is not among it. */
  lemma DistinctPrefix(names: seq<string>, n: nat)
    requires Distinct(names) && n < |names|
    ensures Distinct(names[..n]) && names[n] !in names[..n]
  {
    forall j, k | 0 <= j < k < n
      ensures names[..n][j] != names[..n][k]
    {
      assert names[..n][j] == names[j] && names[..n][k] == names[k];
    }
  }

  /**
   * The manifest is read once, before the loop, and not refreshed: where two files map to the
   * same new name, the first is uploaded and the second is sent as a new blob too, which the
   * service refuses with ResourceExistsError, ending the run.
   */
  lemma ManifestNotRefreshed(blobs: map<string, Blob>, manifest: set<string>, a: LocalFile, b: LocalFile, name: string,
                             tier: StandardTier, overwrite: bool)
    requires name !in manifest && name !in blobs
    ensures SyncSpec(blobs, manifest, [a, b], [name, name], Some(tier), overwrite) ==
      FolderRun(Some("ResourceExistsError"),
                [UploadCall(name, tier.Name(), Md5(a.content)), UploadCall(name, tier.Name(), Md5(b.content))],
                blobs[name := Uploaded(a.content, tier, Md5(a.content))])
  {
    SyncStep(blobs, manifest, [], [], a, name, Some(tier), overwrite);
    SyncStep(blobs, manifest, [a], [name], b, name, Some(tier), overwrite);
  }

  /** After a run without error, each file's name is present and either matches or was left alone on purpose. */
  predicate Settled(blobs: map<string, Blob>, file: LocalFile, name: string, overwrite: bool)
  {
    name in blobs && (RemoteMd5(blobs[name]) == Md5(file.content) || !overwrite)
  }

  predicate Distinct(names: seq<string>)
  {
    forall j, k :: 0 <= j < k < |names| ==> names[j] != names[k]
  }

  lemma {:induction false} SyncSettles(blobs: map<string, Blob>, manifest: set<string>, files: seq<LocalFile>, names: seq<string>,
                                       tier: StandardTier, overwrite: bool)
    requires |names| == |files| && Distinct(names)
    requires SyncSpec(blobs, manifest, files, names, Some(tier), overwrite).error.None?
    ensures var after := SyncSpec(blobs, manifest, files, names, Some(tier), overwrite).blobs;
      forall k :: 0 <= k < |files| ==> Settled(after, files[k], names[k], overwrite)
    decreases |files|
  {
    if files != [] {
      var n := |files| - 1;
      var prev := SyncSpec(blobs, manifest, files[..n], names[..n], Some(tier), overwrite);
      assert prev.error.None?;
      DistinctPrefix(names, n);
      SyncSettles(blobs, manifest, files[..n], names[..n], tier, overwrite);
      SyncAdvance(blobs, manifest, files, names, n, tier, overwrite, prev);
      assert files[..n + 1] == files && names[..n + 1] == names;
      var route := RouteFor(names[n], manifest, overwrite);
      UploadOutcomes(prev.blobs, files[n].content, names[n], tier, route.update, route.overwrite);
      var after := SyncSpec(blobs, manifest, files, names, Some(tier), overwrite).blobs;
      forall k | 0 <= k < |files|
        ensures Settled(after, files[k], names[k], overwrite)
      {
        if k < n {
          assert files[..n][k] == files[k] && names[..n][k] == names[k];
          assert names[k] != names[n];
          assert Settled(prev.blobs, files[k], names[k], overwrite);
        }
      }
    }
  }

  lemma {:induction false} SettledSyncIsQuiet(blobs: map<string, Blob>, files: seq<LocalFile>, names: seq<string>,
                                              tier: StandardTier, overwrite: bool)
    requires |names| == |files|
    requires forall k :: 0 <= k < |files| ==> Settled(blobs, files[k], names[k], overwrite)
    ensures SyncSpec(blobs, blobs.Keys, files, names, Some(tier), overwrite) == FolderRun(None, [], blobs)
    decreases |files|
  {
    if files != [] {
      var n := |files| - 1;
      forall k | 0 <= k < n
        ensures Settled(blobs, files[..n][k], names[..n][k], overwrite)
      {
        assert files[..n][k] == files[k] && names[..n][k] == names[k];
      }
      SettledSyncIsQuiet(blobs, files[..n], names[..n], tier, overwrite);
      assert Settled(blobs, files[n], names[n], overwrite);
    }
  }

  /**
   * Running the script a second time over an unchanged folder (distinct remote names, no
   * error the first time) makes no remote call at all.
   */
  lemma SecondRunIsQuiet(blobs: map<string, Blob>, manifest: set<string>, files: seq<LocalFile>, names: seq<string>,
                         tier: StandardTier, overwrite: bool)
    requires |names| == |files| && Distinct(names)
    requires SyncSpec(blobs, manifest, files, names, Some(tier), overwrite).error.None?
    ensures var after := SyncSpec(blobs, manifest, files, names, Some(tier), overwrite).blobs;
      SyncSpec(after, after.Keys, files, names, Some(tier), overwrite) == FolderRun(None, [], after)
  {
    SyncSettles(blobs, manifest, files, names, tier, overwrite);
    var after := SyncSpec(blobs, manifest, files, names, Some(tier), overwrite).blobs;
    SettledSyncIsQuiet(after, files, names, tier, overwrite);
  }

  /**
   * The script after argument parsing: the manifest is the set of blob names when it starts;
   * names are derived, then each file is uploaded in turn.
   */
  method UploadFolder(c: Container, folder: string, normFolder: string, parent: string, files: seq<LocalFile>,
                      strip: bool, tierArg: string, overwrite: bool) returns (error: Option<string>)
    modifies c
    ensures var names := RemoteNames(folder, normFolder, parent, Paths(files), strip);
      names.None? ==> error == Some("IndexError") && c.blobs == old(c.blobs) && c.calls == old(c.calls)
    ensures var names := RemoteNames(folder, normFolder, parent, Paths(files), strip);
      names.Some? ==>
        var run := SyncSpec(old(c.blobs), old(c.blobs).Keys, files, names.value, ParseTier(tierArg), overwrite);
        error == run.error && c.blobs == run.blobs && c.calls == old(c.calls) + run.calls
  {
    var manifest := c.blobs.Keys;
    var derived := RemoteNames(folder, normFolder, parent, Paths(files), strip);
    if derived.None? {
      return Some("IndexError");
    }
    error := UploadEach(c, manifest, files, derived.value, tierArg, overwrite);
  }

  /** The `for filename, azure_filename in zip(...)` loop. */
  method UploadEach(c: Container, manifest: set<string>, files: seq<LocalFile>, names: seq<string>,
                    tierArg: string, overwrite: bool) returns (error: Option<string>)
    requires |names| == |files|
    modifies c
    ensures var run := SyncSpec(old(c.blobs), manifest, files, names, ParseTier(tierArg), overwrite);
      error == run.error && c.blobs == run.blobs && c.calls == old(c.calls) + run.calls
  {
    ghost var blobs0, calls0 := c.blobs, c.calls;
    var tier := ParseTier(tierArg);
    if tier.None? && files != [] {
      BadTierFails(blobs0, manifest, files, names, overwrite);
      return Some("ValueError");  // raised when the first file is reached
    }
    ghost var run := FolderRun(None, [], blobs0);
    var i := 0;
    while i < |files|
      invariant 0 <= i <= |files|
      invariant run == SyncSpec(blobs0, manifest, files[..i], names[..i], tier, overwrite)
      invariant run.error.None? && c.blobs == run.blobs && c.calls == calls0 + run.calls
    {
      var route := RouteFor(names[i], manifest, overwrite);
      ghost var s := UploadSpec(run.blobs, files[i].content, names[i], tier.value, route.update, route.overwrite);
      SyncAdvance(blobs0, manifest, files, names, i, tier.value, overwrite, run);
      var r := UploadBlob(c, files[i].content, names[i], tier.value, route.update, route.overwrite);
      ConcatAssoc(calls0, run.calls, s.calls);
      run := FolderRun(if s.result.UploadRaised? then Some(s.result.error) else None, run.calls + s.calls, s.blobs);
      if r.UploadRaised? {
        SyncStopsAtError(blobs0, manifest, files, names, tier, overwrite, i + 1);
        return Some(r.error);
      }
      i := i + 1;
    }
    assert files[..i] == files && names[..i] == names;
    error := None;
  }

  /** An invalid tier name ends the loop on the first file, before any call. */
  lemma {:induction false} BadTierFails(blobs: map<string, Blob>, manifest: set<string>, files: seq<LocalFile>, names: seq<string>,
                                        overwrite: bool)
    requires |names| == |files| && files != []
    ensures SyncSpec(blobs, manifest, files, names, None, overwrite) == FolderRun(Some("ValueError"), [], blobs)
    decreases |files|
  {
    var n := |files| - 1;
    if n > 0 {
      BadTierFails(blobs, manifest, files[..n], names[..n], overwrite);
    }
  }

  /** One file handled by the loop before any exception. */
  lemma SyncAdvance(blobs: map<string, Blob>, manifest: set<string>, files: seq<LocalFile>, names: seq<string>, i: nat,
                    tier: StandardTier, overwrite: bool, prev: FolderRun)
    requires |names| == |files| && i < |files|
    requires prev == SyncSpec(blobs, manifest, files[..i], names[..i], Some(tier), overwrite) && prev.error.None?
    ensures var route := RouteFor(names[i], manifest, overwrite);
      var s := UploadSpec(prev.blobs, files[i].content, names[i], tier, route.update, route.overwrite);
      SyncSpec(blobs, manifest, files[..i + 1], names[..i + 1], Some(tier), overwrite) ==
        FolderRun(if s.result.UploadRaised? then Some(s.result.error) else None, prev.calls + s.calls, s.blobs)
  {
    assert files[..i + 1][..i] == files[..i] && names[..i + 1][..i] == names[..i];
  }
}
