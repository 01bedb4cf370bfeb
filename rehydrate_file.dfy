/**
 * rehydrate_file.py: move one blob to a target tier (by default Cool, with Standard
 * priority), unless it does not exist, is already there, or is already on its way there.
 */
module RehydrateFile {
  import opened Wrappers
  import opened BlobStore
  import opened Rehydration
  import RehydrateContainer

  const DefaultTier: string := "Cool"
  const DefaultPriority: string := "Standard"

  datatype FileRun = FileRun(ending: Ending, calls: seq<Call>, blobs: map<string, Blob>)

  /**
   * The guard chain: a missing blob exits 1 before its properties are read; a blob at the
   * target tier or pending rehydration to it exits 0; otherwise the tier and priority names
   * are parsed (raising ValueError when invalid) and exactly one tier change is requested,
   * whose refusal raises its error code.
   */
  function RehydrateFileSpec(blobs: map<string, Blob>, faults: map<string, string>, name: string, target: string, priority: string)
    : (r: FileRun)
    ensures name !in blobs ==> r == FileRun(Exit(1), [], blobs)
    ensures name in blobs && Decide(blobs[name], target) != ChangeTier ==> r == FileRun(Exit(0), [], blobs)
    ensures r.calls != [] ==>
      |r.calls| == 1 && name in blobs && Decide(blobs[name], target) == ChangeTier &&
      ParseTier(target).Some? && ParsePriority(priority).Some? &&
      r.calls[0] == SetTierCall(name, target, priority)
    ensures r.ending == Finished ==> r.calls != [] && SetTierError(blobs, faults, name).None?
    ensures name in blobs && Decide(blobs[name], target) == ChangeTier && (ParseTier(target).None? || ParsePriority(priority).None?) ==>
      r == FileRun(Crashed("ValueError"), [], blobs)
    ensures name in blobs && Decide(blobs[name], target) == ChangeTier && ParseTier(target).Some? && ParsePriority(priority).Some? ==>
      var err := SetTierError(blobs, faults, name);
      r.calls == [SetTierCall(name, target, priority)] &&
      r.blobs == SetTierEffect(blobs, faults, name, ParseTier(target).value) &&
      (err.None? ==> r.ending == Finished) && (err.Some? ==> r.ending == Crashed(err.value))
  {
    if name !in blobs then FileRun(Exit(1), [], blobs)
    else if Decide(blobs[name], target) != ChangeTier then FileRun(Exit(0), [], blobs)
    else
      var tier, prio := ParseTier(target), ParsePriority(priority);
      if tier.None? || prio.None? then FileRun(Crashed("ValueError"), [], blobs)
      else
        var err := SetTierError(blobs, faults, name);
        FileRun(if err.None? then Finished else Crashed(err.value),
                [SetTierCall(name, tier.value.Name(), prio.value.Name())], SetTierEffect(blobs, faults, name, tier.value))
  }

  /**
   * The script makes the same calls and leaves the same blobs as one item of the container
   * rehydration worker, and its ending corresponds to the worker's outcome for that item.
   */
  lemma SameAsContainerWorker(blobs: map<string, Blob>, faults: map<string, string>, name: string, target: string, priority: string)
    ensures var r := RehydrateFileSpec(blobs, faults, name, target, priority);
      var s := RehydrateContainer.RehydrateItem(blobs, faults, name, target, priority);
      r.calls == s.calls && r.blobs == s.blobs &&
      (r.ending == Exit(1) <==> s.outcome.NotFound?) &&
      (r.ending == Exit(0) <==> s.outcome.AtTier? || s.outcome.Pending?) &&
      (r.ending == Finished <==> s.outcome.Requested?) &&
      (s.outcome.WorkerDied? ==> r.ending == Crashed("ValueError"))
  {
  }

  /** Run twice with the defaults on an archived blob: the second run finds it pending and exits 0. */
  lemma SecondRequestSeesPending(blobs: map<string, Blob>, faults: map<string, string>, name: string)
    requires name in blobs && blobs[name].tier == "Archive" && blobs[name].archiveStatus.None? && name !in faults
    ensures var first := RehydrateFileSpec(blobs, faults, name, DefaultTier, DefaultPriority);
      first.ending == Finished &&
      RehydrateFileSpec(first.blobs, faults, name, DefaultTier, DefaultPriority) == FileRun(Exit(0), [], first.blobs)
  {
    RequestThenPending(blobs[name], Cool);
  }

  /** The script after connecting; an omitted `--tier` or `--priority` takes its default. */
  method RehydrateFile(c: Container, name: string, tierArg: Option<string>, priorityArg: Option<string>) returns (ending: Ending)
    modifies c
    ensures var target := if tierArg.Some? then tierArg.value else DefaultTier;
      var priority := if priorityArg.Some? then priorityArg.value else DefaultPriority;
      var r := RehydrateFileSpec(old(c.blobs), c.tierFaults, name, target, priority);
      ending == r.ending && c.blobs == r.blobs && c.calls == old(c.calls) + r.calls
  {
    var target := if tierArg.Some? then tierArg.value else DefaultTier;
    var priority := if priorityArg.Some? then priorityArg.value else DefaultPriority;
    if name !in c.blobs {
      return Exit(1);
    }
    if Decide(c.blobs[name], target) != ChangeTier {
      return Exit(0);
    }
    var tier, prio := ParseTier(target), ParsePriority(priority);
    if tier.None? || prio.None? {
      return Crashed("ValueError");
    }
    var err := c.SetTier(name, tier.value, prio.value);
    ending := if err.None? then Finished else Crashed(err.value);
  }
}
