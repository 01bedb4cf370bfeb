/**
 * rehydrate_container.py: every name in the manifest is queued and a worker moves each blob
 * to the target tier. Unlike the download worker it marks an item done only on success or on
 * the benign "already rehydrating" refusal, and an argument error kills the worker outright,
 * so `q.join()` can wait for ever. One worker is modelled, running after the enqueue loop.
 */
module RehydrateContainer {
  import opened Wrappers
  import opened BlobStore
  import opened TaskQueue
  import opened Rehydration

  /**
   * What happened to one item. NotFound: reading the properties raised BlobNotFound.
   * Refused: the tier change raised another error code. WorkerDied: the target tier or the
   * priority is not a valid name, the resulting ValueError has no `error_code`, and the
   * AttributeError raised inside the handler ends the worker thread.
   */
  datatype Outcome = NotFound | AtTier | Pending | Requested | BeingRehydrated | Refused(code: string) | WorkerDied

  /** The outcomes after which the worker calls `task_done`. */
  predicate MarkedDone(o: Outcome)
  {
    o.AtTier? || o.Pending? || o.Requested? || o.BeingRehydrated?
  }

  datatype ItemStep = ItemStep(outcome: Outcome, calls: seq<Call>, blobs: map<string, Blob>)

  /**
   * One item of the worker loop: NotFound exactly when the blob is missing, no blob added or
   * lost, a remote call exactly when a tier change was attempted, and death exactly on a
   * needed change with an invalid tier or priority.
   */
  function RehydrateItem(blobs: map<string, Blob>, faults: map<string, string>, name: string, target: string, priority: string)
    : (s: ItemStep)
    ensures s.outcome.NotFound? <==> name !in blobs
    ensures s.blobs.Keys == blobs.Keys
    ensures s.calls != [] <==> s.outcome.Requested? || s.outcome.BeingRehydrated? || s.outcome.Refused?
    ensures s.outcome.WorkerDied? <==>
      name in blobs && Decide(blobs[name], target) == ChangeTier && (ParseTier(target).None? || ParsePriority(priority).None?)
  {
    if name !in blobs then ItemStep(NotFound, [], blobs)
    else
      match Decide(blobs[name], target)
      case AlreadyAtTier => ItemStep(AtTier, [], blobs)
      case AlreadyPending => ItemStep(Pending, [], blobs)
      case ChangeTier =>
        var tier, prio := ParseTier(target), ParsePriority(priority);
        if tier.None? || prio.None? then ItemStep(WorkerDied, [], blobs)
        else
          var err := SetTierError(blobs, faults, name);
          var outcome := if err.None? then Requested
                         else if err.value == "BlobBeingRehydrated" then BeingRehydrated
                         else Refused(err.value);
          ItemStep(outcome, [SetTierCall(name, tier.value.Name(), prio.value.Name())], SetTierEffect(blobs, faults, name, tier.value))
  }

  /** The worker's record: outcomes of the items it handled, its calls and the blobs afterwards. */
  datatype Run = Run(outcomes: seq<Outcome>, calls: seq<Call>, blobs: map<string, Blob>)

  /** The number of `task_done` calls for these outcomes. */
  function CountDone(outcomes: seq<Outcome>): (n: nat)
    ensures n <= |outcomes|
  {
    if outcomes == [] then 0
    else CountDone(outcomes[..|outcomes| - 1]) + if MarkedDone(outcomes[|outcomes| - 1]) then 1 else 0
  }

  /** Every outcome is counted exactly when every one of them is marked done. */
  lemma {:induction false} CountDoneAll(outcomes: seq<Outcome>)
    ensures CountDone(outcomes) == |outcomes| <==> forall k :: 0 <= k < |outcomes| ==> MarkedDone(outcomes[k])
    decreases |outcomes|
  {
    if outcomes != [] {
      var init := outcomes[..|outcomes| - 1];
      CountDoneAll(init);
      assert forall k :: 0 <= k < |init| ==> init[k] == outcomes[k];
    }
  }

  /** The worker has died on the last item it took. */
  predicate Died(outcomes: seq<Outcome>)
  {
    outcomes != [] && outcomes[|outcomes| - 1].WorkerDied?
  }

  /**
   * The worker over the queued names in order. Once it has died it handles nothing more, and
   * the items after that stay in the queue; a run that stops short ends with its death.
   */
  function RehydrateAll(blobs: map<string, Blob>, faults: map<string, string>, names: seq<string>, target: string, priority: string)
    : (run: Run)
    ensures |run.outcomes| <= |names|
    ensures |run.outcomes| < |names| ==> Died(run.outcomes)
    decreases |names|
  {
    if names == [] then Run([], [], blobs)
    else
      var n := |names| - 1;
      var prev := RehydrateAll(blobs, faults, names[..n], target, priority);
      if Died(prev.outcomes) then prev
      else
        var s := RehydrateItem(prev.blobs, faults, names[n], target, priority);
        Run(prev.outcomes + [s.outcome], prev.calls + s.calls, s.blobs)
  }

  /** One more queued name. */
  lemma RehydrateStep(blobs: map<string, Blob>, faults: map<string, string>, names: seq<string>, name: string,
                      target: string, priority: string)
    ensures var prev := RehydrateAll(blobs, faults, names, target, priority);
      var run := RehydrateAll(blobs, faults, names + [name], target, priority);
      (Died(prev.outcomes) ==> run == prev) &&
      (!Died(prev.outcomes) ==>
        var s := RehydrateItem(prev.blobs, faults, name, target, priority);
        run == Run(prev.outcomes + [s.outcome], prev.calls + s.calls, s.blobs))
  {
    assert (names + [name])[..|names|] == names;
  }

  /** The last name, taken by a living worker. */
  lemma AliveStep(blobs: map<string, Blob>, faults: map<string, string>, names: seq<string>, target: string, priority: string)
    requires names != []
    requires !Died(RehydrateAll(blobs, faults, names[..|names| - 1], target, priority).outcomes)
    ensures var prev := RehydrateAll(blobs, faults, names[..|names| - 1], target, priority);
      var s := RehydrateItem(prev.blobs, faults, names[|names| - 1], target, priority);
      RehydrateAll(blobs, faults, names, target, priority) == Run(prev.outcomes + [s.outcome], prev.calls + s.calls, s.blobs)
  {
  }

  /** The last name, left in the queue by a dead worker. */
  lemma DeadStep(blobs: map<string, Blob>, faults: map<string, string>, names: seq<string>, target: string, priority: string)
    requires names != []
    requires Died(RehydrateAll(blobs, faults, names[..|names| - 1], target, priority).outcomes)
    ensures RehydrateAll(blobs, faults, names, target, priority) == RehydrateAll(blobs, faults, names[..|names| - 1], target, priority)
  {
  }

  /** The run never adds or loses a blob. */
  lemma {:induction false} KeysKept(blobs: map<string, Blob>, faults: map<string, string>, names: seq<string>, target: string, priority: string)
    ensures RehydrateAll(blobs, faults, names, target, priority).blobs.Keys == blobs.Keys
    decreases |names|
  {
    if names != [] {
      var n := |names| - 1;
      KeysKept(blobs, faults, names[..n], target, priority);
      var prev := RehydrateAll(blobs, faults, names[..n], target, priority);
      if Died(prev.outcomes) {
        DeadStep(blobs, faults, names, target, priority);
      } else {
        AliveStep(blobs, faults, names, target, priority);
      }
    }
  }

  /** An item is NotFound exactly when its blob was missing at the start. */
  lemma NotFoundExactlyMissing(blobs: map<string, Blob>, faults: map<string, string>, names: seq<string>,
                               target: string, priority: string)
    ensures var run := RehydrateAll(blobs, faults, names, target, priority);
      forall k :: 0 <= k < |run.outcomes| ==> (run.outcomes[k].NotFound? <==> names[k] !in blobs)
  {
    var run := RehydrateAll(blobs, faults, names, target, priority);
    forall k | 0 <= k < |run.outcomes|
      ensures run.outcomes[k].NotFound? <==> names[k] !in blobs
    {
      NotFoundAt(blobs, faults, names, target, priority, k);
    }
  }

  /** The `k`-th outcome is NotFound exactly when the `k`-th blob was missing at the start. */
  lemma {:induction false} NotFoundAt(blobs: map<string, Blob>, faults: map<string, string>, names: seq<string>,
                                      target: string, priority: string, k: nat)
    requires k < |RehydrateAll(blobs, faults, names, target, priority).outcomes|
    ensures RehydrateAll(blobs, faults, names, target, priority).outcomes[k].NotFound? <==> names[k] !in blobs
    decreases |names|
  {
    var n := |names| - 1;
    var prefix := names[..n];
    var prev := RehydrateAll(blobs, faults, prefix, target, priority);
    if Died(prev.outcomes) {
      DeadStep(blobs, faults, names, target, priority);
      NotFoundAt(blobs, faults, prefix, target, priority, k);
      assert prefix[k] == names[k];
    } else {
      AliveStep(blobs, faults, names, target, priority);
      var s := RehydrateItem(prev.blobs, faults, names[n], target, priority);
      if k < n {
        NotFoundAt(blobs, faults, prefix, target, priority, k);
        assert prefix[k] == names[k];
        assert (prev.outcomes + [s.outcome])[k] == prev.outcomes[k];
      } else {
        KeysKept(blobs, faults, prefix, target, priority);
      }
    }
  }

  /** The worker was alive after every item it handled but possibly the last. */
  lemma {:induction false} DiesOnlyLast(blobs: map<string, Blob>, faults: map<string, string>, names: seq<string>,
                                       target: string, priority: string)
    ensures var run := RehydrateAll(blobs, faults, names, target, priority);
      forall k :: 0 <= k < |run.outcomes| - 1 ==> !run.outcomes[k].WorkerDied?
    decreases |names|
  {
    if names != [] {
      var n := |names| - 1;
      DiesOnlyLast(blobs, faults, names[..n], target, priority);
      var prev := RehydrateAll(blobs, faults, names[..n], target, priority);
      if Died(prev.outcomes) {
        DeadStep(blobs, faults, names, target, priority);
      } else {
        AliveStep(blobs, faults, names, target, priority);
        var s := RehydrateItem(prev.blobs, faults, names[n], target, priority);
        var outcomes := prev.outcomes + [s.outcome];
        assert forall k :: 0 <= k < |prev.outcomes| ==> outcomes[k] == prev.outcomes[k];
      }
    }
  }

  /**
   * `q.join()` returns exactly when the worker handled every queued item and marked each one
   * done: no missing blob, no refused tier change, and the worker did not die.
   */
  lemma JoinReturnsIff(blobs: map<string, Blob>, faults: map<string, string>, names: seq<string>, target: string, priority: string)
    ensures var run := RehydrateAll(blobs, faults, names, target, priority);
      CountDone(run.outcomes) == |names| <==> |run.outcomes| == |names| && forall k :: 0 <= k < |names| ==> MarkedDone(run.outcomes[k])
  {
    CountDoneAll(RehydrateAll(blobs, faults, names, target, priority).outcomes);
  }

  /** A queued name whose blob is gone keeps `q.join()` from ever returning. */
  lemma MissingBlobBlocksJoin(blobs: map<string, Blob>, faults: map<string, string>, names: seq<string>, target: string, priority: string, k: nat)
    requires k < |names| && names[k] !in blobs
    ensures CountDone(RehydrateAll(blobs, faults, names, target, priority).outcomes) < |names|
  {
    var run := RehydrateAll(blobs, faults, names, target, priority);
    NotFoundExactlyMissing(blobs, faults, names, target, priority);
    if |run.outcomes| == |names| {
      assert run.outcomes[k].NotFound?;
      NotAllDone(run.outcomes, k);
    }
  }

  /** One outcome that is not marked done keeps the count short. */
  lemma NotAllDone(outcomes: seq<Outcome>, k: nat)
    requires k < |outcomes| && !MarkedDone(outcomes[k])
    ensures CountDone(outcomes) < |outcomes|
  {
    CountDoneAll(outcomes);
  }

  /** With a valid tier and priority the worker survives and handles every queued item. */
  lemma {:induction false} ValidArgumentsKeepWorker(blobs: map<string, Blob>, faults: map<string, string>, names: seq<string>,
                                                   target: string, priority: string)
    requires ParseTier(target).Some? && ParsePriority(priority).Some?
    ensures var run := RehydrateAll(blobs, faults, names, target, priority);
      |run.outcomes| == |names| && forall k :: 0 <= k < |names| ==> !run.outcomes[k].WorkerDied?
    decreases |names|
  {
    if names != [] {
      var n := |names| - 1;
      ValidArgumentsKeepWorker(blobs, faults, names[..n], target, priority);
      var prev := RehydrateAll(blobs, faults, names[..n], target, priority);
      assert n == 0 || !prev.outcomes[n - 1].WorkerDied?;
      AliveStep(blobs, faults, names, target, priority);
      var s := RehydrateItem(prev.blobs, faults, names[n], target, priority);
      var outcomes := prev.outcomes + [s.outcome];
      forall k | 0 <= k < |names|
        ensures !outcomes[k].WorkerDied?
      {
        if k < n {
          assert outcomes[k] == prev.outcomes[k];
        }
      }
    }
  }

  /** When every queued blob is already at the target tier, no tier change is requested and `q.join()` returns. */
  lemma {:induction false} AllAtTierIsQuiet(blobs: map<string, Blob>, faults: map<string, string>, names: seq<string>,
                                           target: string, priority: string)
    requires forall k :: 0 <= k < |names| ==> names[k] in blobs && blobs[names[k]].tier == target
    ensures var run := RehydrateAll(blobs, faults, names, target, priority);
      run.calls == [] && run.blobs == blobs && |run.outcomes| == |names| && CountDone(run.outcomes) == |names|
    decreases |names|
  {
    if names != [] {
      var n := |names| - 1;
      var prefix := names[..n];
      assert forall k :: 0 <= k < n ==> prefix[k] == names[k];
      AllAtTierIsQuiet(blobs, faults, prefix, target, priority);
      QuietStep(blobs, faults, names, target, priority);
    }
  }

  /** A quiet run stays quiet over one more name whose blob is at the target tier. */
  lemma QuietStep(blobs: map<string, Blob>, faults: map<string, string>, names: seq<string>, target: string, priority: string)
    requires names != [] && names[|names| - 1] in blobs && blobs[names[|names| - 1]].tier == target
    requires var prev := RehydrateAll(blobs, faults, names[..|names| - 1], target, priority);
      prev.calls == [] && prev.blobs == blobs && |prev.outcomes| == |names| - 1 && CountDone(prev.outcomes) == |names| - 1
    ensures var run := RehydrateAll(blobs, faults, names, target, priority);
      run.calls == [] && run.blobs == blobs && |run.outcomes| == |names| && CountDone(run.outcomes) == |names|
  {
    var n := |names| - 1;
    var prev := RehydrateAll(blobs, faults, names[..n], target, priority);
    AllDoneIsAlive(prev.outcomes);
    WorkerAdvance(blobs, faults, names, n, target, priority, prev);
    assert names[..n + 1] == names;
    ItemAtTier(blobs, faults, names[n], target, priority);
  }

  /** A blob already at the target tier is left alone. */
  lemma ItemAtTier(blobs: map<string, Blob>, faults: map<string, string>, name: string, target: string, priority: string)
    requires name in blobs && blobs[name].tier == target
    ensures RehydrateItem(blobs, faults, name, target, priority) == ItemStep(AtTier, [], blobs)
  {
  }

  /** A worker that marked every item done so far has not died. */
  lemma AllDoneIsAlive(outcomes: seq<Outcome>)
    requires CountDone(outcomes) == |outcomes|
    ensures !Died(outcomes)
  {
    CountDoneAll(outcomes);
    if outcomes != [] {
      assert MarkedDone(outcomes[|outcomes| - 1]);
    }
  }

  /** One pass of the worker loop body against the container. */
  method RehydrateOne(c: Container, name: string, target: string, priority: string) returns (outcome: Outcome)
    modifies c
    ensures var s := RehydrateItem(old(c.blobs), c.tierFaults, name, target, priority);
      outcome == s.outcome && c.blobs == s.blobs && c.calls == old(c.calls) + s.calls
  {
    if name !in c.blobs {
      return NotFound;
    }
    var d := Decide(c.blobs[name], target);
    if d == AlreadyAtTier {
      return AtTier;
    } else if d == AlreadyPending {
      return Pending;
    }
    var tier, prio := ParseTier(target), ParsePriority(priority);
    if tier.None? || prio.None? {
      return WorkerDied;
    }
    var err := c.SetTier(name, tier.value, prio.value);
    if err.None? {
      outcome := Requested;
    } else if err.value == "BlobBeingRehydrated" {
      outcome := BeingRehydrated;
    } else {
      outcome := Refused(err.value);
    }
  }

  /**
   * The worker: take items until the queue is empty or the worker dies, marking an item done
   * only for the outcomes that reach `task_done`.
   */
  method Worker(c: Container, q: WorkQueue, target: string, priority: string) returns (outcomes: seq<Outcome>)
    requires q.unfinished == |q.items|
    modifies c, q
    ensures var run := RehydrateAll(old(c.blobs), c.tierFaults, old(q.items), target, priority);
      outcomes == run.outcomes && c.blobs == run.blobs && c.calls == old(c.calls) + run.calls &&
      q.items == old(q.items)[|run.outcomes|..] && q.unfinished == |old(q.items)| - CountDone(run.outcomes)
  {
    ghost var queued, blobs0, calls0 := q.items, c.blobs, c.calls;
    ghost var run := Run([], [], blobs0);
    outcomes := [];
    var alive := true;
    var i := 0;
    while alive && q.items != []
      invariant 0 <= i <= |queued| && q.items == queued[i..]
      invariant run == RehydrateAll(blobs0, c.tierFaults, queued[..i], target, priority)
      invariant outcomes == run.outcomes && |outcomes| == i
      invariant c.blobs == run.blobs && c.calls == calls0 + run.calls
      invariant q.unfinished == |queued| - CountDone(outcomes)
      invariant alive <==> !Died(outcomes)
      decreases |q.items|
    {
      ghost var s := RehydrateItem(run.blobs, c.tierFaults, queued[i], target, priority);
      WorkerAdvance(blobs0, c.tierFaults, queued, i, target, priority, run);
      var name := q.Get();
      var outcome := RehydrateOne(c, name, target, priority);
      if MarkedDone(outcome) {
        q.TaskDone();
      }
      alive := !outcome.WorkerDied?;
      ConcatAssoc(calls0, run.calls, s.calls);
      run := Run(run.outcomes + [s.outcome], run.calls + s.calls, s.blobs);
      outcomes := outcomes + [outcome];
      i := i + 1;
    }
    if !alive {
      StopsAfterDeath(blobs0, c.tierFaults, queued, target, priority, i);
    } else {
      assert queued[..i] == queued;
    }
  }

  /** One turn of the living worker, on the `i`-th queued name. */
  lemma WorkerAdvance(blobs: map<string, Blob>, faults: map<string, string>, queued: seq<string>, i: nat,
                      target: string, priority: string, run: Run)
    requires i < |queued| && run == RehydrateAll(blobs, faults, queued[..i], target, priority) && !Died(run.outcomes)
    ensures var s := RehydrateItem(run.blobs, faults, queued[i], target, priority);
      RehydrateAll(blobs, faults, queued[..i + 1], target, priority) == Run(run.outcomes + [s.outcome], run.calls + s.calls, s.blobs) &&
      CountDone(run.outcomes + [s.outcome]) == CountDone(run.outcomes) + if MarkedDone(s.outcome) then 1 else 0
  {
    assert queued[..i + 1] == queued[..i] + [queued[i]];
    RehydrateStep(blobs, faults, queued[..i], queued[i], target, priority);
    var s := RehydrateItem(run.blobs, faults, queued[i], target, priority);
    assert (run.outcomes + [s.outcome])[..|run.outcomes|] == run.outcomes;
  }

  /** Once the worker has died, the items still queued are never handled. */
  lemma {:induction false} StopsAfterDeath(blobs: map<string, Blob>, faults: map<string, string>, names: seq<string>,
                                          target: string, priority: string, i: nat)
    requires i <= |names|
    requires Died(RehydrateAll(blobs, faults, names[..i], target, priority).outcomes)
    ensures RehydrateAll(blobs, faults, names, target, priority) == RehydrateAll(blobs, faults, names[..i], target, priority)
    decreases |names|
  {
    if i == |names| {
      assert names[..i] == names;
    } else {
      var n := |names| - 1;
      assert names[..n][..i] == names[..i];
      StopsAfterDeath(blobs, faults, names[..n], target, priority, i);
      RehydrateStep(blobs, faults, names[..n], names[n], target, priority);
      assert names[..n] + [names[n]] == names;
    }
  }

  /**
   * The script after connecting (without creating the container): enqueue the manifest, then
   * let one worker handle it. Whether `q.join()` returns is `q.JoinReturns()`.
   */
  method RehydrateContainer(c: Container, manifest: seq<string>, target: string, priority: string)
    returns (q: WorkQueue, outcomes: seq<Outcome>)
    modifies c
    ensures fresh(q)
    ensures var run := RehydrateAll(old(c.blobs), c.tierFaults, manifest, target, priority);
      outcomes == run.outcomes && c.blobs == run.blobs && c.calls == old(c.calls) + run.calls &&
      q.items == manifest[|run.outcomes|..] && (q.JoinReturns() <==> CountDone(run.outcomes) == |manifest|)
  {
    q := Enqueue(manifest);
    outcomes := Worker(c, q, target, priority);
  }
}
