/**
 * The tier decision shared by rehydrate_file.py and the worker of rehydrate_container.py:
 * leave a blob alone when it is already at the target tier or already on its way there,
 * otherwise ask for the tier change.
 */
module Rehydration {
  import opened Wrappers
  import opened BlobStore

  datatype Decision = AlreadyAtTier | AlreadyPending | ChangeTier

  /**
   * The current tier is compared first; only then is the archive status compared with the
   * status the service reports while a rehydration to `target` is pending.
   */
  function Decide(b: Blob, target: string): (d: Decision)
    ensures d == AlreadyAtTier <==> b.tier == target
    ensures d == AlreadyPending <==> b.tier != target && b.archiveStatus == Some(PendingStatus(target))
  {
    if b.tier == target then AlreadyAtTier
    else if b.archiveStatus == Some(PendingStatus(target)) then AlreadyPending
    else ChangeTier
  }

  /**
   * Asking to leave the archive tier marks the blob as pending for that tier, so asking again
   * for the same tier is recognised as already pending and not repeated.
   */
  lemma RequestThenPending(b: Blob, tier: StandardTier)
    requires b.tier == "Archive" && tier != Archive
    ensures Decide(Retiered(b, tier), tier.Name()) == AlreadyPending
  {
  }

  /** Any other accepted change takes effect at once, so asking again finds the blob at the tier. */
  lemma RequestThenAtTier(b: Blob, tier: StandardTier)
    requires b.tier != "Archive" || tier == Archive
    ensures Decide(Retiered(b, tier), tier.Name()) == AlreadyAtTier
  {
  }
}
