/**
 * The abstract blob store the client talks to, in place of the Azure SDK: a container maps
 * blob names to their content, metadata, tier and archive status, and records every remote
 * call that changes or transfers something, in the order issued. The local file system the
 * scripts write into is a map from path to bytes.
 */
module BlobStore {
  import opened Wrappers
  import opened Checksum
  import opened PyStr

  /** `StandardBlobTier`. */
  datatype StandardTier = Hot | Cool | Archive {
    function Name(): string
    {
      match this
      case Hot => "Hot"
      case Cool => "Cool"
      case Archive => "Archive"
    }
  }

  /** `StandardBlobTier(s)`: None where Python raises ValueError. */
  function ParseTier(s: string): (t: Option<StandardTier>)
    ensures t.Some? ==> t.value.Name() == s
    ensures forall u: StandardTier :: u.Name() == s ==> t == Some(u)
  {
    if s == "Hot" then Some(Hot)
    else if s == "Cool" then Some(Cool)
    else if s == "Archive" then Some(Archive)
    else None
  }

  /** `RehydratePriority`. */
  datatype Priority = High | Standard {
    function Name(): string
    {
      match this
      case High => "High"
      case Standard => "Standard"
    }
  }

  /** `RehydratePriority(s)`: None where Python raises ValueError. */
  function ParsePriority(s: string): (p: Option<Priority>)
    ensures p.Some? ==> p.value.Name() == s
    ensures forall u: Priority :: u.Name() == s ==> p == Some(u)
  {
    if s == "High" then Some(High)
    else if s == "Standard" then Some(Standard)
    else None
  }

  /** A blob as `get_blob_properties` reports it, together with its bytes. */
  datatype Blob = Blob(content: seq<byte>, metadata: map<string, string>, tier: string, archiveStatus: Option<string>)

  /** The archive status of a blob whose rehydration to `target` is under way. */
  function PendingStatus(target: string): string
  {
    "rehydrate-pending-to-" + Lower(target)
  }

  /** The remote calls that change or transfer a blob. */
  datatype Call =
    | DeleteCall(name: string)
    | UploadCall(name: string, tier: string, md5: string)
    | DownloadCall(name: string)
    | SetTierCall(name: string, tier: string, priority: string)

  /** The error code a tier change is refused with, if any. */
  function SetTierError(blobs: map<string, Blob>, faults: map<string, string>, name: string): Option<string>
  {
    if name !in blobs then Some("BlobNotFound")
    else if name in faults then Some(faults[name])
    else if blobs[name].archiveStatus.Some? then Some("BlobBeingRehydrated")
    else None
  }

  /**
   * A blob after an accepted tier change: leaving the archive tier is asynchronous (the blob
   * stays archived with a pending status); every other change takes effect at once.
   */
  function Retiered(b: Blob, tier: StandardTier): Blob
  {
    if b.tier == "Archive" && tier != Archive then b.(archiveStatus := Some(PendingStatus(tier.Name())))
    else b.(tier := tier.Name())
  }

  /** The blobs after a tier change request. */
  function SetTierEffect(blobs: map<string, Blob>, faults: map<string, string>, name: string, tier: StandardTier): map<string, Blob>
  {
    if SetTierError(blobs, faults, name).None? then blobs[name := Retiered(blobs[name], tier)] else blobs
  }

  /** The blob `upload_blob` stores: the local content tagged with its checksum. */
  function Uploaded(content: seq<byte>, tier: StandardTier, md5: HexDigest): Blob
  {
    Blob(content, map["md5" := md5], tier.Name(), None)
  }

  /**
   * One container. `tierFaults` names the blobs whose tier change the service refuses with
   * a given error code (a transient failure, say).
   */
  class Container {
    var blobs: map<string, Blob>
    const tierFaults: map<string, string>
    var calls: seq<Call>

    constructor (blobs: map<string, Blob>, tierFaults: map<string, string>)
      ensures this.blobs == blobs && this.tierFaults == tierFaults && calls == []
    {
      this.blobs := blobs;
      this.tierFaults := tierFaults;
      calls := [];
    }

    /** `delete_blob`. */
    method Delete(name: string)
      modifies this
      ensures blobs == old(blobs) - {name}
      ensures calls == old(calls) + [DeleteCall(name)]
    {
      blobs := blobs - {name};
      calls := calls + [DeleteCall(name)];
    }

    /**
     * `upload_blob(data, standard_blob_tier = tier, metadata = {'md5': md5})`, with the SDK's
     * default `overwrite=False`: the request is sent, and the service refuses it with
     * ResourceExistsError when the name is already taken, changing nothing.
     */
    method Upload(name: string, content: seq<byte>, tier: StandardTier, md5: HexDigest) returns (err: Option<string>)
      modifies this
      ensures err == if name in old(blobs) then Some("ResourceExistsError") else None
      ensures blobs == if name in old(blobs) then old(blobs) else old(blobs)[name := Uploaded(content, tier, md5)]
      ensures calls == old(calls) + [UploadCall(name, tier.Name(), md5)]
    {
      if name in blobs {
        err := Some("ResourceExistsError");
      } else {
        err := None;
        blobs := blobs[name := Uploaded(content, tier, md5)];
      }
      calls := calls + [UploadCall(name, tier.Name(), md5)];
    }

    /** `download_blob().download_to_stream`: the blob's bytes, or None when it does not exist. */
    method Download(name: string) returns (data: Option<seq<byte>>)
      modifies this`calls
      ensures data == if name in blobs then Some(blobs[name].content) else None
      ensures calls == old(calls) + [DownloadCall(name)]
    {
      data := if name in blobs then Some(blobs[name].content) else None;
      calls := calls + [DownloadCall(name)];
    }

    /** `set_standard_blob_tier(tier, rehydrate_priority = priority)`: the error code, if refused. */
    method SetTier(name: string, tier: StandardTier, priority: Priority) returns (err: Option<string>)
      modifies this
      ensures err == SetTierError(old(blobs), tierFaults, name)
      ensures blobs == SetTierEffect(old(blobs), tierFaults, name, tier)
      ensures calls == old(calls) + [SetTierCall(name, tier.Name(), priority.Name())]
    {
      err := SetTierError(blobs, tierFaults, name);
      if err.None? {
        blobs := blobs[name := Retiered(blobs[name], tier)];
      }
      calls := calls + [SetTierCall(name, tier.Name(), priority.Name())];
    }
  }

  /** The local file system: regular files by path. */
  class LocalFs {
    var files: map<string, seq<byte>>

    constructor (files: map<string, seq<byte>>)
      ensures this.files == files
    {
      this.files := files;
    }

    /** `open(path, 'wb')` followed by writing `data`. */
    method Write(path: string, data: seq<byte>)
      modifies this
      ensures files == old(files)[path := data]
    {
      files := files[path := data];
    }
  }
}
