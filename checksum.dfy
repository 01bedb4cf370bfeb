/**
 * Content checksums: MD5 as an uninterpreted function on bytes, and the chunked reading loop
 * (`get_md5sum` in azure_client/azure_client.py, repeated inline in azure_client/md5summer.py)
 * that feeds a file to the hash object.
 */
module Checksum {
  import opened Wrappers

  newtype byte = x: int | 0 <= x < 256

  /** What `hexdigest()` returns: 32 lower-case hexadecimal digits. */
  type HexDigest = s: string | |s| == 32 && forall k :: 0 <= k < |s| ==> s[k] in "0123456789abcdef"
    witness "00000000000000000000000000000000"

  /**
   * MD5 of a byte string, rendered as hex. Nothing about the algorithm is modelled: equal inputs
   * give equal digests, and no claim is made that different inputs give different ones.
   */
  const Md5: seq<byte> -> HexDigest

  /** The size of each `fp.read` request. */
  const ChunkSize: nat := 8192

  /** `fp.read(n)` on a regular binary file whose read position is `pos`. */
  function Read(content: seq<byte>, pos: nat, n: nat): (chunk: seq<byte>)
    requires pos <= |content|
    ensures |chunk| == if pos + n <= |content| then n else |content| - pos
    ensures chunk == content[pos..pos + |chunk|]
  {
    if pos + n <= |content| then content[pos..pos + n] else content[pos..]
  }

  /**
   * `get_md5sum`: read the file in chunks of at most ChunkSize bytes until a read comes back
   * empty, feeding each chunk to the hash in order. `updates` lists the arguments of the
   * successive `update` calls: they are non-empty, all but the last are full chunks, and
   * together they are exactly the file, so the digest is the MD5 of the whole content.
   */
  method FileMd5(content: seq<byte>) returns (digest: HexDigest, updates: seq<seq<byte>>)
    ensures Flatten(updates) == content
    ensures forall k :: 0 <= k < |updates| ==> 0 < |updates[k]| <= ChunkSize
    ensures forall k :: 0 <= k < |updates| - 1 ==> |updates[k]| == ChunkSize
    ensures digest == Md5(content)
  {
    var fed: seq<byte> := [];  // everything the hash object has been updated with
    updates := [];
    var pos: nat := 0;
    var chunk := Read(content, pos, ChunkSize);
    while chunk != []
      invariant pos <= |content|
      invariant chunk == Read(content, pos, ChunkSize)
      invariant fed == Flatten(updates) == content[..pos]
      invariant forall k :: 0 <= k < |updates| ==> 0 < |updates[k]| <= ChunkSize
      invariant forall k :: 0 <= k < |updates| - 1 ==> |updates[k]| == ChunkSize
      invariant updates != [] && |updates[|updates| - 1]| < ChunkSize ==> pos == |content|
      decreases |content| - pos
    {
      FlattenSnoc(updates, chunk);
      assert content[..pos + |chunk|] == content[..pos] + chunk;
      fed := fed + chunk;
      updates := updates + [chunk];
      pos := pos + |chunk|;
      chunk := Read(content, pos, ChunkSize);
    }
    assert content[..pos] == content;
    digest := Md5(fed);
  }
}
