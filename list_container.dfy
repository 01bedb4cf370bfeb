/**
 * list_container.py: list every blob of an existing container with its tier and size, long
 * names shortened, followed by a totals row.
 */
module ListContainer {
  import opened Wrappers
  import opened AzureClient

  /** One entry of `get_blob_list_information`: name, tier and size in bytes. */
  datatype BlobInfo = BlobInfo(name: string, tier: string, size: nat)

  /** A table row. The size column holds the byte count that `human_readable` formats. */
  datatype Row = Row(filename: string, tier: string, size: nat)

  /** The longest name shown in full. */
  const MaxShown: nat := 75

  /** `'.../' + fn[-75:]` for a name longer than 75 characters, the name itself otherwise. */
  function DisplayName(fn: string): (shown: string)
    ensures |fn| <= MaxShown ==> shown == fn
    ensures |fn| > MaxShown ==> |shown| == MaxShown + 4 && shown[..4] == ".../"
    ensures |shown| <= MaxShown + 4
    ensures var tail := if |fn| < MaxShown then |fn| else MaxShown; shown[|shown| - tail..] == fn[|fn| - tail..]
  {
    if |fn| > MaxShown then ".../" + fn[|fn| - MaxShown..] else fn
  }

  /** The sizes of the listed blobs added up in listing order. */
  function SumSizes(listing: seq<BlobInfo>): nat
  {
    if listing == [] then 0 else SumSizes(listing[..|listing| - 1]) + listing[|listing| - 1].size
  }

  /** Every blob's size is at most the total. */
  lemma {:induction false} SizeAtMostTotal(listing: seq<BlobInfo>, k: nat)
    requires k < |listing|
    ensures listing[k].size <= SumSizes(listing)
    decreases |listing|
  {
    if k < |listing| - 1 {
      var init := listing[..|listing| - 1];
      assert init[k] == listing[k];
      SizeAtMostTotal(init, k);
    }
  }

  /** The total of two listings one after the other is the sum of their totals. */
  lemma {:induction false} SumSizesAppend(a: seq<BlobInfo>, b: seq<BlobInfo>)
    ensures SumSizes(a + b) == SumSizes(a) + SumSizes(b)
    decreases |b|
  {
    if b == [] {
      assert a + b == a;
    } else {
      var n := |b| - 1;
      assert (a + b)[..|a + b| - 1] == a + b[..n];
      assert (a + b)[|a + b| - 1] == b[n];
      SumSizesAppend(a, b[..n]);
    }
  }

  /** The order of the listing does not change the total: any permutation has the same total. */
  lemma {:induction false} SumSizesPermutation(a: seq<BlobInfo>, b: seq<BlobInfo>)
    requires multiset(a) == multiset(b)
    ensures SumSizes(a) == SumSizes(b)
    decreases |b|
  {
    if b == [] {
      assert |a| == |multiset(a)| == 0;
    } else {
      var n := |b| - 1;
      assert b[n] in multiset(a);
      var i :| 0 <= i < |a| && a[i] == b[n];
      RemoveMatching(a, b, i);
      SumSizesPermutation(a[..i] + a[i + 1..], b[..n]);
      SumSizesRemove(a, i);
    }
  }

  /** Taking the last element of `b` out of both sides of a permutation leaves a permutation. */
  lemma RemoveMatching(a: seq<BlobInfo>, b: seq<BlobInfo>, i: nat)
    requires multiset(a) == multiset(b) && b != [] && i < |a| && a[i] == b[|b| - 1]
    ensures multiset(a[..i] + a[i + 1..]) == multiset(b[..|b| - 1])
  {
    var x, rest, init := a[i], a[..i] + a[i + 1..], b[..|b| - 1];
    assert a == a[..i] + [x] + a[i + 1..];
    assert b == init + [x];
    assert multiset(rest) + multiset{x} == multiset(init) + multiset{x};
    assert multiset(rest) == multiset(rest) + multiset{x} - multiset{x};
    assert multiset(init) == multiset(init) + multiset{x} - multiset{x};
  }

  /** The total is the size of any one blob plus the total of the others. */
  lemma {:induction false} SumSizesRemove(a: seq<BlobInfo>, i: nat)
    requires i < |a|
    ensures SumSizes(a) == SumSizes(a[..i] + a[i + 1..]) + a[i].size
    decreases |a|
  {
    var n := |a| - 1;
    if i == n {
      assert a[..i] + a[i + 1..] == a[..n];
    } else {
      var rest := a[..i] + a[i + 1..];
      SumSizesRemove(a[..n], i);
      assert a[..n][..i] + a[..n][i + 1..] == rest[..|rest| - 1];
      assert rest[|rest| - 1] == a[n];
    }
  }

  /** The row the loop appends for one blob. */
  function RowOf(b: BlobInfo): Row
  {
    Row(DisplayName(b.name), b.tier, b.size)
  }

  /** The listing loop: one row per blob in listing order, and the running total of the sizes. */
  method Tabulate(listing: seq<BlobInfo>) returns (rows: seq<Row>, totalSize: nat)
    ensures |rows| == |listing|
    ensures forall k :: 0 <= k < |listing| ==> rows[k] == RowOf(listing[k])
    ensures totalSize == SumSizes(listing)
  {
    totalSize := 0;
    rows := [];
    for i := 0 to |listing|
      invariant totalSize == SumSizes(listing[..i])
      invariant |rows| == i
      invariant forall k :: 0 <= k < i ==> rows[k] == RowOf(listing[k])
    {
      assert listing[..i + 1][..i] == listing[..i];
      var entry := listing[i];
      totalSize := totalSize + entry.size;
      rows := rows + [RowOf(entry)];
    }
    assert listing[..|listing|] == listing;
  }

  /**
   * The script: a usage error exits 1; a container that does not exist exits 1 (it is opened
   * without being created); otherwise one row per blob in listing order, then the totals row.
   * `argv` includes the program name; `existing` lists the account's containers.
   */
  method ListContainer(argv: seq<string>, existing: seq<string>, listing: seq<BlobInfo>) returns (exitCode: int, table: seq<Row>)
    ensures |argv| != 2 || argv[1] !in existing ==> exitCode == 1 && table == []
    ensures |argv| == 2 && argv[1] in existing ==>
      exitCode == 0 && |table| == |listing| + 1 &&
      (forall k :: 0 <= k < |listing| ==> table[k] == RowOf(listing[k])) &&
      table[|listing|] == Row("TOTALS", "NA", SumSizes(listing))
  {
    if |argv| != 2 {
      return 1, [];
    }
    var connected := ConnectContainer(existing, argv[1], false, None);
    if connected.Exited? {
      return connected.code, [];
    }
    var rows, totalSize := Tabulate(listing);
    table := rows + [Row("TOTALS", "NA", totalSize)];
    exitCode := 0;
  }
}
