/**
 * azure_client/md5summer.py: a persistent checksum cache. The cache file holds lines
 * `"<md5> <path>"`; the constructor reads them into a dictionary and records the file's
 * modification time once; `get_md5sum` answers from the dictionary or computes the digest
 * and appends a line to the file.
 */
module Md5Summer {
  import opened Wrappers
  import opened Checksum
  import opened PyStr

  /**
   * One line of the cache file as the constructor reads it: `d = line.strip().split()` and
   * then `md5sums[d[1]] = d[0]`; None where `d[1]` raises IndexError (fewer than two words).
   */
  function ParseLine(line: string): (entry: Option<(string, string)>)
    ensures entry.Some? <==> |Words(line)| >= 2
    ensures entry.Some? ==> entry.value.0 == Words(line)[1] && entry.value.1 == Words(line)[0]
  {
    var d := Words(line);
    if |d| < 2 then None else Some((d[1], d[0]))
  }

  /**
   * The dictionary built from `lines`, in order; None if some line raises. Keys and digests
   * are single words, so a path containing whitespace can never be a key.
   */
  function ParseCache(lines: seq<string>): (sums: Option<map<string, string>>)
    ensures sums.Some? ==> forall p :: p in sums.value ==> IsWord(p) && IsWord(sums.value[p])
    decreases |lines|
  {
    if lines == [] then Some(map[])
    else
      var init := ParseCache(lines[..|lines| - 1]);
      var last := ParseLine(lines[|lines| - 1]);
      if init.None? || last.None? then None
      else Some(init.value[last.value.0 := last.value.1])
  }

  /** A line with fewer than two words (a blank line, say) makes reading the whole file fail. */
  lemma {:induction false} MalformedLineFails(lines: seq<string>, k: nat)
    requires k < |lines| && |Words(lines[k])| < 2
    ensures ParseCache(lines) == None
    decreases |lines|
  {
    if k < |lines| - 1 {
      MalformedLineFails(lines[..|lines| - 1], k);
    }
  }

  /** Whether a cache line records a checksum for `path`. */
  predicate Names(line: string, path: string)
  {
    |Words(line)| >= 2 && Words(line)[1] == path
  }

  /** Every line of a cleanly read file has at least two words. */
  lemma {:induction false} CleanLinesHaveTwoWords(lines: seq<string>)
    requires ParseCache(lines).Some?
    ensures forall k :: 0 <= k < |lines| ==> |Words(lines[k])| >= 2
    decreases |lines|
  {
    if lines != [] {
      var n := |lines| - 1;
      CleanLinesHaveTwoWords(lines[..n]);
      assert forall k :: 0 <= k < n ==> lines[..n][k] == lines[k];
    }
  }

  /** A path has an entry exactly when some line names it. */
  lemma {:induction false} KeyedIffNamed(lines: seq<string>, path: string)
    requires ParseCache(lines).Some?
    ensures path in ParseCache(lines).value <==> exists k :: 0 <= k < |lines| && Names(lines[k], path)
    decreases |lines|
  {
    if lines != [] {
      var n := |lines| - 1;
      var init := lines[..n];
      KeyedIffNamed(init, path);
      var entry := ParseLine(lines[n]).value;
      assert ParseCache(lines).value == ParseCache(init).value[entry.0 := entry.1];
      if path in ParseCache(init).value {
        var k :| 0 <= k < n && Names(init[k], path);
        assert init[k] == lines[k];
      }
      if exists k :: 0 <= k < |lines| && Names(lines[k], path) {
        var k :| 0 <= k < |lines| && Names(lines[k], path);
        if k < n {
          assert init[k] == lines[k];
        }
      }
    }
  }

  /**
   * The entry for a path comes from the last line that names it: a later line for the same
   * path overrides an earlier one.
   */
  lemma LastLineWins(lines: seq<string>, path: string)
    requires ParseCache(lines).Some?
    ensures forall k :: 0 <= k < |lines| && Names(lines[k], path) &&
                        (forall j :: k < j < |lines| ==> !Names(lines[j], path)) ==>
      path in ParseCache(lines).value && ParseCache(lines).value[path] == Words(lines[k])[0]
  {
    forall k | 0 <= k < |lines| && Names(lines[k], path) && (forall j :: k < j < |lines| ==> !Names(lines[j], path))
      ensures path in ParseCache(lines).value && ParseCache(lines).value[path] == Words(lines[k])[0]
    {
      LastNamingLine(lines, path, k);
    }
  }

  /** The entry read for `path` when line `k` is the last to name it. */
  lemma {:induction false} LastNamingLine(lines: seq<string>, path: string, k: nat)
    requires ParseCache(lines).Some? && k < |lines| && Names(lines[k], path)
    requires forall j :: k < j < |lines| ==> !Names(lines[j], path)
    ensures path in ParseCache(lines).value && ParseCache(lines).value[path] == Words(lines[k])[0]
    decreases |lines|
  {
    var n := |lines| - 1;
    var init := lines[..n];
    var entry := ParseLine(lines[n]).value;
    assert ParseCache(lines).value == ParseCache(init).value[entry.0 := entry.1];
    if k < n {
      assert !Names(lines[n], path);
      assert init[k] == lines[k];
      assert forall j :: k < j < n ==> init[j] == lines[j];
      LastNamingLine(init, path, k);
    }
  }

  /** `s` holds neither '\n' nor '\r', so a text-mode read keeps it inside one line. */
  predicate NoLineBreak(s: string)
  {
    forall k :: 0 <= k < |s| ==> s[k] != '\n' && s[k] != '\r'
  }

  /** The line `get_md5sum` appends for a newly computed digest. */
  function CacheLine(digest: HexDigest, filename: string): string
  {
    digest + " " + filename + "\n"
  }

  /**
   * Parsed as one line, an appended line keys the digest by the first word of the file name:
   * the whole name when it has no whitespace, only its first fragment when it contains
   * spaces, and a name made only of whitespace makes the line unreadable.
   */
  lemma CacheLineReadsBack(digest: HexDigest, filename: string)
    ensures ParseLine(CacheLine(digest, filename)) ==
      if Words(filename) == [] then None else Some((Words(filename)[0], digest))
  {
    assert IsWord(digest);
    var rest := filename + "\n";
    assert CacheLine(digest, filename) == digest + [' '] + rest;
    WordsCons(digest, ' ', rest);
    WordsTrailingSpace(filename, '\n');
  }

  /** A file name with no whitespace is read back whole. */
  lemma PlainNameReadsBack(digest: HexDigest, filename: string)
    requires IsWord(filename)
    ensures ParseLine(CacheLine(digest, filename)) == Some((filename, digest))
  {
    CacheLineReadsBack(digest, filename);
    WordsTrailingSpace(filename, ' ');
    assert filename + [' '] + [] == filename + [' '];
    WordsCons(filename, ' ', []);
  }

  /** Parsed as one line, the line for a file name `first + " " + more` is keyed by `first`. */
  lemma SpacedNameKeyedByFirstFragment(digest: HexDigest, first: string, more: string)
    requires IsWord(first)
    ensures ParseLine(CacheLine(digest, first + " " + more)) == Some((first, digest))
  {
    CacheLineReadsBack(digest, first + " " + more);
    assert first + " " + more == first + [' '] + more;
    WordsCons(first, ' ', more);
  }

  /**
   * What one process appends, the next one reads: if the cache file reads cleanly and ends
   * in a newline (or is empty), appending the line for a file name without a line break gives
   * a file that reads as the old dictionary updated with the name's first word as key, or
   * fails to read when the name is only whitespace.
   */
  lemma AppendedLinePersists(text: string, digest: HexDigest, filename: string)
    requires ParseCache(ReadLines(text)).Some?
    requires text == [] || text[|text| - 1] == '\n'
    requires NoLineBreak(filename)
    ensures ParseCache(ReadLines(text + CacheLine(digest, filename))) ==
      if Words(filename) == [] then None
      else Some(ParseCache(ReadLines(text)).value[Words(filename)[0] := digest])
  {
    var line := CacheLine(digest, filename);
    CacheLineIsOneLine(digest, filename);
    NewlinesAppend(text, line);
    if text != [] {
      NewlinesLast(text);
    }
    LinesAppend(Newlines(text), line);
    assert ReadLines(text + line) == ReadLines(text) + [line];
    CacheLineReadsBack(digest, filename);
    ParseCacheSnoc(ReadLines(text), line);
  }

  /** Appending the line for a file name without whitespace adds exactly that entry. */
  lemma AppendedEntryPersists(text: string, digest: HexDigest, filename: string)
    requires ParseCache(ReadLines(text)).Some?
    requires text == [] || text[|text| - 1] == '\n'
    requires IsWord(filename)
    ensures ParseCache(ReadLines(text + CacheLine(digest, filename))) ==
      Some(ParseCache(ReadLines(text)).value[filename := digest])
  {
    AppendedLinePersists(text, digest, filename);
    CacheLineReadsBack(digest, filename);
    PlainNameReadsBack(digest, filename);
  }

  /**
   * Appending the line for a file name `first + " " + more` (no line break in `more`) gives a
   * file that reads with the digest keyed by `first` alone, so a later lookup of the whole
   * name misses.
   */
  lemma SpacedEntryPersists(text: string, digest: HexDigest, first: string, more: string)
    requires ParseCache(ReadLines(text)).Some?
    requires text == [] || text[|text| - 1] == '\n'
    requires IsWord(first) && NoLineBreak(more)
    ensures ParseCache(ReadLines(text + CacheLine(digest, first + " " + more))) ==
      Some(ParseCache(ReadLines(text)).value[first := digest])
  {
    var filename := first + " " + more;
    forall k | 0 <= k < |filename|
      ensures filename[k] != '\n' && filename[k] != '\r'
    {
      if k < |first| {
        assert filename[k] == first[k];
      } else if k > |first| {
        assert filename[k] == more[k - |first| - 1];
      }
    }
    AppendedLinePersists(text, digest, filename);
    CacheLineReadsBack(digest, filename);
    SpacedNameKeyedByFirstFragment(digest, first, more);
  }

  /**
   * A file name holding a line break splits its entry in two when read back: the name
   * `"a\nb"` gives the lines `digest + " a\n"` and `"b\n"`, and the second has one word, so
   * the next constructor raises IndexError.
   */
  lemma LineBreakNameSplits(text: string, digest: HexDigest)
    requires text == [] || text[|text| - 1] == '\n'
    ensures ReadLines(text + CacheLine(digest, "a\nb")) == ReadLines(text) + [digest + " a\n", "b\n"]
    ensures ParseCache(ReadLines(text + CacheLine(digest, "a\nb"))) == None
  {
    BrokenNameReadLines(text, digest);
    var lines := ReadLines(text) + [digest + " a\n", "b\n"];
    WordsCons("b", '\n', []);
    assert "b\n" == "b" + ['\n'] + [];
    assert lines[|lines| - 1] == "b\n";
    MalformedLineFails(lines, |lines| - 1);
  }

  /** The lines read back after appending the line for the name `"a\nb"`. */
  lemma BrokenNameReadLines(text: string, digest: HexDigest)
    requires text == [] || text[|text| - 1] == '\n'
    ensures ReadLines(text + CacheLine(digest, "a\nb")) == ReadLines(text) + [digest + " a\n", "b\n"]
  {
    var line := CacheLine(digest, "a\nb");
    BrokenLineIsTwoLines(digest);
    NewlinesAppend(text, line);
    if text != [] {
      NewlinesLast(text);
    }
    LinesAppend(Newlines(text), line);
  }

  /** The line appended for the name `"a\nb"` is delivered as written, as two lines. */
  lemma BrokenLineIsTwoLines(digest: HexDigest)
    ensures Newlines(CacheLine(digest, "a\nb")) == CacheLine(digest, "a\nb")
    ensures Lines(CacheLine(digest, "a\nb")) == [digest + " a\n", "b\n"]
  {
    var line, first, second := CacheLine(digest, "a\nb"), digest + " a\n", "b\n";
    assert line == first + second;
    forall k | 0 <= k < |line|
      ensures line[k] != '\r'
    {
      if k < 32 {
        assert line[k] == digest[k];
      }
    }
    NewlinesNoReturn(line);
    forall k | 0 <= k < |first| - 1
      ensures first[k] != '\n'
    {
      if k < 32 {
        assert first[k] == digest[k];
      }
    }
    LinesOfOneLine(first);
    LinesOfOneLine(second);
    LinesAppend(first, second);
  }

  /** Reading one more line updates the dictionary with that line's entry. */
  lemma ParseCacheSnoc(lines: seq<string>, line: string)
    ensures ParseCache(lines + [line]) ==
      if ParseCache(lines).None? || ParseLine(line).None? then None
      else Some(ParseCache(lines).value[ParseLine(line).value.0 := ParseLine(line).value.1])
  {
    assert (lines + [line])[..|lines|] == lines;
  }

  /** The appended line is delivered as written, as a single line, when the file name has no line break. */
  lemma CacheLineIsOneLine(digest: HexDigest, filename: string)
    requires NoLineBreak(filename)
    ensures Newlines(CacheLine(digest, filename)) == CacheLine(digest, filename)
    ensures Lines(CacheLine(digest, filename)) == [CacheLine(digest, filename)]
  {
    var line := CacheLine(digest, filename);
    forall k | 0 <= k < |line|
      ensures line[k] != '\r' && (k < |line| - 1 ==> line[k] != '\n')
    {
      if k < 32 {
        assert line[k] == digest[k];
      } else if 32 < k < |line| - 1 {
        assert line[k] == filename[k - 33];
      }
    }
    NewlinesNoReturn(line);
    LinesOfOneLine(line);
  }

  /** The cache file on disk: its text and modification time. */
  datatype CacheFile = CacheFile(text: string, mtime: int)

  /** What `get_md5sum` returns for a file with the given content and modification time. */
  function CachedAnswer(md5sums: map<string, string>, md5sumMdate: int, filename: string, content: seq<byte>, mtime: int): (r: Option<string>)
    ensures filename in md5sums && md5sumMdate > mtime ==> r == Some(md5sums[filename])
    ensures filename in md5sums && md5sumMdate <= mtime ==> r == None
    ensures filename !in md5sums ==> r == Some(Md5(content))
  {
    if filename in md5sums then
      if md5sumMdate > mtime then Some(md5sums[filename]) else None
    else Some(Md5(content))
  }

  /** What `get_md5sum` appends to the cache file: a line only for a path not in the dictionary. */
  function CacheAppend(md5sums: map<string, string>, filename: string, content: seq<byte>): (appended: string)
    ensures filename in md5sums ==> appended == []
    ensures filename !in md5sums ==> appended == CacheLine(Md5(content), filename)
  {
    if filename in md5sums then [] else CacheLine(Md5(content), filename)
  }

  class Md5Summer {
    const md5sumFile: string
    /** Read once by the constructor and never changed afterwards. */
    const md5sums: map<string, string>
    /** The cache file's modification time when the object was made; never refreshed. */
    const md5sumMdate: int
    /** The text of the cache file, which this object alone appends to. */
    var cacheText: string

    constructor (md5sumFile: string, md5sums: map<string, string>, md5sumMdate: int, cacheText: string)
      ensures this.md5sumFile == md5sumFile && this.md5sums == md5sums
      ensures this.md5sumMdate == md5sumMdate && this.cacheText == cacheText
    {
      this.md5sumFile := md5sumFile;
      this.md5sums := md5sums;
      this.md5sumMdate := md5sumMdate;
      this.cacheText := cacheText;
    }

    /**
     * `md5summer(md5sum_file)`: create the cache file empty (at time `now`) when it does not
     * exist, record its modification time, then read it line by line (in text mode, so with
     * universal newlines) into the dictionary. None stands for the IndexError a line with
     * fewer than two words raises.
     */
    static method Open(md5sumFile: string, onDisk: Option<CacheFile>, now: int) returns (s: Option<Md5Summer>)
      ensures var text := if onDisk.Some? then onDisk.value.text else "";
        var mdate := if onDisk.Some? then onDisk.value.mtime else now;
        var parsed := ParseCache(ReadLines(text));
        (s.Some? <==> parsed.Some?) &&
        (s.Some? ==> fresh(s.value) && s.value.md5sumFile == md5sumFile && s.value.md5sums == parsed.value &&
                     s.value.md5sumMdate == mdate && s.value.cacheText == text)
    {
      var text, mdate := "", now;  // a missing file is created empty
      if onDisk.Some? {
        text, mdate := onDisk.value.text, onDisk.value.mtime;
      }
      var lines := ReadLines(text);
      var sums: map<string, string> := map[];
      var i := 0;
      while i < |lines|
        invariant 0 <= i <= |lines|
        invariant ParseCache(lines[..i]) == Some(sums)
      {
        assert lines[..i + 1][..i] == lines[..i];
        var d := Words(lines[i]);
        if |d| < 2 {
          MalformedLineFails(lines, i);
          return None;
        }
        sums := sums[d[1] := d[0]];
        i := i + 1;
      }
      assert lines[..i] == lines;
      var summer := new Md5Summer(md5sumFile, sums, mdate, text);
      s := Some(summer);
    }

    /**
     * `get_md5sum(filename)` for a file holding `content`, last modified at `mtime`. A cached
     * entry is returned only while the cache file's recorded time is strictly later; a stale
     * entry yields None with nothing computed or appended. An unknown path is hashed and its
     * line appended, and since the dictionary is never updated, asking again appends again.
     */
    method GetMd5sum(filename: string, content: seq<byte>, mtime: int) returns (r: Option<string>)
      modifies this`cacheText
      ensures r == CachedAnswer(md5sums, md5sumMdate, filename, content, mtime)
      ensures cacheText == old(cacheText) + CacheAppend(md5sums, filename, content)
    {
      if filename in md5sums {
        if md5sumMdate > mtime {
          return Some(md5sums[filename]);
        }
        return None;  // a stale entry falls through both branches
      } else {
        var digest, _ := FileMd5(content);
        cacheText := cacheText + CacheLine(digest, filename);
        return Some(digest);
      }
    }
  }
}
