/**
 * The Python string operations the scripts rely on, with Python's own semantics:
 * `str.find`, `str.split(sep)` and its last piece, `str.split()` on whitespace,
 * `readlines()` and ASCII `str.lower()`.
 */
module PyStr {
  import opened Wrappers

  /** `sep` occurs in `x` starting at index `i`. */
  predicate OccursAt(x: string, sep: string, i: nat)
  {
    i + |sep| <= |x| && x[i..i + |sep|] == sep
  }

  /** `sep in x`, which Python answers as `x.find(sep) != -1`. */
  predicate Contains(x: string, sep: string)
  {
    FindFrom(x, sep, 0).Some?
  }

  predicate IsSuffix(s: string, x: string)
  {
    |s| <= |x| && x[|x| - |s|..] == s
  }

  lemma SuffixTransitive(a: string, b: string, c: string)
    requires IsSuffix(a, b) && IsSuffix(b, c)
    ensures IsSuffix(a, c)
  {
    assert c[|c| - |a|..] == c[|c| - |b|..][|b| - |a|..];
  }

  /** `x.find(sep, start)`: the leftmost occurrence of `sep` at or after `start`. */
  function FindFrom(x: string, sep: string, start: nat): (r: Option<nat>)
    ensures r.Some? ==> start <= r.value && OccursAt(x, sep, r.value)
    decreases |x| - start
  {
    if start + |sep| > |x| then None
    else if x[start..start + |sep|] == sep then Some(start)
    else FindFrom(x, sep, start + 1)
  }

  /** `find` returns the leftmost occurrence: there is none between `start` and the result. */
  lemma {:induction false} NoEarlierOccurrence(x: string, sep: string, start: nat, j: nat)
    requires start <= j
    requires FindFrom(x, sep, start).None? || j < FindFrom(x, sep, start).value
    ensures !OccursAt(x, sep, j)
    decreases j - start
  {
    if start + |sep| <= |x| && x[start..start + |sep|] != sep && start < j {
      NoEarlierOccurrence(x, sep, start + 1, j);
    }
  }

  /**
   * `x[from..].split(sep)` for a non-empty separator (Python raises ValueError on an empty one):
   * scan left to right for the next occurrence, cut, and resume after it.
   */
  function SplitFrom(x: string, sep: string, from: nat): (pieces: seq<string>)
    requires sep != [] && from <= |x|
    ensures |pieces| >= 1
    decreases |x| - from
  {
    match FindFrom(x, sep, from)
    case None => [x[from..]]
    case Some(i) => [x[from..i]] + SplitFrom(x, sep, i + |sep|)
  }

  /** `x.split(sep)`. */
  function Split(x: string, sep: string): (pieces: seq<string>)
    requires sep != []
    ensures |pieces| >= 1
  {
    SplitFrom(x, sep, 0)
  }

  /**
   * `p` is the piece of a split on `sep` that starts at `start`: it runs up to the leftmost
   * occurrence of `sep` at or after `start`, or to the end of `x` when there is none.
   */
  predicate IsPieceAt(x: string, sep: string, start: nat, p: string)
  {
    start + |p| <= |x| && x[start..start + |p|] == p &&
    (start + |p| == |x| || OccursAt(x, sep, start + |p|)) &&
    forall j :: start <= j < start + |p| ==> !OccursAt(x, sep, j)
  }

  /**
   * The scan cuts at the leftmost occurrence: the first piece of `x[from..].split(sep)` is the
   * piece starting at `from`, and the second, when there is one, starts right after that
   * occurrence of `sep`.
   */
  lemma SplitFromPieces(x: string, sep: string, from: nat)
    requires sep != [] && from <= |x|
    ensures IsPieceAt(x, sep, from, SplitFrom(x, sep, from)[0])
    ensures FindFrom(x, sep, from).Some? ==> from + |SplitFrom(x, sep, from)[0]| == FindFrom(x, sep, from).value
    ensures |SplitFrom(x, sep, from)| >= 2 <==> FindFrom(x, sep, from).Some?
    ensures |SplitFrom(x, sep, from)| >= 2 ==>
      var next := from + |SplitFrom(x, sep, from)[0]| + |sep|;
      next <= |x| && SplitFrom(x, sep, from)[1] == SplitFrom(x, sep, next)[0]
  {
    var p := SplitFrom(x, sep, from)[0];
    forall j | from <= j < from + |p|
      ensures !OccursAt(x, sep, j)
    {
      NoEarlierOccurrence(x, sep, from, j);
    }
  }

  /** `x.split(sep)[0]` is `x` up to the leftmost occurrence of `sep`, or all of `x`. */
  lemma SplitFirstPiece(x: string, sep: string)
    requires sep != []
    ensures IsPieceAt(x, sep, 0, Split(x, sep)[0])
    ensures Contains(x, sep) ==> |Split(x, sep)[0]| == FindFrom(x, sep, 0).value
  {
    SplitFromPieces(x, sep, 0);
  }

  /** `x.split(sep)[1]` is the piece after the leftmost occurrence of `sep`. */
  lemma SplitSecondPiece(x: string, sep: string)
    requires sep != [] && Contains(x, sep)
    ensures |Split(x, sep)| >= 2
    ensures IsPieceAt(x, sep, FindFrom(x, sep, 0).value + |sep|, Split(x, sep)[1])
  {
    SplitFromPieces(x, sep, 0);
    SplitFromPieces(x, sep, FindFrom(x, sep, 0).value + |sep|);
  }

  /** `sep.join(pieces)`. */
  function Join(pieces: seq<string>, sep: string): string
  {
    if pieces == [] then ""
    else if |pieces| == 1 then pieces[0]
    else pieces[0] + sep + Join(pieces[1..], sep)
  }

  lemma JoinCons(p: string, tail: seq<string>, sep: string)
    requires tail != []
    ensures Join([p] + tail, sep) == p + sep + Join(tail, sep)
  {
    assert ([p] + tail)[1..] == tail;
  }

  /** An occurrence inside `x[lo..hi]` is an occurrence in `x`, shifted by `lo`. */
  lemma OccursInSlice(x: string, sep: string, lo: nat, hi: nat, j: nat)
    requires lo <= hi <= |x| && OccursAt(x[lo..hi], sep, j)
    ensures lo + j + |sep| <= hi && OccursAt(x, sep, lo + j)
  {
    var y := x[lo..hi];
    assert j + |sep| <= |y|;
    forall t | j <= t < j + |sep|
      ensures y[t] == x[lo + t]
    {
    }
    assert y[j..j + |sep|] == x[lo + j..lo + j + |sep|];
  }

  /**
   * A slice that ends before the first occurrence found from its start (or where there is
   * none) does not contain the separator.
   */
  lemma SliceFree(x: string, sep: string, lo: nat, hi: nat)
    requires sep != [] && lo <= hi <= |x|
    requires FindFrom(x, sep, lo).None? || hi <= FindFrom(x, sep, lo).value
    ensures !Contains(x[lo..hi], sep)
  {
    var g := FindFrom(x[lo..hi], sep, 0);
    if g.Some? {
      OccursInSlice(x, sep, lo, hi, g.value);
      NoEarlierOccurrence(x, sep, lo, lo + g.value);
    }
  }

  /** Cutting `x[from..]` around an occurrence of `sep` at `i`. */
  lemma CutAt(x: string, sep: string, from: nat, i: nat)
    requires from <= i && OccursAt(x, sep, i)
    ensures x[from..] == x[from..i] + sep + x[i + |sep|..]
  {
    assert x[from..] == x[from..i] + x[i..i + |sep|] + x[i + |sep|..];
  }

  /** Splitting and re-joining on the same separator gives back the original text. */
  lemma {:induction false} JoinSplitFrom(x: string, sep: string, from: nat)
    requires sep != [] && from <= |x|
    ensures Join(SplitFrom(x, sep, from), sep) == x[from..]
    decreases |x| - from
  {
    var found := FindFrom(x, sep, from);
    if found.Some? {
      JoinSplitFrom(x, sep, found.value + |sep|);
      JoinSplitStep(x, sep, from, found.value);
    }
  }

  /** The round trip from `from`, given the round trip after the next occurrence. */
  lemma JoinSplitStep(x: string, sep: string, from: nat, i: nat)
    requires sep != [] && from <= |x| && FindFrom(x, sep, from) == Some(i)
    requires Join(SplitFrom(x, sep, i + |sep|), sep) == x[i + |sep|..]
    ensures Join(SplitFrom(x, sep, from), sep) == x[from..]
  {
    var tail := SplitFrom(x, sep, i + |sep|);
    assert SplitFrom(x, sep, from) == [x[from..i]] + tail;
    JoinAround(x, sep, from, i, tail);
  }

  /** Joining the text before an occurrence with pieces that join to the text after it. */
  lemma JoinAround(x: string, sep: string, from: nat, i: nat, tail: seq<string>)
    requires from <= i && OccursAt(x, sep, i)
    requires tail != [] && Join(tail, sep) == x[i + |sep|..]
    ensures Join([x[from..i]] + tail, sep) == x[from..]
  {
    JoinCons(x[from..i], tail, sep);
    CutAt(x, sep, from, i);
  }

  lemma JoinSplit(x: string, sep: string)
    requires sep != []
    ensures Join(Split(x, sep), sep) == x
  {
    JoinSplitFrom(x, sep, 0);
  }

  /** No piece of `x.split(sep)` contains `sep`. */
  predicate PiecesFree(pieces: seq<string>, sep: string)
  {
    forall k :: 0 <= k < |pieces| ==> !Contains(pieces[k], sep)
  }

  lemma PiecesFreeCons(head: string, tail: seq<string>, sep: string)
    requires !Contains(head, sep) && PiecesFree(tail, sep)
    ensures PiecesFree([head] + tail, sep)
  {
    var pieces := [head] + tail;
    forall k | 0 <= k < |pieces|
      ensures !Contains(pieces[k], sep)
    {
      if k > 0 {
        assert pieces[k] == tail[k - 1];
      }
    }
  }

  /** With no occurrence left, the rest of the text is free of `sep`. */
  lemma RestFree(x: string, sep: string, from: nat)
    requires sep != [] && from <= |x| && FindFrom(x, sep, from).None?
    ensures !Contains(x[from..], sep)
  {
    SliceFree(x, sep, from, |x|);
    assert x[from..|x|] == x[from..];
  }

  lemma {:induction false} SplitFromPiecesFree(x: string, sep: string, from: nat)
    requires sep != [] && from <= |x|
    ensures PiecesFree(SplitFrom(x, sep, from), sep)
    decreases |x| - from
  {
    var found := FindFrom(x, sep, from);
    if found.None? {
      RestFree(x, sep, from);
    } else {
      var i := found.value;
      SliceFree(x, sep, from, i);
      SplitFromPiecesFree(x, sep, i + |sep|);
      PiecesFreeStep(x, sep, from, i);
    }
  }

  lemma PiecesFreeStep(x: string, sep: string, from: nat, i: nat)
    requires sep != [] && from <= |x| && FindFrom(x, sep, from) == Some(i)
    requires !Contains(x[from..i], sep) && PiecesFree(SplitFrom(x, sep, i + |sep|), sep)
    ensures PiecesFree(SplitFrom(x, sep, from), sep)
  {
    assert SplitFrom(x, sep, from) == [x[from..i]] + SplitFrom(x, sep, i + |sep|);
    PiecesFreeCons(x[from..i], SplitFrom(x, sep, i + |sep|), sep);
  }

  lemma SplitPiecesFree(x: string, sep: string)
    requires sep != []
    ensures forall k :: 0 <= k < |Split(x, sep)| ==> !Contains(Split(x, sep)[k], sep)
  {
    SplitFromPiecesFree(x, sep, 0);
    assert PiecesFree(Split(x, sep), sep);
  }

  /** `x.split(sep)` has a second piece exactly when `sep` occurs in `x`. */
  lemma SplitHasSecondPiece(x: string, sep: string)
    requires sep != []
    ensures |Split(x, sep)| >= 2 <==> Contains(x, sep)
  {
  }

  /** Where the last piece of `x[from..].split(sep)` starts. */
  function LastPieceStart(x: string, sep: string, from: nat): (k: nat)
    requires sep != [] && from <= |x|
    ensures from <= k <= |x|
    decreases |x| - from
  {
    var found := FindFrom(x, sep, from);
    if found.None? then from else LastPieceStart(x, sep, found.value + |sep|)
  }

  /** No occurrence is found from where the last piece starts. */
  lemma {:induction false} LastPieceHasNoSep(x: string, sep: string, from: nat)
    requires sep != [] && from <= |x|
    ensures FindFrom(x, sep, LastPieceStart(x, sep, from)).None?
    decreases |x| - from
  {
    var found := FindFrom(x, sep, from);
    if found.Some? {
      var j := found.value + |sep|;
      LastPieceHasNoSep(x, sep, j);
      assert LastPieceStart(x, sep, from) == LastPieceStart(x, sep, j);
    } else {
      assert LastPieceStart(x, sep, from) == from;
    }
  }

  /** `k` is where a scan started at `from`, or right after an occurrence of `sep`. */
  predicate FollowsSep(x: string, sep: string, from: nat, k: nat)
  {
    k == from || (from + |sep| <= k && OccursAt(x, sep, k - |sep|))
  }

  /** The last piece starts where the scan started, or right after an occurrence. */
  lemma {:induction false} LastPieceFollowsSep(x: string, sep: string, from: nat)
    requires sep != [] && from <= |x|
    ensures FollowsSep(x, sep, from, LastPieceStart(x, sep, from))
    decreases |x| - from
  {
    var found := FindFrom(x, sep, from);
    if found.Some? {
      var j := found.value + |sep|;
      LastPieceFollowsSep(x, sep, j);
      FollowsSepStep(x, sep, from, j);
    }
  }

  lemma FollowsSepStep(x: string, sep: string, from: nat, j: nat)
    requires sep != [] && from <= |x| && FindFrom(x, sep, from).Some?
    requires j == FindFrom(x, sep, from).value + |sep|
    requires FollowsSep(x, sep, j, LastPieceStart(x, sep, j))
    ensures FollowsSep(x, sep, from, LastPieceStart(x, sep, from))
  {
    var i := FindFrom(x, sep, from).value;
    var k := LastPieceStart(x, sep, j);
    assert LastPieceStart(x, sep, from) == k;
    if k == j {
      assert k - |sep| == i;
    }
  }

  /**
   * `x.split(sep)[-1]`: the text after the last occurrence of `sep` found by a left-to-right
   * scan, or all of `x` when `sep` does not occur. It is a suffix of `x`, it never contains
   * `sep`, and when it is not all of `x` it is immediately preceded by `sep`.
   */
  function SplitLast(x: string, sep: string): (r: string)
    requires sep != []
    ensures IsSuffix(r, x)
    ensures !Contains(r, sep)
    ensures !Contains(x, sep) ==> r == x
    ensures Contains(x, sep) ==> |r| + |sep| <= |x| && OccursAt(x, sep, |x| - |r| - |sep|)
  {
    LastPieceFacts(x, sep);
    x[LastPieceStart(x, sep, 0)..]
  }

  /** Where the last piece of a whole-string scan starts, and why it is the last piece. */
  lemma LastPieceFacts(x: string, sep: string)
    requires sep != []
    ensures var k := LastPieceStart(x, sep, 0);
      !Contains(x[k..], sep) &&
      (!Contains(x, sep) ==> k == 0) &&
      (Contains(x, sep) ==> |sep| <= k && OccursAt(x, sep, k - |sep|))
  {
    var k := LastPieceStart(x, sep, 0);
    LastPieceHasNoSep(x, sep, 0);
    LastPieceFollowsSep(x, sep, 0);
    SliceFree(x, sep, k, |x|);
    assert x[k..|x|] == x[k..];
  }

  lemma LastOfCons(h: string, tail: seq<string>)
    requires tail != []
    ensures ([h] + tail)[|[h] + tail| - 1] == tail[|tail| - 1]
  {
  }

  /** The text from `LastPieceStart` on is the last element of `x[from..].split(sep)`. */
  predicate IsLastPiece(x: string, sep: string, from: nat)
    requires sep != [] && from <= |x|
  {
    x[LastPieceStart(x, sep, from)..] == SplitFrom(x, sep, from)[|SplitFrom(x, sep, from)| - 1]
  }

  /** The last-piece function is indeed the last element of `x.split(sep)`. */
  lemma {:induction false} LastPieceOfSplitFrom(x: string, sep: string, from: nat)
    requires sep != [] && from <= |x|
    ensures IsLastPiece(x, sep, from)
    decreases |x| - from
  {
    var found := FindFrom(x, sep, from);
    if found.Some? {
      LastPieceOfSplitFrom(x, sep, found.value + |sep|);
      LastPieceStep(x, sep, from, found.value);
    }
  }

  lemma LastPieceStep(x: string, sep: string, from: nat, i: nat)
    requires sep != [] && from <= |x| && FindFrom(x, sep, from) == Some(i)
    requires IsLastPiece(x, sep, i + |sep|)
    ensures IsLastPiece(x, sep, from)
  {
    var tail := SplitFrom(x, sep, i + |sep|);
    assert SplitFrom(x, sep, from) == [x[from..i]] + tail;
    assert LastPieceStart(x, sep, from) == LastPieceStart(x, sep, i + |sep|);
    LastOfCons(x[from..i], tail);
  }

  lemma SplitLastIsLastPiece(x: string, sep: string)
    requires sep != []
    ensures SplitLast(x, sep) == Split(x, sep)[|Split(x, sep)| - 1]
  {
    LastPieceOfSplitFrom(x, sep, 0);
    assert IsLastPiece(x, sep, 0);
  }

  /**
   * A path that starts with the separator and has no other occurrence of it splits into an
   * empty piece and the rest, so its last piece is everything after that leading separator.
   */
  lemma SplitAfterSeparator(r: string, sep: string)
    requires sep != [] && !Contains(r, sep)
    ensures Split(sep + r, sep) == ["", r]
    ensures SplitLast(sep + r, sep) == r
  {
    var x := sep + r;
    assert x[0..|sep|] == sep;
    assert FindFrom(x, sep, 0) == Some(0);
    assert x[|sep|..] == r;
    var g := FindFrom(x, sep, |sep|);
    if g.Some? {
      var j: nat := g.value - |sep|;
      assert r[j..j + |sep|] == x[g.value..g.value + |sep|];
      assert OccursAt(r, sep, j);
      NoEarlierOccurrence(r, sep, 0, j);
      assert false;
    }
    assert SplitFrom(x, sep, |sep|) == [r];
    assert LastPieceStart(x, sep, |sep|) == |sep|;
    assert LastPieceStart(x, sep, 0) == |sep|;
  }

  // ---------------------------------------------------------------------------
  // str.split() with no argument: maximal runs of non-whitespace.

  /** The characters `str.split()` treats as separators (the ASCII and Latin-1 ones). */
  predicate IsSpace(c: char)
  {
    c == ' ' || c == '\t' || c == '\n' || c == '\r' || c == '\U{000B}' || c == '\U{000C}'
    || ('\U{001C}' <= c <= '\U{001F}') || c == '\U{0085}' || c == '\U{00A0}'
  }

  predicate IsWord(w: string)
  {
    w != [] && forall k :: 0 <= k < |w| ==> !IsSpace(w[k])
  }

  /** Length of the run of non-whitespace at the front of `s`. */
  function WordLen(s: string): (n: nat)
    requires s != [] && !IsSpace(s[0])
    ensures 1 <= n <= |s|
    ensures forall k :: 0 <= k < n ==> !IsSpace(s[k])
    ensures n < |s| ==> IsSpace(s[n])
    decreases |s|
  {
    if |s| == 1 || IsSpace(s[1]) then 1 else 1 + WordLen(s[1..])
  }

  /** `s.split()` (and so `s.strip().split()`): the words of `s`, left to right. */
  function Words(s: string): (ws: seq<string>)
    ensures forall k :: 0 <= k < |ws| ==> IsWord(ws[k])
    decreases |s|
  {
    if s == [] then []
    else if IsSpace(s[0]) then Words(s[1..])
    else
      var n := WordLen(s);
      [s[..n]] + Words(s[n..])
  }

  lemma {:induction false} WordLenOfWord(w: string, rest: string)
    requires IsWord(w)
    requires rest == [] || IsSpace(rest[0])
    ensures WordLen(w + rest) == |w|
    decreases |w|
  {
    if |w| > 1 {
      assert (w + rest)[1..] == w[1..] + rest;
      WordLenOfWord(w[1..], rest);
    }
  }

  /** A word followed by whitespace splits off as the first word. */
  lemma WordsCons(w: string, c: char, rest: string)
    requires IsWord(w) && IsSpace(c)
    ensures Words(w + [c] + rest) == [w] + Words(rest)
  {
    var tail := [c] + rest;
    var s := w + tail;
    assert w + [c] + rest == s;
    WordLenOfWord(w, tail);
    assert s[..|w|] == w;
    assert s[|w|..] == tail;
    assert tail[1..] == rest;
    assert Words(tail) == Words(rest);
  }

  /** Trailing whitespace adds no word. */
  lemma {:induction false} WordsTrailingSpace(s: string, c: char)
    requires IsSpace(c)
    ensures Words(s + [c]) == Words(s)
    decreases |s|
  {
    var t := s + [c];
    if s == [] {
      assert Words(t) == Words(t[1..]);
    } else if IsSpace(s[0]) {
      assert t[1..] == s[1..] + [c];
      WordsTrailingSpace(s[1..], c);
    } else {
      var n := WordLen(s);
      var w := s[..n];
      assert s == w + s[n..];
      WordLenOfWord(w, s[n..] + [c]);
      assert t == w + (s[n..] + [c]);
      assert t[..n] == w && t[n..] == s[n..] + [c];
      assert Words(t) == [w] + Words(s[n..] + [c]);
      assert Words(s) == [w] + Words(s[n..]);
      WordsTrailingSpace(s[n..], c);
    }
  }

  /** The characters of `s` that are not whitespace, in order. */
  function NonSpace(s: string): string
    decreases |s|
  {
    if s == [] then [] else (if IsSpace(s[0]) then [] else [s[0]]) + NonSpace(s[1..])
  }

  lemma {:induction false} NonSpaceAppend(a: string, b: string)
    ensures NonSpace(a + b) == NonSpace(a) + NonSpace(b)
    decreases |a|
  {
    if a == [] {
      assert a + b == b;
    } else {
      assert (a + b)[1..] == a[1..] + b;
      NonSpaceAppend(a[1..], b);
    }
  }

  lemma {:induction false} NonSpaceOfWord(w: string)
    requires forall k :: 0 <= k < |w| ==> !IsSpace(w[k])
    ensures NonSpace(w) == w
    decreases |w|
  {
    if w != [] {
      NonSpaceOfWord(w[1..]);
    }
  }

  /** The words, put back together, are exactly the non-whitespace characters of the text, in order. */
  lemma {:induction false} WordsFlatten(s: string)
    ensures Flatten(Words(s)) == NonSpace(s)
    decreases |s|
  {
    if s != [] && IsSpace(s[0]) {
      WordsFlatten(s[1..]);
    } else if s != [] {
      var n := WordLen(s);
      WordsFlatten(s[n..]);
      FlattenCons(s[..n], Words(s[n..]));
      assert s == s[..n] + s[n..];
      NonSpaceAppend(s[..n], s[n..]);
      NonSpaceOfWord(s[..n]);
    }
  }

  // ---------------------------------------------------------------------------
  // readlines(): each line keeps its '\n'; the last line may lack one.

  /** Length of the first line of `t`, its '\n' included. */
  function LineLen(t: string): (n: nat)
    requires t != []
    ensures 1 <= n <= |t|
    decreases |t|
  {
    if t[0] == '\n' || |t| == 1 then 1 else 1 + LineLen(t[1..])
  }

  /** The first line ends at the first '\n', or at the end of the text. */
  lemma {:induction false} LineLenStopsAtNewline(t: string)
    requires t != []
    ensures forall k :: 0 <= k < LineLen(t) - 1 ==> t[k] != '\n'
    ensures LineLen(t) < |t| ==> t[LineLen(t) - 1] == '\n'
    decreases |t|
  {
    if t[0] != '\n' && |t| > 1 {
      LineLenStopsAtNewline(t[1..]);
    }
  }

  /** `readlines()` on text whose line breaks are all '\n': each line keeps its '\n'. */
  function Lines(t: string): (ls: seq<string>)
    ensures |ls| <= |t|
    ensures ls == [] <==> t == []
    decreases |t|
  {
    if t == [] then [] else
      var n := LineLen(t);
      [t[..n]] + Lines(t[n..])
  }

  /**
   * Where `Lines` cuts: no line has a '\n' before its last character, and every line but the
   * last ends in '\n'.
   */
  lemma {:induction false} LineShape(t: string, k: nat)
    requires k < |Lines(t)|
    ensures forall j :: 0 <= j < |Lines(t)[k]| - 1 ==> Lines(t)[k][j] != '\n'
    ensures k < |Lines(t)| - 1 ==> Lines(t)[k] != [] && Lines(t)[k][|Lines(t)[k]| - 1] == '\n'
    decreases |t|
  {
    var n := LineLen(t);
    if k == 0 {
      LineLenStopsAtNewline(t);
    } else {
      LineShape(t[n..], k - 1);
    }
  }

  /**
   * The text a file opened in text mode delivers: universal newlines turn every "\r\n" and
   * every lone '\r' into '\n'.
   */
  function Newlines(t: string): (u: string)
    ensures |u| <= |t|
    ensures forall k :: 0 <= k < |u| ==> u[k] != '\r'
    decreases |t|
  {
    if t == [] then []
    else if t[0] == '\r' then
      if |t| > 1 && t[1] == '\n' then "\n" + Newlines(t[2..]) else "\n" + Newlines(t[1..])
    else [t[0]] + Newlines(t[1..])
  }

  /**
   * The translation step by step: "\r\n" becomes one '\n', a '\r' not followed by '\n' becomes
   * '\n', and any other character is kept.
   */
  lemma NewlinesStep(c: char, b: string)
    ensures c == '\r' && b != [] && b[0] == '\n' ==> Newlines([c] + b) == "\n" + Newlines(b[1..])
    ensures c == '\r' && (b == [] || b[0] != '\n') ==> Newlines([c] + b) == "\n" + Newlines(b)
    ensures c != '\r' ==> Newlines([c] + b) == [c] + Newlines(b)
  {
    assert ([c] + b)[1..] == b;
    if b != [] {
      assert ([c] + b)[2..] == b[1..];
    }
  }

  /** Text without carriage returns is delivered unchanged. */
  lemma {:induction false} NewlinesNoReturn(t: string)
    requires forall k :: 0 <= k < |t| ==> t[k] != '\r'
    ensures Newlines(t) == t
    decreases |t|
  {
    if t != [] {
      NewlinesNoReturn(t[1..]);
    }
  }

  /** Text not ending in '\r' is translated independently of what follows it. */
  lemma {:induction false} NewlinesAppend(a: string, b: string)
    requires a == [] || a[|a| - 1] != '\r'
    ensures Newlines(a + b) == Newlines(a) + Newlines(b)
    decreases |a|
  {
    if a == [] {
      assert a + b == b;
    } else if a[0] == '\r' && a[1] == '\n' {
      assert (a + b)[2..] == a[2..] + b;
      NewlinesAppend(a[2..], b);
      ConcatAssoc("\n", Newlines(a[2..]), Newlines(b));
    } else {
      assert (a + b)[1..] == a[1..] + b;
      NewlinesAppend(a[1..], b);
      ConcatAssoc(if a[0] == '\r' then "\n" else [a[0]], Newlines(a[1..]), Newlines(b));
    }
  }

  /** Text ending in '\n' is delivered ending in '\n'. */
  lemma {:induction false} NewlinesLast(t: string)
    requires t != [] && t[|t| - 1] == '\n'
    ensures Newlines(t) != [] && Newlines(t)[|Newlines(t)| - 1] == '\n'
    decreases |t|
  {
    if t[0] == '\r' && t[1] == '\n' {
      if |t| > 2 {
        NewlinesLast(t[2..]);
      }
    } else if |t| > 1 {
      NewlinesLast(t[1..]);
    }
  }

  /** `fp.readlines()` on a file opened with `open(path, 'r')`. */
  function ReadLines(text: string): (ls: seq<string>)
    ensures Flatten(ls) == Newlines(text)
    ensures forall k :: 0 <= k < |ls| ==> ls[k] != []
  {
    LinesFlatten(Newlines(text));
    Lines(Newlines(text))
  }

  /** The lines, concatenated, give back the text they were cut from, and none is empty. */
  lemma {:induction false} LinesFlatten(t: string)
    ensures Flatten(Lines(t)) == t
    ensures forall k :: 0 <= k < |Lines(t)| ==> Lines(t)[k] != []
    decreases |t|
  {
    if t != [] {
      var n := LineLen(t);
      var rest := Lines(t[n..]);
      LinesFlatten(t[n..]);
      FlattenCons(t[..n], rest);
      assert t == t[..n] + t[n..];
    }
  }

  lemma {:induction false} FlattenCons<T>(s: seq<T>, ss: seq<seq<T>>)
    ensures Flatten([s] + ss) == s + Flatten(ss)
    decreases |ss|
  {
    if ss != [] {
      var init := ss[..|ss| - 1];
      var last := ss[|ss| - 1];
      assert ([s] + ss)[..|ss|] == [s] + init;
      FlattenCons(s, init);
    } else {
      assert Flatten([s]) == Flatten([s][..0]) + s;
    }
  }

  lemma {:induction false} LineLenOfLine(a: string, b: string)
    requires a != [] && a[|a| - 1] == '\n'
    ensures LineLen(a + b) == LineLen(a)
    decreases |a|
  {
    if a[0] != '\n' {
      assert |a| >= 2;
      assert (a + b)[1..] == a[1..] + b;
      LineLenOfLine(a[1..], b);
    }
  }

  /** Text that ends in a newline reads back as its own lines followed by the lines of what follows. */
  lemma {:induction false} LinesAppend(a: string, b: string)
    requires a == [] || a[|a| - 1] == '\n'
    ensures Lines(a + b) == Lines(a) + Lines(b)
    decreases |a|
  {
    if a == [] {
      assert a + b == b;
    } else {
      var n := LineLen(a);
      FirstLineOfAppend(a, b);
      EndsInNewline(a, n);
      LinesAppend(a[n..], b);
      ConcatAssoc([a[..n]], Lines(a[n..]), Lines(b));
    }
  }

  /** What is left of newline-terminated text after its first line ends in a newline too. */
  lemma EndsInNewline(a: string, n: nat)
    requires a != [] && a[|a| - 1] == '\n' && n <= |a|
    ensures a[n..] == [] || a[n..][|a[n..]| - 1] == '\n'
  {
    if n < |a| {
      assert a[n..][|a| - n - 1] == a[|a| - 1];
    }
  }

  /** Appending to text that ends in a newline leaves its first line alone. */
  lemma FirstLineOfAppend(a: string, b: string)
    requires a != [] && a[|a| - 1] == '\n'
    ensures Lines(a + b) == [a[..LineLen(a)]] + Lines(a[LineLen(a)..] + b)
  {
    var n := LineLen(a);
    var line, rest := a[..n], a[n..];
    LineLenOfLine(a, b);
    assert a + b == line + (rest + b);
    LinesCons(a + b, line, rest + b);
  }

  /** Lines of a text whose first line is `line`. */
  lemma LinesCons(t: string, line: string, tail: string)
    requires line != [] && t == line + tail && LineLen(t) == |line|
    ensures Lines(t) == [line] + Lines(tail)
  {
    assert t[..|line|] == line && t[|line|..] == tail;
  }

  /** A single newline-terminated line with no other newline reads back as one line. */
  lemma LinesOfOneLine(l: string)
    requires l != [] && l[|l| - 1] == '\n'
    requires forall k :: 0 <= k < |l| - 1 ==> l[k] != '\n'
    ensures Lines(l) == [l]
  {
    var n := LineLen(l);
    LineLenStopsAtNewline(l);
    assert n == |l|;
    assert l[..n] == l;
    assert l[n..] == [];
    assert Lines(l) == [l[..n]] + Lines(l[n..]);
  }

  // ---------------------------------------------------------------------------

  function LowerChar(c: char): char
  {
    if 'A' <= c <= 'Z' then (c as int + 32) as char else c
  }

  /** `s.lower()` for ASCII letters: upper-case letters become lower-case, every other character stays. */
  function Lower(s: string): (r: string)
    ensures |r| == |s|
    ensures forall k :: 0 <= k < |r| ==> !('A' <= r[k] <= 'Z')
    ensures forall k :: 0 <= k < |s| && !('A' <= s[k] <= 'Z') ==> r[k] == s[k]
    ensures forall k :: 0 <= k < |s| && 'A' <= s[k] <= 'Z' ==> r[k] == (s[k] as int + 32) as char
  {
    seq(|s|, k requires 0 <= k < |s| => LowerChar(s[k]))
  }
}
