/** String primitives the conversation engine is built on: the ASCII part of
    `toLowerCase`, `includes`, and `split` with a non-empty separator, as the
    JavaScript runtime defines them, with `Join` as the inverse of `SplitOn`. */
module Text {
  import opened Wrappers

  /** Lower-cases one character; only `A`..`Z` change. */
  function Lower(c: char): (d: char)
    ensures !('A' <= d <= 'Z')
    ensures d != c <==> 'A' <= c <= 'Z'
    ensures d != c ==> d as int == c as int + 32
  {
    if 'A' <= c <= 'Z' then (c as int + 32) as char else c
  }

  /** `s.toLowerCase()` on the ASCII letters. */
  function LowerStr(s: string): (t: string)
    ensures |t| == |s|
    ensures forall i :: 0 <= i < |s| ==> t[i] == Lower(s[i])
  {
    if s == [] then [] else [Lower(s[0])] + LowerStr(s[1..])
  }

  /** `sub` occurs in `s` starting at index `i`. */
  predicate OccursAt(s: string, sub: string, i: nat)
  {
    i + |sub| <= |s| && s[i..i + |sub|] == sub
  }


  /** `s.indexOf(sub, from)`: the first occurrence of `sub` at or after `from`. */
  function IndexOf(s: string, sub: string, from: nat): (r: Option<nat>)
    requires from <= |s|
    ensures r.Some? ==> from <= r.value && OccursAt(s, sub, r.value)
    ensures r.Some? ==> forall j: nat :: from <= j < r.value ==> !OccursAt(s, sub, j)
    ensures r.None? ==> forall j: nat :: from <= j <= |s| ==> !OccursAt(s, sub, j)
    decreases |s| - from
  {
    if OccursAt(s, sub, from) then Some(from)
    else if from == |s| then None
    else IndexOf(s, sub, from + 1)
  }

  /** `s.includes(sub)`: some occurrence exists (see `ContainsIff`). */
  predicate Contains(s: string, sub: string)
  {
    IndexOf(s, sub, 0).Some?
  }

  /** `Contains` holds exactly when `sub` occurs at some index of `s`. */
  lemma ContainsIff(s: string, sub: string)
    ensures Contains(s, sub) <==> exists i: nat :: OccursAt(s, sub, i)
  {
    if exists i: nat :: OccursAt(s, sub, i) {
      var i: nat :| OccursAt(s, sub, i);
      assert i <= |s|;
    }
  }

  /** The pieces of `s[from..]` between occurrences of `sep`, scanning left to
      right and resuming after each occurrence, as `String.prototype.split`. */
  function SplitFrom(s: string, sep: string, from: nat): (parts: seq<string>)
    requires |sep| > 0 && from <= |s|
    ensures |parts| >= 1
    decreases |s| - from
  {
    match IndexOf(s, sep, from)
    case None => [s[from..]]
    case Some(q) => [s[from..q]] + SplitFrom(s, sep, q + |sep|)
  }

  /** `s.split(sep)` for a non-empty separator. */
  function SplitOn(s: string, sep: string): (parts: seq<string>)
    requires |sep| > 0
    ensures |parts| >= 1
  {
    SplitFrom(s, sep, 0)
  }

  /** Where the last piece of the scan from `from` starts: resume after the
      first occurrence at or after the current position until none is left. */
  function ScanEnd(s: string, sep: string, from: nat): (p: nat)
    requires |sep| > 0 && from <= |s|
    ensures from <= p <= |s|
    decreases |s| - from
  {
    match IndexOf(s, sep, from)
    case None => from
    case Some(q) => ScanEnd(s, sep, q + |sep|)
  }

  /** The scan stops where no separator is left. */
  lemma {:induction false} ScanEndStops(s: string, sep: string, from: nat)
    requires |sep| > 0 && from <= |s|
    ensures IndexOf(s, sep, ScanEnd(s, sep, from)).None?
    decreases |s| - from
  {
    match IndexOf(s, sep, from)
    case None =>
    case Some(q) =>
      ScanEndStops(s, sep, q + |sep|);
      assert ScanEnd(s, sep, from) == ScanEnd(s, sep, q + |sep|);
  }

  /** Where piece `k` of `parts` starts once the pieces are joined with `sep`. */
  function PieceStart(parts: seq<string>, sep: string, k: nat): nat
    requires k <= |parts|
  {
    if k == 0 then 0 else |parts[0]| + |sep| + PieceStart(parts[1..], sep, k - 1)
  }

  /** Piece `k` of `parts` is where a left-to-right scan of `s` from `from`
      puts it: it is the text at its start, and it ends at the first
      occurrence of `sep` at or after its start, or, for the last piece, at
      the end of `s` with no occurrence left. */
  predicate ScannedPiece(s: string, sep: string, parts: seq<string>, from: nat, k: nat)
    requires k < |parts|
  {
    var p := from + PieceStart(parts, sep, k);
    p + |parts[k]| <= |s| && s[p..p + |parts[k]|] == parts[k] &&
    if k < |parts| - 1 then IndexOf(s, sep, p) == Some(p + |parts[k]|)
    else p + |parts[k]| == |s| && IndexOf(s, sep, p).None?
  }

  /** `parts.join(sep)`. */
  function Join(parts: seq<string>, sep: string): string
    requires |parts| >= 1
  {
    if |parts| == 1 then parts[0] else parts[0] + sep + Join(parts[1..], sep)
  }

  /** An occurrence inside a slice is an occurrence in the whole string. */
  lemma OccursInSlice(s: string, sub: string, lo: nat, hi: nat, j: nat)
    requires lo <= hi <= |s|
    requires OccursAt(s[lo..hi], sub, j)
    ensures OccursAt(s, sub, lo + j) && lo + j + |sub| <= hi
  {
    forall k | 0 <= k < |sub|
      ensures s[lo + j..lo + j + |sub|][k] == sub[k]
    {
      assert s[lo..hi][j..j + |sub|][k] == sub[k];
    }
    assert s[lo + j..lo + j + |sub|] == sub;
  }

  /** Containment is transitive: what occurs in a part occurs in the whole. */
  lemma ContainsTransitive(s: string, mid: string, sub: string)
    requires Contains(s, mid) && Contains(mid, sub)
    ensures Contains(s, sub)
  {
    var i := IndexOf(s, mid, 0).value;
    var j := IndexOf(mid, sub, 0).value;
    assert s[i..i + |mid|] == mid;
    OccursInSlice(s, sub, i, i + |mid|, j);
    ContainsIff(s, sub);
  }

  /** Splitting and joining again with the same separator gives the input back. */
  lemma {:induction false} SplitFromJoin(s: string, sep: string, from: nat)
    requires |sep| > 0 && from <= |s|
    ensures Join(SplitFrom(s, sep, from), sep) == s[from..]
    decreases |s| - from
  {
    match IndexOf(s, sep, from)
    case None =>
    case Some(q) =>
      var rest := SplitFrom(s, sep, q + |sep|);
      SplitFromJoin(s, sep, q + |sep|);
      var parts := [s[from..q]] + rest;
      assert SplitFrom(s, sep, from) == parts;
      assert parts[0] == s[from..q] && parts[1..] == rest;
      assert Join(parts, sep) == s[from..q] + sep + s[q + |sep|..];
      assert s[q..q + |sep|] == sep;
      assert s[from..] == s[from..q] + s[q..q + |sep|] + s[q + |sep|..];
  }

  lemma SplitJoin(s: string, sep: string)
    requires |sep| > 0
    ensures Join(SplitOn(s, sep), sep) == s
  {
    SplitFromJoin(s, sep, 0);
  }

  /** No piece produced by splitting contains the separator. */
  lemma {:induction false} SplitFromPiecesFree(s: string, sep: string, from: nat)
    requires |sep| > 0 && from <= |s|
    ensures forall k :: 0 <= k < |SplitFrom(s, sep, from)| ==> !Contains(SplitFrom(s, sep, from)[k], sep)
    decreases |s| - from
  {
    var parts := SplitFrom(s, sep, from);
    match IndexOf(s, sep, from)
    case None =>
      if Contains(s[from..], sep) {
        var j := IndexOf(s[from..], sep, 0).value;
        assert s[from..] == s[from..|s|];
        OccursInSlice(s, sep, from, |s|, j);
        assert false;
      }
    case Some(q) =>
      SplitFromPiecesFree(s, sep, q + |sep|);
      if Contains(s[from..q], sep) {
        var j := IndexOf(s[from..q], sep, 0).value;
        OccursInSlice(s, sep, from, q, j);
        assert false;
      }
      assert parts == [s[from..q]] + SplitFrom(s, sep, q + |sep|);
  }

  lemma SplitPiecesFree(s: string, sep: string)
    requires |sep| > 0
    ensures forall k :: 0 <= k < |SplitOn(s, sep)| ==> !Contains(SplitOn(s, sep)[k], sep)
  {
    SplitFromPiecesFree(s, sep, 0);
  }

  /** Splitting yields a single piece exactly when the separator does not
      occur, and that piece is then the whole string. */
  lemma SplitSingle(s: string, sep: string)
    requires |sep| > 0
    ensures |SplitOn(s, sep)| == 1 <==> !Contains(s, sep)
    ensures !Contains(s, sep) ==> SplitOn(s, sep) == [s]
  {
    match IndexOf(s, sep, 0)
    case None =>
    case Some(q) =>
      assert OccursAt(s, sep, q);
  }

  /** The first piece is the text before the first occurrence of the separator. */
  lemma SplitFirst(s: string, sep: string)
    requires |sep| > 0
    ensures IndexOf(s, sep, 0).None? ==> SplitOn(s, sep)[0] == s
    ensures IndexOf(s, sep, 0).Some? ==> SplitOn(s, sep)[0] == s[..IndexOf(s, sep, 0).value]
  {
  }

  /** Joining one more piece appends the separator and that piece. */
  lemma {:induction false} JoinSnoc(parts: seq<string>, x: string, sep: string)
    requires |parts| >= 1
    ensures Join(parts + [x], sep) == Join(parts, sep) + sep + x
    decreases |parts|
  {
    if |parts| == 1 {
      assert parts + [x] == [parts[0], x];
    } else {
      assert (parts + [x])[1..] == parts[1..] + [x];
      JoinSnoc(parts[1..], x, sep);
    }
  }

  /** With two or more pieces, the last piece is what follows the last separator. */
  lemma SplitLast(s: string, sep: string)
    requires |sep| > 0 && |SplitOn(s, sep)| >= 2
    ensures var parts := SplitOn(s, sep);
      s == Join(parts[..|parts| - 1], sep) + sep + parts[|parts| - 1]
  {
    var parts := SplitOn(s, sep);
    SplitJoin(s, sep);
    assert parts == parts[..|parts| - 1] + [parts[|parts| - 1]];
    JoinSnoc(parts[..|parts| - 1], parts[|parts| - 1], sep);
  }

  /** A piece scanned after a first piece `h` and its separator is scanned
      one place further on in `[h] + rest`. */
  lemma ScannedPieceShift(s: string, sep: string, h: string, rest: seq<string>, from: nat, k: nat)
    requires 1 <= k <= |rest|
    requires ScannedPiece(s, sep, rest, from + |h| + |sep|, k - 1)
    ensures ScannedPiece(s, sep, [h] + rest, from, k)
  {
    var parts := [h] + rest;
    assert parts[1..] == rest;
    assert PieceStart(parts, sep, k) == |h| + |sep| + PieceStart(rest, sep, k - 1);
    assert parts[k] == rest[k - 1];
  }

  /** With no separator left, the rest of the string is one scanned piece. */
  lemma ScannedLast(s: string, sep: string, from: nat)
    requires from <= |s| && IndexOf(s, sep, from).None?
    ensures ScannedPiece(s, sep, [s[from..]], from, 0)
  {
  }

  /** The text up to the first separator is a scanned piece in front of any
      further pieces. */
  lemma ScannedFirst(s: string, sep: string, from: nat, q: nat, rest: seq<string>)
    requires from <= |s| && IndexOf(s, sep, from) == Some(q) && |rest| >= 1
    ensures ScannedPiece(s, sep, [s[from..q]] + rest, from, 0)
  {
    assert ([s[from..q]] + rest)[0] == s[from..q];
  }

  /** Every piece of `split` is cut where the left-to-right scan cuts it: at
      the first separator at or after the piece's start. */
  lemma {:induction false} SplitFromScans(s: string, sep: string, from: nat)
    requires |sep| > 0 && from <= |s|
    ensures forall k :: 0 <= k < |SplitFrom(s, sep, from)| ==> ScannedPiece(s, sep, SplitFrom(s, sep, from), from, k)
    decreases |s| - from
  {
    var parts := SplitFrom(s, sep, from);
    match IndexOf(s, sep, from)
    case None =>
      assert parts == [s[from..]];
      ScannedLast(s, sep, from);
    case Some(q) =>
      var h := s[from..q];
      var rest := SplitFrom(s, sep, q + |sep|);
      SplitFromScans(s, sep, q + |sep|);
      assert parts == [h] + rest;
      ScannedFirst(s, sep, from, q, rest);
      forall k | 1 <= k < |parts|
        ensures ScannedPiece(s, sep, parts, from, k)
      {
        ScannedPieceShift(s, sep, h, rest, from, k);
      }
  }

  lemma SplitScans(s: string, sep: string)
    requires |sep| > 0
    ensures forall k :: 0 <= k < |SplitOn(s, sep)| ==> ScannedPiece(s, sep, SplitOn(s, sep), 0, k)
  {
    SplitFromScans(s, sep, 0);
  }

  /** Putting a piece in front keeps the last piece. */
  lemma LastOfCons(h: string, rest: seq<string>)
    requires |rest| >= 1
    ensures ([h] + rest)[|rest|] == rest[|rest| - 1]
  {
  }

  /** The last piece is the text from the end of the scan on. */
  lemma {:induction false} SplitFromLastPiece(s: string, sep: string, from: nat)
    requires |sep| > 0 && from <= |s|
    ensures var parts := SplitFrom(s, sep, from);
      parts[|parts| - 1] == s[ScanEnd(s, sep, from)..]
    decreases |s| - from
  {
    match IndexOf(s, sep, from)
    case None =>
    case Some(q) =>
      SplitFromLastPiece(s, sep, q + |sep|);
      LastOfCons(s[from..q], SplitFrom(s, sep, q + |sep|));
  }

  /** When the separator occurs, the scan ends just after an occurrence, and
      the last piece is what follows it: the string ends with the separator
      and that piece. */
  lemma SplitLastAfterScan(s: string, sep: string)
    requires |sep| > 0 && Contains(s, sep)
    ensures var p := ScanEnd(s, sep, 0); var parts := SplitOn(s, sep);
      |sep| <= p && parts[|parts| - 1] == s[p..] && s[p - |sep|..] == sep + s[p..]
  {
    SplitSingle(s, sep);
    SplitLast(s, sep);
    SplitFromLastPiece(s, sep, 0);
    var parts := SplitOn(s, sep);
    SuffixAfter(s, Join(parts[..|parts| - 1], sep), sep, parts[|parts| - 1]);
  }

  /** In `head + sep + t`, the text from the end of `head` on is `sep + t`. */
  lemma SuffixAfter(s: string, head: string, sep: string, t: string)
    requires s == head + sep + t
    ensures |head| + |sep| + |t| == |s| && s[|head|..] == sep + t
  {
    assert s[|head|..] == (head + sep + t)[|head|..];
  }
}
