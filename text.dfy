/**
 * The handful of Python string operations the bots rely on: substring
 * search (`in`, `find`), `split`, `join`, `replace`, the slices `s[-n:]`
 * and `s[:-1]`, and the ASCII part of `isdigit` and `lower`.
 */
module Text {
  import opened Opt

  /** `pat` occurs in `s` starting at index `i`. */
  predicate OccursAt(s: string, pat: string, i: nat) {
    i + |pat| <= |s| && s[i..i + |pat|] == pat
  }

  /** Python's `s.find(pat)`: the first index where `pat` occurs, if any. */
  function IndexOf(s: string, pat: string): (r: Option<nat>)
    ensures r.Some? ==> OccursAt(s, pat, r.value)
    ensures r.Some? ==> forall j: nat :: j < r.value ==> !OccursAt(s, pat, j)
    ensures r.None? ==> forall j: nat :: !OccursAt(s, pat, j)
    decreases |s|
  {
    if |s| < |pat| then None
    else if s[..|pat|] == pat then Some(0)
    else
      var rest := IndexOf(s[1..], pat);
      forall j: nat | 1 <= j ensures OccursAt(s, pat, j) == OccursAt(s[1..], pat, j - 1) {
        OccursShifted(s, pat, j);
      }
      assert !OccursAt(s, pat, 0);
      match rest
      case None => None
      case Some(k) => Some(k + 1)
  }

  /** Dropping the first character shifts every occurrence one place left. */
  lemma OccursShifted(s: string, pat: string, j: nat)
    requires 1 <= j && |s| > 0
    ensures OccursAt(s, pat, j) == OccursAt(s[1..], pat, j - 1)
  {
    if j + |pat| <= |s| {
      var a, b := s[j..j + |pat|], s[1..][j - 1..j - 1 + |pat|];
      forall m | 0 <= m < |pat| ensures a[m] == b[m] {
        assert a[m] == s[j + m] && b[m] == s[j + m];
      }
      assert a == b;
    }
  }

  /** Python's `pat in s`. */
  predicate Contains(s: string, pat: string)
    ensures Contains(s, pat) <==> exists j: nat :: OccursAt(s, pat, j)
    ensures |pat| == 0 ==> Contains(s, pat)
  {
    IndexOf(s, pat).Some?
  }

  /** Python's `sep.join(parts)`. */
  function Join(parts: seq<string>, sep: string): (r: string) {
    if |parts| == 0 then ""
    else if |parts| == 1 then parts[0]
    else parts[0] + sep + Join(parts[1..], sep)
  }

  /** An occurrence inside a prefix of `s` is an occurrence in `s`. */
  lemma OccursInPrefix(s: string, pat: string, i: nat, j: nat)
    requires i <= |s| && OccursAt(s[..i], pat, j)
    ensures OccursAt(s, pat, j)
  {
    assert s[..i][j..j + |pat|] == s[j..j + |pat|];
  }

  /**
   * Python's `s.split(sep)` for a non-empty separator: the pieces between
   * the occurrences of `sep`, found left to right without overlap.
   */
  function Split(s: string, sep: string): (r: seq<string>)
    requires |sep| > 0
    ensures |r| >= 1
    ensures Join(r, sep) == s
    decreases |s|
  {
    match IndexOf(s, sep)
    case None => [s]
    case Some(i) =>
      assert s == s[..i] + sep + s[i + |sep|..];
      [s[..i]] + Split(s[i + |sep|..], sep)
  }

  /** No piece of a split contains the separator. */
  lemma {:induction false} SplitPiecesLackSeparator(s: string, sep: string)
    requires |sep| > 0
    ensures forall k :: 0 <= k < |Split(s, sep)| ==> !Contains(Split(s, sep)[k], sep)
    decreases |s|
  {
    match IndexOf(s, sep)
    case None =>
    case Some(i) =>
      var head := s[..i];
      if Contains(head, sep) {
        OccursInPrefix(s, sep, i, IndexOf(head, sep).value);
      }
      SplitPiecesLackSeparator(s[i + |sep|..], sep);
  }

  /** The first occurrence is the one `IndexOf` finds. */
  lemma FirstOccurrence(s: string, pat: string, i: nat)
    requires OccursAt(s, pat, i)
    requires forall j: nat :: j < i ==> !OccursAt(s, pat, j)
    ensures IndexOf(s, pat) == Some(i)
  {
    var r := IndexOf(s, pat);
    assert r.Some?;
    assert !(r.value < i);
  }

  /** A string that lacks the pattern's first character does not contain the pattern. */
  lemma LacksHead(s: string, pat: string)
    requires |pat| > 0 && pat[0] !in s
    ensures IndexOf(s, pat) == None
  {
  }

  /** In `x + pat + y`, where `x` lacks the pattern's first character, the first occurrence follows `x`. */
  lemma FirstOccurrenceAfter(x: string, pat: string, y: string)
    requires |pat| > 0 && pat[0] !in x
    ensures IndexOf(x + pat + y, pat) == Some(|x|)
  {
    var s := x + pat + y;
    assert s[|x|..|x| + |pat|] == pat;
    forall j: nat | j < |x| ensures !OccursAt(s, pat, j) {
      assert s[j] == x[j];
    }
    FirstOccurrence(s, pat, |x|);
  }

  /** A string with no occurrence of `sep` splits into itself alone. */
  lemma SplitWithout(s: string, sep: string)
    requires |sep| > 0 && forall j: nat :: !OccursAt(s, sep, j)
    ensures Split(s, sep) == [s]
  {
  }

  /** When no occurrence of `sep` starts inside `x`, the one after `x` ends the first piece. */
  lemma SplitAfter(x: string, sep: string, y: string)
    requires |sep| > 0
    requires forall j: nat :: j < |x| ==> !OccursAt(x + sep + y, sep, j)
    ensures Split(x + sep + y, sep) == [x] + Split(y, sep)
  {
    var s := x + sep + y;
    assert s[|x|..|x| + |sep|] == sep;
    FirstOccurrence(s, sep, |x|);
    assert s[..|x|] == x && s[|x| + |sep|..] == y;
  }

  /** Splitting undoes joining at a one-character separator that no part contains. */
  lemma {:induction false} SplitJoin(parts: seq<string>, sep: string)
    requires |sep| == 1 && |parts| > 0
    requires forall k :: 0 <= k < |parts| ==> sep[0] !in parts[k]
    ensures Split(Join(parts, sep), sep) == parts
  {
    if |parts| == 1 {
      SplitLacksHead(parts[0], sep);
    } else {
      var x, y := parts[0], Join(parts[1..], sep);
      forall j: nat | j < |x| ensures !OccursAt(x + sep + y, sep, j) {
        assert (x + sep + y)[j] == x[j];
      }
      SplitAfter(x, sep, y);
      SplitJoin(parts[1..], sep);
    }
  }

  /** The first occurrence of `sep` ends the first piece of the split. */
  lemma SplitAtFirst(s: string, sep: string, i: nat)
    requires |sep| > 0 && OccursAt(s, sep, i)
    requires forall j: nat :: j < i ==> !OccursAt(s, sep, j)
    ensures Split(s, sep) == [s[..i]] + Split(s[i + |sep|..], sep)
  {
    FirstOccurrence(s, sep, i);
  }

  /** A string without the separator's first character splits into itself alone. */
  lemma SplitLacksHead(s: string, sep: string)
    requires |sep| > 0 && sep[0] !in s
    ensures Split(s, sep) == [s]
  {
    LacksHead(s, sep);
  }

  /**
   * Python's `s.replace(pat, rep)` for a non-empty pattern: every
   * occurrence, found left to right without overlap, is replaced.
   */
  function ReplaceAll(s: string, pat: string, rep: string): (r: string)
    requires |pat| > 0
    ensures !Contains(s, pat) ==> r == s
    ensures rep == pat ==> r == s
  {
    Join(Split(s, pat), rep)
  }

  /** When no occurrence of `pat` starts inside `x`, the one after `x` is the first one replaced. */
  lemma ReplaceAllAfter(x: string, pat: string, rep: string, y: string)
    requires |pat| > 0
    requires forall j: nat :: j < |x| ==> !OccursAt(x + pat + y, pat, j)
    ensures ReplaceAll(x + pat + y, pat, rep) == x + rep + ReplaceAll(y, pat, rep)
  {
    SplitAfter(x, pat, y);
    var rest := Split(y, pat);
    assert ([x] + rest)[1..] == rest;
  }

  /** Python's `s[-n:]`: the last `n` characters, or all of `s` when it is shorter (and, as in Python, all of `s` when `n` is 0). */
  function SuffixSlice(s: string, n: nat): (r: string)
    ensures |r| <= |s| && r == s[|s| - |r|..]
    ensures 0 < n ==> |r| == if |s| < n then |s| else n
  {
    if n == 0 || |s| <= n then s else s[|s| - n..]
  }

  /** Python's `s[:-1]`: everything but the final character (empty stays empty). */
  function DropLast(s: string): (r: string)
    ensures |s| == 0 ==> r == ""
    ensures |s| > 0 ==> r + [s[|s| - 1]] == s
  {
    if |s| == 0 then s else s[..|s| - 1]
  }

  predicate IsAsciiDigit(c: char) {
    '0' <= c <= '9'
  }

  /** Python's `s.isdigit()` restricted to ASCII digits: non-empty and every character a digit. */
  predicate IsDigits(s: string)
    ensures IsDigits(s) <==> s != [] && forall c :: c in s ==> IsAsciiDigit(c)
  {
    |s| > 0 && forall i :: 0 <= i < |s| ==> IsAsciiDigit(s[i])
  }

  function LowerChar(c: char): (lowered: char) {
    if 'A' <= c <= 'Z' then (c as int + 32) as char else c
  }

  /** Python's `s.lower()` on the ASCII letters; every other character is kept. */
  function Lower(s: string): (r: string)
    ensures |r| == |s|
    ensures forall i :: 0 <= i < |s| ==> !('A' <= r[i] <= 'Z')
    ensures forall i :: 0 <= i < |s| && !('A' <= s[i] <= 'Z') ==> r[i] == s[i]
    ensures forall i :: 0 <= i < |s| && 'A' <= s[i] <= 'Z' ==> r[i] as int == s[i] as int + 32
  {
    seq(|s|, i requires 0 <= i < |s| => LowerChar(s[i]))
  }

  /** Lowering twice is lowering once. */
  lemma LowerIdempotent(s: string)
    ensures Lower(Lower(s)) == Lower(s)
  {
    var low := Lower(s);
    forall i | 0 <= i < |s| ensures Lower(low)[i] == low[i] {
      assert !('A' <= low[i] <= 'Z');
    }
  }
}
