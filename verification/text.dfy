/**
 * String primitives the detector relies on, with the semantics of the Python
 * built-ins it calls: `str.lower` (ASCII part only), the `in` substring test,
 * `str.join`, `str.split()` with no argument, `str.find`/`str.rfind` on one
 * character and slicing with Python's index normalisation.
 */
module Text {

  /** ASCII case folding of one character. */
  function Lower(c: char): char
  {
    if 'A' <= c <= 'Z' then (c as int + 32) as char else c
  }

  /** `s.lower()`, restricted to ASCII letters. */
  function ToLower(s: string): string
  {
    seq(|s|, i requires 0 <= i < |s| => Lower(s[i]))
  }

  lemma ToLowerAppend(a: string, b: string)
    ensures ToLower(a + b) == ToLower(a) + ToLower(b)
  {
    assert forall i :: 0 <= i < |a + b| ==> ToLower(a + b)[i] == (ToLower(a) + ToLower(b))[i];
  }

  /** `p` occurs in `t` starting at position `i`. */
  predicate OccursAt(t: string, p: string, i: int)
  {
    0 <= i <= |t| - |p| && t[i..i + |p|] == p
  }

  /** Python's `p in t` for strings. */
  predicate Contains(t: string, p: string)
  {
    exists i :: 0 <= i <= |t| - |p| && OccursAt(t, p, i)
  }

  /** Every string contains the empty string; the empty string contains nothing else. */
  lemma ContainsInEmpty(p: string)
    ensures Contains("", p) <==> p == ""
  {
    if p == "" {
      assert OccursAt("", p, 0);
    }
  }

  /** The pair `a`,`b` appears at position `i` of `t`. */
  predicate PairAt(t: string, a: char, b: char, i: int)
  {
    0 <= i < |t| - 1 && t[i] == a && t[i + 1] == b
  }

  predicate HasPair(t: string, a: char, b: char)
  {
    exists i :: 0 <= i < |t| - 1 && PairAt(t, a, b, i)
  }

  /**
   * A text cannot contain `p` when it lacks one of the adjacent character
   * pairs of `p`. Used to settle concrete containment questions.
   */
  lemma AbsentPair(t: string, p: string, m: nat)
    requires m + 1 < |p| && !HasPair(t, p[m], p[m + 1])
    ensures !Contains(t, p)
  {
    forall i | 0 <= i <= |t| - |p| && OccursAt(t, p, i)
      ensures false
    {
      assert t[i..i + |p|][m] == p[m] && t[i..i + |p|][m + 1] == p[m + 1];
      assert PairAt(t, p[m], p[m + 1], i + m);
    }
  }

  /** `sep.join(parts)`. */
  function Join(sep: string, parts: seq<string>): string
  {
    if |parts| == 0 then ""
    else if |parts| == 1 then parts[0]
    else parts[0] + sep + Join(sep, parts[1..])
  }

  /** The characters for which Python's `str.isspace()` holds. */
  predicate IsSpace(c: char)
  {
    || c == ' '
    || '\t' <= c <= '\r'
    || '\U{1C}' <= c <= '\U{1F}'
    || c == '\U{85}'
    || c == '\U{A0}'
    || c == '\U{1680}'
    || '\U{2000}' <= c <= '\U{200A}'
    || c == '\U{2028}'
    || c == '\U{2029}'
    || c == '\U{202F}'
    || c == '\U{205F}'
    || c == '\U{3000}'
  }

  predicate NoSpace(w: string)
  {
    forall i :: 0 <= i < |w| ==> !IsSpace(w[i])
  }

  /** Length of the maximal run of non-whitespace characters at the front of `s`. */
  function LeadingRun(s: string): (n: nat)
    ensures n <= |s|
    ensures NoSpace(s[..n])
    ensures n < |s| ==> IsSpace(s[n])
    ensures s != [] && !IsSpace(s[0]) ==> n > 0
  {
    if s == [] || IsSpace(s[0]) then 0
    else
      var k := LeadingRun(s[1..]);
      assert s[..k + 1] == [s[0]] + s[1..][..k];
      k + 1
  }

  /** `s.split()`: the maximal runs of non-whitespace characters, in order. */
  function Words(s: string): seq<string>
    decreases |s|
  {
    if s == [] then []
    else if IsSpace(s[0]) then Words(s[1..])
    else
      var n := LeadingRun(s);
      [s[..n]] + Words(s[n..])
  }

  /** The characters of `s` with every whitespace character dropped. */
  function DropSpaces(s: string): string
  {
    if s == [] then []
    else (if IsSpace(s[0]) then [] else [s[0]]) + DropSpaces(s[1..])
  }

  function Concat(ws: seq<string>): string
  {
    if ws == [] then [] else ws[0] + Concat(ws[1..])
  }

  lemma {:induction false} DropSpacesAppend(a: string, b: string)
    ensures DropSpaces(a + b) == DropSpaces(a) + DropSpaces(b)
    decreases |a|
  {
    if a == [] {
      assert a + b == b;
    } else {
      assert (a + b)[1..] == a[1..] + b;
      DropSpacesAppend(a[1..], b);
    }
  }

  lemma {:induction false} DropSpacesOfWord(w: string)
    requires NoSpace(w)
    ensures DropSpaces(w) == w
    decreases |w|
  {
    if w != [] {
      DropSpacesOfWord(w[1..]);
    }
  }

  /**
   * The number of places, read left to right, where a non-whitespace
   * character follows whitespace or the start of the string (`afterSpace`
   * says whether the text before `s` ended in whitespace).
   */
  function WordStarts(s: string, afterSpace: bool): nat
  {
    if s == [] then 0
    else (if afterSpace && !IsSpace(s[0]) then 1 else 0) + WordStarts(s[1..], IsSpace(s[0]))
  }

  /** Inside a run of `m` non-whitespace characters that ends the run, no word starts. */
  lemma {:induction false} RunHasNoStart(t: string, m: nat)
    requires m <= |t| && NoSpace(t[..m]) && (m == |t| || IsSpace(t[m]))
    ensures WordStarts(t, false) == WordStarts(t[m..], true)
    decreases m
  {
    if m > 0 {
      assert t[..m][0] == t[0];
      assert t[1..][..m - 1] == t[..m][1..];
      RunHasNoStart(t[1..], m - 1);
      assert t[1..][m - 1..] == t[m..];
    }
  }

  /**
   * `w` stands in `s` at position `i` as a whole run: nothing but whitespace
   * or an end of `s` on either side of it.
   */
  predicate RunAt(s: string, w: string, i: int)
  {
    && OccursAt(s, w, i)
    && (i == 0 || IsSpace(s[i - 1]))
    && (i + |w| == |s| || IsSpace(s[i + |w|]))
  }

  /** `w` stands somewhere in `s` as a whole run. */
  predicate IsRunOf(s: string, w: string)
  {
    exists i :: 0 <= i <= |s| && RunAt(s, w, i)
  }

  /** A whole run of a suffix `s[d..]` is a whole run of `s`, unless it abuts a non-whitespace `s[d - 1]`. */
  lemma RunShift(s: string, d: nat, w: string, i: int)
    requires d <= |s| && RunAt(s[d..], w, i)
    requires i > 0 || d == 0 || IsSpace(s[d - 1])
    ensures RunAt(s, w, d + i)
  {
    assert s[d + i..d + i + |w|] == s[d..][i..i + |w|];
    if i > 0 {
      assert s[d + i - 1] == s[d..][i - 1];
    }
    if d + i + |w| < |s| {
      assert s[d + i + |w|] == s[d..][i + |w|];
    }
  }

  /**
   * `split()` is faithful: each word is non-empty and free of whitespace;
   * the words, put back together, are exactly the non-whitespace characters
   * of the input in their original order; and the words are maximal runs,
   * one per place where a non-whitespace character follows whitespace or
   * the start of the string.
   */
  lemma {:induction false} WordsSound(s: string)
    ensures forall k :: 0 <= k < |Words(s)| ==> Words(s)[k] != [] && NoSpace(Words(s)[k])
    ensures Concat(Words(s)) == DropSpaces(s)
    ensures |Words(s)| == WordStarts(s, true)
    decreases |s|
  {
    if s == [] {
    } else if IsSpace(s[0]) {
      WordsSound(s[1..]);
    } else {
      var n := LeadingRun(s);
      WordsSound(s[n..]);
      assert s[1..][..n - 1] == s[..n][1..];
      RunHasNoStart(s[1..], n - 1);
      assert s[1..][n - 1..] == s[n..];
      assert s == s[..n] + s[n..];
      DropSpacesAppend(s[..n], s[n..]);
      DropSpacesOfWord(s[..n]);
      var ws := Words(s);
      assert ws == [s[..n]] + Words(s[n..]);
      assert ws[1..] == Words(s[n..]);
      forall k | 0 <= k < |ws|
        ensures ws[k] != [] && NoSpace(ws[k])
      {
        if k > 0 {
          assert ws[k] == Words(s[n..])[k - 1];
        }
      }
    }
  }

  /** Whole runs of `s[d..]` are whole runs of `s` when `s[d..]` begins a run or follows whitespace. */
  lemma RunsShift(s: string, d: nat, ws: seq<string>)
    requires d <= |s|
    requires d == 0 || IsSpace(s[d - 1]) || d == |s| || IsSpace(s[d])
    requires forall k :: 0 <= k < |ws| ==> ws[k] != [] && NoSpace(ws[k])
    requires forall k :: 0 <= k < |ws| ==> IsRunOf(s[d..], ws[k])
    ensures forall k :: 0 <= k < |ws| ==> IsRunOf(s, ws[k])
  {
    forall k | 0 <= k < |ws|
      ensures IsRunOf(s, ws[k])
    {
      var w := ws[k];
      assert IsRunOf(s[d..], w) && w != [] && NoSpace(w);
      var i :| 0 <= i <= |s[d..]| && RunAt(s[d..], w, i);
      assert OccursAt(s[d..], w, i);
      assert s[d..][i..i + |w|][0] == w[0] && !IsSpace(w[0]);
      RunShift(s, d, w, i);
      assert RunAt(s, w, d + i);
    }
  }

  /** A leading run followed by the whole runs of the rest of `s` are all whole runs of `s`. */
  lemma LeadRunThenRuns(s: string, n: nat, rest: seq<string>)
    requires 0 < n <= |s| && (n == |s| || IsSpace(s[n]))
    requires forall k :: 0 <= k < |rest| ==> rest[k] != [] && NoSpace(rest[k])
    requires forall k :: 0 <= k < |rest| ==> IsRunOf(s[n..], rest[k])
    ensures forall k :: 0 <= k < |rest| + 1 ==> IsRunOf(s, ([s[..n]] + rest)[k])
  {
    RunsShift(s, n, rest);
    var ws := [s[..n]] + rest;
    assert RunAt(s, ws[0], 0);
    forall k | 1 <= k < |ws|
      ensures IsRunOf(s, ws[k])
    {
      assert ws[k] == rest[k - 1];
    }
  }

  /**
   * Each word of `split()` is a maximal run: it stands somewhere in `s`
   * with whitespace or an end of `s` on both sides.
   */
  lemma {:induction false} WordsAreRuns(s: string)
    ensures forall k :: 0 <= k < |Words(s)| ==> IsRunOf(s, Words(s)[k])
    decreases |s|
  {
    if s == [] {
    } else if IsSpace(s[0]) {
      WordsAreRuns(s[1..]);
      WordsSound(s[1..]);
      RunsShift(s, 1, Words(s[1..]));
    } else {
      var n := LeadingRun(s);
      WordsAreRuns(s[n..]);
      WordsSound(s[n..]);
      LeadRunThenRuns(s, n, Words(s[n..]));
    }
  }

  /** A string has no words exactly when it is made only of whitespace. */
  lemma {:induction false} NoWordsIffBlank(s: string)
    ensures Words(s) == [] <==> forall i :: 0 <= i < |s| ==> IsSpace(s[i])
    decreases |s|
  {
    if s != [] {
      if IsSpace(s[0]) {
        NoWordsIffBlank(s[1..]);
        if forall i :: 0 <= i < |s[1..]| ==> IsSpace(s[1..][i]) {
          forall i | 0 <= i < |s|
            ensures IsSpace(s[i])
          {
            if i > 0 {
              assert s[i] == s[1..][i - 1];
            }
          }
        }
      }
    }
  }

  /** `s.find(c)`: the first position of `c`, or -1. */
  function Find(s: string, c: char): (r: int)
    ensures -1 <= r < |s|
    ensures r == -1 <==> c !in s
    ensures r >= 0 ==> s[r] == c && forall i :: 0 <= i < r ==> s[i] != c
  {
    if s == [] then -1
    else if s[0] == c then 0
    else
      var k := Find(s[1..], c);
      if k < 0 then -1 else k + 1
  }

  /** `s.rfind(c)`: the last position of `c`, or -1. */
  function RFind(s: string, c: char): (r: int)
    ensures -1 <= r < |s|
    ensures r == -1 <==> c !in s
    ensures r >= 0 ==> s[r] == c && forall i :: r < i < |s| ==> s[i] != c
  {
    if s == [] then -1
    else if s[|s| - 1] == c then |s| - 1
    else
      var k := RFind(s[..|s| - 1], c);
      assert s == s[..|s| - 1] + [s[|s| - 1]];
      k
  }

  /** How Python turns a slice bound into a position of a string of length `n`. */
  function SliceBound(i: int, n: nat): (r: nat)
    ensures r <= n
  {
    if i < 0 then (if i + n < 0 then 0 else i + n)
    else if i > n then n
    else i
  }

  /** `s[start:end]` with Python's handling of negative and out-of-range bounds. */
  function PySlice(s: string, start: int, end: int): string
  {
    var a := SliceBound(start, |s|);
    var b := SliceBound(end, |s|);
    if a < b then s[a..b] else []
  }

  /** Bounds already inside the string are taken as they are. */
  lemma SliceInRange(s: string, start: int, end: int)
    requires 0 <= start <= end <= |s|
    ensures PySlice(s, start, end) == s[start..end]
  {
  }
}
