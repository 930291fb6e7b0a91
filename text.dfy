/**
 * The parts of Python's `str` and sequence slicing that the agent relies on:
 * `strip`, `lower`, substring search and `in`, `split(sep)`, `split()`,
 * `sep.join` and the slices `s[:k]` and `s[k:]`.
 */
module Text {

  import opened Wrappers

  function Min(a: int, b: int): int { if a < b then a else b }

  function Max(a: int, b: int): int { if a < b then b else a }

  /** Python's `str.isspace` on one character. */
  predicate IsSpace(c: char)
  {
    c == ' ' || ('\t' <= c <= '\r') || ('\U{1c}' <= c <= '\U{1f}')
    || c == '\U{85}' || c == '\U{a0}' || c == '\U{1680}'
    || ('\U{2000}' <= c <= '\U{200a}') || c == '\U{2028}' || c == '\U{2029}'
    || c == '\U{202f}' || c == '\U{205f}' || c == '\U{3000}'
  }

  predicate NoSpace(s: string)
  {
    forall i :: 0 <= i < |s| ==> !IsSpace(s[i])
  }

  // ---------------------------------------------------------------------
  // Python slices
  // ---------------------------------------------------------------------

  /** `s[:k]`, where a negative `k` counts from the end. */
  function SliceTo<T>(s: seq<T>, k: int): (r: seq<T>)
    ensures 0 <= k ==> |r| == if k < |s| then k else |s|
    ensures k < 0 ==> |r| == if |s| + k < 0 then 0 else |s| + k
    ensures r <= s
  {
    if k < 0 then (if |s| + k < 0 then [] else s[..|s| + k])
    else if k < |s| then s[..k] else s
  }

  /** `s[k:]`, where a negative `k` counts from the end. */
  function SliceFrom<T>(s: seq<T>, k: int): (r: seq<T>)
    ensures 0 <= k ==> |r| == if k < |s| then |s| - k else 0
    ensures k < 0 ==> |r| == if |s| + k < 0 then |s| else -k
    ensures r == s[|s| - |r|..]
  {
    if k < 0 then (if |s| + k < 0 then s else s[|s| + k..])
    else if k < |s| then s[k..] else []
  }

  // ---------------------------------------------------------------------
  // strip and lower
  // ---------------------------------------------------------------------

  /** `s.lstrip()`: drops the leading whitespace and nothing else. */
  function TrimStart(s: string): (r: string)
    ensures |r| <= |s| && r == s[|s| - |r|..]
    ensures forall i :: 0 <= i < |s| - |r| ==> IsSpace(s[i])
    ensures r == [] || !IsSpace(r[0])
    decreases |s|
  {
    if s != [] && IsSpace(s[0]) then TrimStart(s[1..]) else s
  }

  /** `s.rstrip()`: drops the trailing whitespace and nothing else. */
  function TrimEnd(s: string): (r: string)
    ensures |r| <= |s| && r == s[..|r|]
    ensures forall i :: |r| <= i < |s| ==> IsSpace(s[i])
    ensures r == [] || !IsSpace(r[|r| - 1])
    decreases |s|
  {
    if s != [] && IsSpace(s[|s| - 1]) then TrimEnd(s[..|s| - 1]) else s
  }

  /** `s.strip()`. */
  function Strip(s: string): (r: string)
    ensures |r| <= |s|
    ensures r == [] || (!IsSpace(r[0]) && !IsSpace(r[|r| - 1]))
    // `r` is `s` with a run of whitespace cut from each end
    ensures exists a :: Trimmed(s, r, a)
    ensures NoSpace(s) ==> r == s
  {
    var t := TrimStart(s);
    var r := TrimEnd(t);
    assert Trimmed(s, r, |s| - |t|);
    r
  }

  /** `r` sits in `s` at `a`, with only whitespace before and after it. */
  predicate Trimmed(s: string, r: string, a: int)
  {
    0 <= a && a + |r| <= |s| && s[a..a + |r|] == r
    && (forall i :: 0 <= i < a ==> IsSpace(s[i]))
    && (forall i :: a + |r| <= i < |s| ==> IsSpace(s[i]))
  }

  /** `c.lower()` on ASCII letters; every other character is left alone. */
  function LowerChar(c: char): char
  {
    if 'A' <= c <= 'Z' then (c as int + 32) as char else c
  }

  function Lower(s: string): (r: string)
    ensures |r| == |s|
    ensures forall i :: 0 <= i < |s| ==> r[i] == LowerChar(s[i])
  {
    seq(|s|, i requires 0 <= i < |s| => LowerChar(s[i]))
  }

  // ---------------------------------------------------------------------
  // Substring search
  // ---------------------------------------------------------------------

  predicate OccursAt(s: string, pat: string, i: int)
  {
    0 <= i && i + |pat| <= |s| && s[i..i + |pat|] == pat
  }

  /** The first occurrence of `pat` in `s` at or after `from`. */
  function FindFrom(s: string, pat: string, from: nat): (r: Option<nat>)
    ensures r.Some? ==> from <= r.value && OccursAt(s, pat, r.value)
    ensures r.Some? ==> forall i :: from <= i < r.value ==> !OccursAt(s, pat, i)
    ensures r.None? ==> forall i :: from <= i ==> !OccursAt(s, pat, i)
    decreases |s| - from
  {
    if from + |pat| > |s| then None
    else if s[from..from + |pat|] == pat then Some(from)
    else FindFrom(s, pat, from + 1)
  }

  /** `s.find(pat)`, with `None` for -1. */
  function Find(s: string, pat: string): (r: Option<nat>)
    ensures r.Some? ==> OccursAt(s, pat, r.value)
    ensures r.Some? ==> forall i :: 0 <= i < r.value ==> !OccursAt(s, pat, i)
    ensures r.None? ==> forall i :: !OccursAt(s, pat, i)
  {
    FindFrom(s, pat, 0)
  }

  /** `pat in s`. */
  predicate Contains(s: string, pat: string)
  {
    Find(s, pat).Some?
  }

  lemma ContainsIff(s: string, pat: string)
    ensures Contains(s, pat) <==> exists i :: OccursAt(s, pat, i)
  {
    if Contains(s, pat) {
      assert OccursAt(s, pat, Find(s, pat).value);
    }
  }

  /** The text before the first `sep`, or all of `s`. */
  function Before(s: string, sep: string): (r: string)
    requires sep != []
    ensures r <= s
    // no separator starts inside `r`, even one running past its end
    ensures forall i :: 0 <= i < |r| ==> !OccursAt(s, sep, i)
    // the cut is at the first separator, and without one nothing is cut
    ensures Contains(s, sep) ==> OccursAt(s, sep, |r|)
    ensures !Contains(s, sep) ==> r == s
  {
    match Find(s, sep)
    case Some(p) => s[..p]
    case None => s
  }

  /** The text after the first `sep`. */
  function After(s: string, sep: string): (r: string)
    requires Contains(s, sep)
    ensures |r| <= |s| - |sep| && r == s[|s| - |r|..]
  {
    s[Find(s, sep).value + |sep|..]
  }

  /** Occurrences in a prefix are occurrences in the whole string. */
  lemma OccursInPrefix(s: string, n: nat, pat: string, i: int)
    requires n <= |s|
    ensures OccursAt(s[..n], pat, i) <==> (OccursAt(s, pat, i) && i + |pat| <= n)
  {
    if 0 <= i && i + |pat| <= n {
      assert s[..n][i..i + |pat|] == s[i..i + |pat|];
    }
  }

  /** A string cut before the first `sep` contains no `sep`. */
  lemma BeforeHasNoSep(s: string, sep: string)
    requires sep != []
    ensures !Contains(Before(s, sep), sep)
  {
    var b := Before(s, sep);
    forall i | OccursAt(b, sep, i)
      ensures false
    {
      OccursInPrefix(s, |b|, sep, i);
    }
  }

  // ---------------------------------------------------------------------
  // split(sep) and join
  // ---------------------------------------------------------------------

  /** `s.split(sep)` for a non-empty separator. */
  function Split(s: string, sep: string): (r: seq<string>)
    requires sep != []
    ensures |r| >= 1
    ensures Contains(s, sep) <==> |r| >= 2
    decreases |s|
  {
    match Find(s, sep)
    case None => [s]
    case Some(p) => [s[..p]] + Split(s[p + |sep|..], sep)
  }

  /** The first piece of `s.split(sep)` is the text before the first `sep`. */
  lemma SplitFirst(s: string, sep: string)
    requires sep != []
    ensures Split(s, sep)[0] == Before(s, sep)
  {
  }

  /** The second piece is the text between the first and the second `sep`. */
  lemma SplitSecond(s: string, sep: string)
    requires sep != [] && Contains(s, sep)
    ensures Split(s, sep)[1] == Before(After(s, sep), sep)
  {
    var p := Find(s, sep).value;
    var rest := s[p + |sep|..];
    assert After(s, sep) == rest;
    assert Split(s, sep) == [s[..p]] + Split(rest, sep);
    assert Split(s, sep)[1] == Split(rest, sep)[0];
    SplitFirst(rest, sep);
  }

  /** `sep.join(parts)`. */
  /** `sep.join(parts)`: the pieces in order with `sep` between them; the
      result starts with the first piece. */
  function Join(parts: seq<string>, sep: string): (r: string)
    ensures parts == [] ==> r == ""
    ensures parts != [] ==> parts[0] <= r
    ensures |parts| == 1 ==> r == parts[0]
    ensures sep == [] ==> r == Concat(parts)
    decreases |parts|
  {
    if |parts| == 0 then ""
    else if |parts| == 1 then parts[0]
    else parts[0] + sep + Join(parts[1..], sep)
  }

  /** One more piece in front of a non-empty list of pieces. */
  lemma JoinCons(head: string, tail: seq<string>, sep: string)
    requires |tail| >= 1
    ensures Join([head] + tail, sep) == head + sep + Join(tail, sep)
  {
    assert ([head] + tail)[1..] == tail;
  }

  /** Joining the pieces of a split with the same separator gives back the text. */
  lemma {:induction false} JoinSplit(s: string, sep: string)
    requires sep != []
    ensures Join(Split(s, sep), sep) == s
    decreases |s|
  {
    match Find(s, sep)
    case None =>
    case Some(p) =>
      var rest := s[p + |sep|..];
      assert Split(s, sep) == [s[..p]] + Split(rest, sep);
      JoinSplit(rest, sep);
      JoinCons(s[..p], Split(rest, sep), sep);
      Recompose(s, sep, p);
  }

  /** A text is the part before an occurrence, the occurrence, and the rest. */
  lemma Recompose(s: string, sep: string, p: int)
    requires OccursAt(s, sep, p)
    ensures s == s[..p] + sep + s[p + |sep|..]
  {
    assert s == s[..p] + s[p..p + |sep|] + s[p + |sep|..];
  }

  /** No piece of a split contains the separator. */
  lemma {:induction false} SplitPiecesAreFree(s: string, sep: string, k: nat)
    requires sep != [] && k < |Split(s, sep)|
    ensures !Contains(Split(s, sep)[k], sep)
    decreases |s|
  {
    if k == 0 {
      SplitFirst(s, sep);
      BeforeHasNoSep(s, sep);
    } else {
      var p := Find(s, sep).value;
      var rest := s[p + |sep|..];
      assert Split(s, sep)[k] == Split(rest, sep)[k - 1] by {
        assert Split(s, sep) == [s[..p]] + Split(rest, sep);
      }
      SplitPiecesAreFree(rest, sep, k - 1);
    }
  }

  // ---------------------------------------------------------------------
  // split() on whitespace
  // ---------------------------------------------------------------------

  /** The length of the run of non-space characters that starts `s`. */
  function TokenLength(s: string): (n: nat)
    ensures n <= |s| && NoSpace(s[..n])
    ensures n == |s| || IsSpace(s[n])
    decreases |s|
  {
    if s == [] || IsSpace(s[0]) then 0 else 1 + TokenLength(s[1..])
  }

  /** `s.split()`: the maximal runs of non-space characters, in order. */
  function Words(s: string): (r: seq<string>)
    // every word is non-empty and holds no whitespace
    ensures forall k :: 0 <= k < |r| ==> r[k] != [] && NoSpace(r[k])
    decreases |s|
  {
    if s == [] then []
    else if IsSpace(s[0]) then Words(s[1..])
    else
      var n := TokenLength(s);
      [s[..n]] + Words(s[n..])
  }

  /** `w` occurs in `s` at `p` with whitespace or the edge of `s` on both
      sides: a run of `s` that cannot be extended. */
  predicate MaximalAt(s: string, w: string, p: int)
  {
    0 <= p && p + |w| <= |s| && s[p..p + |w|] == w
    && (p == 0 || IsSpace(s[p - 1]))
    && (p + |w| == |s| || IsSpace(s[p + |w|]))
  }

  /** Each word of `s.split()` is a maximal run of non-space characters. */
  lemma {:induction false} WordsAreMaximal(s: string, k: nat)
    requires k < |Words(s)|
    ensures exists p :: MaximalAt(s, Words(s)[k], p)
    decreases |s|
  {
    var w := Words(s)[k];
    if IsSpace(s[0]) {
      WordsAreMaximal(s[1..], k);
      var p :| MaximalAt(s[1..], w, p);
      MaximalShift(s, 1, w, p);
    } else {
      var n := TokenLength(s);
      var rest := s[n..];
      assert Words(s) == [s[..n]] + Words(rest);
      if k == 0 {
        assert MaximalAt(s, w, 0);
      } else {
        assert w == Words(rest)[k - 1];
        WordsAreMaximal(rest, k - 1);
        var p :| MaximalAt(rest, w, p);
        // `rest` starts with the space that ended the first word
        assert IsSpace(rest[0]) && !IsSpace(w[0]);
        assert p > 0;
        MaximalShift(s, n, w, p);
      }
    }
  }

  /** The converse: every maximal run of non-space characters is a word. */
  lemma {:induction false} WordsComplete(s: string, w: string, p: int)
    requires w != [] && NoSpace(w) && MaximalAt(s, w, p)
    ensures w in Words(s)
    decreases |s|
  {
    assert s[p..p + |w|][0] == s[p];
    assert !IsSpace(w[0]);
    if IsSpace(s[0]) {
      // the run cannot start at the space
      assert p > 0;
      MaximalUnshift(s, 1, w, p);
      WordsComplete(s[1..], w, p - 1);
    } else {
      var n := TokenLength(s);
      assert Words(s) == [s[..n]] + Words(s[n..]);
      if p == 0 {
        TokenLengthIs(s, |w|);
        assert w == Words(s)[0];
      } else {
        forall i | 0 <= i < n
          ensures !IsSpace(s[i])
        {
          assert s[..n][i] == s[i];
        }
        // the space before the run lies past the first word
        assert p - 1 >= n;
        MaximalUnshift(s, n, w, p);
        WordsComplete(s[n..], w, p - n);
      }
    }
  }

  /** The first word's length is that of any non-space prefix ended by a
      space or the end of the text. */
  lemma {:induction false} TokenLengthIs(s: string, m: nat)
    requires m <= |s| && NoSpace(s[..m]) && (m == |s| || IsSpace(s[m]))
    ensures TokenLength(s) == m
    decreases m
  {
    if m > 0 {
      assert s[..m][0] == s[0];
      assert s[1..][..m - 1] == s[..m][1..];
      if m < |s| {
        assert s[1..][m - 1] == s[m];
      }
      TokenLengthIs(s[1..], m - 1);
    }
  }

  lemma MaximalUnshift(s: string, n: nat, w: string, p: int)
    requires 0 < n <= p && MaximalAt(s, w, p)
    ensures MaximalAt(s[n..], w, p - n)
  {
    assert s[n..][p - n..p - n + |w|] == s[p..p + |w|];
    if n < p {
      assert s[n..][p - n - 1] == s[p - 1];
    }
    if p + |w| < |s| {
      assert s[n..][p - n + |w|] == s[p + |w|];
    }
  }

  /** A maximal run of a suffix is one of the whole text, unless it starts
      the suffix right after a non-space. */
  lemma MaximalShift(s: string, n: nat, w: string, p: int)
    requires 0 < n <= |s| && MaximalAt(s[n..], w, p)
    requires p > 0 || IsSpace(s[n - 1])
    ensures MaximalAt(s, w, p + n)
  {
    assert s[p + n..p + n + |w|] == s[n..][p..p + |w|];
    if p > 0 {
      assert s[p + n - 1] == s[n..][p - 1];
    }
    if p + |w| < |s[n..]| {
      assert s[p + n + |w|] == s[n..][p + |w|];
    }
  }


  /** The non-space characters of `s`, in order. */
  function Squeeze(s: string): string
    decreases |s|
  {
    if s == [] then [] else (if IsSpace(s[0]) then [] else [s[0]]) + Squeeze(s[1..])
  }

  function Concat(ws: seq<string>): string
    decreases |ws|
  {
    if ws == [] then [] else ws[0] + Concat(ws[1..])
  }

  lemma {:induction false} SqueezeAppend(a: string, b: string)
    ensures Squeeze(a + b) == Squeeze(a) + Squeeze(b)
    decreases |a|
  {
    if a != [] {
      assert (a + b)[1..] == a[1..] + b;
      SqueezeAppend(a[1..], b);
    } else {
      assert a + b == b;
    }
  }

  lemma {:induction false} SqueezeNoSpace(a: string)
    requires NoSpace(a)
    ensures Squeeze(a) == a
    decreases |a|
  {
    if a != [] { SqueezeNoSpace(a[1..]); }
  }

  /** The words of `s` are its non-space characters, cut into pieces. */
  lemma {:induction false} WordsCover(s: string)
    ensures Concat(Words(s)) == Squeeze(s)
    decreases |s|
  {
    if s != [] {
      if IsSpace(s[0]) {
        WordsCover(s[1..]);
      } else {
        var n := TokenLength(s);
        WordsCover(s[n..]);
        assert s == s[..n] + s[n..];
        SqueezeAppend(s[..n], s[n..]);
        SqueezeNoSpace(s[..n]);
        assert Words(s) == [s[..n]] + Words(s[n..]);
      }
    }
  }

  /** The set of words of `s`, as Python's `set(s.split())`. */
  function WordSet(s: string): set<string>
  {
    set w | w in Words(s)
  }

  /** The word set is exactly the set of maximal runs of non-space
      characters. */
  lemma WordSetIff(s: string, w: string)
    ensures w in WordSet(s) <==> w != [] && NoSpace(w) && exists p :: MaximalAt(s, w, p)
  {
    if w in WordSet(s) {
      var k :| 0 <= k < |Words(s)| && Words(s)[k] == w;
      WordsAreMaximal(s, k);
    }
    if w != [] && NoSpace(w) && exists p :: MaximalAt(s, w, p) {
      var p :| MaximalAt(s, w, p);
      WordsComplete(s, w, p);
    }
  }
}
