/**
 * The string operations the crawler relies on, restricted to ASCII:
 * `str.lower()`, `str.strip()`, `startswith`/`endswith`/`in`,
 * `str.replace(x, "")`, `str.split(sep)` and `sep.join(...)`.
 */
module Text {
  import opened Wrappers

  /** `c.isspace()` for the ASCII range: space, tab, line feed, vertical tab,
      form feed, carriage return and the four separators 0x1C-0x1F. */
  predicate IsSpace(c: char) {
    c == ' ' || ('\t' <= c <= '\r') || ('\U{1C}' <= c <= '\U{1F}')
  }

  predicate AllSpace(s: string) {
    forall i :: 0 <= i < |s| ==> IsSpace(s[i])
  }

  /** ASCII `lower()` of one character. */
  function LowerChar(c: char): char {
    if 'A' <= c <= 'Z' then (c as int - 'A' as int + 'a' as int) as char else c
  }

  /** ASCII `s.lower()`. */
  function Lower(s: string): string {
    seq(|s|, i requires 0 <= i < |s| => LowerChar(s[i]))
  }

  /** `lower()` keeps the length, leaves no capital letter, changes nothing
      but capitals, and a second `lower()` changes nothing. */
  lemma LowerLetters(s: string)
    ensures |Lower(s)| == |s|
    ensures forall i :: 0 <= i < |s| ==> !('A' <= Lower(s)[i] <= 'Z')
    ensures forall i :: 0 <= i < |s| && !('A' <= s[i] <= 'Z') ==> Lower(s)[i] == s[i]
    ensures Lower(Lower(s)) == Lower(s)
  {
  }

  /** Lowering never turns whitespace into text or text into whitespace. */
  lemma LowerKeepsSpace(s: string)
    ensures forall i :: 0 <= i < |s| ==> (IsSpace(Lower(s)[i]) <==> IsSpace(s[i]))
  {
  }

  // ---------------------------------------------------------------------
  // strip()

  /** Number of whitespace characters at the front of `s`. */
  function LeadingSpaces(s: string): (n: nat)
    ensures n <= |s| && AllSpace(s[..n])
    ensures n == |s| || !IsSpace(s[n])
  {
    if s == [] || !IsSpace(s[0]) then 0
    else
      var k := LeadingSpaces(s[1..]);
      assert s[..k + 1] == [s[0]] + s[1..][..k];
      k + 1
  }

  /** Number of whitespace characters at the back of `s`. */
  function TrailingSpaces(s: string): (n: nat)
    ensures n <= |s| && AllSpace(s[|s| - n..])
    ensures n == |s| || !IsSpace(s[|s| - n - 1])
  {
    if s == [] || !IsSpace(s[|s| - 1]) then 0
    else
      var k := TrailingSpaces(s[..|s| - 1]);
      assert s[|s| - (k + 1)..] == s[..|s| - 1][|s| - 1 - k..] + [s[|s| - 1]];
      k + 1
  }

  /** Python's `s.strip()`: `s` without its leading and trailing whitespace. */
  function Strip(s: string): (r: string)
    ensures |r| <= |s|
    ensures r == [] || (!IsSpace(r[0]) && !IsSpace(r[|r| - 1]))
  {
    var t := s[LeadingSpaces(s)..];
    t[..|t| - TrailingSpaces(t)]
  }

  /** What `Strip` removed is whitespace on both sides. */
  lemma StripParts(s: string) returns (front: string, back: string)
    ensures s == front + Strip(s) + back
    ensures AllSpace(front) && AllSpace(back)
  {
    var n := LeadingSpaces(s);
    var t := s[n..];
    var m := TrailingSpaces(t);
    var mid := t[..|t| - m];
    front, back := s[..n], t[|t| - m..];
    assert Strip(s) == mid;
    assert s == front + mid + back by {
      SplitAt(s, n);
      SplitAt(t, |t| - m);
      Assoc(front, mid, back);
    }
  }

  lemma SplitAt(s: string, n: nat)
    requires n <= |s|
    ensures s == s[..n] + s[n..]
  {
  }

  lemma Assoc(a: string, b: string, c: string)
    ensures a + (b + c) == a + b + c
  {
  }

  lemma Reassoc(a: string, b: string, c: string, d: string, e: string)
    ensures a + (b + c + d) + e == (a + b) + c + (d + e)
  {
  }

  lemma LeadingSpacesExact(s: string, k: nat)
    requires k <= |s| && AllSpace(s[..k]) && (k == |s| || !IsSpace(s[k]))
    ensures LeadingSpaces(s) == k
  {
    var n := LeadingSpaces(s);
    PrefixSpaces(s, k);
    PrefixSpaces(s, n);
  }

  lemma TrailingSpacesExact(s: string, k: nat)
    requires k <= |s| && AllSpace(s[|s| - k..]) && (k == |s| || !IsSpace(s[|s| - k - 1]))
    ensures TrailingSpaces(s) == k
  {
    var n := TrailingSpaces(s);
    SuffixSpaces(s, k);
    SuffixSpaces(s, n);
    if n < k {
      assert false;
    } else if k < n {
      assert false;
    }
  }

  lemma PrefixSpaces(s: string, k: nat)
    requires k <= |s| && AllSpace(s[..k])
    ensures forall j :: 0 <= j < k ==> IsSpace(s[j])
  {
    assert forall j :: 0 <= j < k ==> s[j] == s[..k][j];
  }

  lemma SuffixSpaces(s: string, k: nat)
    requires k <= |s| && AllSpace(s[|s| - k..])
    ensures forall j :: |s| - k <= j < |s| ==> IsSpace(s[j])
  {
    assert forall j :: |s| - k <= j < |s| ==> s[j] == s[|s| - k..][j - (|s| - k)];
  }

  /** `strip()` is determined by its result: whatever sits between two
      all-whitespace margins and neither starts nor ends with whitespace. */
  lemma StripUnique(s: string, front: string, mid: string, back: string)
    requires s == front + mid + back && AllSpace(front) && AllSpace(back)
    requires mid == [] || (!IsSpace(mid[0]) && !IsSpace(mid[|mid| - 1]))
    ensures Strip(s) == mid
  {
    if mid == [] {
      assert s[..|s|] == s;
      LeadingSpacesExact(s, |s|);
      assert s[|s|..] == [];
    } else {
      assert s[..|front|] == front;
      LeadingSpacesExact(s, |front|);
      var t := s[|front|..];
      assert t == mid + back;
      assert t[|t| - |back|..] == back;
      TrailingSpacesExact(t, |back|);
      assert t[..|t| - |back|] == mid;
    }
  }

  /** `strip()` is idempotent. */
  lemma StripIdempotent(s: string)
    ensures Strip(Strip(s)) == Strip(s)
  {
    assert Strip(s) == [] + Strip(s) + [];
    StripUnique(Strip(s), [], Strip(s), []);
  }

  /** Whitespace added around a string disappears under `strip()`. */
  lemma StripIgnoresPadding(before: string, s: string, after: string)
    requires AllSpace(before) && AllSpace(after)
    ensures Strip(before + s + after) == Strip(s)
  {
    var front, back := StripParts(s);
    var m := Strip(s);
    Reassoc(before, front, m, back, after);
    AllSpaceConcat(before, front);
    AllSpaceConcat(back, after);
    StripUnique(before + s + after, before + front, m, back + after);
  }

  lemma AllSpaceConcat(a: string, b: string)
    requires AllSpace(a) && AllSpace(b)
    ensures AllSpace(a + b)
  {
    assert forall i :: 0 <= i < |a + b| ==> (a + b)[i] == if i < |a| then a[i] else b[i - |a|];
  }

  // ---------------------------------------------------------------------
  // startswith, endswith, in

  predicate StartsWith(s: string, p: string) {
    |p| <= |s| && s[..|p|] == p
  }

  predicate EndsWith(s: string, p: string) {
    |p| <= |s| && s[|s| - |p|..] == p
  }

  /** Python's `p in s`. */
  predicate Contains(s: string, p: string)
    decreases |s|
  {
    StartsWith(s, p) || (s != [] && Contains(s[1..], p))
  }

  /** `p in s` holds exactly when `p` starts at some position of `s`. */
  lemma ContainsAt(s: string, p: string, i: nat)
    requires i <= |s| && StartsWith(s[i..], p)
    ensures Contains(s, p)
    decreases i
  {
    if i > 0 {
      assert s[1..][i - 1..] == s[i..];
      ContainsAt(s[1..], p, i - 1);
    }
  }

  /** Without `p` in `s`, no position of `s` starts with `p`. */
  lemma {:induction false} NowhereAbsent(s: string, p: string)
    requires !Contains(s, p)
    ensures forall i :: 0 <= i <= |s| ==> !StartsWith(s[i..], p)
    decreases |s|
  {
    if s != [] {
      NowhereAbsent(s[1..], p);
      assert forall i :: 1 <= i <= |s| ==> s[i..] == s[1..][i - 1..];
    }
  }

  /** A string containing `p` keeps containing it when text is added around it. */
  lemma ContainsExtend(before: string, s: string, after: string, p: string)
    requires Contains(s, p)
    ensures Contains(before + s + after, p)
    decreases |s|
  {
    if StartsWith(s, p) {
      var w := before + s + after;
      assert w[|before|..][..|p|] == s[..|p|];
      ContainsAt(w, p, |before|);
    } else {
      ContainsExtend(before + [s[0]], s[1..], after, p);
      assert before + [s[0]] + s[1..] + after == before + s + after;
    }
  }

  /** The position of the first occurrence of `p` in `s` (`s.find(p)`). */
  function Find(s: string, p: string): (r: Option<nat>)
    ensures r.None? <==> !Contains(s, p)
    ensures r.Some? ==> r.value + |p| <= |s| && StartsWith(s[r.value..], p)
    ensures r.Some? ==> forall j :: 0 <= j < r.value ==> !StartsWith(s[j..], p)
    decreases |s|
  {
    if StartsWith(s, p) then Some(0)
    else if s == [] then None
    else
      match Find(s[1..], p)
      case None => None
      case Some(i) =>
        assert s[i + 1..] == s[1..][i..];
        assert forall j :: 1 <= j < i + 1 ==> s[j..] == s[1..][j - 1..];
        Some(i + 1)
  }

  // ---------------------------------------------------------------------
  // replace(p, "")

  /** Python's `s.replace(p, "")`: every occurrence of `p`, found left to
      right without overlap, is deleted. */
  function RemoveAll(s: string, p: string): (r: string)
    requires p != []
    ensures |r| <= |s|
    decreases |s|
  {
    if s == [] then []
    else if StartsWith(s, p) then RemoveAll(s[|p|..], p)
    else [s[0]] + RemoveAll(s[1..], p)
  }

  /** Nothing to delete leaves the string as it was. */
  lemma {:induction false} RemoveAllAbsent(s: string, p: string)
    requires p != [] && !Contains(s, p)
    ensures RemoveAll(s, p) == s
    decreases |s|
  {
    if s != [] {
      RemoveAllAbsent(s[1..], p);
      assert s == [s[0]] + s[1..];
    }
  }

  /** `p` starts at `i` in `s` and at no earlier position, stated one
      character at a time. */
  predicate FirstAt(s: string, p: string, i: nat)
    decreases i
  {
    if i == 0 then StartsWith(s, p)
    else s != [] && !StartsWith(s, p) && FirstAt(s[1..], p, i - 1)
  }

  /** `Find` reports exactly the position where `p` first starts. */
  lemma {:induction false} FindFirstAt(s: string, p: string, i: nat)
    requires Find(s, p) == Some(i)
    ensures FirstAt(s, p, i) && i + |p| <= |s|
    decreases i
  {
    if i > 0 {
      assert !StartsWith(s, p) && s != [];
      FindFirstAt(s[1..], p, i - 1);
    }
  }

  /** Past a head that does not start `p`, the head is kept. */
  lemma RemoveAllKeep(s: string, p: string)
    requires p != [] && s != [] && !StartsWith(s, p)
    ensures RemoveAll(s, p) == [s[0]] + RemoveAll(s[1..], p)
  {
  }

  /** The scan keeps everything before the first `p` and deletes that `p`. */
  lemma {:induction false} RemoveAllAt(s: string, p: string, i: nat)
    requires p != [] && i + |p| <= |s| && FirstAt(s, p, i)
    ensures RemoveAll(s, p) == s[..i] + RemoveAll(s[i + |p|..], p)
    decreases i
  {
    if i > 0 {
      var u := s[1..];
      RemoveAllAt(u, p, i - 1);
      var t := RemoveAll(s[i + |p|..], p);
      assert u[i - 1 + |p|..] == s[i + |p|..];
      assert s[..i] == [s[0]] + u[..i - 1];
      RemoveAllKeep(s, p);
      ConcatAssoc([s[0]], u[..i - 1], t);
    }
  }

  /** `replace(p, "")` scans left to right: the text before the first `p`
      is kept, that `p` is deleted, and the scan resumes right after it. */
  lemma RemoveAllFirst(s: string, p: string, i: nat)
    requires p != [] && Find(s, p) == Some(i)
    ensures RemoveAll(s, p) == s[..i] + RemoveAll(s[i + |p|..], p)
  {
    FindFirstAt(s, p, i);
    RemoveAllAt(s, p, i);
  }

  /** A prefix `p` in front of text free of `p` is exactly what gets deleted. */
  lemma RemoveAllPrefix(p: string, rest: string)
    requires p != [] && !Contains(rest, p)
    ensures RemoveAll(p + rest, p) == rest
  {
    assert (p + rest)[..|p|] == p;
    assert (p + rest)[|p|..] == rest;
    RemoveAllAbsent(rest, p);
  }

  // ---------------------------------------------------------------------
  // split(sep) and sep.join(...)

  /** `s.split(sep)[0]` for a one-character separator: the text before the
      first `sep`, or all of `s`. */
  function Before(s: string, sep: char): (r: string)
    ensures StartsWith(s, r) && sep !in r
    ensures |r| == |s| || s[|r|] == sep
  {
    if s == [] || s[0] == sep then []
    else [s[0]] + Before(s[1..], sep)
  }

  /** `sep.join(pieces)`. */
  function Join(pieces: seq<string>, sep: string): string {
    if pieces == [] then []
    else if |pieces| == 1 then pieces[0]
    else pieces[0] + sep + Join(pieces[1..], sep)
  }

  /** Joining two non-empty lists puts exactly one separator at the seam. */
  lemma {:induction false} JoinConcat(a: seq<string>, b: seq<string>, sep: string)
    requires a != [] && b != []
    ensures Join(a + b, sep) == Join(a, sep) + sep + Join(b, sep)
    decreases |a|
  {
    if |a| == 1 {
      assert (a + b)[1..] == b;
    } else {
      assert (a + b)[1..] == a[1..] + b;
      JoinConcat(a[1..], b, sep);
      ConcatAssoc(a[0] + sep, Join(a[1..], sep) + sep, Join(b, sep));
      ConcatAssoc(a[0] + sep, Join(a[1..], sep), sep);
    }
  }
}
