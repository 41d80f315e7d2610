/**
 * utils.py: the word count of an article and whether it shows screenshots.
 *
 * The article element is abstracted to what the two functions read from it:
 * its text nodes (for `get_text(" ", strip=True)`) and the `src` attribute
 * of each of its images (`None` where an image has none).
 */
module ArticleUtils {
  import opened Wrappers
  import opened Text

  // ---------------------------------------------------------------------
  // get_word_count

  /** Number of maximal runs of non-whitespace in `s`, given whether the
      character before `s` was part of a word: `len(s.split())` when
      `inWord` is false. */
  function Runs(s: string, inWord: bool): nat
    decreases |s|
  {
    if s == [] then 0
    else (if !IsSpace(s[0]) && !inWord then 1 else 0) + Runs(s[1..], !IsSpace(s[0]))
  }

  /** `len(s.split())`. */
  function CountWords(s: string): nat {
    Runs(s, false)
  }

  /** Whether the last character of `s` (or, for empty `s`, the one before it) is in a word. */
  function EndsInWord(s: string, inWord: bool): bool {
    if s == [] then inWord else !IsSpace(s[|s| - 1])
  }

  /** Counting runs over a concatenation splits at the seam. */
  lemma {:induction false} RunsConcat(a: string, b: string, inWord: bool)
    ensures Runs(a + b, inWord) == Runs(a, inWord) + Runs(b, EndsInWord(a, inWord))
    decreases |a|
  {
    if a != [] {
      assert (a + b)[1..] == a[1..] + b;
      RunsConcat(a[1..], b, !IsSpace(a[0]));
    } else {
      assert a + b == b;
    }
  }

  /** Whitespace holds no word. */
  lemma {:induction false} RunsOfSpace(s: string, inWord: bool)
    requires AllSpace(s)
    ensures Runs(s, inWord) == 0
    decreases |s|
  {
    if s != [] {
      RunsOfSpace(s[1..], false);
    }
  }

  /** A text has no words exactly when it is all whitespace. */
  lemma {:induction false} NoWordsIffBlank(s: string)
    ensures CountWords(s) == 0 <==> AllSpace(s)
    decreases |s|
  {
    if s != [] {
      if IsSpace(s[0]) {
        NoWordsIffBlank(s[1..]);
        assert AllSpace(s) <==> AllSpace(s[1..]);
      }
    }
    if AllSpace(s) {
      RunsOfSpace(s, false);
    }
  }

  /** Stripping a text does not change its word count. */
  lemma CountWordsStrip(s: string)
    ensures CountWords(Strip(s)) == CountWords(s)
  {
    var front, back := StripParts(s);
    RunsConcat(front + Strip(s), back, false);
    RunsConcat(front, Strip(s), false);
    RunsOfSpace(front, false);
    RunsOfSpace(back, EndsInWord(front + Strip(s), false));
    assert !EndsInWord(front, false);
  }

  /** The strings `get_text(" ", strip=True)` joins: every text node
      stripped, the empty ones dropped. */
  function StrippedNodes(nodes: seq<string>): (r: seq<string>)
    ensures forall i :: 0 <= i < |r| ==> r[i] != []
  {
    if nodes == [] then []
    else
      var rest := StrippedNodes(nodes[1..]);
      if Strip(nodes[0]) == [] then rest else [Strip(nodes[0])] + rest
  }

  /** `get_word_count(article)`. */
  function WordCount(nodes: seq<string>): nat {
    CountWords(Join(StrippedNodes(nodes), " "))
  }

  /** Sum of the word counts of the individual nodes. */
  function SumOfWords(nodes: seq<string>): nat {
    if nodes == [] then 0 else CountWords(nodes[0]) + SumOfWords(nodes[1..])
  }

  /** Joining with a single space neither merges nor splits words. */
  lemma {:induction false} JoinCountWords(pieces: seq<string>)
    ensures CountWords(Join(pieces, " ")) == SumOfWords(pieces)
    decreases |pieces|
  {
    if |pieces| == 1 {
      assert SumOfWords(pieces[1..]) == 0;
    } else if |pieces| > 1 {
      var rest := Join(pieces[1..], " ");
      JoinCountWords(pieces[1..]);
      RunsConcat(pieces[0] + " ", rest, false);
      RunsConcat(pieces[0], " ", false);
      assert Runs(" ", EndsInWord(pieces[0], false)) == 0;
    }
  }

  /** The word count of an article is the sum of its text nodes' word
      counts: it is additive over the pieces of text. */
  lemma {:induction false} WordCountAdditive(nodes: seq<string>)
    ensures WordCount(nodes) == SumOfWords(nodes)
    decreases |nodes|
  {
    JoinCountWords(StrippedNodes(nodes));
    StrippedSum(nodes);
  }

  lemma {:induction false} StrippedSum(nodes: seq<string>)
    ensures SumOfWords(StrippedNodes(nodes)) == SumOfWords(nodes)
    decreases |nodes|
  {
    if nodes != [] {
      StrippedSum(nodes[1..]);
      CountWordsStrip(nodes[0]);
      var rest := StrippedNodes(nodes[1..]);
      if Strip(nodes[0]) == [] {
        assert CountWords([]) == 0;
      } else {
        assert ([Strip(nodes[0])] + rest)[1..] == rest;
      }
    }
  }

  // ---------------------------------------------------------------------
  // has_screenshots

  const Yes := "Yes"
  const No := "No"
  const AssetsPath := "docs/assets"

  /** `img.get("src", "")`. */
  function SrcOf(image: Option<string>): string {
    image.GetOr("")
  }

  /** The source skips an image whose lowercased `src` names a logo, an icon
      or an avatar. */
  predicate Decorative(src: string) {
    var s := Lower(src);
    Contains(s, "logo") || Contains(s, "icon") || Contains(s, "avatar")
  }

  /** An image counts as a screenshot: not decorative, and its `src` (as
      written, case-sensitive) contains "docs/assets". */
  predicate IsScreenshot(src: string) {
    !Decorative(src) && Contains(src, AssetsPath)
  }

  /** `has_screenshots(article)`. */
  function HasScreenshots(images: seq<Option<string>>): (r: string)
    ensures r == Yes || r == No
    ensures r == Yes <==> exists i :: 0 <= i < |images| && IsScreenshot(SrcOf(images[i]))
  {
    if images == [] then No
    else
      var src := SrcOf(images[0]);
      var rest := HasScreenshots(images[1..]);
      assert forall i :: 1 <= i < |images| ==> images[i] == images[1..][i - 1];
      if Decorative(src) then rest
      else if Contains(src, AssetsPath) then Yes
      else rest
  }

  /** An image without `src` reads as "", which is never a screenshot. */
  lemma MissingSrcNeverCounts()
    ensures !IsScreenshot(SrcOf(None))
  {
    assert !StartsWith("", AssetsPath);
  }

  lemma ScreenshotCarries(x: seq<Option<string>>, y: seq<Option<string>>)
    requires multiset(x) == multiset(y)
    requires exists i :: 0 <= i < |x| && IsScreenshot(SrcOf(x[i]))
    ensures exists j :: 0 <= j < |y| && IsScreenshot(SrcOf(y[j]))
  {
    var i :| 0 <= i < |x| && IsScreenshot(SrcOf(x[i]));
    assert x[i] in multiset(x);
    assert x[i] in y;
    var j :| 0 <= j < |y| && y[j] == x[i];
  }

  /** The answer does not depend on the order of the images. */
  lemma HasScreenshotsOrderFree(a: seq<Option<string>>, b: seq<Option<string>>)
    requires multiset(a) == multiset(b)
    ensures HasScreenshots(a) == HasScreenshots(b)
  {
    if HasScreenshots(a) == Yes {
      ScreenshotCarries(a, b);
    }
    if HasScreenshots(b) == Yes {
      ScreenshotCarries(b, a);
    }
  }
}
