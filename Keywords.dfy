/**
 * extract_keywords.py: weighted keyword counting over an article.
 *
 * The article is abstracted to the three texts the source reads from it:
 * the texts of its h1/h2/h3 headings, the texts of its strong/b elements,
 * and the text of the whole article. Words are the maximal runs of `a`-`z`
 * in the lowercased text; a word counts when it is longer than three
 * letters and not a stopword. Each heading occurrence scores 3, each bold
 * occurrence 2 and each body occurrence 1. The result is the `top_n` best
 * scored words, ties broken by the order in which the counter first saw
 * them (what `Counter.most_common` promises).
 */
module Keywords {
  import opened Wrappers
  import opened Text

  const Stopwords: set<string> := {
    "this", "that", "with", "from", "your", "have", "will", "into",
    "using", "use", "used", "can", "how", "what", "when", "where",
    "there", "their", "about", "which", "while", "should",
    "could", "would", "these", "those", "been", "being",
    "them", "then", "than", "also", "more", "such",
    "only", "other", "some", "each", "very", "much",
    "many", "over", "under", "between", "does", "did",
    "doing", "done", "you", "are", "for", "the", "and",
    "but", "not", "all", "any", "our", "out", "get",
    "set", "add", "new", "zipboard", "click", "screen"
  }

  /** The number of keywords `parse_article` asks for (the default `top_n`). */
  const DefaultTopN := 10

  // ---------------------------------------------------------------------
  // re.findall(r'[a-z]+', text.lower())

  predicate IsLetter(c: char) { 'a' <= c <= 'z' }

  predicate AllLetters(w: string) {
    forall j :: 0 <= j < |w| ==> IsLetter(w[j])
  }

  /** Length of the run of letters at the front of `s`. */
  function LetterRun(s: string): (n: nat)
    ensures n <= |s| && AllLetters(s[..n])
    ensures n == |s| || !IsLetter(s[n])
  {
    if s == [] || !IsLetter(s[0]) then 0
    else
      var k := LetterRun(s[1..]);
      assert s[..k + 1] == [s[0]] + s[1..][..k];
      k + 1
  }

  /** The maximal runs of `a`-`z` in `s`, left to right. */
  function Tokens(s: string): (ws: seq<string>)
    ensures forall i :: 0 <= i < |ws| ==> |ws[i]| > 0 && AllLetters(ws[i])
    decreases |s|
  {
    if s == [] then []
    else if !IsLetter(s[0]) then Tokens(s[1..])
    else
      var n := LetterRun(s);
      [s[..n]] + Tokens(s[n..])
  }

  function Words(text: string): seq<string> {
    Tokens(Lower(text))
  }

  /** A word is counted: longer than three letters and not a stopword. */
  predicate Qualifies(w: string) {
    w !in Stopwords && |w| > 3
  }

  /** `[w for w in words if w not in STOPWORDS and len(w) > 3]`. */
  function Keep(words: seq<string>): (r: seq<string>)
    ensures forall w :: w in r ==> Qualifies(w)
    ensures forall w :: multiset(r)[w] == if Qualifies(w) then multiset(words)[w] else 0
  {
    if words == [] then []
    else
      var rest := Keep(words[1..]);
      assert words == [words[0]] + words[1..];
      if Qualifies(words[0]) then [words[0]] + rest else rest
  }

  /** The comprehension keeps the order of the words: it filters each part
      of a list on its own. */
  lemma {:induction false} KeepConcat(a: seq<string>, b: seq<string>)
    ensures Keep(a + b) == Keep(a) + Keep(b)
    decreases |a|
  {
    if a == [] {
      assert a + b == b;
    } else {
      var x, kept := a[0], if Qualifies(a[0]) then [a[0]] else [];
      assert (a + b)[0] == x && (a + b)[1..] == a[1..] + b;
      assert Keep(a + b) == kept + Keep(a[1..] + b);
      KeepConcat(a[1..], b);
      assert Keep(a) == kept + Keep(a[1..]);
      ConcatAssoc(kept, Keep(a[1..]), Keep(b));
    }
  }

  /** One word is kept exactly when it qualifies. */
  lemma KeepOne(w: string)
    ensures Keep([w]) == if Qualifies(w) then [w] else []
  {
  }

  /** The counted words of one text. */
  function Counted(text: string): seq<string> {
    Keep(Words(text))
  }

  /** `ws * k`. */
  function Repeat(ws: seq<string>, k: nat): (r: seq<string>)
    ensures forall w :: w in r ==> w in ws
  {
    if k == 0 then [] else ws + Repeat(ws, k - 1)
  }

  lemma {:induction false} RepeatCount(ws: seq<string>, k: nat, w: string)
    ensures multiset(Repeat(ws, k))[w] == k * multiset(ws)[w]
  {
    if k > 0 {
      var m := multiset(ws)[w];
      RepeatCount(ws, k - 1, w);
      assert multiset(Repeat(ws, k)) == multiset(ws) + multiset(Repeat(ws, k - 1));
      assert multiset(Repeat(ws, k))[w] == m + (k - 1) * m;
    }
  }

  // ---------------------------------------------------------------------
  // The reference definition of the score and of first-seen order

  /** Occurrences of `w` among the counted words of all `texts`. */
  function Occurrences(texts: seq<string>, w: string): nat {
    if texts == [] then 0
    else Occurrences(texts[..|texts| - 1], w) + multiset(Counted(texts[|texts| - 1]))[w]
  }

  /** 3 per heading occurrence, 2 per bold occurrence, 1 per body occurrence. */
  function Score(headings: seq<string>, emphasis: seq<string>, body: string, w: string): nat {
    3 * Occurrences(headings, w) + 2 * Occurrences(emphasis, w) + multiset(Counted(body))[w]
  }

  /** The words in the order the counter is fed them: each text's counted
      words repeated `k` times, text after text. */
  function Fed(texts: seq<string>, k: nat): (r: seq<string>)
    ensures forall w :: w in r ==> Qualifies(w)
  {
    if texts == [] then []
    else Fed(texts[..|texts| - 1], k) + Repeat(Counted(texts[|texts| - 1]), k)
  }

  function Stream(headings: seq<string>, emphasis: seq<string>, body: string): seq<string> {
    Fed(headings, 3) + Fed(emphasis, 2) + Counted(body)
  }

  lemma Distribute(k: nat, a: nat, b: nat, total: nat)
    requires total == a + b
    ensures k * total == k * a + k * b
  {
  }

  lemma {:induction false} FedCount(texts: seq<string>, k: nat, w: string)
    ensures multiset(Fed(texts, k))[w] == k * Occurrences(texts, w)
    decreases |texts|
  {
    if texts != [] {
      var init, last := texts[..|texts| - 1], Counted(texts[|texts| - 1]);
      var a, m := Occurrences(init, w), multiset(last)[w];
      assert multiset(Fed(texts, k))[w] == k * a + k * m by {
        FedCount(init, k, w);
        RepeatCount(last, k, w);
        assert Fed(texts, k) == Fed(init, k) + Repeat(last, k);
      }
      Distribute(k, a, m, Occurrences(texts, w));
    }
  }

  /** `seen` followed by the words of `ws` not seen before, in first-seen order. */
  function AppendNew(seen: seq<string>, ws: seq<string>): (r: seq<string>)
    ensures Distinct(seen) ==> Distinct(r)
    ensures forall w :: w in r <==> w in seen || w in ws
    ensures |seen| <= |r| && r[..|seen|] == seen
  {
    if ws == [] then seen
    else
      var s := AppendNew(seen, ws[..|ws| - 1]);
      var w := ws[|ws| - 1];
      assert forall x :: x in ws <==> x in ws[..|ws| - 1] || x == w;
      if w in s then s else s + [w]
  }

  /** The words `AppendNew` adds after `seen` are words of `ws` not in `seen`. */
  lemma {:induction false} AppendNewAdds(seen: seq<string>, ws: seq<string>)
    ensures forall i :: |seen| <= i < |AppendNew(seen, ws)| ==>
              AppendNew(seen, ws)[i] in ws && AppendNew(seen, ws)[i] !in seen
    decreases |ws|
  {
    if ws != [] {
      var init := ws[..|ws| - 1];
      AppendNewAdds(seen, init);
      assert forall x :: x in init ==> x in ws;
    }
  }

  /** The words `AppendNew` adds after `seen` come in the order of their
      first occurrence in `ws`. */
  lemma {:induction false} AppendNewOrder(seen: seq<string>, ws: seq<string>)
    ensures forall i, j :: |seen| <= i < j < |AppendNew(seen, ws)| ==>
              Pos(ws, AppendNew(seen, ws)[i]) < Pos(ws, AppendNew(seen, ws)[j])
    decreases |ws|
  {
    if ws != [] {
      var init, w := ws[..|ws| - 1], ws[|ws| - 1];
      var s := AppendNew(seen, init);
      AppendNewOrder(seen, init);
      AppendNewAdds(seen, init);
      assert ws == init + [w];
      forall i | |seen| <= i < |s|
        ensures Pos(ws, s[i]) == Pos(init, s[i]) < |init|
      {
        PosConcat(init, [w], s[i]);
      }
      if w !in s {
        PosConcat(init, [w], w);
      }
    }
  }

  lemma AppendNewSnoc(seen: seq<string>, ws: seq<string>, w: string)
    ensures AppendNew(seen, ws + [w]) ==
              var s := AppendNew(seen, ws); if w in s then s else s + [w]
  {
    assert (ws + [w])[..|ws|] == ws;
  }

  lemma {:induction false} AppendNewConcat(seen: seq<string>, a: seq<string>, b: seq<string>)
    ensures AppendNew(seen, a + b) == AppendNew(AppendNew(seen, a), b)
    decreases |b|
  {
    if b == [] {
      assert a + b == a;
    } else {
      assert (a + b)[..|a + b| - 1] == a + b[..|b| - 1];
      AppendNewConcat(seen, a, b[..|b| - 1]);
    }
  }

  /** The counted words in first-seen order: the counter's keys. */
  function Candidates(headings: seq<string>, emphasis: seq<string>, body: string): seq<string> {
    AppendNew([], Stream(headings, emphasis, body))
  }

  function ScoreMap(headings: seq<string>, emphasis: seq<string>, body: string): map<string, nat> {
    map w | w in Candidates(headings, emphasis, body) :: Score(headings, emphasis, body, w)
  }

  /** A word is a candidate exactly when it scores; every candidate qualifies. */
  lemma CandidateIffScores(headings: seq<string>, emphasis: seq<string>, body: string, w: string)
    ensures w in Candidates(headings, emphasis, body) <==> Score(headings, emphasis, body, w) > 0
    ensures w in Candidates(headings, emphasis, body) ==> Qualifies(w)
  {
    FedCount(headings, 3, w);
    FedCount(emphasis, 2, w);
    var s := Stream(headings, emphasis, body);
    assert multiset(s)[w] == Score(headings, emphasis, body, w);
    assert w in s <==> w in multiset(s);
  }

  // ---------------------------------------------------------------------
  // most_common(n): a stable sort by count, highest first, then the first n

  function ScoreOf(score: map<string, nat>, w: string): nat {
    if w in score then score[w] else 0
  }

  /** `a` comes before `b` in `most_common`: a higher count, or the same
      count and seen first. */
  predicate Ranked(score: map<string, nat>, order: seq<string>, a: string, b: string) {
    ScoreOf(score, a) > ScoreOf(score, b) ||
    (ScoreOf(score, a) == ScoreOf(score, b) && Pos(order, a) < Pos(order, b))
  }

  /** Index of the element of `rem` that ranks before all others. */
  function BestIndex(rem: seq<string>, score: map<string, nat>, order: seq<string>): (k: nat)
    requires rem != [] && forall x :: x in rem ==> x in order
    ensures k < |rem|
    ensures forall y :: y in rem && y != rem[k] ==> Ranked(score, order, rem[k], y)
    decreases |rem|
  {
    if |rem| == 1 then 0
    else
      var k := BestIndex(rem[1..], score, order) + 1;
      assert forall y :: y in rem ==> y == rem[0] || y in rem[1..];
      if rem[0] != rem[k] && Ranked(score, order, rem[0], rem[k]) then 0
      else
        assert rem[0] != rem[k] ==> Pos(order, rem[0]) != Pos(order, rem[k]);
        k
  }

  /** Taking out the element at `k` leaves every other one, still distinct. */
  lemma RemoveAt(rem: seq<string>, k: nat)
    requires Distinct(rem) && k < |rem|
    ensures forall x :: x in rem[..k] + rem[k + 1..] <==> x in rem && x != rem[k]
    ensures Distinct(rem[..k] + rem[k + 1..])
  {
    var others := rem[..k] + rem[k + 1..];
    forall x | x in rem && x != rem[k] ensures x in others {
      var i :| 0 <= i < |rem| && rem[i] == x;
      if i < k { assert x == rem[..k][i]; } else { assert x == rem[k + 1..][i - k - 1]; }
    }
    forall i, j | 0 <= i < j < |others| ensures others[i] != others[j] {
      var i' := if i < k then i else i + 1;
      var j' := if j < k then j else j + 1;
      assert others[i] == rem[i'] && others[j] == rem[j'];
    }
  }

  /** The best remaining element in front of a selection from the others
      is a selection from all of them. */
  lemma SelectCons(rem: seq<string>, score: map<string, nat>, order: seq<string>, k: nat, rest: seq<string>)
    requires k < |rem|
    requires forall y :: y in rem && y != rem[k] ==> Ranked(score, order, rem[k], y)
    requires forall x :: x in rest ==> x in rem && x != rem[k]
    requires Distinct(rest)
    requires forall i, j :: 0 <= i < j < |rest| ==> Ranked(score, order, rest[i], rest[j])
    requires forall x, i :: x in rem && x != rem[k] && x !in rest && 0 <= i < |rest| ==>
               Ranked(score, order, rest[i], x)
    ensures Distinct([rem[k]] + rest)
    ensures forall i, j :: 0 <= i < j < |[rem[k]] + rest| ==>
              Ranked(score, order, ([rem[k]] + rest)[i], ([rem[k]] + rest)[j])
    ensures forall x, i :: x in rem && x !in [rem[k]] + rest && 0 <= i < |[rem[k]] + rest| ==>
              Ranked(score, order, ([rem[k]] + rest)[i], x)
  {
    var r := [rem[k]] + rest;
    assert forall i :: 1 <= i < |r| ==> r[i] == rest[i - 1] && r[i] in rest;
  }

  /** The first `n` elements of `rem` sorted by `Ranked`. */
  function Select(rem: seq<string>, score: map<string, nat>, order: seq<string>, n: int): (r: seq<string>)
    requires Distinct(rem) && forall x :: x in rem ==> x in order
    ensures |r| == if n <= 0 then 0 else if n < |rem| then n else |rem|
    ensures Distinct(r)
    ensures forall x :: x in r ==> x in rem
    ensures forall i, j :: 0 <= i < j < |r| ==> Ranked(score, order, r[i], r[j])
    ensures forall x, i :: x in rem && x !in r && 0 <= i < |r| ==> Ranked(score, order, r[i], x)
    decreases |rem|
  {
    if n <= 0 || rem == [] then []
    else
      var k := BestIndex(rem, score, order);
      var best := rem[k];
      var others := rem[..k] + rem[k + 1..];
      RemoveAt(rem, k);
      var rest := Select(others, score, order, n - 1);
      SelectCons(rem, score, order, k, rest);
      [best] + rest
  }

  /** What `extract_keywords` returns, as a function of its inputs. */
  function TopKeywords(headings: seq<string>, emphasis: seq<string>, body: string, topN: int): seq<string> {
    var cands := Candidates(headings, emphasis, body);
    Select(cands, ScoreMap(headings, emphasis, body), cands, topN)
  }

  // ---------------------------------------------------------------------
  // The counter the source updates in place

  /** `counts` is `start` with one more for each occurrence in `ws`. */
  ghost predicate Tallied(start: map<string, nat>, counts: map<string, nat>, ws: seq<string>) {
    forall w :: ScoreOf(counts, w) == ScoreOf(start, w) + multiset(ws)[w]
  }

  lemma TalliedSnoc(start: map<string, nat>, before: map<string, nat>, after: map<string, nat>,
                    ws: seq<string>, x: string)
    requires Tallied(start, before, ws)
    requires forall w :: ScoreOf(after, w) == ScoreOf(before, w) + (if w == x then 1 else 0)
    ensures Tallied(start, after, ws + [x])
  {
    assert multiset(ws + [x]) == multiset(ws) + multiset{x};
  }

  /** `collections.Counter` restricted to what the source uses: counts that
      only grow, and keys in the order they were first added. */
  class Counter {
    var counts: map<string, nat>
    var order: seq<string>

    ghost predicate Valid()
      reads this
    {
      && Distinct(order)
      && (forall w :: w in counts <==> w in order)
      && (forall w :: w in counts ==> counts[w] > 0)
    }

    function Count(w: string): nat
      reads this
    {
      if w in counts then counts[w] else 0
    }

    constructor ()
      ensures Valid() && counts == map[] && order == []
    {
      counts := map[];
      order := [];
    }

    /** One more occurrence of `w`. */
    method Add(w: string)
      requires Valid()
      modifies this
      ensures Valid()
      ensures forall x :: ScoreOf(counts, x) == ScoreOf(old(counts), x) + (if x == w then 1 else 0)
      ensures order == if w in old(order) then old(order) else old(order) + [w]
    {
      if w in counts {
        counts := counts[w := counts[w] + 1];
      } else {
        counts := counts[w := 1];
        order := order + [w];
      }
    }

    /** `counter.update(ws)`: one more for each element, new keys appended. */
    method Update(ws: seq<string>)
      requires Valid()
      modifies this
      ensures Valid()
      ensures forall w :: Count(w) == old(Count(w)) + multiset(ws)[w]
      ensures order == AppendNew(old(order), ws)
    {
      ghost var start := counts;
      var i := 0;
      while i < |ws|
        invariant 0 <= i <= |ws| && Valid()
        invariant Tallied(start, counts, ws[..i])
        invariant order == AppendNew(old(order), ws[..i])
      {
        assert ws[..i + 1] == ws[..i] + [ws[i]];
        AppendNewSnoc(old(order), ws[..i], ws[i]);
        ghost var before := counts;
        Add(ws[i]);
        TalliedSnoc(start, before, counts, ws[..i], ws[i]);
        i := i + 1;
      }
      assert ws[..i] == ws;
    }

    /** `counter.most_common(n)`, keys only. */
    function MostCommon(n: int): (r: seq<string>)
      reads this
      requires Valid()
      ensures |r| == if n <= 0 then 0 else if n < |order| then n else |order|
      ensures Distinct(r) && forall w :: w in r ==> w in counts
      ensures forall i, j :: 0 <= i < j < |r| ==> Ranked(counts, order, r[i], r[j])
      ensures forall w, i :: w in counts && w !in r && 0 <= i < |r| ==> Ranked(counts, order, r[i], w)
    {
      Select(order, counts, order, n)
    }
  }

  /** Adding one more text to a fed sequence. */
  lemma FedSnoc(texts: seq<string>, i: nat, k: nat)
    requires i < |texts|
    ensures Fed(texts[..i + 1], k) == Fed(texts[..i], k) + Repeat(Counted(texts[i]), k)
    ensures forall w :: Occurrences(texts[..i + 1], w) == Occurrences(texts[..i], w) + multiset(Counted(texts[i]))[w]
  {
    assert texts[..i + 1][..i] == texts[..i];
  }

  /** One of the source's per-tag loops: the counted words of each text,
      `weight` times over, fed to the counter. */
  method Feed(freq: Counter, texts: seq<string>, weight: nat)
    requires freq.Valid()
    modifies freq
    ensures freq.Valid()
    ensures freq.order == AppendNew(old(freq.order), Fed(texts, weight))
    ensures forall w :: freq.Count(w) == old(freq.Count(w)) + weight * Occurrences(texts, w)
  {
    ghost var start := freq.counts;
    for i := 0 to |texts|
      invariant freq.Valid()
      invariant freq.order == AppendNew(old(freq.order), Fed(texts[..i], weight))
      invariant forall w :: freq.Count(w) == ScoreOf(start, w) + weight * Occurrences(texts[..i], w)
    {
      var words := Repeat(Counted(texts[i]), weight);
      FedSnoc(texts, i, weight);
      AppendNewConcat(old(freq.order), Fed(texts[..i], weight), words);
      ghost var before := freq.counts;
      freq.Update(words);
      forall w ensures freq.Count(w) == ScoreOf(start, w) + weight * Occurrences(texts[..i + 1], w) {
        var a, m := Occurrences(texts[..i], w), multiset(Counted(texts[i]))[w];
        assert ScoreOf(before, w) == ScoreOf(start, w) + weight * a;
        assert multiset(words)[w] == weight * m by {
          RepeatCount(Counted(texts[i]), weight, w);
        }
        assert Occurrences(texts[..i + 1], w) == a + m;
        assert freq.Count(w) == ScoreOf(before, w) + multiset(words)[w];
        var total := Occurrences(texts[..i + 1], w);
        Distribute(weight, a, m, total);
      }
    }
    assert texts[..|texts|] == texts;
  }

  /** The keywords are at most `topN` distinct qualifying words, each of
      which scores. */
  lemma TopKeywordsQualify(headings: seq<string>, emphasis: seq<string>, body: string, topN: int)
    ensures Distinct(TopKeywords(headings, emphasis, body, topN))
    ensures |TopKeywords(headings, emphasis, body, topN)| <= if topN <= 0 then 0 else topN
    ensures forall w :: w in TopKeywords(headings, emphasis, body, topN) ==>
              Qualifies(w) && Score(headings, emphasis, body, w) > 0
  {
    forall w | w in TopKeywords(headings, emphasis, body, topN)
      ensures Qualifies(w) && Score(headings, emphasis, body, w) > 0
    {
      CandidateIffScores(headings, emphasis, body, w);
    }
  }

  /** There are `min(topN, n)` keywords (none when `topN <= 0`), where `n`
      is the number of scoring words: the candidates, each listed once. */
  lemma TopKeywordsCount(headings: seq<string>, emphasis: seq<string>, body: string, topN: int)
    ensures Distinct(Candidates(headings, emphasis, body))
    ensures forall w :: w in Candidates(headings, emphasis, body) <==> Score(headings, emphasis, body, w) > 0
    ensures var n := |Candidates(headings, emphasis, body)|;
      |TopKeywords(headings, emphasis, body, topN)| == if topN <= 0 then 0 else if topN < n then topN else n
  {
    forall w ensures w in Candidates(headings, emphasis, body) <==> Score(headings, emphasis, body, w) > 0 {
      CandidateIffScores(headings, emphasis, body, w);
    }
  }

  /** Highest score first, and no scoring word is left out while a word
      with a lower score is kept. */
  lemma TopKeywordsRanked(headings: seq<string>, emphasis: seq<string>, body: string, topN: int)
    ensures var keywords := TopKeywords(headings, emphasis, body, topN);
      forall i, j :: 0 <= i < j < |keywords| ==>
        Score(headings, emphasis, body, keywords[i]) >= Score(headings, emphasis, body, keywords[j])
    ensures var keywords := TopKeywords(headings, emphasis, body, topN);
      forall w, i :: 0 <= i < |keywords| && w !in keywords && Score(headings, emphasis, body, w) > 0 ==>
        Score(headings, emphasis, body, w) <= Score(headings, emphasis, body, keywords[i])
  {
    var keywords := TopKeywords(headings, emphasis, body, topN);
    var scores := ScoreMap(headings, emphasis, body);
    forall w | w in keywords
      ensures ScoreOf(scores, w) == Score(headings, emphasis, body, w)
    {
      CandidateIffScores(headings, emphasis, body, w);
    }
    forall w | Score(headings, emphasis, body, w) > 0
      ensures w in Candidates(headings, emphasis, body) && ScoreOf(scores, w) == Score(headings, emphasis, body, w)
    {
      CandidateIffScores(headings, emphasis, body, w);
    }
  }

  /** Earlier among the first-seen words is earlier in the words. */
  lemma FirstSeenOrder(ws: seq<string>, a: string, b: string)
    requires a in AppendNew([], ws) && b in AppendNew([], ws)
    requires Pos(AppendNew([], ws), a) < Pos(AppendNew([], ws), b)
    ensures Pos(ws, a) < Pos(ws, b)
  {
    var r := AppendNew([], ws);
    AppendNewOrder([], ws);
    assert r[Pos(r, a)] == a && r[Pos(r, b)] == b;
  }

  /** Keywords with the same score come in the order their words first
      occur in what the counter was fed, and a scoring word left out with
      the same score as a keyword first occurs after it. */
  lemma TopKeywordsTieOrder(headings: seq<string>, emphasis: seq<string>, body: string, topN: int)
    ensures var keywords, stream := TopKeywords(headings, emphasis, body, topN), Stream(headings, emphasis, body);
      forall i, j :: (0 <= i < j < |keywords| &&
        Score(headings, emphasis, body, keywords[i]) == Score(headings, emphasis, body, keywords[j])) ==>
        Pos(stream, keywords[i]) < Pos(stream, keywords[j])
    ensures var keywords, stream := TopKeywords(headings, emphasis, body, topN), Stream(headings, emphasis, body);
      forall w, i :: (0 <= i < |keywords| && w !in keywords && Score(headings, emphasis, body, w) > 0 &&
        Score(headings, emphasis, body, w) == Score(headings, emphasis, body, keywords[i])) ==>
        Pos(stream, keywords[i]) < Pos(stream, w)
  {
    var keywords := TopKeywords(headings, emphasis, body, topN);
    var cands := Candidates(headings, emphasis, body);
    var scores := ScoreMap(headings, emphasis, body);
    forall i, j | 0 <= i < j < |keywords| &&
        Score(headings, emphasis, body, keywords[i]) == Score(headings, emphasis, body, keywords[j])
      ensures Pos(Stream(headings, emphasis, body), keywords[i]) < Pos(Stream(headings, emphasis, body), keywords[j])
    {
      CandidateIffScores(headings, emphasis, body, keywords[i]);
      CandidateIffScores(headings, emphasis, body, keywords[j]);
      assert Ranked(scores, cands, keywords[i], keywords[j]);
      FirstSeenOrder(Stream(headings, emphasis, body), keywords[i], keywords[j]);
    }
    forall w, i | 0 <= i < |keywords| && w !in keywords && Score(headings, emphasis, body, w) > 0 &&
        Score(headings, emphasis, body, w) == Score(headings, emphasis, body, keywords[i])
      ensures Pos(Stream(headings, emphasis, body), keywords[i]) < Pos(Stream(headings, emphasis, body), w)
    {
      CandidateIffScores(headings, emphasis, body, keywords[i]);
      CandidateIffScores(headings, emphasis, body, w);
      assert Ranked(scores, cands, keywords[i], w);
      FirstSeenOrder(Stream(headings, emphasis, body), keywords[i], w);
    }
  }

  /** When no word scores, there are no keywords at all. */
  lemma NoScoreNoKeywords(headings: seq<string>, emphasis: seq<string>, body: string, topN: int)
    requires forall w :: Score(headings, emphasis, body, w) == 0
    ensures TopKeywords(headings, emphasis, body, topN) == []
  {
    var cands := Candidates(headings, emphasis, body);
    if cands != [] {
      CandidateIffScores(headings, emphasis, body, cands[0]);
    }
  }

  /** Positive counts that agree with the score everywhere are the score map. */
  lemma CountsAreScores(counts: map<string, nat>, headings: seq<string>, emphasis: seq<string>, body: string)
    requires forall w :: w in counts ==> counts[w] > 0
    requires forall w :: ScoreOf(counts, w) == Score(headings, emphasis, body, w)
    ensures counts == ScoreMap(headings, emphasis, body)
  {
    forall w ensures w in counts <==> w in ScoreMap(headings, emphasis, body) {
      CandidateIffScores(headings, emphasis, body, w);
    }
  }

  /** `extract_keywords(article, top_n)`: the counter fed heading words three
      times, bold words twice and body words once, then its `most_common`. */
  method ExtractKeywords(headings: seq<string>, emphasis: seq<string>, body: string, topN: int)
    returns (keywords: seq<string>)
    ensures keywords == TopKeywords(headings, emphasis, body, topN)
  {
    var freq := new Counter();
    Feed(freq, headings, 3);
    Feed(freq, emphasis, 2);
    freq.Update(Counted(body));
    AppendNewConcat([], Fed(headings, 3), Fed(emphasis, 2));
    AppendNewConcat([], Fed(headings, 3) + Fed(emphasis, 2), Counted(body));
    assert freq.order == Candidates(headings, emphasis, body);
    CountsAreScores(freq.counts, headings, emphasis, body);
    keywords := freq.MostCommon(topN);
  }
}
