# zipBoard help-centre crawler and gap-analysis run, in Dafny

This project models the core of a small pipeline. The pipeline crawls the
zipBoard help centre and builds one metadata record per article. Each record
holds the article's ID, title, category, URL, "Last Updated" text, content
type, keywords, word count, a screenshot flag and a "Gaps Identified" text.
On every run the pipeline compares the crawl with the state saved by the
previous run. It asks a rate-limited AI chat service for a documentation-gap
analysis only for articles that are new or whose "Last Updated" text
changed. Every other article gets its earlier analysis copied forward. The
state file and the Excel report are written only when something was analysed
or there was no usable earlier state.

Modules, one per concern of the source:

- `Text`: the string operations the source relies on, for ASCII. These are
  `lower()`, `strip()`, `startswith`/`endswith`/`in`, `find`,
  `replace(x, "")`, `split(c)[0]` and `join`.
- `Records`: the article record, the JSON values of the state file, the
  ten column names, and the record's JSON object form.
- `ContentType` (classify_content_type.py): the first-match-wins cascade of
  pattern lists over the lowercased, stripped title.
- `Keywords` (extract_keywords.py): tokenising, filtering, weighted
  counting and `most_common`.
  - A reference definition (`TopKeywords`) comes with the lemmas about it.
  - The in-place `Counter` is a class, and `ExtractKeywords` is proved
    equal to the reference.
- `ArticleUtils` (utils.py): the word count and the screenshot check.
- `Scraper` (scraper.py):
  - category and article link filtering;
  - the record built by `parse_article`;
  - the crawl with its visited set, as loops proved equal to a reference
    fold (`CrawlLinks`) over the article links.
- `Enrichment` (automation.py `generate_with_retry`,
  `get_ai_gap_analysis`): the retry loop, proved equal to a reference
  recursion (`Retry`), and the prompt.
- `Automation` (automation.py `load_state`, `save_state`, `main`):
  - the change classification;
  - the comparison loop and the save decision;
  - the column projection of the report;
  - a whole run, with lemmas about re-runs.

Inputs stand in for the outside world:

- The network and HTML parsing: the home page is its link targets. A
  category page is its `h1` and its article-list link targets. An article
  fetch is a scripted answer, indexed by the number of article fetches made
  so far.
- The AI service: an oracle giving, for a prompt and the index of the
  analysis in the run, the outcome of each successive call.
- `time.sleep`: the pauses are returned as data, in seconds.

## Model

| member | source | states |
|---|---|---|
| Text.Strip | automation.py:66 | the result is no longer than the input and neither starts nor ends with whitespace |
| Text.StripParts | classify_content_type.py:13 | what `strip()` removes is whitespace on both sides of the result |
| Text.StripUnique | classify_content_type.py:13 | `strip()` is determined by its result: any split of a string into whitespace, a middle that neither starts nor ends with whitespace, and whitespace strips to that middle |
| Text.StripIdempotent | classify_content_type.py:13 | stripping twice is stripping once |
| Text.StripIgnoresPadding | classify_content_type.py:13 | whitespace added around a string disappears under `strip()` |
| Text.Lower | classify_content_type.py:13 | ASCII `lower()`, character by character; `LowerLetters` states its properties |
| Text.LowerLetters | extract_keywords.py:34 | `lower()` keeps the length, leaves no capital letter, changes only capitals, and applying it twice is applying it once |
| Text.LowerKeepsSpace | classify_content_type.py:13 | lowercasing never turns whitespace into text or text into whitespace |
| Text.Contains | automation.py:70 | Python's `p in s`; `ContainsAt` and `NowhereAbsent` state that it holds exactly when `p` starts at some position of `s` |
| Text.ContainsAt | automation.py:70 | a pattern that starts at some position of a string is `in` it |
| Text.Find | scraper.py:82 | `find` answers none exactly when the pattern does not occur; otherwise the pattern starts at the answer and at no earlier position |
| Text.RemoveAll | scraper.py:85 | `replace(p, "")` never lengthens the text; how it scans is stated by `RemoveAllFirst` |
| Text.RemoveAllFirst | scraper.py:85 | `replace(p, "")` keeps the text before the first `p`, deletes that `p`, and goes on with the text right after it |
| Text.RemoveAllPrefix | scraper.py:85 | `replace(p, "")` applied to `p` followed by text free of `p` gives that text |
| Text.RemoveAllAbsent | scraper.py:85 | `replace(p, "")` leaves a string without `p` unchanged |
| Text.NowhereAbsent | scraper.py:82 | a pattern that does not occur in a string starts at none of its positions |
| Text.Before | scraper.py:82 | `split(c)[0]` is a prefix of the string without `c`, followed by `c` or the end of the string |
| Text.Join | scraper.py:94 | `sep.join(pieces)`: the pieces in order with `sep` between neighbours; `JoinConcat` states its structure |
| Text.JoinConcat | scraper.py:94 | joining two non-empty lists is joining each, with one separator at the seam |
| Records.ColumnsDistinct | automation.py:156-157 | the ten report columns are pairwise different |
| Records.ToFields | scraper.py:87-98 | the stored object has exactly the ten column keys, with the "Last Updated" text and the gap analysis under their keys |
| Records.FieldsRoundTrip | automation.py:17-39 | a record saved as a JSON object and read back is the same record |
| ContentType.Classify | classify_content_type.py:3-88 | the label is always one of the seven labels |
| ContentType.TroubleshootingFirst | classify_content_type.py:15-28 | Troubleshooting exactly when a troubleshooting word occurs in the normalised title, whatever else it says |
| ContentType.HowToStartsSubsumed | classify_content_type.py:30-35 | the how-to patterns together match exactly when `^how\b` does |
| ContentType.HowToExactly | classify_content_type.py:27-38 | How-To Guide exactly when no troubleshooting word occurs and the title starts with the word "how" |
| ContentType.FaqExactly | classify_content_type.py:40-51 | FAQ exactly when the earlier lists fail and a question opener starts the title or it ends with "?" |
| ContentType.GeneralExactly | classify_content_type.py:15-88 | General Guide exactly when no pattern of any of the six lists matches |
| ContentType.CaseAndPaddingIgnored | classify_content_type.py:13 | the label does not change under lowercasing or surrounding whitespace |
| Keywords.LetterRun | extract_keywords.py:34 | the run of letters at the front is all letters and is maximal |
| Keywords.Tokens | extract_keywords.py:34 | every token is a non-empty run of `a`-`z` |
| Keywords.Keep | extract_keywords.py:35 | every kept word qualifies (not a stopword, longer than three), and each qualifying word is kept as often as it occurs |
| Keywords.KeepConcat | extract_keywords.py:35 | the comprehension keeps the words' order: the kept words of a concatenation are those of its first part followed by those of its second |
| Keywords.KeepOne | extract_keywords.py:35 | a single word is kept exactly when it qualifies |
| Keywords.RepeatCount | extract_keywords.py:35 | a list repeated `k` times holds each word `k` times as often |
| Keywords.FedCount | extract_keywords.py:33-39 | feeding texts with weight `k` adds `k` per occurrence of a word in them |
| Keywords.AppendNew | extract_keywords.py:31-42 | the counter's keys: what was seen before, followed by every word fed, without repetition |
| Keywords.AppendNewAdds | extract_keywords.py:31-42 | the keys added after the earlier ones are fed words that were not keys yet |
| Keywords.AppendNewOrder | extract_keywords.py:31-42 | the keys added come in the order of their first occurrence among the fed words |
| Keywords.FirstSeenOrder | extract_keywords.py:31-44 | a key earlier in the counter's order first occurs earlier among the fed words |
| Keywords.AppendNewConcat | extract_keywords.py:33-42 | feeding two lists in turn orders the keys as feeding their concatenation |
| Keywords.CandidateIffScores | extract_keywords.py:31-42 | a word is a counter key exactly when its score (3 per heading, 2 per bold, 1 per body occurrence) is positive, and every key qualifies |
| Wrappers.Pos | extract_keywords.py:44 | the index of the first occurrence of an element (no earlier element equals it), and the length of the list for one that does not occur |
| Wrappers.PosConcat | extract_keywords.py:44 | the first occurrence in a concatenation is in the first part when the element occurs there, and otherwise in the second, shifted by the first part's length |
| Keywords.BestIndex | extract_keywords.py:44 | the chosen word ranks before every other remaining word |
| Keywords.RemoveAt | extract_keywords.py:44 | taking out one element keeps all others, still without repetition |
| Keywords.Select | extract_keywords.py:44 | `most_common(n)`: `min(n, size)` distinct candidates, in rank order, none outranked by a candidate left out |
| Keywords.Counter.Add | extract_keywords.py:35 | one more count for the word; a new word is appended to the key order |
| Keywords.Counter.Update | extract_keywords.py:35 | every count grows by the word's occurrences in the list; the key order grows by the new words in first-seen order |
| Keywords.Counter.MostCommon | extract_keywords.py:44 | `most_common(n)`: `min(n, size)` distinct keys, in rank order by count and then by first-seen order, none outranked by a key left out |
| Keywords.Feed | extract_keywords.py:33-39 | a weighted loop: each count grows by the weight times its occurrences in the texts, and the key order is that of the fed words |
| Keywords.TopKeywords | extract_keywords.py:19-44 | the reference result of `extract_keywords`: `most_common(top_n)` over the counter keys in first-seen order, scored by the weighted counts; its properties are the lemmas below |
| Keywords.TopKeywordsCount | extract_keywords.py:44 | exactly `min(top_n, m)` keywords, where `m` is the number of scoring words, and none for `top_n <= 0` |
| Keywords.TopKeywordsQualify | extract_keywords.py:44 | at most `top_n` distinct keywords, each qualifying and scoring |
| Keywords.TopKeywordsRanked | extract_keywords.py:44 | scores do not increase along the result, and no scoring word left out scores more than a returned one |
| Keywords.TopKeywordsTieOrder | extract_keywords.py:31-44 | keywords with equal scores come in the order their words first occur in what the counter was fed (headings, then bold, then body), and a scoring word left out with the same score as a keyword first occurs after it |
| Keywords.NoScoreNoKeywords | extract_keywords.py:44 | no qualifying token gives no keywords |
| Keywords.CountsAreScores | extract_keywords.py:31-42 | positive counts that agree with the score everywhere are the score map |
| Keywords.ExtractKeywords | extract_keywords.py:19-44 | the counter loops return exactly the reference `TopKeywords` |
| ArticleUtils.WordCount | utils.py:3-13 | `get_word_count`: `len(text.split())` over the stripped, non-empty text nodes joined by single spaces; `WordCountAdditive` states its value |
| ArticleUtils.RunsConcat | utils.py:12 | counting words over a concatenation splits at the seam |
| ArticleUtils.NoWordsIffBlank | utils.py:11-13 | a text has no words exactly when it is all whitespace |
| ArticleUtils.CountWordsStrip | utils.py:11 | stripping a text does not change its word count |
| ArticleUtils.StrippedNodes | utils.py:11 | `get_text(" ", strip=True)` joins no empty piece |
| ArticleUtils.JoinCountWords | utils.py:11-13 | joining with single spaces neither merges nor splits words |
| ArticleUtils.StrippedSum | utils.py:11 | dropping and stripping blank pieces keeps the total word count |
| ArticleUtils.WordCountAdditive | utils.py:11-13 | the word count of an article is the sum of its text nodes' word counts |
| ArticleUtils.HasScreenshots | utils.py:15-34 | "Yes" or "No"; "Yes" exactly when some image's `src` contains "docs/assets" and its lowercase names no logo, icon or avatar |
| ArticleUtils.MissingSrcNeverCounts | utils.py:28 | an image without `src` is never a screenshot |
| ArticleUtils.HasScreenshotsOrderFree | utils.py:25-34 | the answer does not depend on the order of the images |
| Scraper.GetCategories | scraper.py:29-41 | each category URL once, exactly the base URL plus each home-page link starting with "/category" |
| Scraper.ArticleLinks | scraper.py:59-63 | exactly the links starting with "/article", made absolute, with the category title, no more than there are links |
| Scraper.ArticleLinksConcat | scraper.py:59-63 | the links keep the order of the targets: the links of a concatenation are those of its first part followed by those of its second |
| Scraper.ArticleLinksOne | scraper.py:60-62 | one target gives one link, made absolute with the category title, when it starts with "/article", and none otherwise |
| Scraper.GetArticlesFromCategory | scraper.py:43-63 | the loop returns the reference list: none without an article list, else the article links titled by the `h1` or "No Title" |
| Scraper.IdOf | scraper.py:82 | what `.split('/article/')[0].split('-')[0]` takes: the longest prefix holding no '-' and in which no "/article/" starts |
| Scraper.IdOfUnique | scraper.py:82 | at most one text is the identifier described by `IdOf` |
| Scraper.Segment | scraper.py:82 | `split('/article/')[0]`: a prefix in which no "/article/" starts, followed by "/article/" or the end |
| Scraper.IdOfSegment | scraper.py:82 | the text before the first '-' of the segment is the identifier `IdOf` describes |
| Scraper.ArticleId | scraper.py:82 | none exactly when the URL lacks "/article/"; otherwise the text right after the first "/article/", up to the first '-', the next "/article/" or the end of the URL |
| Scraper.ArticleIdOfCanonical | scraper.py:62-82 | for a URL the crawler builds whose slug has no further "/article/", the ID is the slug up to its first '-' |
| Scraper.FindCanonicalMarker | scraper.py:62-82 | in such a URL the first "/article/" is the one right after the base URL |
| Scraper.LastUpdatedText | scraper.py:84-85 | "Not Available" without a `time.lu` element; otherwise its text with "Last updated on " removed, which is the text itself when it holds no such prefix; where the prefix occurs, `RemoveAllFirst` states what is kept |
| Scraper.ParseArticle | scraper.py:65-101 | a record exactly when the fetch succeeded, the page has the article element and the URL has "/article/"; the record keeps the URL and category, has an empty gap analysis and the `h1` or "No Title"; its content type is `classify_content_type` of its title, its screenshot flag and word count are those of the article element, its keywords are `extract_keywords` of the article element joined by ", ", its "Last Updated" is the text of the page's `time.lu` element, and its ID is the one cut from the URL |
| Scraper.AllText | extract_keywords.py:41 | `article.get_text()`: the article's text nodes concatenated in document order; stated by `AllTextIsJoin` and `AllTextConcat` |
| Scraper.AllTextIsJoin | extract_keywords.py:41 | `get_text()` is the empty-separator join of the text nodes |
| Scraper.AllTextConcat | extract_keywords.py:41 | the text of consecutive runs of nodes is their texts one after the other |
| Scraper.MarkerRequired | scraper.py:82-101 | a URL without "/article/" yields no record |
| Scraper.LastUpdatedOfStamp | scraper.py:84-85 | "Last updated on <date>" gives the date |
| Scraper.CrawlLinks | scraper.py:114-127 | the reference crawl: the `(url, category)` links visited in turn from no records and no fetches; its properties are `CrawlWellFormed`, `FirstParseKept`, `UnrecordedIsFetched` and `RecordedIsSkipped` |
| Scraper.CrawlWellFormed | scraper.py:114-125 | after any links, every key is recorded once in order, maps to the record of its own URL with the category of a link to it, and there were no more fetches than links |
| Scraper.FirstParseKept | scraper.py:117-125 | what was recorded stays recorded, unchanged and in the same order, and fetches only grow |
| Scraper.UnrecordedIsFetched | scraper.py:120-125 | a link whose URL has no record (never seen or whose parse failed) is fetched |
| Scraper.RecordedIsSkipped | scraper.py:120 | a link whose URL is recorded changes nothing |
| Scraper.VisitLinks | scraper.py:119-127 | the inner loop continues the reference crawl by the category's links; the visited set is the set of recorded URLs |
| Scraper.VisitOne | scraper.py:120-127 | one pass of the inner loop is one step of the reference crawl |
| Scraper.RecordParsed | scraper.py:122-127 | after a fetch: one more fetch, and the record stored when the page parsed |
| Scraper.ScrapeAllArticles | scraper.py:103-130 | the categories of the home page, each once, and the records, their order and the fetch count equal the reference crawl over all their article links |
| Enrichment.IsBusy | automation.py:70 | an error counts as a busy service exactly when its text contains "429" or "503" |
| Enrichment.Retry | automation.py:42-78 | the reference `generate_with_retry` as a function of the service's outcomes; stated by `RetryFirstFinal`, `RetryExhausted` and `RetryBounds` |
| Enrichment.Backoffs | automation.py:71 | the waits after attempts `i`, `i+1`, ... are `(i+1)*20`, `(i+2)*20`, ... |
| Enrichment.RetryFirstFinal | automation.py:53-76 | when attempt `k` is the first not busy: `k+1` calls, waits 20, 40, ... after the `k` busy ones, and the stripped reply or "Analysis Failed" |
| Enrichment.RetryExhausted | automation.py:53-78 | when every attempt is busy: all `retries` calls (none for `retries <= 0`), a wait after each, and "Rate Limit Exceeded" |
| Enrichment.RetryBounds | automation.py:53-78 | whatever the service does: at most `retries` calls, at most one wait per call on the 20-second schedule, and an answer that is a stripped reply or one of the two sentinels |
| Enrichment.BusyTwiceThenReply | automation.py:53-73 | busy twice then a reply: three calls, waits 20 and 40, the stripped reply |
| Enrichment.AlwaysBusy | automation.py:70-78 | always busy: three calls, waits 20, 40 and 60, "Rate Limit Exceeded" |
| Enrichment.OtherErrorStops | automation.py:74-76 | an error naming neither 429 nor 503: one call, no wait, "Analysis Failed" |
| Enrichment.GenerateWithRetry | automation.py:42-78 | the attempt loop returns the answer, call count and waits of the reference `Retry` |
| Enrichment.Prompt | automation.py:93-111 | the prompt contains the title and the category |
| Enrichment.QuotedTitleEnds | automation.py:97 | the quoted title ends at the first closing character after the head |
| Enrichment.PromptInjective | automation.py:93-111 | titles without the closing quote give different prompts for different titles or categories |
| Enrichment.InstructionsCloseTitle | automation.py:97 | the source's prompt closes the title with a double quote |
| Enrichment.GetAiGapAnalysis | automation.py:80-113 | the retry client with three attempts on the article's prompt |
| Automation.LoadState | automation.py:17-29 | no state exactly when the file is not valid JSON (`json.load` raises); an empty object when there is no file; the parsed document otherwise |
| Automation.PriorState | automation.py:121-122 | an object is the state itself; a document that is not an object is the empty state |
| Automation.Carried | automation.py:149 | `prev_state[url].get('Gaps Identified', "")`: the stored analysis when the record has one, the empty text otherwise |
| Automation.StatusOf | automation.py:131-136 | New exactly when the URL is not in the earlier state; Unchanged exactly when its record's "Last Updated" (none when missing) equals the new text |
| Automation.ChangedInOrder | automation.py:130-142 | the URLs analysed are exactly the new and updated ones |
| Automation.ChangedDistinct | automation.py:130-142 | no URL is analysed twice |
| Automation.CompareOne | automation.py:131-149 | one turn of the loop: a new or updated article gets the next analysis's answer with its waits, the pacing delay and its calls; any other one gets `prev_state[url].get('Gaps Identified', "")` |
| Automation.Reconcile | automation.py:126-151 | the records differ from the crawl's only in their gap analyses; new or updated articles get the `k`-th analysis in dict order; all others get their saved analysis; the pauses and calls are those of the analyses; save exactly when something was analysed or the earlier state was empty |
| Automation.Store | automation.py:31-39 | the saved state has exactly the crawl's URLs, so earlier URLs missing from the crawl are dropped, and each saved record reads back as the crawl's record |
| Automation.StoredRoundTrip | automation.py:17-39 | records saved as JSON objects read back as the same records, URL by URL |
| Automation.ProjectColumns | automation.py:158 | exactly the listed columns present in the data, without repetition when the list has none, and in list order |
| Automation.ProjectStep | automation.py:158 | the list order of a projection of the list's tail carries over to the whole list, also with its first column in front |
| Automation.PresentColumns | automation.py:155-158 | `df.columns`: every key of every record; `PresentColumnsExact` states its value |
| Automation.PresentColumnsExact | automation.py:155-158 | with a record the data frame has all ten columns, and with none it has no column |
| Automation.MakeReport | automation.py:155-161 | one row per record, each as wide as the header |
| Automation.ReportColumns | automation.py:155-159 | with a record the report has all ten columns in order; with none it is empty |
| Automation.ProjectAll | automation.py:158 | when every column is present the projection keeps the whole list |
| Automation.ProjectNone | automation.py:158 | when no column is present the projection is empty |
| Automation.RunFrom | automation.py:124-164 | a run from a loaded state: the crawl, the comparison as in `Reconcile`, and the state and report written exactly when the save decision says so |
| Automation.Run | automation.py:115-164 | `main`: no run when the state file is not valid JSON; otherwise `RunFrom` on the loaded state with the source's prompt |
| Automation.RerunIsQuiet | automation.py:131-149 | over the same crawl, after the saved state, every article is unchanged, gets back its analysis, and nothing is analysed |
| Automation.UnchangedSavesNothing | automation.py:138-145 | when every article is unchanged nothing is analysed |
| Automation.RerunWritesNothing | automation.py:130-164 | a run over the articles of a non-empty saved state with unchanged texts makes no call, no pause and no write |
| Automation.SentinelSticks | automation.py:131-149 | a failed analysis ("Analysis Failed" or "Rate Limit Exceeded") is carried forward and not retried while "Last Updated" stays the same |
| Automation.PacingCount | automation.py:147 | the 2-second pacing pause occurs once per analysed article and never among the retry waits |
| Automation.CallsBounded | automation.py:53-147 | at most three service calls per analysed article |
| Automation.FreshStartSaves | automation.py:119-122 | a missing file or a non-object document gives the empty state, so the run saves |

## Left out

- Network access, HTML parsing and `fetch` errors are not modelled. Pages are inputs. A category page whose fetch fails, which crashes the source's crawl, is not modelled.
- `time.sleep` is not modelled. Pauses are returned as data. The crawl's half-second pause after each article fetch equals the fetch count.
- `print` logging is not modelled.
- The Hugging Face client is not modelled: the model name, `max_tokens`, `temperature=0.5` and the system message. Service outcomes are a parameter.
- A reply whose content is `None` is not modelled. Replies are text.
- The prompt's fixed text is a parameter of the analysis client (`Template`). `Run` supplies the source's text.
- Unicode is not modelled: `lower()`, `isspace()` and `\w` are restricted to ASCII. General regular expressions are not modelled; each pattern is a prefix, substring or suffix test.
- JSON values other than null, booleans, integers and strings are kept as opaque text. A prior entry that is not an object (on which `.get` would raise) is not representable.
- Excel formatting and pandas are not modelled. The report is its header and rows.
- Objects are values: the records are a `map`, so aliasing between the crawl's dicts and the saved state is not modelled.
- Scraper.GetCategories: states membership and distinctness, not the order, which comes from a Python `set`.
- Keywords.Tokens: its contract states that tokens are non-empty runs of letters. Maximality comes from `LetterRun` and the definition, not from this contract.
- A state file that is not valid JSON stops the run (`json.load` raises and nothing catches it). The model follows the code: `Run` returns nothing.
