/**
 * The gap-analysis client of automation.py: one prompt per article, sent to
 * a rate-limited chat-completion service with a bounded retry loop.
 *
 * The service is not called here. Its behaviour is a parameter: for one
 * prompt, `Attempts` gives the outcome of the first, second, third ...
 * call. The sleeps the client performs are returned as data, in seconds.
 */
module Enrichment {
  import opened Text

  const DefaultRetries := 3
  const BackoffStep := 20
  const AnalysisFailed := "Analysis Failed"
  const RateLimitExceeded := "Rate Limit Exceeded"

  /** What one `chat_completion` call gives: the reply's message content, or
      the text of the exception it raised. */
  datatype Outcome = Reply(content: string) | Raised(message: string)

  /** The outcome of each successive call for one prompt. */
  type Attempts = nat -> Outcome

  /** A rate-limit or service-busy signal: the error text mentions 429 or 503. */
  predicate IsBusy(message: string) {
    Contains(message, "429") || Contains(message, "503")
  }

  /** An outcome after which the client stops: anything but a busy error. */
  predicate Final(o: Outcome) {
    o.Reply? || !IsBusy(o.message)
  }

  /** What the client returns for an outcome that stops it: the stripped
      reply, or the failure sentinel for any other error. */
  function Settle(o: Outcome): string {
    match o
    case Reply(content) => Strip(content)
    case Raised(_) => AnalysisFailed
  }

  /** The wait after a busy error on attempt `attempt` (counted from 0). */
  function Backoff(attempt: nat): nat {
    (attempt + 1) * BackoffStep
  }

  /** The `count` waits after attempts `from`, `from + 1`, ... */
  function Backoffs(from: nat, count: nat): (r: seq<nat>)
    ensures |r| == count
    ensures forall i :: 0 <= i < |r| ==> r[i] == Backoff(from + i)
    decreases count
  {
    if count == 0 then [] else [Backoff(from)] + Backoffs(from + 1, count - 1)
  }

  /** What one call of the client amounts to: its answer, how many calls
      it made and the waits it slept, in order. */
  datatype Retried = Retried(answer: string, calls: nat, waits: seq<nat>)

  /** The client started at attempt `attempt` of `retries`. */
  function RetryFrom(attempts: Attempts, retries: int, attempt: nat): Retried
    decreases retries - attempt
  {
    if retries <= attempt then Retried(RateLimitExceeded, 0, [])
    else if Final(attempts(attempt)) then Retried(Settle(attempts(attempt)), 1, [])
    else
      var rest := RetryFrom(attempts, retries, attempt + 1);
      Retried(rest.answer, rest.calls + 1, [Backoff(attempt)] + rest.waits)
  }

  /** `generate_with_retry(prompt, retries)` as a function of the outcomes. */
  function Retry(attempts: Attempts, retries: int): Retried {
    RetryFrom(attempts, retries, 0)
  }

  /** When attempt `k` is the first that does not report a busy service,
      the client makes exactly `k + 1` calls, sleeps 20, 40, ... seconds
      after each of the `k` busy ones, and answers what attempt `k` gave. */
  lemma {:induction false} RetryFromFirstFinal(attempts: Attempts, retries: int, from: nat, k: nat)
    requires from <= k < retries && Final(attempts(k))
    requires forall j :: from <= j < k ==> !Final(attempts(j))
    ensures RetryFrom(attempts, retries, from) == Retried(Settle(attempts(k)), k - from + 1, Backoffs(from, k - from))
    decreases k - from
  {
    if from < k {
      RetryFromFirstFinal(attempts, retries, from + 1, k);
    }
  }

  lemma RetryFirstFinal(attempts: Attempts, retries: int, k: nat)
    requires k < retries && Final(attempts(k))
    requires forall j :: 0 <= j < k ==> !Final(attempts(j))
    ensures Retry(attempts, retries) == Retried(Settle(attempts(k)), k + 1, Backoffs(0, k))
  {
    RetryFromFirstFinal(attempts, retries, 0, k);
  }

  /** When every attempt reports a busy service, the client makes all
      `retries` calls, sleeps after every one of them (after the last one
      too) and answers the rate-limit sentinel. */
  lemma {:induction false} RetryFromExhausted(attempts: Attempts, retries: nat, from: nat)
    requires from <= retries
    requires forall j :: from <= j < retries ==> !Final(attempts(j))
    ensures RetryFrom(attempts, retries, from) == Retried(RateLimitExceeded, retries - from, Backoffs(from, retries - from))
    decreases retries - from
  {
    if from < retries {
      RetryFromExhausted(attempts, retries, from + 1);
    }
  }

  lemma RetryExhausted(attempts: Attempts, retries: int)
    requires forall j :: 0 <= j < retries ==> !Final(attempts(j))
    ensures var n := if retries < 0 then 0 else retries;
            Retry(attempts, retries) == Retried(RateLimitExceeded, n, Backoffs(0, n))
  {
    if retries >= 0 {
      RetryFromExhausted(attempts, retries, 0);
    }
  }

  /** Whatever the service does: at most `retries` calls, one wait per busy
      error, the waits growing by 20 seconds each time, and the answer is
      a reply, or one of the two sentinels. */
  lemma {:induction false} RetryFromBounds(attempts: Attempts, retries: int, from: nat)
    ensures var r := RetryFrom(attempts, retries, from);
      && r.calls <= (if retries <= from then 0 else retries - from)
      && |r.waits| <= r.calls
      && r.waits == Backoffs(from, |r.waits|)
      && (r.answer == RateLimitExceeded || r.answer == AnalysisFailed ||
          exists j :: from <= j < retries && attempts(j).Reply? && r.answer == Strip(attempts(j).content))
    decreases retries - from
  {
    if from < retries && !Final(attempts(from)) {
      RetryFromBounds(attempts, retries, from + 1);
    } else if from < retries && attempts(from).Reply? {
      assert from <= from < retries;
    }
  }

  lemma RetryBounds(attempts: Attempts, retries: int)
    ensures var r := Retry(attempts, retries);
      && r.calls <= (if retries <= 0 then 0 else retries)
      && |r.waits| <= r.calls
      && r.waits == Backoffs(0, |r.waits|)
      && (r.answer == RateLimitExceeded || r.answer == AnalysisFailed ||
          exists j :: 0 <= j < retries && attempts(j).Reply? && r.answer == Strip(attempts(j).content))
  {
    RetryFromBounds(attempts, retries, 0);
  }

  /** A service that is busy twice and then replies: three calls, waits
      of 20 and 40 seconds, and the stripped reply. */
  lemma BusyTwiceThenReply(busy: string, reply: string)
    requires IsBusy(busy)
    ensures Retry(j => if j < 2 then Raised(busy) else Reply(reply), DefaultRetries)
            == Retried(Strip(reply), 3, [20, 40])
  {
    var attempts: Attempts := j => if j < 2 then Raised(busy) else Reply(reply);
    RetryFirstFinal(attempts, DefaultRetries, 2);
  }

  /** A service that is always busy: three calls, waits of 20, 40 and 60
      seconds, and the rate-limit sentinel. */
  lemma AlwaysBusy(busy: string)
    requires IsBusy(busy)
    ensures Retry(j => Raised(busy), DefaultRetries) == Retried(RateLimitExceeded, 3, [20, 40, 60])
  {
    RetryExhausted(j => Raised(busy), DefaultRetries);
  }

  /** Any other error: one call, no wait, and the failure sentinel. */
  lemma OtherErrorStops(message: string)
    requires !IsBusy(message)
    ensures Retry(j => Raised(message), DefaultRetries) == Retried(AnalysisFailed, 1, [])
  {
  }

  /** `generate_with_retry(prompt, retries)`, with the service's outcomes
      for this prompt as `attempts`; `waits` are the `time.sleep` calls. */
  method GenerateWithRetry(attempts: Attempts, retries: int) returns (answer: string, calls: nat, waits: seq<nat>)
    ensures Retried(answer, calls, waits) == Retry(attempts, retries)
  {
    calls, waits := 0, [];
    var attempt: nat := 0;
    while attempt < retries
      invariant calls == attempt && waits == Backoffs(0, attempt)
      invariant retries >= 0 ==> attempt <= retries
      invariant var rest := RetryFrom(attempts, retries, attempt);
        Retry(attempts, retries) == Retried(rest.answer, rest.calls + calls, waits + rest.waits)
      decreases retries - attempt
    {
      var outcome := attempts(attempt);
      calls := calls + 1;
      match outcome {
        case Reply(content) =>
          assert RetryFrom(attempts, retries, attempt) == Retried(Strip(content), 1, []);
          return Strip(content), calls, waits;
        case Raised(message) =>
          if IsBusy(message) {
            ghost var rest := RetryFrom(attempts, retries, attempt + 1);
            assert RetryFrom(attempts, retries, attempt) == Retried(rest.answer, rest.calls + 1, [Backoff(attempt)] + rest.waits);
            assert waits + ([Backoff(attempt)] + rest.waits) == (waits + [Backoff(attempt)]) + rest.waits;
            assert Backoffs(0, attempt + 1) == Backoffs(0, attempt) + [Backoff(attempt)];
            waits := waits + [Backoff(attempt)];
          } else {
            assert RetryFrom(attempts, retries, attempt) == Retried(AnalysisFailed, 1, []);
            return AnalysisFailed, calls, waits;
          }
      }
      attempt := attempt + 1;
    }
    assert RetryFrom(attempts, retries, attempt) == Retried(RateLimitExceeded, 0, []);
    assert waits + [] == waits;
    answer := RateLimitExceeded;
  }

  // ---------------------------------------------------------------------
  // get_ai_gap_analysis

  const PromptHead :=
    "\n    You are a senior technical documentation strategist.\n\n"
    + "    Analyze the following help article:\n    - Title: \""
  const PromptMiddle := "\"\n    - Category: \""
  const PromptTail :=
    "\"\n\n    Your task:\n    Identify **one high-impact documentation gap** or **missing advanced topic**"
    + " that an experienced or power user would reasonably expect but would not find covered by this article.\n\n"
    + "    Requirements:\n"
    + "        - The gap must be specific, non-obvious, and advanced (avoid beginner or generic topics).\n"
    + "        - It should clearly relate to the article\U{2019}s subject and category.\n"
    + "        - Focus on practical depth, edge cases, advanced workflows, limitations, integrations, or scalability concerns.\n\n"
    + "    Output format:\n"
    + "        - A single sentence.\n"
    + "        - Clearly state *what is missing* and *why it matters* to advanced users.\n    "

  /** The fixed text of a prompt: what comes before the title, between the
      title and the category, and after the category. */
  datatype Template = Template(head: string, middle: string, tail: string)

  /** The text `get_ai_gap_analysis` wraps around every article. */
  const Instructions := Template(PromptHead, PromptMiddle, PromptTail)

  /** The prompt for one article: the fixed text with its title and category
      quoted in place. */
  function Prompt(t: Template, title: string, category: string): (p: string)
    ensures Contains(p, title) && Contains(p, category)
  {
    ContainsAt(t.head + title, title, |t.head|);
    ContainsExtend([], t.head + title, t.middle + category + t.tail, title);
    ContainsAt(t.head + title + t.middle + category, category, |t.head + title + t.middle|);
    ContainsExtend([], t.head + title + t.middle + category, t.tail, category);
    assert t.head + title + t.middle + category + t.tail == [] + (t.head + title) + (t.middle + category + t.tail);
    assert [] + (t.head + title + t.middle + category) + t.tail == t.head + title + t.middle + category + t.tail;
    t.head + title + t.middle + category + t.tail
  }

  /** The quoted title ends at the first `middle[0]` after the head. */
  lemma QuotedTitleEnds(t: Template, title: string, category: string)
    requires t.middle != [] && t.middle[0] !in title
    ensures var p := Prompt(t, title, category);
      && |t.head| + |title| < |p| && p[|t.head| + |title|] == t.middle[0]
      && forall i :: |t.head| <= i < |t.head| + |title| ==> p[i] != t.middle[0]
  {
    var p := Prompt(t, title, category);
    assert forall i :: |t.head| <= i < |t.head| + |title| ==> p[i] == title[i - |t.head|];
  }

  /** Articles with different titles or categories get different prompts,
      for titles without the character that closes the quoted title. */
  lemma PromptInjective(t: Template, t1: string, c1: string, t2: string, c2: string)
    requires t.middle != [] && t.middle[0] !in t1 && t.middle[0] !in t2
    requires Prompt(t, t1, c1) == Prompt(t, t2, c2)
    ensures t1 == t2 && c1 == c2
  {
    var p, q := Prompt(t, t1, c1), Prompt(t, t2, c2);
    var h := |t.head|;
    QuotedTitleEnds(t, t1, c1);
    QuotedTitleEnds(t, t2, c2);
    assert |t1| == |t2|;
    assert t1 == p[h..h + |t1|];
    assert t2 == q[h..h + |t2|];
    var m := h + |t1| + |t.middle|;
    assert c1 == p[m..m + |c1|];
    assert c2 == q[m..m + |c2|];
  }

  /** In the source's prompt the title is closed by a double quote, so
      titles without one give different prompts. */
  lemma InstructionsCloseTitle()
    ensures Instructions.middle != [] && Instructions.middle[0] == '"'
  {
  }

  /** `get_ai_gap_analysis(title, category)`: the retry client with the
      default three attempts on the article's prompt. `t` is the prompt's
      fixed text (`Instructions` in the source); `service` gives the
      outcomes for each prompt. */
  method GetAiGapAnalysis(t: Template, title: string, category: string, service: string -> Attempts)
    returns (answer: string, calls: nat, waits: seq<nat>)
    ensures Retried(answer, calls, waits) == Retry(service(Prompt(t, title, category)), DefaultRetries)
  {
    answer, calls, waits := GenerateWithRetry(service(Prompt(t, title, category)), DefaultRetries);
  }
}
