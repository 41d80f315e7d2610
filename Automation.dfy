/**
 * automation.py: one run of the pipeline. It loads the previous state,
 * crawls the help centre, asks for a gap analysis only for articles that
 * are new or whose "Last Updated" text changed, copies the earlier analysis
 * forward for the others, and saves the state and the report only when
 * something was analysed or there was no usable earlier state.
 *
 * Files, the crawl's network traffic and the analysis service are
 * parameters: the state file is given as what `json.load` found, and the
 * service's answers are scripted per prompt and per call.
 */
module Automation {
  import opened Wrappers
  import opened Records
  import opened Enrichment
  import opened Text
  import Scraper

  /** The state file's contents: URL to the record saved for it. */
  type Snapshot = map<string, Fields>

  /** A parsed JSON document: an object of records, or any other value. */
  datatype Document = Object(entries: Snapshot) | NotObject

  /** The state file as `load_state` finds it. */
  datatype StateFile = Missing | Unparsable | Parsed(doc: Document)

  /** `load_state()`: an empty object when there is no file, the parsed
      document otherwise; nothing when the file is not valid JSON, since
      `json.load` then raises and no caller catches it. */
  function LoadState(file: StateFile): (r: Option<Document>)
    ensures r.None? <==> file.Unparsable?
    ensures file.Missing? ==> r == Some(Object(map[]))
    ensures file.Parsed? ==> r == Some(file.doc)
  {
    match file
    case Missing => Some(Object(map[]))
    case Unparsable => None
    case Parsed(doc) => Some(doc)
  }

  /** `if not isinstance(prev_state, dict): prev_state = {}`. */
  function PriorState(doc: Document): (prior: Snapshot)
    ensures doc.NotObject? ==> prior == map[]
    ensures doc.Object? ==> prior == doc.entries
  {
    match doc
    case Object(entries) => entries
    case NotObject => map[]
  }

  /** The analysis service: the outcomes of successive calls for a prompt,
      when it is the `k`-th analysis of the run. */
  type Service = (string, nat) -> Attempts

  /** The analysis client: the prompt's fixed text and the service. */
  datatype Client = Client(template: Template, service: Service)

  const PacingDelay := 2

  // ---------------------------------------------------------------------
  // What the comparison decides for each article

  datatype Status = New | Updated | Unchanged

  /** New when the URL is not in the earlier state; updated when the earlier
      record's "Last Updated" (`None` when missing) differs from the new
      one; unchanged otherwise. */
  function StatusOf(prior: Snapshot, url: string, a: Article): (s: Status)
    ensures s == New <==> url !in prior
    ensures s == Unchanged <==> url in prior && Get(prior[url], LastUpdatedKey) == Str(a.lastUpdated)
  {
    if url !in prior then New
    else if Get(prior[url], LastUpdatedKey) != Str(a.lastUpdated) then Updated
    else Unchanged
  }

  /** The analysis copied forward for an unchanged article:
      `prev_state[url].get('Gaps Identified', "")`. */
  function Carried(prior: Snapshot, url: string): (gaps: Json)
    requires url in prior
    ensures GapsKey in prior[url] ==> gaps == prior[url][GapsKey]
    ensures GapsKey !in prior[url] ==> gaps == Str("")
  {
    GetOr(prior[url], GapsKey, Str(""))
  }

  /** The URLs of `order` that need an analysis, in order. */
  function ChangedInOrder(prior: Snapshot, current: map<string, Article>, order: seq<string>): (r: seq<string>)
    requires forall u :: u in order ==> u in current
    ensures forall u :: u in r <==> u in order && StatusOf(prior, u, current[u]) != Unchanged
    ensures |r| <= |order|
  {
    if order == [] then []
    else
      var init, u := order[..|order| - 1], order[|order| - 1];
      assert forall x :: x in order <==> x in init || x == u;
      ChangedInOrder(prior, current, init) + if StatusOf(prior, u, current[u]) != Unchanged then [u] else []
  }

  /** What the `k`-th analysis of the run gives for article `a`. */
  function Analysis(a: Article, client: Client, k: nat): Retried {
    Retry(client.service(Prompt(client.template, a.title, a.category), k), DefaultRetries)
  }

  /** `data` has the records of `current`, with at most their gap
      analyses replaced. */
  ghost predicate OnlyGapsDiffer(data: map<string, Article>, current: map<string, Article>) {
    data.Keys == current.Keys && forall u :: u in current ==> data[u] == current[u].(gaps := data[u].gaps)
  }

  lemma SetGaps(data: map<string, Article>, current: map<string, Article>, url: string, g: Json)
    requires OnlyGapsDiffer(data, current) && url in current
    ensures OnlyGapsDiffer(data[url := current[url].(gaps := g)], current)
  {
  }

  /** Each URL is analysed at most once. */
  lemma {:induction false} ChangedDistinct(prior: Snapshot, current: map<string, Article>, order: seq<string>)
    requires forall u :: u in order ==> u in current
    requires Distinct(order)
    ensures Distinct(ChangedInOrder(prior, current, order))
  {
    if order != [] {
      var init, u := order[..|order| - 1], order[|order| - 1];
      assert u !in init by {
        assert forall j :: 0 <= j < |init| ==> init[j] == order[j];
      }
      ChangedDistinct(prior, current, init);
    }
  }

  /** The prefix of a list without repetitions grows by an element that
      was not in it. */
  lemma PrefixStep(order: seq<string>, i: nat)
    requires Distinct(order) && i < |order|
    ensures order[..i + 1] == order[..i] + [order[i]]
    ensures order[i] !in order[..i]
  {
    assert forall j :: 0 <= j < i ==> order[..i][j] == order[j] != order[i];
  }

  lemma ChangedSnoc(prior: Snapshot, current: map<string, Article>, urls: seq<string>, u: string)
    requires forall x :: x in urls ==> x in current
    requires u in current
    ensures ChangedInOrder(prior, current, urls + [u]) ==
            ChangedInOrder(prior, current, urls) + if StatusOf(prior, u, current[u]) != Unchanged then [u] else []
  {
    assert (urls + [u])[..|urls|] == urls;
  }

  /** The `k`-th analysed URL holds the answer of the `k`-th analysis. */
  ghost predicate Recorded(data: map<string, Article>, current: map<string, Article>, enriched: seq<string>, client: Client) {
    forall k :: 0 <= k < |enriched| ==>
      enriched[k] in data && enriched[k] in current &&
      data[enriched[k]].gaps == Str(Analysis(current[enriched[k]], client, k).answer)
  }

  lemma RecordedExtend(data: map<string, Article>, current: map<string, Article>, enriched: seq<string>,
                       client: Client, url: string, a: Article)
    requires Recorded(data, current, enriched, client)
    requires url !in enriched && url in current
    requires a.gaps == Str(Analysis(current[url], client, |enriched|).answer)
    ensures Recorded(data[url := a], current, enriched + [url], client)
  {
    var e := enriched + [url];
    var d := data[url := a];
    forall k | 0 <= k < |e|
      ensures e[k] in d && e[k] in current && d[e[k]].gaps == Str(Analysis(current[e[k]], client, k).answer)
    {
      if k < |enriched| {
        var v := enriched[k];
        assert e[k] == v && v != url;
        assert d[v] == data[v];
      } else {
        assert e[k] == url;
      }
    }
  }

  lemma RecordedOther(data: map<string, Article>, current: map<string, Article>, enriched: seq<string>,
                      client: Client, url: string, a: Article)
    requires Recorded(data, current, enriched, client)
    requires url !in enriched
    ensures Recorded(data[url := a], current, enriched, client)
  {
    forall k | 0 <= k < |enriched|
      ensures enriched[k] in data[url := a] && enriched[k] in current &&
              data[url := a][enriched[k]].gaps == Str(Analysis(current[enriched[k]], client, k).answer)
    {
      assert enriched[k] != url;
    }
  }

  /** The pauses of the run: for each analysed article, the retry waits of
      its analysis and then the fixed pacing delay. */
  function Pauses(current: map<string, Article>, enriched: seq<string>, client: Client): seq<nat>
    requires forall u :: u in enriched ==> u in current
  {
    if enriched == [] then []
    else
      var init, u := enriched[..|enriched| - 1], enriched[|enriched| - 1];
      Pauses(current, init, client) + Analysis(current[u], client, |init|).waits + [PacingDelay]
  }

  /** The service calls of the run, over all analysed articles. */
  function Calls(current: map<string, Article>, enriched: seq<string>, client: Client): nat
    requires forall u :: u in enriched ==> u in current
  {
    if enriched == [] then 0
    else
      var init, u := enriched[..|enriched| - 1], enriched[|enriched| - 1];
      Calls(current, init, client) + Analysis(current[u], client, |init|).calls
  }

  lemma PausesCallsSnoc(current: map<string, Article>, enriched: seq<string>, client: Client, u: string)
    requires forall x :: x in enriched ==> x in current
    requires u in current
    ensures Pauses(current, enriched + [u], client) ==
            Pauses(current, enriched, client) + Analysis(current[u], client, |enriched|).waits + [PacingDelay]
    ensures Calls(current, enriched + [u], client) ==
            Calls(current, enriched, client) + Analysis(current[u], client, |enriched|).calls
  {
    assert (enriched + [u])[..|enriched|] == enriched;
  }

  // ---------------------------------------------------------------------
  // The comparison loop of `main`

  /** Every unchanged article among `urls` has the analysis saved for it. */
  ghost predicate CarriedForward(prior: Snapshot, current: map<string, Article>, data: map<string, Article>, urls: seq<string>) {
    forall u :: u in urls && u in current && StatusOf(prior, u, current[u]) == Unchanged ==>
      u in data && data[u].gaps == Carried(prior, u)
  }

  lemma CarriedStep(prior: Snapshot, current: map<string, Article>, data: map<string, Article>,
                    urls: seq<string>, url: string, a: Article)
    requires CarriedForward(prior, current, data, urls) && url !in urls && url in current
    requires StatusOf(prior, url, current[url]) == Unchanged ==> a.gaps == Carried(prior, url)
    ensures CarriedForward(prior, current, data[url := a], urls + [url])
  {
  }

  /** What the loop of `main` has done after the URLs `urls`: the
      records differ from the crawl's at most in their gap analyses, the
      URLs that needed an analysis got one in turn, every other one got the
      analysis saved for it, and the pauses and calls are those of the
      analyses made. */
  ghost predicate Compared(prior: Snapshot, current: map<string, Article>, client: Client, urls: seq<string>,
                           data: map<string, Article>, enriched: seq<string>, pauses: seq<nat>, calls: nat) {
    && (forall u :: u in urls ==> u in current)
    && OnlyGapsDiffer(data, current)
    && enriched == ChangedInOrder(prior, current, urls)
    && CarriedForward(prior, current, data, urls)
    && Recorded(data, current, enriched, client)
    && pauses == Pauses(current, enriched, client)
    && calls == Calls(current, enriched, client)
  }

  /** One turn of the loop of `main`, for the article at `url`: a new or
      updated article gets the answer of the next analysis, any other one
      the analysis saved for it before. */
  method CompareOne(prior: Snapshot, current: map<string, Article>, client: Client, urls: seq<string>, url: string,
                    data: map<string, Article>, enriched: seq<string>, pauses: seq<nat>, calls: nat)
    returns (data': map<string, Article>, enriched': seq<string>, pauses': seq<nat>, calls': nat)
    requires Compared(prior, current, client, urls, data, enriched, pauses, calls)
    requires url in current && url !in urls
    ensures Compared(prior, current, client, urls + [url], data', enriched', pauses', calls')
    ensures enriched' == enriched + if StatusOf(prior, url, current[url]) != Unchanged then [url] else []
  {
    assert url !in enriched;
    ChangedSnoc(prior, current, urls, url);
    var article := data[url];
    assert article == current[url].(gaps := article.gaps);
    var isNew := url !in prior;
    var isModified := false;
    if !isNew {
      if Get(prior[url], LastUpdatedKey) != Str(article.lastUpdated) {
        isModified := true;
      }
    }
    if isNew || isModified {
      var k := |enriched|;
      var answer, n, waits := GetAiGapAnalysis(client.template, article.title, article.category, p => client.service(p, k));
      assert Retried(answer, n, waits) == Analysis(current[url], client, k);
      PausesCallsSnoc(current, enriched, client, url);
      RecordedExtend(data, current, enriched, client, url, article.(gaps := Str(answer)));
      SetGaps(data, current, url, Str(answer));
      CarriedStep(prior, current, data, urls, url, article.(gaps := Str(answer)));
      data' := data[url := article.(gaps := Str(answer))];
      enriched' := enriched + [url];
      pauses' := pauses + waits + [PacingDelay];
      calls' := calls + n;
    } else {
      var carried := article.(gaps := GetOr(prior[url], GapsKey, Str("")));
      RecordedOther(data, current, enriched, client, url, carried);
      SetGaps(data, current, url, carried.gaps);
      CarriedStep(prior, current, data, urls, url, carried);
      data' := data[url := carried];
      enriched', pauses', calls' := enriched, pauses, calls;
    }
  }

  /** The loop of `main` over the crawled articles, in the dict's order:
      each new or updated article gets the answer of the analysis client
      (the `k`-th such article the `k`-th analysis), every other one the
      analysis saved for it before; nothing else in a record changes.
      `save` is the decision to write the state and the report. */
  method Reconcile(prior: Snapshot, current: map<string, Article>, order: seq<string>, client: Client)
    returns (data: map<string, Article>, enriched: seq<string>, pauses: seq<nat>, calls: nat, save: bool)
    requires Distinct(order) && forall u :: u in order <==> u in current
    ensures Compared(prior, current, client, order, data, enriched, pauses, calls)
    ensures save <==> enriched != [] || |prior| == 0
  {
    data, enriched, pauses, calls := current, [], [], 0;
    var updatesNeeded := false;
    for i := 0 to |order|
      invariant Compared(prior, current, client, order[..i], data, enriched, pauses, calls)
      invariant updatesNeeded <==> enriched != []
    {
      PrefixStep(order, i);
      data, enriched, pauses, calls := CompareOne(prior, current, client, order[..i], order[i], data, enriched, pauses, calls);
      updatesNeeded := updatesNeeded || StatusOf(prior, order[i], current[order[i]]) != Unchanged;
    }
    assert order[..|order|] == order;
    save := updatesNeeded || |prior| == 0;
  }

  // ---------------------------------------------------------------------
  // Saving and the report

  /** What `save_state(current_data)` writes. */
  function Store(data: map<string, Article>): (s: Snapshot)
    ensures s.Keys == data.Keys
    ensures forall u :: u in data ==> FromFields(s[u]) == Some(data[u])
  {
    var s := map u | u in data :: ToFields(data[u]);
    StoredRoundTrip(data, s);
    s
  }

  /** Every stored object reads back as the record it was written from. */
  lemma StoredRoundTrip(data: map<string, Article>, s: Snapshot)
    requires forall u :: u in data ==> u in s && s[u] == ToFields(data[u])
    ensures forall u :: u in data ==> FromFields(s[u]) == Some(data[u])
  {
    forall u | u in data
      ensures FromFields(s[u]) == Some(data[u])
    {
      FieldsRoundTrip(data[u]);
    }
  }

  /** `[c for c in cols if c in present]`. */
  function ProjectColumns(cols: seq<string>, present: set<string>): (r: seq<string>)
    ensures forall c :: c in r <==> c in cols && c in present
    ensures Distinct(cols) ==> Distinct(r)
    ensures Distinct(cols) ==> forall i, j :: 0 <= i < j < |r| ==> Pos(cols, r[i]) < Pos(cols, r[j])
    ensures |r| <= |cols|
  {
    if cols == [] then []
    else
      var rest := ProjectColumns(cols[1..], present);
      assert forall c :: c in cols <==> c == cols[0] || c in cols[1..];
      ProjectStep(cols, rest);
      if cols[0] in present then [cols[0]] + rest else rest
  }

  /** The order of a projection of `cols[1..]` carries over to `cols`, also
      with `cols[0]` in front. */
  lemma ProjectStep(cols: seq<string>, rest: seq<string>)
    requires cols != [] && forall c :: c in rest ==> c in cols[1..]
    requires Distinct(cols[1..]) ==> forall i, j :: 0 <= i < j < |rest| ==> Pos(cols[1..], rest[i]) < Pos(cols[1..], rest[j])
    ensures Distinct(cols) ==> forall i, j :: 0 <= i < j < |rest| ==> Pos(cols, rest[i]) < Pos(cols, rest[j])
    ensures Distinct(cols) ==> forall i, j :: 0 <= i < j < |[cols[0]] + rest| ==>
              Pos(cols, ([cols[0]] + rest)[i]) < Pos(cols, ([cols[0]] + rest)[j])
  {
    if Distinct(cols) {
      DistinctTail(cols);
      forall i, j | 0 <= i < j < |rest|
        ensures Pos(cols, rest[i]) < Pos(cols, rest[j])
      {
        PosTail(cols, rest[i]);
        PosTail(cols, rest[j]);
      }
      var r := [cols[0]] + rest;
      forall i, j | 0 <= i < j < |r|
        ensures Pos(cols, r[i]) < Pos(cols, r[j])
      {
        assert r[j] == rest[j - 1];
        PosTail(cols, rest[j - 1]);
        if i > 0 {
          assert r[i] == rest[i - 1];
        }
      }
    }
  }

  lemma DistinctTail(cols: seq<string>)
    requires cols != [] && Distinct(cols)
    ensures Distinct(cols[1..])
  {
    assert forall i, j :: 0 <= i < j < |cols| - 1 ==> cols[1..][i] == cols[i + 1] && cols[1..][j] == cols[j + 1];
  }

  /** Without repetition, a column of the tail is not the head and sits one
      place further in the whole list than in the tail. */
  lemma PosTail(cols: seq<string>, c: string)
    requires cols != [] && Distinct(cols) && c in cols[1..]
    ensures c != cols[0] && Pos(cols, c) == 1 + Pos(cols[1..], c)
  {
    var k :| 0 <= k < |cols| - 1 && cols[1..][k] == c;
    assert cols[k + 1] == c;
  }

  /** The columns the data frame has: every key of every record. */
  function PresentColumns(data: map<string, Article>): set<string> {
    set u, c | u in data && c in ToFields(data[u]) :: c
  }

  /** Every record has all ten columns, so the data has either all of them
      or, without records, none. */
  lemma PresentColumnsExact(data: map<string, Article>)
    ensures PresentColumns(data) == if data == map[] then {} else set c | c in Columns
  {
    if data != map[] {
      var u :| u in data;
      assert forall c :: c in Columns ==> c in ToFields(data[u]);
    }
  }

  /** The report: its header and one row per record, in the dict's order. */
  datatype Report = Report(columns: seq<string>, rows: seq<seq<Json>>)

  /** What `df.to_excel` writes: the preferred columns that the data has,
      and for each record its values in those columns. */
  function MakeReport(data: map<string, Article>, order: seq<string>): (r: Report)
    requires forall u :: u in order ==> u in data
    ensures |r.rows| == |order|
    ensures forall i :: 0 <= i < |order| ==> |r.rows[i]| == |r.columns|
  {
    var columns := ProjectColumns(Columns, PresentColumns(data));
    Report(columns, seq(|order|, i requires 0 <= i < |order| =>
      seq(|columns|, j requires 0 <= j < |columns| => Get(ToFields(data[order[i]]), columns[j]))))
  }

  /** With at least one record the report has all ten columns in the
      preferred order; with none it has no columns and no rows. */
  lemma ReportColumns(data: map<string, Article>, order: seq<string>)
    requires forall u :: u in order <==> u in data
    ensures order != [] ==> MakeReport(data, order).columns == Columns
    ensures order == [] ==> MakeReport(data, order) == Report([], [])
  {
    var present := PresentColumns(data);
    if order != [] {
      var u := order[0];
      assert forall c :: c in Columns ==> c in ToFields(data[u]);
      assert forall c :: c in Columns ==> c in present;
      ProjectAll(Columns, present);
    } else {
      assert data == map[];
      assert present == {};
      ProjectNone(Columns, present);
    }
  }

  lemma {:induction false} ProjectAll(cols: seq<string>, present: set<string>)
    requires forall c :: c in cols ==> c in present
    ensures ProjectColumns(cols, present) == cols
    decreases |cols|
  {
    if cols != [] {
      ProjectAll(cols[1..], present);
    }
  }

  lemma {:induction false} ProjectNone(cols: seq<string>, present: set<string>)
    requires forall c :: c in cols ==> c !in present
    ensures ProjectColumns(cols, present) == []
    decreases |cols|
  {
    if cols != [] {
      ProjectNone(cols[1..], present);
    }
  }

  // ---------------------------------------------------------------------
  // One run

  /** What a run leaves behind: the crawl, the records, the analysed URLs,
      the pauses and service calls it made, and the state and report it
      wrote, if any. */
  datatype RunOutcome = RunOutcome(
    categories: seq<string>,
    order: seq<string>,
    fetches: nat,
    data: map<string, Article>,
    enriched: seq<string>,
    pauses: seq<nat>,
    calls: nat,
    saved: Option<Snapshot>,
    report: Option<Report>)

  /** The writes of a run: the state and the report exactly when something
      was analysed or the earlier state was empty. */
  ghost predicate Saved(o: RunOutcome, prior: Snapshot) {
    && (o.saved.Some? <==> o.enriched != [] || |prior| == 0)
    && (o.saved.Some? ==>
          && o.saved.value == Store(o.data)
          && (forall u :: u in o.order ==> u in o.data)
          && o.report == Some(MakeReport(o.data, o.order)))
    && (o.saved.None? ==> o.report.None?)
  }

  /** A run from the earlier state `prior`: the categories of the home page,
      the crawl of their article lists, the comparison of its records with
      `prior`, and the writes. */
  ghost predicate Ran(o: RunOutcome, prior: Snapshot, homeHrefs: seq<string>, listing: string -> Scraper.CategoryPage,
                      fetch: nat -> Scraper.ArticlePage, client: Client) {
    var crawl := Scraper.CrawlLinks(Scraper.AllLinks(o.categories, listing), fetch);
    && (forall c :: c in o.categories <==>
          exists h :: h in homeHrefs && StartsWith(h, Scraper.CategoryPrefix) && c == Scraper.BaseUrl + h)
    && o.order == crawl.order && o.fetches == crawl.fetches
    && (forall u :: u in o.order <==> u in crawl.data)
    && Compared(prior, crawl.data, client, o.order, o.data, o.enriched, o.pauses, o.calls)
    && Saved(o, prior)
  }

  /** `main()` once the earlier state is loaded: the crawl, the
      comparison, and the writes when the comparison asks for them. */
  method RunFrom(prior: Snapshot, homeHrefs: seq<string>, listing: string -> Scraper.CategoryPage,
                 fetch: nat -> Scraper.ArticlePage, client: Client)
    returns (o: RunOutcome)
    ensures Ran(o, prior, homeHrefs, listing, fetch, client)
  {
    var categories, current, order, fetches := Scraper.ScrapeAllArticles(homeHrefs, listing, fetch);
    Scraper.CrawlWellFormed(Scraper.AllLinks(categories, listing), fetch);
    var data, enriched, pauses, calls, save := Reconcile(prior, current, order, client);
    var saved: Option<Snapshot> := None;
    var report: Option<Report> := None;
    if save {
      saved := Some(Store(data));
      assert forall u :: u in order ==> u in data;
      report := Some(MakeReport(data, order));
    }
    o := RunOutcome(categories, order, fetches, data, enriched, pauses, calls, saved, report);
  }

  /** `main()`: nothing when the state file cannot be parsed (the run stops
      there); otherwise the run from the state it holds, with the source's
      prompt text. */
  method Run(file: StateFile, homeHrefs: seq<string>, listing: string -> Scraper.CategoryPage,
             fetch: nat -> Scraper.ArticlePage, service: Service)
    returns (outcome: Option<RunOutcome>)
    ensures outcome.None? <==> file.Unparsable?
    ensures outcome.Some? ==>
              Ran(outcome.value, PriorState(LoadState(file).value), homeHrefs, listing, fetch, Client(Instructions, service))
  {
    var loaded := LoadState(file);
    if loaded.None? {
      return None;
    }
    var o := RunFrom(PriorState(loaded.value), homeHrefs, listing, fetch, Client(Instructions, service));
    outcome := Some(o);
  }

  // ---------------------------------------------------------------------
  // Properties across runs

  /** The records of a run over the same crawl: the same URLs and the same
      "Last Updated" texts. */
  predicate SameFeed(data: map<string, Article>, current: map<string, Article>) {
    data.Keys == current.Keys && forall u :: u in current ==> data[u].lastUpdated == current[u].lastUpdated
  }

  /** Running again over the same crawl analyses nothing: after the saved
      state every article is unchanged and gets back the analysis it had. */
  lemma RerunIsQuiet(data: map<string, Article>, current: map<string, Article>, order: seq<string>)
    requires SameFeed(data, current)
    requires forall u :: u in order ==> u in current
    ensures ChangedInOrder(Store(data), current, order) == []
    ensures forall u :: u in current ==>
              StatusOf(Store(data), u, current[u]) == Unchanged && Carried(Store(data), u) == data[u].gaps
  {
    forall u | u in current
      ensures StatusOf(Store(data), u, current[u]) == Unchanged && Carried(Store(data), u) == data[u].gaps
    {
      assert Get(Store(data)[u], LastUpdatedKey) == Str(data[u].lastUpdated);
    }
    UnchangedSavesNothing(Store(data), current, order);
  }

  /** When every article is unchanged nothing is analysed. */
  lemma {:induction false} UnchangedSavesNothing(prior: Snapshot, current: map<string, Article>, order: seq<string>)
    requires forall u :: u in order ==> u in current && StatusOf(prior, u, current[u]) == Unchanged
    ensures ChangedInOrder(prior, current, order) == []
    decreases |order|
  {
    if order != [] {
      var init := order[..|order| - 1];
      assert forall u :: u in init ==> u in order;
      UnchangedSavesNothing(prior, current, init);
    }
  }

  /** A failed analysis is never retried while the article's "Last Updated"
      text stays the same: the sentinel is carried forward as if it were an
      analysis. */
  lemma SentinelSticks(data: map<string, Article>, current: map<string, Article>, url: string)
    requires SameFeed(data, current) && url in current
    requires data[url].gaps == Str(AnalysisFailed) || data[url].gaps == Str(RateLimitExceeded)
    ensures StatusOf(Store(data), url, current[url]) == Unchanged
    ensures Carried(Store(data), url) == data[url].gaps
  {
    RerunIsQuiet(data, current, []);
  }

  /** Every pause of the pacing delay belongs to one analysed article: the
      retry waits are multiples of 20 seconds, never 2. */
  lemma {:induction false} PacingCount(current: map<string, Article>, enriched: seq<string>, client: Client)
    requires forall u :: u in enriched ==> u in current
    ensures multiset(Pauses(current, enriched, client))[PacingDelay] == |enriched|
    decreases |enriched|
  {
    if enriched != [] {
      var init, u := enriched[..|enriched| - 1], enriched[|enriched| - 1];
      PacingCount(current, init, client);
      var r := Analysis(current[u], client, |init|);
      RetryBounds(client.service(Prompt(client.template, current[u].title, current[u].category), |init|), DefaultRetries);
      assert PacingDelay !in r.waits;
      assert multiset(r.waits)[PacingDelay] == 0;
    }
  }

  /** At most three service calls per analysed article. */
  lemma {:induction false} CallsBounded(current: map<string, Article>, enriched: seq<string>, client: Client)
    requires forall u :: u in enriched ==> u in current
    ensures Calls(current, enriched, client) <= DefaultRetries * |enriched|
    decreases |enriched|
  {
    if enriched != [] {
      var init, u := enriched[..|enriched| - 1], enriched[|enriched| - 1];
      CallsBounded(current, init, client);
      RetryBounds(client.service(Prompt(client.template, current[u].title, current[u].category), |init|), DefaultRetries);
    }
  }

  /** A missing state file, or one holding something other than an object,
      makes the run write its state and report. */
  lemma FreshStartSaves(file: StateFile)
    requires file.Missing? || file == Parsed(NotObject)
    ensures LoadState(file).Some? && |PriorState(LoadState(file).value)| == 0
  {
  }

  /** A run whose crawl finds exactly the articles of the state it starts
      from, with the same "Last Updated" texts, asks for no analysis, makes
      no call, does not pause and writes neither the state nor the report.
      (`Ran` gives both requirements with `current` the crawl's records.) */
  lemma RerunWritesNothing(o: RunOutcome, data: map<string, Article>, current: map<string, Article>, client: Client)
    requires Compared(Store(data), current, client, o.order, o.data, o.enriched, o.pauses, o.calls)
    requires Saved(o, Store(data))
    requires SameFeed(data, current) && data != map[]
    ensures o.enriched == [] && o.calls == 0 && o.pauses == []
    ensures o.saved.None? && o.report.None?
  {
    RerunIsQuiet(data, current, o.order);
    var u :| u in data;
    assert u in Store(data);
  }
}
