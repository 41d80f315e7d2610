/**
 * The per-article record the crawler builds (one Python dict per article)
 * and the JSON values the state file stores for it.
 */
module Records {
  import opened Wrappers

  /** A JSON value as `json.load` returns it, reduced to what the pipeline
      tells apart: null, booleans, integers and strings. Any other value
      (a float, a list, an object) is kept as its JSON text. */
  datatype Json = Null | Bool(b: bool) | Int(i: int) | Str(s: string) | Other(text: string)

  const IdKey := "Article ID"
  const TitleKey := "Article Title"
  const CategoryKey := "Category"
  const UrlKey := "URL"
  const LastUpdatedKey := "Last Updated"
  const ContentTypeKey := "Content Type"
  const KeywordsKey := "Keywords"
  const WordCountKey := "Word Count"
  const ScreenshotsKey := "Has Screenshots"
  const GapsKey := "Gaps Identified"

  /** The keys of a record, in the report's preferred column order. */
  const Columns: seq<string> :=
    [IdKey, TitleKey, CategoryKey, UrlKey, LastUpdatedKey,
     ContentTypeKey, KeywordsKey, WordCountKey, ScreenshotsKey, GapsKey]

  /** One crawled article. Every field but the gap analysis is text or a
      count built by the crawler; the gap analysis is whatever JSON value
      was stored for it, since an unchanged article copies it from the
      previous state file. */
  datatype Article = Article(
    id: string,
    title: string,
    category: string,
    url: string,
    lastUpdated: string,
    contentType: string,
    keywords: string,
    wordCount: nat,
    hasScreenshots: string,
    gaps: Json)

  /** A JSON object: one record as the state file holds it. */
  type Fields = map<string, Json>

  /** `d.get(key)`: `None` when the key is absent. */
  function Get(f: Fields, key: string): Json {
    if key in f then f[key] else Null
  }

  /** `d.get(key, default)`. */
  function GetOr(f: Fields, key: string, default: Json): Json {
    if key in f then f[key] else default
  }

  /** The ten column names are pairwise different. */
  lemma ColumnsDistinct()
    ensures Distinct(Columns)
  {
  }

  /** The record as the JSON object `json.dump` writes for it. */
  function ToFields(a: Article): (f: Fields)
    ensures f.Keys == set c | c in Columns
    ensures Get(f, LastUpdatedKey) == Str(a.lastUpdated) && Get(f, GapsKey) == a.gaps
  {
    map[IdKey := Str(a.id), TitleKey := Str(a.title), CategoryKey := Str(a.category),
        UrlKey := Str(a.url), LastUpdatedKey := Str(a.lastUpdated),
        ContentTypeKey := Str(a.contentType), KeywordsKey := Str(a.keywords),
        WordCountKey := Int(a.wordCount), ScreenshotsKey := Str(a.hasScreenshots),
        GapsKey := a.gaps]
  }

  /** Reads a record back from a JSON object: every key present, with the
      kind of value the crawler writes for it. */
  function FromFields(f: Fields): Option<Article> {
    var id, title, category := Get(f, IdKey), Get(f, TitleKey), Get(f, CategoryKey);
    var url, updated, kind := Get(f, UrlKey), Get(f, LastUpdatedKey), Get(f, ContentTypeKey);
    var keywords, count, shots := Get(f, KeywordsKey), Get(f, WordCountKey), Get(f, ScreenshotsKey);
    if id.Str? && title.Str? && category.Str? && url.Str? && updated.Str? && kind.Str?
       && keywords.Str? && count.Int? && count.i >= 0 && shots.Str? && GapsKey in f
    then Some(Article(id.s, title.s, category.s, url.s, updated.s, kind.s, keywords.s,
                      count.i, shots.s, f[GapsKey]))
    else None
  }

  /** Saving a record and reading it back gives the same record. */
  lemma FieldsRoundTrip(a: Article)
    ensures FromFields(ToFields(a)) == Some(a)
  {
    NamingColumns(a);
    PlacingColumns(a);
    ContentColumns(a);
  }

  /** The columns that name the article hold its fields. */
  lemma NamingColumns(a: Article)
    ensures Get(ToFields(a), IdKey) == Str(a.id) && Get(ToFields(a), TitleKey) == Str(a.title)
  {
  }

  /** The columns that place the article hold its fields. */
  lemma PlacingColumns(a: Article)
    ensures Get(ToFields(a), CategoryKey) == Str(a.category) && Get(ToFields(a), UrlKey) == Str(a.url)
  {
  }

  /** The columns that describe the article's content hold its fields. */
  lemma ContentColumns(a: Article)
    ensures Get(ToFields(a), ContentTypeKey) == Str(a.contentType) && Get(ToFields(a), KeywordsKey) == Str(a.keywords)
    ensures Get(ToFields(a), WordCountKey) == Int(a.wordCount) && Get(ToFields(a), ScreenshotsKey) == Str(a.hasScreenshots)
  {
  }
}
