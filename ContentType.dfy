/**
 * The content-type classifier of classify_content_type.py: a fixed cascade
 * of pattern lists tried in order on the lowercased, stripped title; the
 * first list with a match decides the label.
 *
 * Each regular expression of the source is one of four shapes, written here
 * as a string test: a bare word is a substring test, `^x` a prefix test,
 * `\?$` a suffix test (the title is stripped, so it never ends in a newline
 * that `$` could stand before), and `^how\b` the prefix "how" followed by the
 * end of the title or a character that is not a word character.
 */
module ContentType {
  import opened Text

  const Troubleshooting := "Troubleshooting"
  const HowToGuide := "How-To Guide"
  const Faq := "FAQ"
  const Onboarding := "Onboarding / Guide"
  const Concept := "Concept / Explanation"
  const FeatureAnnouncement := "Feature Announcement"
  const GeneralGuide := "General Guide"

  const Labels: seq<string> :=
    [Troubleshooting, HowToGuide, Faq, Onboarding, Concept, FeatureAnnouncement, GeneralGuide]

  const TroubleshootingWords: seq<string> :=
    ["error", "issue", "fix", "stuck", "not working", "failed", "problem", "why am i", "what happens if"]
  /** The how-to list besides `^how\b`. */
  const HowToStarts: seq<string> := ["how to", "how do i", "how can i"]
  /** The FAQ list besides `\?$`. */
  const FaqStarts: seq<string> := ["can i", "does", "do i", "will", "is there", "are there"]
  const OnboardingWords: seq<string> :=
    ["getting started", "workflow", "guide", "introduction", "best practices"]
  const ConceptStarts: seq<string> := ["what is", "what are"]
  const ConceptWords: seq<string> :=
    ["difference between", "understanding", "overview", "roles and permissions", "parts of"]
  const FeatureWords: seq<string> := ["new update", "streamlining", "latest", "feature", "powered"]

  predicate ContainsAny(t: string, words: seq<string>) {
    exists i :: 0 <= i < |words| && Contains(t, words[i])
  }

  predicate StartsWithAny(t: string, starts: seq<string>) {
    exists i :: 0 <= i < |starts| && StartsWith(t, starts[i])
  }

  /** A character `\w` matches, restricted to ASCII. */
  predicate IsWordChar(c: char) {
    ('a' <= c <= 'z') || ('A' <= c <= 'Z') || ('0' <= c <= '9') || c == '_'
  }

  /** `^how\b`. */
  predicate StartsWithHowWord(t: string) {
    StartsWith(t, "how") && (|t| == 3 || !IsWordChar(t[3]))
  }

  predicate Troubleshoots(t: string) { ContainsAny(t, TroubleshootingWords) }
  predicate AsksHowTo(t: string) { StartsWithHowWord(t) || StartsWithAny(t, HowToStarts) }
  predicate AsksQuestion(t: string) { StartsWithAny(t, FaqStarts) || EndsWith(t, "?") }
  predicate Onboards(t: string) { ContainsAny(t, OnboardingWords) }
  predicate Explains(t: string) { StartsWithAny(t, ConceptStarts) || ContainsAny(t, ConceptWords) }
  predicate Announces(t: string) { ContainsAny(t, FeatureWords) }

  /** `title.lower().strip()`. */
  function Normalize(title: string): string {
    Strip(Lower(title))
  }

  /** The cascade on an already normalised title. */
  function Cascade(t: string): string {
    if Troubleshoots(t) then Troubleshooting
    else if AsksHowTo(t) then HowToGuide
    else if AsksQuestion(t) then Faq
    else if Onboards(t) then Onboarding
    else if Explains(t) then Concept
    else if Announces(t) then FeatureAnnouncement
    else GeneralGuide
  }

  /** `classify_content_type(title)`. */
  function Classify(title: string): (kind: string)
    ensures kind in Labels
  {
    Cascade(Normalize(title))
  }

  /** Every other how-to pattern already satisfies `^how\b`: after "how"
      they all continue with a space. */
  lemma HowToStartsSubsumed(t: string)
    ensures AsksHowTo(t) <==> StartsWithHowWord(t)
  {
    if StartsWithAny(t, HowToStarts) {
      var i :| 0 <= i < |HowToStarts| && StartsWith(t, HowToStarts[i]);
      var p := HowToStarts[i];
      assert p[..3] == "how" && p[3] == ' ';
      assert t[..|p|][..3] == t[..3] && t[..|p|][3] == t[3];
    }
  }

  /** Troubleshooting wins whenever one of its words occurs, whatever else
      the title says ("How to fix ..." is troubleshooting). */
  lemma TroubleshootingFirst(title: string)
    ensures Classify(title) == Troubleshooting <==> Troubleshoots(Normalize(title))
  {
  }

  /** How-To Guide exactly when no troubleshooting word occurs and the title
      starts with the word "how". */
  lemma HowToExactly(title: string)
    ensures Classify(title) == HowToGuide <==>
              !Troubleshoots(Normalize(title)) && StartsWithHowWord(Normalize(title))
  {
    HowToStartsSubsumed(Normalize(title));
  }

  /** FAQ exactly when the earlier lists fail and a question opener starts
      the title or it ends with a question mark. */
  lemma FaqExactly(title: string)
    ensures var t := Normalize(title);
            Classify(title) == Faq <==>
              !Troubleshoots(t) && !StartsWithHowWord(t) && AsksQuestion(t)
  {
    HowToStartsSubsumed(Normalize(title));
  }

  /** General Guide exactly when no pattern of any list matches. */
  lemma GeneralExactly(title: string)
    ensures var t := Normalize(title);
            Classify(title) == GeneralGuide <==>
              !Troubleshoots(t) && !AsksHowTo(t) && !AsksQuestion(t) &&
              !Onboards(t) && !Explains(t) && !Announces(t)
  {
  }

  lemma LowerConcat(a: string, b: string, c: string)
    ensures Lower(a + b + c) == Lower(a) + Lower(b) + Lower(c)
  {
  }

  /** Classification ignores ASCII case and surrounding whitespace. */
  lemma {:induction false} CaseAndPaddingIgnored(before: string, title: string, after: string)
    requires AllSpace(before) && AllSpace(after)
    ensures Classify(before + title + after) == Classify(title)
    ensures Classify(Lower(title)) == Classify(title)
  {
    LowerConcat(before, title, after);
    LowerKeepsSpace(before);
    LowerKeepsSpace(after);
    StripIgnoresPadding(Lower(before), Lower(title), Lower(after));
    assert Lower(Lower(title)) == Lower(title);
  }
}
