/** The news sentiment labeller of the social-media dashboard
    (features/7-Social-Media-Sentiment.py): a length guard, a keyword
    override in which negative keywords win, and otherwise the top label of
    a remote emotion classifier reached over HTTP. The HTTP exchange is a
    parameter: the classifier maps the text to the response it gets back. */
module NewsSentiment {
  import opened Wrappers
  import opened Strings

  const MinLength: nat := 10
  const NegativeKeywords: seq<string> :=
    ["vulnerability", "ransomware", "attack", "breach", "hacked", "phishing"]
  const PositiveKeywords: seq<string> :=
    ["secured", "patched", "protected", "encrypted", "defended", "firewall"]

  /** One entry of the classifier's answer: its `label` and `score` keys,
      None where the JSON object lacks the key. */
  datatype Candidate = Candidate(name: Option<string>, score: Option<real>)

  /** The decoded JSON body of the classifier's answer. `Batches` is a
      non-empty list whose first element, a list of candidates, is the only
      one read. `ObjectFirst` is a non-empty list whose first element is a
      JSON object with `keys` keys, the flat answer shape
      `[{"label": ..., "score": ...}]`: `max` then iterates the object's
      keys, which are strings. */
  datatype Payload = NotAList | EmptyList | Batches(first: seq<Candidate>) | ObjectFirst(keys: nat)

  datatype Response = Response(status: int, payload: Payload)

  /** What a call of the source's function does: return a label, or let an
      exception other than KeyError escape to the caller. */
  datatype Outcome = Returns(sentiment: string) | RaisesValueError | RaisesTypeError

  /** `any(word in text_lower for word in keywords)`. */
  predicate MentionsAny(text: string, keywords: seq<string>) {
    exists k :: k in keywords && Contains(text, k)
  }

  predicate AllScored(cands: seq<Candidate>) {
    forall i :: 0 <= i < |cands| ==> cands[i].score.Some?
  }

  /** Index `k` is where `max` stops: no score exceeds the one at `k`, and
      every earlier score is strictly smaller. */
  ghost predicate IsFirstMax(scores: seq<real>, k: int) {
    && 0 <= k < |scores|
    && (forall j :: 0 <= j < |scores| ==> scores[j] <= scores[k])
    && (forall j :: 0 <= j < k ==> scores[j] < scores[k])
  }

  function Scores(cands: seq<Candidate>): (s: seq<real>)
    requires AllScored(cands)
    ensures |s| == |cands|
    ensures forall i :: 0 <= i < |cands| ==> cands[i].score == Some(s[i])
  {
    seq(|cands|, i requires 0 <= i < |cands| && AllScored(cands) => cands[i].score.value)
  }

  /** Python's `max` over a list: the first of the largest elements, found by
      a left-to-right scan that moves only on a strictly larger value. */
  function FirstMaxIndex(scores: seq<real>): (k: nat)
    requires |scores| > 0
    ensures IsFirstMax(scores, k)
  {
    if |scores| == 1 then 0
    else
      var k := FirstMaxIndex(scores[..|scores| - 1]);
      if scores[|scores| - 1] > scores[k] then |scores| - 1 else k
  }

  /** A successful answer `max` can use: status 200, a non-empty first batch
      whose candidates all carry a score, and a label on its first top
      candidate. */
  predicate WellFormed(resp: Response) {
    && resp.status == 200 && resp.payload.Batches?
    && resp.payload.first != [] && AllScored(resp.payload.first)
    && resp.payload.first[FirstMaxIndex(Scores(resp.payload.first))].name.Some?
  }

  /** There is only one first maximum. */
  lemma FirstMaxUnique(scores: seq<real>, k: int)
    requires IsFirstMax(scores, k)
    ensures forall j :: IsFirstMax(scores, j) ==> j == k
  {
    forall j | IsFirstMax(scores, j) ensures j == k {
      assert scores[j] == scores[k];
    }
  }

  /** The 200 branch as written: `max` over an empty first batch raises a
      ValueError that the `except KeyError` does not catch. */
  function TopLabelAsWritten(cands: seq<Candidate>): Outcome {
    if cands == [] then RaisesValueError
    else if !AllScored(cands) then Returns("Neutral")
    else
      var top := cands[FirstMaxIndex(Scores(cands))];
      if top.name.Some? then Returns(top.name.value) else Returns("Neutral")
  }

  /** The classifier branch as written. A flat answer makes `max` look up
      `"score"` in a string key, a TypeError, unless the object is empty,
      when `max` has nothing to compare. */
  function ClassifierOutcomeAsWritten(resp: Response): Outcome {
    if resp.status != 200 then Returns("Neutral")
    else
      match resp.payload
      case Batches(first) => TopLabelAsWritten(first)
      case ObjectFirst(keys) => if keys == 0 then RaisesValueError else RaisesTypeError
      case _ => Returns("Neutral")
  }

  /** No keyword and no length guard decides `text`: the classifier does. */
  predicate ReachesClassifier(text: string) {
    && |text| >= MinLength
    && !MentionsAny(Lower(text), NegativeKeywords)
    && !MentionsAny(Lower(text), PositiveKeywords)
  }

  /** `get_sentiment` as written: it raises exactly when the classifier is
      reached and answers 200 with an empty first batch or a flat answer;
      every label it returns is a keyword label, "Neutral" or a candidate's
      label. */
  function GetSentimentAsWritten(text: string, classify: string -> Response): (r: Outcome)
    ensures !r.Returns? <==> ReachesClassifier(text) && classify(text).status == 200
                             && (classify(text).payload == Batches([]) || classify(text).payload.ObjectFirst?)
    ensures r.RaisesTypeError? ==> classify(text).payload.ObjectFirst? && classify(text).payload.keys > 0
    ensures r.Returns? && !(r.sentiment in {"Neutral", "NEGATIVE", "POSITIVE"}) ==>
              classify(text).payload.Batches?
              && exists k :: 0 <= k < |classify(text).payload.first| && classify(text).payload.first[k].name == Some(r.sentiment)
  {
    var lower := Lower(text);
    if |text| < MinLength then Returns("Neutral")
    else if MentionsAny(lower, NegativeKeywords) then Returns("NEGATIVE")
    else if MentionsAny(lower, PositiveKeywords) then Returns("POSITIVE")
    else ClassifierOutcomeAsWritten(classify(text))
  }

  /** The classifier branch with every failure mapped to "Neutral", the
      policy the function states for a non-200 or malformed answer. A label
      other than "Neutral" only comes from a successful answer, and is the
      label of its first top-scoring candidate. */
  function ClassifierLabel(resp: Response): (r: string)
    ensures resp.status != 200 ==> r == "Neutral"
    ensures r != "Neutral" ==>
      && resp.status == 200 && resp.payload.Batches?
      && AllScored(resp.payload.first)
      && exists k :: IsFirstMax(Scores(resp.payload.first), k)
                  && resp.payload.first[k].name == Some(r)
    ensures WellFormed(resp) ==>
      exists k :: IsFirstMax(Scores(resp.payload.first), k) && resp.payload.first[k].name == Some(r)
  {
    assert WellFormed(resp) ==> forall j :: IsFirstMax(Scores(resp.payload.first), j) ==>
                                    j == FirstMaxIndex(Scores(resp.payload.first)) by {
      if WellFormed(resp) {
        FirstMaxUnique(Scores(resp.payload.first), FirstMaxIndex(Scores(resp.payload.first)));
      }
    }
    match ClassifierOutcomeAsWritten(resp)
    case Returns(sentiment) => sentiment
    case _ => "Neutral"
  }

  /** The label given to a news text: short text is neutral, a negative
      keyword wins over a positive one, and only text with neither reaches
      the classifier, which receives it unchanged. */
  function GetSentiment(text: string, classify: string -> Response): (r: string)
    ensures r == "Neutral" || r == "NEGATIVE" || r == "POSITIVE" || r == ClassifierLabel(classify(text))
  {
    match GetSentimentAsWritten(text, classify)
    case Returns(sentiment) => sentiment
    case _ => "Neutral"
  }

  /** Text that reaches the classifier and gets a well-formed answer is
      labelled with the answer's first top-scoring label. */
  lemma ClassifierDecides(text: string, classify: string -> Response)
    requires ReachesClassifier(text)
    requires WellFormed(classify(text))
    ensures exists k :: IsFirstMax(Scores(classify(text).payload.first), k)
                     && classify(text).payload.first[k].name == Some(GetSentiment(text, classify))
  {
    assert GetSentiment(text, classify) == ClassifierLabel(classify(text));
  }

  /** Short text is "Neutral" whatever the classifier would say. */
  lemma ShortTextIsNeutral(text: string, classify: string -> Response)
    requires |text| < MinLength
    ensures GetSentiment(text, classify) == "Neutral"
  {
  }

  /** A negative keyword decides, even when a positive keyword is present
      too and whatever the classifier would answer. */
  lemma NegativeKeywordWins(text: string, classify: string -> Response)
    requires |text| >= MinLength
    requires MentionsAny(Lower(text), NegativeKeywords)
    ensures GetSentiment(text, classify) == "NEGATIVE"
  {
  }

  /** With no negative keyword, a positive one decides. */
  lemma PositiveKeywordDecides(text: string, classify: string -> Response)
    requires |text| >= MinLength
    requires !MentionsAny(Lower(text), NegativeKeywords)
    requires MentionsAny(Lower(text), PositiveKeywords)
    ensures GetSentiment(text, classify) == "POSITIVE"
  {
  }

  /** The keyword rules see only the lowercase text: two texts that differ
      in letter case get the same keyword decision, and when no keyword
      decides each text is sent to the classifier as it was written. */
  lemma KeywordsIgnoreCase(t1: string, t2: string, classify: string -> Response)
    requires Lower(t1) == Lower(t2)
    ensures var decided := |t1| < MinLength || MentionsAny(Lower(t1), NegativeKeywords)
                           || MentionsAny(Lower(t1), PositiveKeywords);
            if decided then GetSentiment(t1, classify) == GetSentiment(t2, classify)
            else (GetSentiment(t1, classify) == ClassifierLabel(classify(t1))
                  && GetSentiment(t2, classify) == ClassifierLabel(classify(t2)))
  {
  }

  /** A negative keyword cannot be outweighed by text added before or after
      it: the longer text is "NEGATIVE" as well. */
  lemma NegativeKeywordSurvivesExtension(text: string, extra: string, classify: string -> Response)
    requires MentionsAny(Lower(text), NegativeKeywords)
    requires |text| + |extra| >= MinLength
    ensures GetSentiment(text + extra, classify) == "NEGATIVE"
    ensures GetSentiment(extra + text, classify) == "NEGATIVE"
  {
    var k :| k in NegativeKeywords && Contains(Lower(text), k);
    LowerConcat(text, extra);
    LowerConcat(extra, text);
    ContainsInConcat(Lower(text), Lower(extra), k);
  }

  /** The classifier's answer is used only when it is a successful, well
      formed list; any other status gives "Neutral". */
  lemma FailedCallIsNeutral(text: string, classify: string -> Response)
    requires |text| >= MinLength
    requires !MentionsAny(Lower(text), NegativeKeywords)
    requires !MentionsAny(Lower(text), PositiveKeywords)
    requires classify(text).status != 200 || !classify(text).payload.Batches?
    ensures GetSentiment(text, classify) == "Neutral"
  {
  }

  /** The discrepancy: a successful answer whose first batch is empty makes
      the function as written raise, where every other failed answer gives
      "Neutral". */
  lemma EmptyBatchEscapes(text: string, classify: string -> Response)
    requires |text| >= MinLength
    requires !MentionsAny(Lower(text), NegativeKeywords)
    requires !MentionsAny(Lower(text), PositiveKeywords)
    requires classify(text) == Response(200, Batches([]))
    ensures GetSentimentAsWritten(text, classify) == RaisesValueError
    ensures GetSentiment(text, classify) == "Neutral"
  {
  }

  /** The second discrepancy: a successful flat answer, a list whose first
      element is one `{"label", "score"}` object rather than a list of them,
      makes the function as written raise a TypeError (`max` iterates the
      object's string keys), where the model gives "Neutral". */
  lemma FlatAnswerEscapes(text: string, classify: string -> Response)
    requires ReachesClassifier(text)
    requires classify(text) == Response(200, ObjectFirst(2))
    ensures GetSentimentAsWritten(text, classify) == RaisesTypeError
    ensures GetSentiment(text, classify) == "Neutral"
  {
  }

  /** Wherever the function as written returns, the model returns the same label. */
  lemma AgreesWhereAsWrittenReturns(text: string, classify: string -> Response)
    requires GetSentimentAsWritten(text, classify).Returns?
    ensures GetSentiment(text, classify) == GetSentimentAsWritten(text, classify).sentiment
  {
  }

  // ---------------------------------------------------------------------
  // Scoring fetched articles (`analyze_news_sentiment`)

  /** One article of the news API's answer. `publishedAt` is `None` where
      the article has no such key, `Some(None)` where its value is null, and
      otherwise a day number. */
  datatype Article = Article(title: string, description: Option<string>, url: string,
                             publishedAt: Option<Option<int>>)

  /** One row of the scored table. */
  datatype ScoredArticle = ScoredArticle(title: string, description: Option<string>,
                                         sentiment: string, publishedAt: Option<int>, url: string)

  /** The text scored for an article: title and description joined by a
      space, or the title alone when there is no description. */
  function ScoredText(a: Article): (t: string)
    ensures a.description.None? ==> t == a.title
    ensures a.description.Some? ==>
              (|t| == |a.title| + 1 + |a.description.value|
               && t[..|a.title|] == a.title && t[|a.title|..] == " " + a.description.value)
  {
    match a.description
    case Some(d) => a.title + " " + d
    case None => a.title
  }

  /** A title long enough to be scored that names a negative keyword makes
      the article "NEGATIVE", whatever its description says. */
  lemma NegativeTitleDecides(a: Article, classify: string -> Response)
    requires |a.title| >= MinLength
    requires MentionsAny(Lower(a.title), NegativeKeywords)
    ensures GetSentiment(ScoredText(a), classify) == "NEGATIVE"
  {
    if a.description.Some? {
      assert ScoredText(a) == a.title + (" " + a.description.value);
      NegativeKeywordSurvivesExtension(a.title, " " + a.description.value, classify);
    }
  }

  /** The table gets a `publishedAt` column when some article has the key,
      whatever its value. */
  predicate HasDateColumn(articles: seq<Article>) {
    exists i :: 0 <= i < |articles| && articles[i].publishedAt.Some?
  }

  /** The date cell of an article: NaT (`None`) for a missing key or a null. */
  function DateCell(a: Article): (d: Option<int>)
    ensures d.Some? <==> a.publishedAt.Some? && a.publishedAt.value.Some?
    ensures d.Some? ==> a.publishedAt == Some(d)
  {
    a.publishedAt.GetOr(None)
  }

  /** The scored table: empty when no article has a `publishedAt` key,
      otherwise one row per article, in order, labelled from the article's
      own text, with NaT for a missing or null date. */
  function AnalyzeNews(articles: seq<Article>, classify: string -> Response): (rows: seq<ScoredArticle>)
    ensures !HasDateColumn(articles) ==> rows == []
    ensures HasDateColumn(articles) ==> |rows| == |articles|
    ensures forall i :: 0 <= i < |rows| ==>
      var a := articles[i];
      rows[i] == ScoredArticle(a.title, a.description, GetSentiment(ScoredText(a), classify),
                               DateCell(a), a.url)
  {
    if !HasDateColumn(articles) then []
    else
      seq(|articles|, i requires 0 <= i < |articles| =>
        var a := articles[i];
        ScoredArticle(a.title, a.description, GetSentiment(ScoredText(a), classify), DateCell(a), a.url))
  }

  /** Articles that all carry the key with a null value still give one row
      each, all dated NaT. */
  lemma NullDatesKeepRows(articles: seq<Article>, classify: string -> Response)
    requires articles != []
    requires forall i :: 0 <= i < |articles| ==> articles[i].publishedAt == Some(None)
    ensures |AnalyzeNews(articles, classify)| == |articles|
    ensures forall i :: 0 <= i < |articles| ==> AnalyzeNews(articles, classify)[i].publishedAt.None?
  {
    assert articles[0].publishedAt.Some?;
  }
}
