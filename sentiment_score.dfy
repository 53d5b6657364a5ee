/** The label-to-score rule shared by the heatmap page
    (features/5-Sentiment-Heatmap.py) and the geospatial page
    (features/6-Geospatial-Sentiment.py), and the uploaded-table shape both
    pages check. The transformers sentiment pipeline is a parameter: it maps
    a text to its top label and that label's confidence. */
module SentimentScore {
  import opened Seqs

  /** `sentiment_model(text)[0]`: the top label and its confidence. */
  datatype Prediction = Prediction(sentiment: string, confidence: real)

  /** POSITIVE keeps the confidence, NEGATIVE negates it, any other label
      scores 0. So the score is the confidence, its negation or 0; its sign
      names the label whenever the confidence is positive; and a confidence
      in [0, 1] gives a score in [-1, 1]. */
  function SignedScore(p: Prediction): (r: real)
    ensures r == p.confidence || r == -p.confidence || r == 0.0
    ensures p.sentiment != "POSITIVE" && p.sentiment != "NEGATIVE" ==> r == 0.0
    ensures 0.0 < p.confidence ==>
              && (0.0 < r <==> p.sentiment == "POSITIVE")
              && (r < 0.0 <==> p.sentiment == "NEGATIVE")
    ensures 0.0 <= p.confidence <= 1.0 ==> -1.0 <= r <= 1.0
  {
    if p.sentiment == "POSITIVE" then p.confidence
    else if p.sentiment == "NEGATIVE" then -p.confidence
    else 0.0
  }

  /** A row of an uploaded CSV file: a column whose cell is empty or missing
      (NaN after `read_csv`) has no entry in the map. */
  type CsvRow = map<string, string>

  datatype Table = Table(columns: set<string>, rows: seq<CsvRow>)

  /** `df.dropna(subset=required)`: the rows holding a value in every
      required column, in their original order. */
  function DropMissing(rows: seq<CsvRow>, required: set<string>): (kept: seq<CsvRow>)
    ensures |kept| <= |rows|
    ensures forall r :: r in kept <==> r in rows && required <= r.Keys
  {
    Filter(rows, (r: CsvRow) => required <= r.Keys)
  }
}
