/** The sentiment heatmap page (features/5-Sentiment-Heatmap.py): either a
    time series of scores over an uploaded CSV of dated texts, or a heatmap
    of scores over the sentences or words of one text. The sentiment model,
    the sentence and word tokenizers and the date parser are parameters. */
module SentimentHeatmap {
  import opened Wrappers
  import opened Strings
  import opened SentimentScore

  /** `get_sentiment_scores` of the heatmap page: blank text scores 0 and
      is not shown to the model; other text gets the signed score of the
      model's label. */
  function HeatmapScore(text: string, model: string -> Prediction): (r: real)
    ensures IsBlank(text) ==> r == 0.0
    ensures !IsBlank(text) ==> r == SignedScore(model(text))
  {
    if IsBlank(text) then 0.0 else SignedScore(model(text))
  }

  /** Blank text scores the same under any two models. */
  lemma BlankIgnoresModel(text: string, m1: string -> Prediction, m2: string -> Prediction)
    requires IsBlank(text)
    ensures HeatmapScore(text, m1) == HeatmapScore(text, m2) == 0.0
  {
  }

  datatype Level = SentenceLevel | WordLevel

  /** What the user supplied: no file (the manual text box is used), a
      `.txt` file, or a `.csv` file. */
  datatype Upload = NoUpload | TxtFile(contents: string) | CsvFile(table: Table)

  /** `pd.to_datetime`: a day number, or NaT for a missing cell. */
  datatype Day = On(n: int) | NaT

  /** A point of the time series. */
  datatype Point = Point(date: Day, text: string, score: real)

  datatype Problem = MissingColumns | NoValidText | BadDate | NoSegments

  /** What pressing the button shows. */
  datatype View = TimeSeries(points: seq<Point>) | Heatmap(scores: seq<real>) | Error(problem: Problem) | Warning

  const Required: set<string> := {"Date", "Text"}

  /** The upload check: both columns must exist; then rows without text are dropped. */
  function CheckColumns(t: Table): (r: Result<seq<CsvRow>, Problem>)
    ensures r.Err? <==> !(Required <= t.columns)
    ensures r.Err? ==> r.error == MissingColumns
    ensures r.Ok? ==> r.value == DropMissing(t.rows, {"Text"})
  {
    if "Date" in t.columns && "Text" in t.columns then Ok(DropMissing(t.rows, {"Text"})) else Err(MissingColumns)
  }

  /** Scoring and date conversion, one point per row in row order; a date
      the parser rejects fails the whole batch. */
  function Points(rows: seq<CsvRow>, model: string -> Prediction, parseDate: string -> Option<int>): (r: Result<seq<Point>, Problem>)
    requires forall i :: 0 <= i < |rows| ==> "Text" in rows[i]
    ensures r.Err? ==> r.error == BadDate
    ensures r.Err? <==> exists i :: 0 <= i < |rows| && "Date" in rows[i] && parseDate(rows[i]["Date"]).None?
    ensures r.Ok? ==> |r.value| == |rows| && forall i :: 0 <= i < |rows| ==>
      && r.value[i].text == rows[i]["Text"]
      && r.value[i].score == HeatmapScore(rows[i]["Text"], model)
      && r.value[i].date == (if "Date" in rows[i] then On(parseDate(rows[i]["Date"]).value) else NaT)
  {
    if rows == [] then Ok([])
    else
      var row := rows[0];
      var date := if "Date" in row then (match parseDate(row["Date"]) case Some(n) => Ok(On(n)) case None => Err(BadDate)) else Ok(NaT);
      match Points(rows[1..], model, parseDate)
      case Err(e) => Err(e)
      case Ok(rest) =>
        match date
        case Err(e) => Err(e)
        case Ok(d) => Ok([Point(d, row["Text"], HeatmapScore(row["Text"], model))] + rest)
  }

  /** `sort_values("Date")` orders days ascending with NaT last. */
  predicate DayLeq(a: Day, b: Day) {
    match (a, b)
    case (On(x), On(y)) => x <= y
    case (_, NaT) => true
    case (NaT, On(_)) => false
  }

  predicate SortedByDate(ps: seq<Point>) {
    forall i :: 0 <= i < |ps| - 1 ==> DayLeq(ps[i].date, ps[i + 1].date)
  }

  function InsertByDate(p: Point, ps: seq<Point>): (r: seq<Point>)
    ensures multiset(r) == multiset(ps) + multiset{p}
    ensures |r| == |ps| + 1
    ensures r[0] == p || (ps != [] && r[0] == ps[0])
    ensures SortedByDate(ps) ==> SortedByDate(r)
  {
    if ps == [] || DayLeq(p.date, ps[0].date) then [p] + ps
    else
      assert ps == [ps[0]] + ps[1..];
      assert DayLeq(ps[0].date, p.date);
      var rest := InsertByDate(p, ps[1..]);
      assert SortedByDate(ps) ==> SortedByDate(ps[1..]) && (|ps| > 1 ==> DayLeq(ps[0].date, ps[1].date));
      [ps[0]] + rest
  }

  /** The points in ascending date order, all of them and nothing else. */
  function SortByDate(ps: seq<Point>): (r: seq<Point>)
    ensures SortedByDate(r)
    ensures multiset(r) == multiset(ps)
  {
    if ps == [] then []
    else
      assert ps == [ps[0]] + ps[1..];
      InsertByDate(ps[0], SortByDate(ps[1..]))
  }

  /** The CSV branch once the columns passed the upload check. */
  function TimeSeriesOf(rows: seq<CsvRow>, model: string -> Prediction, parseDate: string -> Option<int>): (v: View)
    requires forall i :: 0 <= i < |rows| ==> "Text" in rows[i]
  {
    match Points(rows, model, parseDate)
    case Err(e) => Error(e)
    case Ok(ps) => if ps == [] then Error(NoValidText) else TimeSeries(SortByDate(ps))
  }

  /** The text the heatmap branch reads: the manual text box when nothing
      was uploaded, the file's contents for a `.txt` file. */
  function UserText(upload: Upload, manual: string): string {
    match upload
    case NoUpload => manual
    case TxtFile(contents) => contents
    case CsvFile(_) => ""
  }

  /** What pressing "Generate Heatmap" shows. */
  function GenerateHeatmap(upload: Upload, manual: string, level: Level, model: string -> Prediction,
                           sentences: string -> seq<string>, words: string -> seq<string>,
                           parseDate: string -> Option<int>): (v: View)
  {
    match upload
    case CsvFile(t) =>
      (match CheckColumns(t)
       case Err(e) => Error(e)
       case Ok(rows) => TimeSeriesOf(rows, model, parseDate))
    case _ =>
      var text := UserText(upload, manual);
      if IsBlank(text) then Warning
      else
        var segments := if level == SentenceLevel then sentences(text) else words(text);
        if segments == [] then Error(NoSegments)
        else Heatmap(seq(|segments|, i requires 0 <= i < |segments| => HeatmapScore(segments[i], model)))
  }

  /** A CSV without both `Date` and `Text` gives the column error and nothing else. */
  lemma MissingColumnsStop(t: Table, manual: string, level: Level, model: string -> Prediction,
                           sentences: string -> seq<string>, words: string -> seq<string>,
                           parseDate: string -> Option<int>)
    requires !("Date" in t.columns && "Text" in t.columns)
    ensures GenerateHeatmap(CsvFile(t), manual, level, model, sentences, words, parseDate) == Error(MissingColumns)
  {
  }

  /** With text-bearing rows whose dates all parse, a time series is shown;
      a date that does not parse shows the date error instead; no
      text-bearing row shows the no-valid-text error. A shown series holds
      every text-bearing row exactly once, scored as it stands, in ascending
      date order. */
  lemma {:induction false} TimeSeriesContents(t: Table, manual: string, level: Level, model: string -> Prediction,
                                              sentences: string -> seq<string>, words: string -> seq<string>,
                                              parseDate: string -> Option<int>)
    requires "Date" in t.columns && "Text" in t.columns
    ensures var kept := DropMissing(t.rows, {"Text"});
            var v := GenerateHeatmap(CsvFile(t), manual, level, model, sentences, words, parseDate);
            && (kept == [] ==> v == Error(NoValidText))
            && (kept != [] && (forall i :: 0 <= i < |kept| && "Date" in kept[i] ==> parseDate(kept[i]["Date"]).Some?)
                ==> v.TimeSeries?)
            && ((exists i :: 0 <= i < |kept| && "Date" in kept[i] && parseDate(kept[i]["Date"]).None?)
                ==> v == Error(BadDate))
            && (v.TimeSeries? ==>
                  && SortedByDate(v.points)
                  && |v.points| == |kept|
                  && multiset(v.points) == multiset(Points(kept, model, parseDate).value)
                  && forall p :: p in v.points ==> exists i :: 0 <= i < |kept| && p.text == kept[i]["Text"]
                                                           && p.score == HeatmapScore(kept[i]["Text"], model))
  {
    var kept := DropMissing(t.rows, {"Text"});
    assert forall i :: 0 <= i < |kept| ==> "Text" in kept[i] by {
      forall i | 0 <= i < |kept| ensures "Text" in kept[i] {
        assert kept[i] in kept;
      }
    }
    match Points(kept, model, parseDate)
    case Err(_) =>
    case Ok(ps) =>
      if ps != [] {
        var sorted := SortByDate(ps);
        assert |sorted| == |multiset(sorted)| == |multiset(ps)| == |ps|;
        forall p | p in sorted
          ensures exists i :: 0 <= i < |kept| && p.text == kept[i]["Text"] && p.score == HeatmapScore(kept[i]["Text"], model)
        {
          assert p in multiset(sorted);
          assert p in ps;
          var i :| 0 <= i < |ps| && ps[i] == p;
        }
      }
  }

  /** An uploaded CSV decides the view, whatever was typed in the text box. */
  lemma CsvTakesPrecedence(t: Table, m1: string, m2: string, level: Level, model: string -> Prediction,
                           sentences: string -> seq<string>, words: string -> seq<string>,
                           parseDate: string -> Option<int>)
    ensures GenerateHeatmap(CsvFile(t), m1, level, model, sentences, words, parseDate)
         == GenerateHeatmap(CsvFile(t), m2, level, model, sentences, words, parseDate)
  {
  }

  /** Without a CSV: blank text gives only the warning; otherwise an empty
      segment list gives an error, and any other list one score per
      segment, in segment order. */
  lemma HeatmapScoresPerSegment(upload: Upload, manual: string, level: Level, model: string -> Prediction,
                                sentences: string -> seq<string>, words: string -> seq<string>,
                                parseDate: string -> Option<int>)
    requires !upload.CsvFile?
    ensures var text := UserText(upload, manual);
            var segments := if level == SentenceLevel then sentences(text) else words(text);
            var v := GenerateHeatmap(upload, manual, level, model, sentences, words, parseDate);
            && (v == Warning <==> IsBlank(text))
            && (v == Error(NoSegments) <==> !IsBlank(text) && segments == [])
            && (v.Heatmap? ==> |v.scores| == |segments| > 0
                               && forall i :: 0 <= i < |segments| ==> v.scores[i] == HeatmapScore(segments[i], model))
            && (v.Warning? || v.Heatmap? || v == Error(NoSegments))
  {
  }
}
