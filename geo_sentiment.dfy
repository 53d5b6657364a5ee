/** The geospatial sentiment page (features/6-Geospatial-Sentiment.py):
    every uploaded row with a location and a text is scored, geocoded and
    drawn as one coloured marker. The sentiment model and the Nominatim
    geocoder are parameters; the geocoder's answers are memoised per
    location string. */
module GeoSentiment {
  import opened Wrappers
  import opened Strings
  import opened SentimentScore
  import SentimentHeatmap

  /** `get_sentiment_scores` of the geospatial page: the score is the
      confidence, its negation or 0, and 0 for any label other than
      POSITIVE and NEGATIVE. There is no blank-text guard: the model is
      asked about every text. */
  function GeoScore(text: string, model: string -> Prediction): (r: real)
    ensures r == model(text).confidence || r == -model(text).confidence || r == 0.0
    ensures model(text).sentiment != "POSITIVE" && model(text).sentiment != "NEGATIVE" ==> r == 0.0
    ensures model(text).sentiment == "POSITIVE" ==> r == model(text).confidence
    ensures model(text).sentiment == "NEGATIVE" ==> r == -model(text).confidence
  {
    SignedScore(model(text))
  }

  /** Unlike the heatmap page, the geospatial page scores blank text with the
      model: a model that calls it POSITIVE gives it its confidence, where the
      heatmap gives 0. */
  lemma BlankTextIsScored(text: string, model: string -> Prediction)
    requires IsBlank(text)
    requires model(text).sentiment == "POSITIVE" && model(text).confidence > 0.0
    ensures GeoScore(text, model) == model(text).confidence > 0.0
    ensures SentimentHeatmap.HeatmapScore(text, model) == 0.0
  {
  }

  datatype Colour = Green | Red | Orange

  /** The marker colour: green for a positive score, red for a negative
      one, orange for zero. */
  function MarkerColour(score: real): (c: Colour)
    ensures c == Green <==> score > 0.0
    ensures c == Red <==> score < 0.0
    ensures c == Orange <==> score == 0.0
  {
    if score > 0.0 then Green else if score < 0.0 then Red else Orange
  }

  /** With a positive confidence the colour names the model's label:
      green exactly for POSITIVE, red exactly for NEGATIVE, orange for
      every other label. */
  lemma ColourFollowsLabel(text: string, model: string -> Prediction)
    requires model(text).confidence > 0.0
    ensures var c := MarkerColour(GeoScore(text, model));
            && (c == Green <==> model(text).sentiment == "POSITIVE")
            && (c == Red <==> model(text).sentiment == "NEGATIVE")
            && (c == Orange <==> model(text).sentiment != "POSITIVE" && model(text).sentiment != "NEGATIVE")
  {
  }

  /** What one geocoding request gives back. */
  datatype GeoAnswer = Found(latitude: real, longitude: real) | NotFound | TimedOut

  /** `get_lat_lon`'s result: a pair, or `(None, None)`. */
  datatype Coordinates = At(lat: real, lon: real) | NoCoordinates

  /** A found place gives its coordinates; not found and a timeout both
      give `(None, None)`. */
  function Resolve(a: GeoAnswer): (c: Coordinates)
    ensures c.At? <==> a.Found?
    ensures a.Found? ==> c == At(a.latitude, a.longitude)
  {
    match a
    case Found(lat, lon) => At(lat, lon)
    case NotFound => NoCoordinates
    case TimedOut => NoCoordinates
  }

  /** `get_lat_lon` with its memo (`st.cache_data`). The geocoder's answer
      depends on the request as well as the location (a timeout is
      transient), so `geocode(loc, n)` is the answer to the `n`-th request
      sent; `queries` logs the requests in order. */
  class Geocoder {
    const geocode: (string, nat) -> GeoAnswer
    var memo: map<string, Coordinates>
    var queries: seq<string>

    /** Each location was requested once, exactly when it entered the memo,
        and the memo holds the answer to that request. */
    ghost predicate Valid()
      reads this
    {
      && (forall loc :: loc in memo <==> loc in queries)
      && (forall i, j :: 0 <= i < j < |queries| ==> queries[i] != queries[j])
      && (forall i :: 0 <= i < |queries| ==> memo[queries[i]] == Resolve(geocode(queries[i], i)))
    }

    constructor (geocode: (string, nat) -> GeoAnswer)
      ensures Valid()
      ensures this.geocode == geocode && memo == map[] && queries == []
    {
      this.geocode := geocode;
      memo := map[];
      queries := [];
    }

    /** The coordinates of `location`. A location looked up before gets its
        memoised answer, even when that answer came from a timeout, and no
        request is sent; a new location is requested once and its answer is
        memoised. */
    method LatLon(location: string) returns (c: Coordinates)
      requires Valid()
      modifies this
      ensures Valid()
      ensures memo == old(memo)[location := c]
      ensures location in old(memo) ==> c == old(memo)[location] && memo == old(memo) && queries == old(queries)
      ensures location !in old(memo) ==>
                && c == Resolve(geocode(location, |old(queries)|))
                && queries == old(queries) + [location]
    {
      if location in memo {
        c := memo[location];
      } else {
        c := Resolve(geocode(location, |queries|));
        memo := memo[location := c];
        queries := queries + [location];
      }
    }
  }

  /** One marker of the map. */
  datatype Marker = Marker(location: string, coordinates: Coordinates, score: real, colour: Colour)

  const Required: set<string> := {"Location", "Text"}

  /** The marker drawn for a row holding both a location and a text, at the
      coordinates its location resolved to: it names the row's location,
      and its colour is green, red or orange exactly as its score is
      positive, negative or zero. */
  function MarkerFor(row: CsvRow, model: string -> Prediction, coordinates: Coordinates): (m: Marker)
    requires Required <= row.Keys
    ensures m.location == row["Location"] && m.coordinates == coordinates
    ensures m.score == GeoScore(row["Text"], model)
    ensures (m.colour == Green <==> m.score > 0.0) && (m.colour == Red <==> m.score < 0.0)
  {
    var score := GeoScore(row["Text"], model);
    Marker(row["Location"], coordinates, score, MarkerColour(score))
  }

  /** The memo only grows: every earlier entry is still there, unchanged. */
  ghost predicate Keeps(before: map<string, Coordinates>, after: map<string, Coordinates>) {
    forall loc :: loc in before ==> loc in after && after[loc] == before[loc]
  }

  /** One iteration of the marker loop: the row's marker is appended, at
      the coordinates the memo now holds for its location. */
  method AddMarker(markers: seq<Marker>, row: CsvRow, model: string -> Prediction, geocoder: Geocoder)
    returns (out: seq<Marker>)
    requires Required <= row.Keys
    requires geocoder.Valid()
    modifies geocoder
    ensures geocoder.Valid()
    ensures Keeps(old(geocoder.memo), geocoder.memo)
    ensures geocoder.memo.Keys == old(geocoder.memo.Keys) + {row["Location"]}
    ensures out == markers + [MarkerFor(row, model, geocoder.memo[row["Location"]])]
  {
    var score := GeoScore(row["Text"], model);
    var coordinates := geocoder.LatLon(row["Location"]);
    out := markers + [Marker(row["Location"], coordinates, score, MarkerColour(score))];
  }

  /** The page after an upload: without both columns an error and no map;
      otherwise the rows missing either value are dropped and every other
      row gets exactly one marker, in row order, at the coordinates memoised
      for its location. Earlier memo entries are kept. The `notnull` filter
      does not remove rows whose geocoding failed, so their markers carry
      `NoCoordinates`. */
  method BuildMap(t: Table, model: string -> Prediction, geocoder: Geocoder) returns (r: Result<seq<Marker>, string>)
    requires geocoder.Valid()
    modifies geocoder
    ensures geocoder.Valid()
    ensures !(Required <= t.columns) ==> r.Err? && unchanged(geocoder)
    ensures Required <= t.columns ==>
      && r.Ok?
      && var kept := DropMissing(t.rows, Required);
         && |r.value| == |kept|
         && Keeps(old(geocoder.memo), geocoder.memo)
         && (forall i :: 0 <= i < |kept| ==>
               && Required <= kept[i].Keys
               && kept[i]["Location"] in geocoder.memo
               && r.value[i] == MarkerFor(kept[i], model, geocoder.memo[kept[i]["Location"]]))
  {
    if !("Location" in t.columns && "Text" in t.columns) {
      return Err("CSV must contain 'Location' and 'Text' columns.");
    }
    var kept := DropMissing(t.rows, Required);
    assert forall j :: 0 <= j < |kept| ==> Required <= kept[j].Keys by {
      forall j | 0 <= j < |kept| ensures Required <= kept[j].Keys {
        assert kept[j] in kept;
      }
    }
    var markers: seq<Marker> := [];
    for i := 0 to |kept|
      invariant geocoder.Valid()
      invariant |markers| == i
      invariant Keeps(old(geocoder.memo), geocoder.memo)
      invariant forall j :: 0 <= j < i ==>
                  kept[j]["Location"] in geocoder.memo
                  && markers[j] == MarkerFor(kept[j], model, geocoder.memo[kept[j]["Location"]])
    {
      markers := AddMarker(markers, kept[i], model, geocoder);
    }
    r := Ok(markers);
  }
}
