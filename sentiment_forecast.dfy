/** The date and grouping skeleton of `forecast_trends`
    (features/7-Social-Media-Sentiment.py): the scored articles are counted
    per (day, sentiment); every sentiment seen on at least three distinct
    days gets five forecast rows, dated one to five days after the last day
    it was seen. The forecast counts (exponential smoothing) are not part of
    this model. */
module SentimentForecast {
  import opened Wrappers
  import opened Seqs
  import NewsSentiment

  type Row = NewsSentiment.ScoredArticle

  /** A sentiment needs this many grouped days to be forecast. */
  const MinPoints: nat := 3
  /** Days forecast per sentiment. */
  const Horizon: nat := 5

  /** One forecast row: its date (a day number) and sentiment. */
  datatype ForecastRow = ForecastRow(date: int, sentiment: string)

  /** The days, with repetition, of the dated rows that carry sentiment `s`;
      the grouping ignores rows without a date. */
  function Dates(rows: seq<Row>, s: string): (ds: seq<int>)
    ensures forall d :: d in ds <==>
      exists i :: 0 <= i < |rows| && rows[i].sentiment == s && rows[i].publishedAt == Some(d)
  {
    if rows == [] then []
    else
      var init, last := rows[..|rows| - 1], rows[|rows| - 1];
      assert forall i :: 0 <= i < |init| ==> init[i] == rows[i];
      Dates(init, s) + (if last.sentiment == s && last.publishedAt.Some? then [last.publishedAt.value] else [])
  }

  /** The number of (day, s) groups: the distinct days on which `s` occurs. */
  function GroupCount(rows: seq<Row>, s: string): nat {
    |set d | d in Dates(rows, s)|
  }

  /** Sentiments with fewer than three groups are skipped. */
  predicate Qualifies(rows: seq<Row>, s: string) {
    GroupCount(rows, s) >= MinPoints
  }

  function Max(ds: seq<int>): (m: int)
    requires ds != []
    ensures m in ds && forall d :: d in ds ==> d <= m
  {
    if |ds| == 1 then ds[0]
    else
      var m := Max(ds[1..]);
      assert forall d :: d in ds <==> d == ds[0] || d in ds[1..];
      if ds[0] > m then ds[0] else m
  }

  function Min(ds: seq<int>): (m: int)
    requires ds != []
    ensures m in ds && forall d :: d in ds ==> m <= d
  {
    if |ds| == 1 then ds[0]
    else
      var m := Min(ds[1..]);
      assert forall d :: d in ds <==> d == ds[0] || d in ds[1..];
      if ds[0] < m then ds[0] else m
  }

  /** The last day `s` was seen (0 when it never was). */
  function LastDay(rows: seq<Row>, s: string): int {
    var ds := Dates(rows, s);
    if ds == [] then 0 else Max(ds)
  }

  /** The first day `s` was seen (0 when it never was). */
  function FirstDay(rows: seq<Row>, s: string): int {
    var ds := Dates(rows, s);
    if ds == [] then 0 else Min(ds)
  }

  /** Five rows for `s`, dated one to five days after `last`: every row
      carries `s`, the dates rise by one day from row to row, and all of
      them lie strictly after `last` and at most five days after it. */
  function FollowingDays(last: int, s: string): (b: seq<ForecastRow>)
    ensures |b| == Horizon
    ensures forall k :: 0 <= k < |b| ==> b[k].sentiment == s && last < b[k].date <= last + Horizon
    ensures forall k :: 0 <= k < |b| - 1 ==> b[k + 1].date == b[k].date + 1
    ensures b[0].date == last + 1
  {
    seq(Horizon, k requires 0 <= k < Horizon => ForecastRow(last + k + 1, s))
  }

  /** The five rows forecast for `s`: each carries `s` and is dated after
      every day on which `s` was seen, and at most five days after the
      last of them. */
  function Block(rows: seq<Row>, s: string): (b: seq<ForecastRow>)
    ensures |b| == Horizon
    ensures forall k :: 0 <= k < |b| ==> b[k].sentiment == s && b[k].date <= LastDay(rows, s) + Horizon
    ensures forall k, d :: 0 <= k < |b| && d in Dates(rows, s) ==> d < b[k].date
  {
    FollowingDays(LastDay(rows, s), s)
  }

  /** What the forecast loop adds for one sentiment: its block when it
      qualifies, nothing otherwise. */
  function Part(rows: seq<Row>, s: string): (p: seq<ForecastRow>)
    ensures p == [] || (|p| == Horizon && Qualifies(rows, s))
    ensures forall i :: 0 <= i < |p| ==> p[i].sentiment == s
  {
    if Qualifies(rows, s) then Block(rows, s) else []
  }

  /** The forecast for the sentiments of `order`, taken in that order: at
      most five rows per sentiment of `order`, and rows only for sentiments
      of `order` that qualify. */
  function Blocks(rows: seq<Row>, order: seq<string>): (b: seq<ForecastRow>)
    ensures |b| <= Horizon * |order|
    ensures forall i :: 0 <= i < |b| ==> b[i].sentiment in order && Qualifies(rows, b[i].sentiment)
  {
    if order == [] then []
    else
      var init, last := order[..|order| - 1], order[|order| - 1];
      var prev, part := Blocks(rows, init), Part(rows, last);
      assert forall x :: x in init ==> x in order;
      assert |prev| + |part| <= Horizon * |order| by {
        assert Horizon * |order| == Horizon * |init| + Horizon;
      }
      assert forall i :: |prev| <= i < |prev| + |part| ==> (prev + part)[i] == part[i - |prev|];
      prev + part
  }

  /** The number of sentiments of `order` that qualify. */
  function QualifyingCount(rows: seq<Row>, order: seq<string>): nat {
    if order == [] then 0
    else QualifyingCount(rows, order[..|order| - 1]) + (if Qualifies(rows, order[|order| - 1]) then 1 else 0)
  }

  /** A forecast is made of whole five-row blocks, one per qualifying
      sentiment of the order. */
  lemma {:induction false} BlocksWhole(rows: seq<Row>, order: seq<string>)
    ensures |Blocks(rows, order)| == Horizon * QualifyingCount(rows, order)
  {
    if order != [] {
      var init, last := order[..|order| - 1], order[|order| - 1];
      BlocksWhole(rows, init);
      var q := QualifyingCount(rows, init);
      var part := Part(rows, last);
      assert |Blocks(rows, order)| == Horizon * q + |part|;
      if Qualifies(rows, last) {
        assert |part| == Horizon;
        assert Horizon * (q + 1) == Horizon * q + Horizon;
      }
    }
  }

  predicate Distinct(xs: seq<string>) {
    forall i, j :: 0 <= i < j < |xs| ==> xs[i] != xs[j]
  }

  // ---------------------------------------------------------------------
  // The order of the sentiments: `groupby` sorts the (day, sentiment) keys
  // and `unique()` keeps first appearances, so a sentiment comes before
  // another when it was seen first, or on the same first day when its
  // label sorts first.

  /** Python's `<` on strings: lexicographic by code point. */
  predicate StrLess(a: string, b: string) {
    if a == [] then b != []
    else if b == [] then false
    else a[0] < b[0] || (a[0] == b[0] && StrLess(a[1..], b[1..]))
  }

  lemma {:induction false} StrLessAsymmetric(a: string, b: string)
    ensures !(StrLess(a, b) && StrLess(b, a))
  {
    if a != [] && b != [] && a[0] == b[0] {
      StrLessAsymmetric(a[1..], b[1..]);
    }
  }

  lemma {:induction false} StrLessTotal(a: string, b: string)
    requires a != b
    ensures StrLess(a, b) || StrLess(b, a)
  {
    if a != [] && b != [] && a[0] == b[0] {
      assert a == [a[0]] + a[1..] && b == [b[0]] + b[1..];
      StrLessTotal(a[1..], b[1..]);
    }
  }

  predicate Before(rows: seq<Row>, a: string, b: string) {
    FirstDay(rows, a) < FirstDay(rows, b)
    || (FirstDay(rows, a) == FirstDay(rows, b) && StrLess(a, b))
  }

  /** `before` orders any two different labels one way and not both. */
  ghost predicate StrictTotal(before: (string, string) -> bool) {
    forall a, b :: a != b ==> (before(a, b) || before(b, a)) && !(before(a, b) && before(b, a))
  }

  lemma BeforeIsStrictTotal(rows: seq<Row>)
    ensures StrictTotal((a, b) => Before(rows, a, b))
  {
    forall a, b | a != b
      ensures (Before(rows, a, b) || Before(rows, b, a)) && !(Before(rows, a, b) && Before(rows, b, a))
    {
      StrLessTotal(a, b);
      StrLessAsymmetric(a, b);
    }
  }

  predicate SortedBy(before: (string, string) -> bool, xs: seq<string>) {
    forall i :: 0 <= i < |xs| - 1 ==> before(xs[i], xs[i + 1])
  }

  function Insert(before: (string, string) -> bool, x: string, ys: seq<string>): (r: seq<string>)
    requires StrictTotal(before)
    ensures |r| == |ys| + 1
    ensures forall y :: y in r <==> y == x || y in ys
    ensures x !in ys && Distinct(ys) ==> Distinct(r)
    ensures x !in ys && SortedBy(before, ys) ==> SortedBy(before, r)
    ensures r[0] == x || r[0] == ys[0]
  {
    if ys == [] || !before(ys[0], x) then [x] + ys
    else
      var rest := Insert(before, x, ys[1..]);
      assert Distinct(ys) ==> ys[0] !in ys[1..];
      [ys[0]] + rest
  }

  /** Insertion sort by `before`. */
  function SortBy(before: (string, string) -> bool, xs: seq<string>): (r: seq<string>)
    requires StrictTotal(before)
    requires Distinct(xs)
    ensures |r| == |xs|
    ensures forall y :: y in r <==> y in xs
    ensures Distinct(r) && SortedBy(before, r)
  {
    if xs == [] then []
    else
      assert forall y :: y in xs[1..] ==> y in xs && y != xs[0];
      Insert(before, xs[0], SortBy(before, xs[1..]))
  }

  /** The sentiments of the dated rows, each once, in order of first appearance. */
  function Seen(rows: seq<Row>): (r: seq<string>)
    ensures Distinct(r)
    ensures forall s :: s in r <==> Dates(rows, s) != []
  {
    if rows == [] then []
    else
      var init, last := rows[..|rows| - 1], rows[|rows| - 1];
      var prev := Seen(init);
      assert forall s :: Dates(rows, s) != [] <==> Dates(init, s) != [] || (last.sentiment == s && last.publishedAt.Some?);
      if last.publishedAt.Some? && last.sentiment !in prev then prev + [last.sentiment] else prev
  }

  /** The loop order of `forecast_trends`. */
  function SentimentOrder(rows: seq<Row>): (r: seq<string>)
    ensures Distinct(r) && SortedBy((a, b) => Before(rows, a, b), r)
    ensures forall s :: s in r <==> Dates(rows, s) != []
  {
    BeforeIsStrictTotal(rows);
    SortBy((a, b) => Before(rows, a, b), Seen(rows))
  }

  /** The rows of a forecast that carry sentiment `s`. */
  function OfSentiment(s: string): ForecastRow -> bool {
    (r: ForecastRow) => r.sentiment == s
  }

  /** In a forecast over distinct sentiments, the rows of `s` are exactly its
      five-day block when it qualifies and it is in the order, and none otherwise. */
  lemma {:induction false} BlocksFor(rows: seq<Row>, order: seq<string>, s: string)
    requires Distinct(order)
    ensures Filter(Blocks(rows, order), OfSentiment(s))
         == if s in order && Qualifies(rows, s) then Block(rows, s) else []
  {
    if order != [] {
      var init, last := order[..|order| - 1], order[|order| - 1];
      assert order == init + [last];
      BlocksFor(rows, init, s);
      FilterConcat(Blocks(rows, init), Part(rows, last), OfSentiment(s));
      var p := Part(rows, last);
      if last == s {
        FilterAllPass(p, OfSentiment(s));
        assert s !in init;
      } else {
        FilterNonePass(p, OfSentiment(s));
      }
    }
  }

  /** Every sentiment seen on three or more distinct days gets its five
      rows, and no other sentiment gets any. */
  lemma ForecastCoverage(rows: seq<Row>, s: string)
    ensures Filter(Blocks(rows, SentimentOrder(rows)), OfSentiment(s))
         == if Qualifies(rows, s) then Block(rows, s) else []
  {
    BlocksFor(rows, SentimentOrder(rows), s);
  }

  lemma ForecastCoverageAll(rows: seq<Row>)
    ensures forall s :: Filter(Blocks(rows, SentimentOrder(rows)), OfSentiment(s))
                     == (if Qualifies(rows, s) then Block(rows, s) else [])
  {
    forall s ensures Filter(Blocks(rows, SentimentOrder(rows)), OfSentiment(s))
                  == (if Qualifies(rows, s) then Block(rows, s) else []) {
      ForecastCoverage(rows, s);
    }
  }

  lemma BlocksPrefix(rows: seq<Row>, order: seq<string>, i: nat)
    requires i < |order|
    ensures Blocks(rows, order[..i + 1]) == Blocks(rows, order[..i]) + Part(rows, order[i])
  {
    assert order[..i + 1][..i] == order[..i];
  }

  /** The inner loop of `forecast_trends`: appends the rows dated one to
      five days after `latest`, in date order. */
  method AppendForecast(results: seq<ForecastRow>, latest: int, s: string) returns (out: seq<ForecastRow>)
    ensures out == results + FollowingDays(latest, s)
  {
    out := results;
    ghost var block := FollowingDays(latest, s);
    for k := 1 to Horizon + 1
      invariant out == results + block[..k - 1]
    {
      assert block[..k] == block[..k - 1] + [block[k - 1]];
      out := out + [ForecastRow(latest + k, s)];
    }
    assert block[..Horizon] == block;
  }

  /** `forecast_trends`: empty input gives an empty table; otherwise every
      sentiment seen on at least three distinct days gets exactly five rows,
      dated one to five days after its last day, and every other sentiment
      gets none. */
  method ForecastTrends(rows: seq<Row>) returns (out: seq<ForecastRow>)
    ensures rows == [] ==> out == []
    ensures out == Blocks(rows, SentimentOrder(rows))
    ensures forall s :: Filter(out, OfSentiment(s)) == (if Qualifies(rows, s) then Block(rows, s) else [])
  {
    out := [];
    if rows == [] {
      return;
    }
    var order := SentimentOrder(rows);
    for i := 0 to |order|
      invariant out == Blocks(rows, order[..i])
    {
      BlocksPrefix(rows, order, i);
      var s := order[i];
      if GroupCount(rows, s) < MinPoints {
        continue;
      }
      out := AppendForecast(out, LastDay(rows, s), s);
    }
    assert order[..|order|] == order;
    ForecastCoverageAll(rows);
  }
}
