# NLP-Navigator core, modelled in Dafny

NLP-Navigator is a Streamlit dashboard of natural-language tools. Most of its pages only call a
model and show the result. This project models the parts that hold logic of their own:

- **News sentiment** (`features/7-Social-Media-Sentiment.py`). The `get_sentiment` labeller
  applies a length guard first. Then a keyword override runs, in which negative keywords win.
  Otherwise it takes the top label of a remote emotion classifier. The module also models the
  text scored for each article and the date-and-grouping skeleton of `forecast_trends`.
- **Signed scores** (`features/5-Sentiment-Heatmap.py`, `features/6-Geospatial-Sentiment.py`).
  A POSITIVE/NEGATIVE label becomes a signed confidence. The heatmap page adds a blank-text
  guard, checks the CSV columns, drops rows without text, sorts the points by date and scores
  each sentence or word. The geospatial page checks its CSV, gives each marker a colour and
  memoises the geocoder's answers.
- **Text normalisation** (`features/3-Text-Analysis-Tools.py`, `pages/Text_Processing.py`).
  These pages remove stop words and stem over whitespace-split tokens.
- **Credentials** (`features/auth.py`, `features/auth_user_registration.py`). This part covers
  the YAML credential store's shape fix, the cookie defaults, the registration form and the
  session flag that switches between the login and registration screens.
- **Feedback** (`features/5-Feedback.py`). The form's required-field check and the append-only
  CSV store are modelled.

Foreign code appears as function parameters:

- the transformers pipeline, as `string -> Prediction`;
- the HTTP exchange with the classifier, as `string -> Response`;
- the NLTK tokenizers, stop-word set and Porter stemmer;
- `pd.to_datetime`;
- the Nominatim geocoder;
- the password hasher.

State that the source changes in place is modelled as classes:

- the geocoder memo, `GeoSentiment.Geocoder`;
- the credential file and its in-memory copy, `Auth.CredentialStore`;
- the session flags, `Auth.Session`;
- the feedback file, `FeedbackStore.Store`.

Loops become methods with loop invariants: the two loops of `forecast_trends` and the marker
loop of the geospatial page. The registration and save steps, which have no loops, are methods
of the classes above.

Modules: `Wrappers` (Option, Result), `Seqs` (order-preserving filter), `Strings` (Python's
`isspace`, `lower`, `in`, `split`, `join`), `TextNormalizer`, `NewsSentiment`,
`SentimentForecast`, `SentimentScore`, `SentimentHeatmap`, `GeoSentiment`, `Auth` and
`FeedbackStore`.

## Model

| member | source | states |
|---|---|---|
| Seqs.Filter | pages/Text_Processing.py:13 | The list comprehension keeps exactly the elements that pass the test. Every kept element comes from the input, and the result is no longer than the input. |
| Seqs.FilterConcat | pages/Text_Processing.py:13 | Filtering a concatenation filters each part and concatenates the results in order. |
| Seqs.FilterIdempotent | pages/Text_Processing.py:13 | Filtering twice with the same test gives what filtering once gives. |
| Seqs.FilterAllPass | features/7-Social-Media-Sentiment.py:101 | A sequence whose every element passes is kept whole. |
| Seqs.FilterNonePass | features/7-Social-Media-Sentiment.py:101 | A sequence in which no element passes is filtered to nothing. |
| Wrappers.Option.GetOr | features/auth.py:29-31 | `get(key, default)` gives the stored value when present and the default otherwise. |
| Strings.Lower | features/7-Social-Media-Sentiment.py:28 | Lower-casing keeps the length and folds each character on its own. |
| Strings.LowerConcat | features/7-Social-Media-Sentiment.py:28 | Lower-casing distributes over concatenation. |
| Strings.ContainsInConcat | features/7-Social-Media-Sentiment.py:32 | A substring of a text stays a substring when text is added on either side. |
| Strings.Split | pages/Text_Processing.py:12 | Every token `split()` yields is a non-empty run of non-whitespace characters. |
| Strings.SplitEmptyIffBlank | features/5-Sentiment-Heatmap.py:29 | A text splits into no tokens exactly when it is empty or all whitespace. |
| Strings.SplitJoin | pages/Text_Processing.py:12-13 | Splitting the space-joined tokens gives the tokens back. |
| TextNormalizer.RemoveStopWords | pages/Text_Processing.py:10-14 | The result's tokens are exactly the input tokens whose lowercase form is not a stop word, in their order. This holds in both directions of membership, and there are never more tokens than before. The tokens are joined by single spaces, with none before or after. |
| TextNormalizer.StemTokens | pages/Text_Processing.py:19 | Stemming gives one token per input token. |
| TextNormalizer.StemText | pages/Text_Processing.py:16-20 | Text without tokens gives "". For a stemmer that maps tokens to tokens, the result's tokens are the stemmed input tokens, one for one and in order, joined by single spaces. |
| TextNormalizer.RemoveStopWordsIdempotent | features/3-Text-Analysis-Tools.py:42-45 | Removing stop words a second time changes nothing. |
| TextNormalizer.BlankBecomesEmpty | features/3-Text-Analysis-Tools.py:42-50 | Whitespace-only text becomes the empty string under either operation. |
| TextNormalizer.ProcessText | pages/Text_Processing.py:27-36 | Stop-word removal alone leaves exactly the non-stop tokens, joined by single spaces. With stemming on, the result is single-space-joined and never has more tokens than the input, for a stemmer that maps tokens to tokens. |
| TextNormalizer.ProcessTextUnselected | pages/Text_Processing.py:30-36 | With no option selected, the text is shown unchanged, whitespace and all. |
| TextNormalizer.ProcessTextEmpty | pages/Text_Processing.py:27-36 | Empty input stays empty under any options. |
| TextNormalizer.ProcessTextRemovesBeforeStemming | pages/Text_Processing.py:30-34 | With both options, stop words are tested on the unstemmed tokens and only the survivors are stemmed. |
| TextNormalizer.SuiteProcessedText | features/3-Text-Analysis-Tools.py:52-58 | Processed text is shown exactly when the input is non-empty. It is what the processing page computes for the same options: the input itself with none selected, its stop-word-free form with stop-word removal alone. |
| NewsSentiment.Scores | features/7-Social-Media-Sentiment.py:48 | Each candidate's `score` key is read in order. |
| NewsSentiment.FirstMaxIndex | features/7-Social-Media-Sentiment.py:48 | `max(..., key=score)` picks an index whose score nothing exceeds and that every earlier score is strictly below. |
| NewsSentiment.FirstMaxUnique | features/7-Social-Media-Sentiment.py:48 | A list of scores has only one first maximum, so `max`'s choice is determined. |
| NewsSentiment.ClassifierLabel | features/7-Social-Media-Sentiment.py:44-51 | A non-200 status gives "Neutral". Any other label comes from a 200 list answer whose candidates all have scores, and is the label of its first top-scoring candidate. Conversely, a well-formed answer (200, a non-empty first batch, all scored, the top one labelled) gives exactly that top label. |
| NewsSentiment.GetSentimentAsWritten | features/7-Social-Media-Sentiment.py:22-51 | The function as written raises exactly when the classifier is reached and answers 200 with an empty first batch or a flat answer, and a TypeError only for a flat answer with keys. A label it returns other than the keyword labels and "Neutral" is one of the candidates' labels. |
| NewsSentiment.GetSentiment | features/7-Social-Media-Sentiment.py:22-51 | The label is "Neutral", "NEGATIVE", "POSITIVE" or the classifier's label for the text as written. |
| NewsSentiment.ClassifierDecides | features/7-Social-Media-Sentiment.py:44-48 | Text that no guard or keyword decides, with a well-formed answer, is labelled with the answer's first top-scoring label. |
| NewsSentiment.ShortTextIsNeutral | features/7-Social-Media-Sentiment.py:24-25 | Text shorter than 10 characters, the empty text included, is "Neutral" whatever the classifier says. |
| NewsSentiment.NegativeKeywordWins | features/7-Social-Media-Sentiment.py:28-33 | A negative keyword in the lowercase text gives "NEGATIVE", even beside a positive keyword. |
| NewsSentiment.PositiveKeywordDecides | features/7-Social-Media-Sentiment.py:30-35 | With no negative keyword, a positive keyword gives "POSITIVE". |
| NewsSentiment.KeywordsIgnoreCase | features/7-Social-Media-Sentiment.py:28-42 | Texts equal up to letter case get the same keyword decision. Where no keyword decides, each text goes to the classifier in its original case. |
| NewsSentiment.NegativeKeywordSurvivesExtension | features/7-Social-Media-Sentiment.py:32-33 | Text added before or after a negative keyword cannot change the "NEGATIVE" label. |
| NewsSentiment.FailedCallIsNeutral | features/7-Social-Media-Sentiment.py:44-51 | If no keyword decides and the answer is not a 200 non-empty list, the label is "Neutral". |
| NewsSentiment.EmptyBatchEscapes | features/7-Social-Media-Sentiment.py:44-50 | A 200 answer `[[]]` makes the function as written raise, while the corrected labeller gives "Neutral". |
| NewsSentiment.FlatAnswerEscapes | features/7-Social-Media-Sentiment.py:44-50 | A 200 flat answer `[{"label": ..., "score": ...}]` makes the function as written raise a TypeError, while the corrected labeller gives "Neutral". |
| NewsSentiment.AgreesWhereAsWrittenReturns | features/7-Social-Media-Sentiment.py:22-51 | Wherever the function as written returns, the corrected labeller returns the same label. |
| NewsSentiment.ScoredText | features/7-Social-Media-Sentiment.py:85 | The scored text is the title, a space and the description, or the title alone when there is no description. |
| NewsSentiment.NegativeTitleDecides | features/7-Social-Media-Sentiment.py:85 | A scorable title with a negative keyword makes the article "NEGATIVE" whatever its description says. |
| NewsSentiment.DateCell | features/7-Social-Media-Sentiment.py:74-82 | An article's date cell holds a date exactly when it has the `publishedAt` key with a non-null value, and then that value. |
| NewsSentiment.AnalyzeNews | features/7-Social-Media-Sentiment.py:72-87 | When no article has the `publishedAt` key, the table is empty. Otherwise there is one row per article, in order, labelled from its own scored text and dated by its date cell. |
| NewsSentiment.NullDatesKeepRows | features/7-Social-Media-Sentiment.py:74-87 | Articles that carry the key with a null value still give one row each, all dated NaT. |
| SentimentForecast.Dates | features/7-Social-Media-Sentiment.py:96-97 | The days grouped for a sentiment are exactly the dates of the dated rows carrying it. |
| SentimentForecast.Max | features/7-Social-Media-Sentiment.py:108 | The latest date is one of the dates and no date exceeds it. |
| SentimentForecast.Min | features/7-Social-Media-Sentiment.py:97 | The earliest date is one of the dates and no date precedes it. |
| SentimentForecast.FollowingDays | features/7-Social-Media-Sentiment.py:108-113 | A forecast block has five rows of the one sentiment. The first is dated the day after the last day, and each later row one day after the row before it. |
| SentimentForecast.Block | features/7-Social-Media-Sentiment.py:108-113 | The five rows of a sentiment carry it, and each is dated after every day on which it was seen and at most five days after the last of them. |
| SentimentForecast.Part | features/7-Social-Media-Sentiment.py:102-113 | One loop iteration adds nothing, or five rows of its sentiment when that sentiment qualifies. |
| SentimentForecast.Blocks | features/7-Social-Media-Sentiment.py:99-113 | The results hold at most five rows per visited sentiment, and only rows of visited sentiments seen on three or more days. |
| SentimentForecast.BlocksWhole | features/7-Social-Media-Sentiment.py:99-113 | The results are made of whole five-row blocks, one per qualifying visited sentiment. |
| SentimentForecast.StrLessAsymmetric | features/7-Social-Media-Sentiment.py:97 | String order never puts two labels before each other. |
| SentimentForecast.StrLessTotal | features/7-Social-Media-Sentiment.py:97 | Of two different labels, one sorts first. |
| SentimentForecast.BeforeIsStrictTotal | features/7-Social-Media-Sentiment.py:97-100 | The (first day, label) order of the grouped keys orders any two different sentiments one way only. |
| SentimentForecast.Insert | features/7-Social-Media-Sentiment.py:97 | Inserting keeps the elements, adds the new one, and preserves distinctness and order. |
| SentimentForecast.SortBy | features/7-Social-Media-Sentiment.py:97 | Sorting keeps exactly the same distinct elements, now in order. |
| SentimentForecast.Seen | features/7-Social-Media-Sentiment.py:100 | `unique()` lists each sentiment of a dated row once, and no other. |
| SentimentForecast.SentimentOrder | features/7-Social-Media-Sentiment.py:97-100 | The loop visits each dated sentiment once, ordered by first day and then by label. |
| SentimentForecast.BlocksFor | features/7-Social-Media-Sentiment.py:99-113 | In the results, the rows of one sentiment are its five-row block when it is visited and qualifies, and none otherwise. |
| SentimentForecast.ForecastCoverage | features/7-Social-Media-Sentiment.py:100-113 | A sentiment with at least three grouped days gets exactly its five rows. Every other sentiment gets none. |
| SentimentForecast.ForecastCoverageAll | features/7-Social-Media-Sentiment.py:100-113 | The same, for all sentiments at once. |
| SentimentForecast.BlocksPrefix | features/7-Social-Media-Sentiment.py:99-113 | One more loop iteration appends exactly that sentiment's part. |
| SentimentForecast.AppendForecast | features/7-Social-Media-Sentiment.py:108-113 | The inner loop appends the rows dated one to five days after the latest day, in date order, and keeps what was there. |
| SentimentForecast.ForecastTrends | features/7-Social-Media-Sentiment.py:91-115 | Empty input gives an empty table. Otherwise each sentiment seen on three or more distinct days gets exactly five rows, dated one to five days after its last day, and every other sentiment gets none. |
| SentimentScore.SignedScore | features/5-Sentiment-Heatmap.py:32-41 | The score is the confidence, its negation or 0, and any other label gives 0. With a positive confidence, the sign names the label in both directions. A confidence in [0, 1] gives a score in [-1, 1]. |
| SentimentScore.DropMissing | features/5-Sentiment-Heatmap.py:67 | `dropna(subset=...)` keeps exactly the rows with a value in every required column. |
| SentimentHeatmap.HeatmapScore | features/5-Sentiment-Heatmap.py:27-41 | Blank text scores 0 without the model. Other text gets the signed score of the model's label. |
| SentimentHeatmap.BlankIgnoresModel | features/5-Sentiment-Heatmap.py:29-30 | A blank text's score does not depend on the model. |
| SentimentHeatmap.CheckColumns | features/5-Sentiment-Heatmap.py:66-71 | A CSV without both `Date` and `Text` is refused. Otherwise the rows lacking text are dropped. |
| SentimentHeatmap.Points | features/5-Sentiment-Heatmap.py:81-82 | There is one point per row, in order, with its text, score and converted date. An unparseable date fails the whole conversion. |
| SentimentHeatmap.InsertByDate | features/5-Sentiment-Heatmap.py:83 | Inserting one point keeps the others and keeps them in date order. |
| SentimentHeatmap.SortByDate | features/5-Sentiment-Heatmap.py:83 | The points come out in ascending date order, with NaT last, as a permutation of the input. |
| SentimentHeatmap.MissingColumnsStop | features/5-Sentiment-Heatmap.py:66-71 | A CSV missing either column shows only the column error. |
| SentimentHeatmap.TimeSeriesContents | features/5-Sentiment-Heatmap.py:79-98 | With no text-bearing row the page shows the no-valid-text error. When some text-bearing row's date does not parse, the date conversion raises (modelled as `Error(BadDate)`). Otherwise a series is plotted: date-sorted, holding every text-bearing row once, scored as it stands. |
| SentimentHeatmap.CsvTakesPrecedence | features/5-Sentiment-Heatmap.py:79 | With a CSV uploaded, the text box has no effect. |
| SentimentHeatmap.HeatmapScoresPerSegment | features/5-Sentiment-Heatmap.py:100-120 | Blank text shows exactly the warning and no segments shows exactly the error. Otherwise the heatmap has one score per segment, in order. |
| GeoSentiment.GeoScore | features/6-Geospatial-Sentiment.py:21-27 | The score is the confidence for POSITIVE and its negation for NEGATIVE. Any other label gives 0. |
| GeoSentiment.BlankTextIsScored | features/6-Geospatial-Sentiment.py:21-27 | The geospatial page has no blank-text guard: blank text that the model calls POSITIVE scores its confidence there, where the heatmap gives 0. |
| GeoSentiment.MarkerColour | features/6-Geospatial-Sentiment.py:72 | Green exactly for a positive score, red exactly for a negative one, orange exactly for zero. |
| GeoSentiment.ColourFollowsLabel | features/6-Geospatial-Sentiment.py:21-27 | With a positive confidence, the marker is green exactly for POSITIVE and red exactly for NEGATIVE, and orange otherwise. |
| GeoSentiment.Resolve | features/6-Geospatial-Sentiment.py:35-40 | A found place gives its latitude and longitude. "Not found" and a timeout both give no coordinates. |
| GeoSentiment.Geocoder.constructor | features/6-Geospatial-Sentiment.py:30-32 | The memo starts empty and nothing has been asked yet. |
| GeoSentiment.Geocoder.LatLon | features/6-Geospatial-Sentiment.py:30-40 | A location looked up before gets its memoised answer, even one that came from a timeout, and no request is sent. A new location is sent as the next request, and the answer to that request is memoised. Every memo entry holds the answer to the one request made for its location. |
| GeoSentiment.MarkerFor | features/6-Geospatial-Sentiment.py:69-77 | A marker names its row's location, sits at the given coordinates, carries the row's score, and is green or red exactly when the score is positive or negative. |
| GeoSentiment.AddMarker | features/6-Geospatial-Sentiment.py:55-78 | One row adds exactly its marker at the end, at the coordinates the memo holds for its location. Exactly its location joins the memo, and earlier entries are unchanged. |
| GeoSentiment.BuildMap | features/6-Geospatial-Sentiment.py:46-84 | A CSV without both `Location` and `Text` gives the error and leaves the memo alone. Otherwise every row holding both values gets exactly one marker, in row order, with its score and colour, at the coordinates memoised for its location. Earlier memo entries are unchanged. |
| Auth.Normalise | features/auth_user_registration.py:19-25 | The loaded configuration always has `credentials.usernames`. The users already present and the cookie settings are kept, and a well-shaped configuration is left as it is. |
| Auth.NormaliseIdempotent | features/auth.py:17-23 | Normalising a normalised configuration changes nothing. |
| Auth.Initialised | features/auth.py:9-11 | A missing file is created with an empty user map. An existing file is left as it is. |
| Auth.CookieSettings | features/auth.py:27-32 | The cookie name, key and expiry default to "auth_cookie", "random_key_123" and 30 days, key by key. |
| Auth.AfterRegistration | features/auth_user_registration.py:36-63 | An empty username, password or email refuses with nothing changed, and the full name may be empty. A taken username refuses with nothing changed. Otherwise exactly the new user is added, with the hashed password, and the cookie settings are kept. |
| Auth.RegistrationKeepsOthers | features/auth_user_registration.py:53-57 | A registration neither adds nor changes any user other than the new one. |
| Auth.SecondRegistrationRefused | features/auth_user_registration.py:45-47 | A username just registered cannot be registered again, and the second attempt changes nothing. |
| Auth.RefusalIgnoresHasher | features/auth_user_registration.py:45-50 | The duplicate and missing-field checks come before hashing, so a refusal is the same under any hasher. |
| Auth.CredentialStore.Load | features/auth_user_registration.py:11-25 | On start-up, a missing file is created and the loaded document is normalised. |
| Auth.CredentialStore.SubmitRegistration | features/auth_user_registration.py:36-63 | The in-memory configuration changes as `AfterRegistration` says. Only a successful registration rewrites the file, and then with exactly that configuration. |
| Auth.ScreenFor | features/auth.py:50-55 | The registration form is shown exactly when the `register` flag is set and true, and the login form otherwise. |
| Auth.Session.constructor | features/auth.py:50-51 | A fresh session shows the login form. |
| Auth.Session.ClickRegister | features/auth.py:45-48 | While not authenticated, "Register" sets the flag and the registration form is shown. Once authenticated, there is no button and nothing changes. |
| Auth.Session.BackToLogin | features/auth_user_registration.py:65-66 | "Back to Login" clears the flag and the login form is shown. |
| FeedbackStore.Saved | features/5-Feedback.py:9-22 | The new row is appended after all the old rows, which are unchanged and in order. Without a file, the store is the new row alone. |
| FeedbackStore.SavesFromNothing | features/5-Feedback.py:9-22 | N saves into a missing store leave exactly the N rows, in submission order. |
| FeedbackStore.SavesAppend | features/5-Feedback.py:14-22 | Saves into an existing store keep its rows first and add the new rows after them in order. |
| FeedbackStore.Store.Save | features/5-Feedback.py:9-22 | The file becomes the old rows followed by the new row. |
| FeedbackStore.Store.Submit | features/5-Feedback.py:38-51 | A submission is saved exactly when `RequiredMissing` is false, that is, when name, email and challenges are all non-empty. A refused submission leaves the store unchanged. Otherwise one row with exactly the six submitted values is appended. |

## Left out

- Strings.Lower folds only ASCII letters. Python's `str.lower` folds all of Unicode, which matters only for keyword matching on non-ASCII capitals.
- NewsSentiment.GetSentiment: a 200 answer whose body is not JSON, and a network exception from `requests.post`, are not modelled. Both raise in the source. The response is a parameter whose payload is already decoded.
- NewsSentiment.GetSentimentAsWritten: candidate scores that are not numbers, and a first element that is a string, a number or another JSON value, are not modelled. The model takes scores as reals and knows only a list of candidates or one object as the first element.
- NewsSentiment.ScoredText: a missing title (NaN) is not modelled. A title is always a string here.
- NewsSentiment.AnalyzeNews: the datetime conversion of `publishedAt` and the column renaming are not modelled. Dates are day numbers.
- NewsSentiment.AnalyzeNews assumes every article carries the `title`, `description` and `url` keys (the description may be null). When no article has one of them, the source raises KeyError when it reads the row or selects the columns, and the model still gives a full table.
- NewsSentiment.AnalyzeNews labels rows with the corrected labeller `GetSentiment`. In the source, the ValueError or TypeError listed under "## Findings" escapes `df.apply` and the whole table fails. The model gives that row "Neutral".
- SentimentForecast.ForecastTrends: the exponential-smoothing counts are not modelled (statsmodels, floating point). Only which sentiments get rows, and their dates, are modelled.
- SentimentHeatmap.SortByDate is a stable insertion sort. pandas' default sort is not stable, so only date order and permutation are claimed, not the order among equal dates.
- SentimentHeatmap.GenerateHeatmap has no row of its own. Its behaviour is stated by the four lemmas about it.
- SentimentHeatmap.Points: a `Text` cell that is not a string, such as a number that `read_csv` parsed, is not modelled.
- SentimentHeatmap.Points: dates are converted cell by cell by the `parseDate` parameter, as pandas before 2.0 or `format="mixed"` does. pandas 2 infers one format from the first non-null value and applies it to the whole column. Then a column such as `["12/25/2023", "13/01/2024"]` raises at features/5-Sentiment-Heatmap.py:82 although each cell parses alone, and a cell's day can depend on the column's first value. That behaviour is not modelled, and the date outcomes of SentimentHeatmap.TimeSeriesContents rest on the same cell-by-cell assumption.
- GeoSentiment.BuildMap: the source scores every row before it geocodes any. The model does both per row. Scoring is pure, so the markers and the memo come out the same.
- GeoSentiment.BuildMap states that the earlier memo entries stay and every kept row's location is memoised. It does not state that no other location enters the memo. AddMarker states it for one row.
- GeoSentiment.BuildMap keeps rows whose geocoding failed, with no coordinates, because the `notnull` filter cannot remove a `(None, None)` pair. folium rejects a `[None, None]` location, so the source page fails at the first such marker. The model keeps building the map, and that failure is not modelled.
- GeoSentiment.Geocoder.LatLon: geopy errors other than a timeout, and the one-second sleep before each request, are not modelled.
- Auth: YAML parsing and serialisation are not modelled. A document whose `credentials` key holds something other than a mapping is not modelled either. Keys of the configuration other than `credentials` and `cookie` are not modelled.
- Auth: the login itself and the logout (streamlit_authenticator internals) are not modelled. The authentication status is a field set from outside.
- Auth: `features/auth.py` loads the configuration once at import. A registration made on the other screen is not reflected in that copy, and this interaction is not modelled.
- Auth.AfterRegistration: the hasher is a deterministic parameter. bcrypt's random salt is not modelled.
- Auth.Normalise: a YAML null is modelled like a missing key. In the source, a `usernames` key present with a null value passes the key test at features/auth_user_registration.py:24 and stays None. The membership test at :45 then raises TypeError, while the model registers into an empty map.
- Auth.CookieSettings: a YAML null is modelled like a missing key. In the source, a cookie entry such as `name: null` makes `.get` at features/auth.py:29-31 return None rather than the default, and `cookie: null` raises AttributeError there. The model gives the defaults in both cases.
- FeedbackStore: CSV serialisation is not modelled, including how an empty "General Feedback" cell reads back as NaN. Records are stored as values.
- Streamlit widgets, charts, the folium map and the concurrency of the read-modify-rewrite stores are not modelled.

## Findings

| source | as written | input that shows it | evidently intended | confidence | as-written member | corrected member |
|---|---|---|---|---|---|---|
| features/7-Social-Media-Sentiment.py:44-50 | `max(sentiments[0], ...)` runs on the first batch unchecked, and only `KeyError` is caught, so the `ValueError` from an empty sequence escapes `get_sentiment` | a text of 10 or more characters with no keyword, whose classifier answer is status 200 with body `[[]]` | the documented fallback, "Neutral", as for every other unusable answer | medium, not executed | NewsSentiment.EmptyBatchEscapes | NewsSentiment.GetSentiment |
| features/7-Social-Media-Sentiment.py:44-50 | the answer is assumed to be a list of lists; when its first element is one object, `max` iterates the object's string keys and `x["score"]` raises a `TypeError` that escapes | a text of 10 or more characters with no keyword, whose classifier answer is status 200 with body `[{"label": "joy", "score": 0.9}]` | the documented fallback, "Neutral" | medium, not executed | NewsSentiment.FlatAnswerEscapes | NewsSentiment.GetSentiment |
