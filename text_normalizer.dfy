/** The text-processing options of the text analysis suite
    (features/3-Text-Analysis-Tools.py) and of the text-processing page
    (pages/Text_Processing.py): stop-word removal and stemming over
    whitespace-split tokens. The English stop-word list and the Porter
    stemmer are foreign code and are parameters here. */
module TextNormalizer {
  import opened Wrappers
  import opened Seqs
  import opened Strings

  /** The test `word.lower() not in stop_words`. */
  function NotStopWord(stop: set<string>): string -> bool {
    w => Lower(w) !in stop
  }

  /** `[ps.stem(word) for word in words]`. */
  function StemTokens(ws: seq<string>, stem: string -> string): (r: seq<string>)
    ensures |r| == |ws|
  {
    seq(|ws|, i requires 0 <= i < |ws| => stem(ws[i]))
  }

  /** A stemmer that, like Porter's, maps a token to a token. */
  ghost predicate KeepsWords(stem: string -> string) {
    forall w :: IsWord(w) ==> IsWord(stem(w))
  }

  /** `remove_stop_words`: the tokens of the result are exactly the input's
      tokens whose lowercase form is not a stop word, in their original
      order, and there are no more of them than before; they are separated
      by single spaces, with none before or after. */
  function RemoveStopWords(text: string, stop: set<string>): (r: string)
    ensures Split(r) == Filter(Split(text), NotStopWord(stop))
    ensures r == Join(Split(r))
    ensures |Split(r)| <= |Split(text)|
    ensures forall w :: w in Split(r) ==> w in Split(text) && Lower(w) !in stop
    ensures forall w :: w in Split(text) && Lower(w) !in stop ==> w in Split(r)
  {
    var kept := Filter(Split(text), NotStopWord(stop));
    assert forall i :: 0 <= i < |kept| ==> kept[i] in Split(text);
    SplitJoin(kept);
    Join(kept)
  }

  /** `stem_text`: provided the stemmer turns tokens into tokens, the
      tokens of the result are the stemmed input tokens, one for one and in
      order, separated by single spaces; text without tokens gives "". */
  function StemText(text: string, stem: string -> string): (r: string)
    ensures Split(text) == [] ==> r == ""
    ensures KeepsWords(stem) ==>
              && Split(r) == StemTokens(Split(text), stem)
              && |Split(r)| == |Split(text)|
              && r == Join(Split(r))
  {
    var ws := StemTokens(Split(text), stem);
    assert KeepsWords(stem) ==> Split(Join(ws)) == ws by {
      if KeepsWords(stem) {
        forall i | 0 <= i < |ws| ensures IsWord(ws[i]) {
          assert IsWord(Split(text)[i]);
        }
        SplitJoin(ws);
      }
    }
    Join(ws)
  }

  /** Removing stop words twice gives the same text as removing them once. */
  lemma RemoveStopWordsIdempotent(text: string, stop: set<string>)
    ensures RemoveStopWords(RemoveStopWords(text, stop), stop) == RemoveStopWords(text, stop)
  {
    var p := NotStopWord(stop);
    FilterIdempotent(Split(text), p);
  }

  /** Whitespace-only text becomes the empty string under either operation. */
  lemma BlankBecomesEmpty(text: string, stop: set<string>, stem: string -> string)
    requires IsBlank(text)
    ensures RemoveStopWords(text, stop) == ""
    ensures StemText(text, stem) == ""
  {
    SplitEmptyIffBlank(text);
  }

  /** The processing of pages/Text_Processing.py: each selected option
      rewrites the text, stop-word removal first. Any selected option
      leaves single-space-separated tokens; stop-word removal alone leaves
      the input's non-stop tokens, and stemming keeps the token count of
      what it is given. */
  function ProcessText(text: string, removeStops: bool, applyStem: bool,
                       stop: set<string>, stem: string -> string): (r: string)
    ensures removeStops && !applyStem ==> Split(r) == Filter(Split(text), NotStopWord(stop))
    ensures removeStops && !applyStem ==> r == Join(Split(r))
    ensures (removeStops || applyStem) && KeepsWords(stem) ==> r == Join(Split(r))
    ensures applyStem && KeepsWords(stem) ==> |Split(r)| <= |Split(text)|
  {
    var afterRemoval := if removeStops then RemoveStopWords(text, stop) else text;
    if applyStem then StemText(afterRemoval, stem) else afterRemoval
  }

  /** With no option selected the text comes back as typed, whitespace and
      all. */
  lemma ProcessTextUnselected(text: string, stop: set<string>, stem: string -> string)
    ensures ProcessText(text, false, false, stop, stem) == text
  {
  }

  /** Empty input gives empty output whatever the options. */
  lemma ProcessTextEmpty(removeStops: bool, applyStem: bool, stop: set<string>, stem: string -> string)
    ensures ProcessText("", removeStops, applyStem, stop, stem) == ""
  {
    BlankBecomesEmpty("", stop, stem);
    var afterRemoval := if removeStops then RemoveStopWords("", stop) else "";
    assert afterRemoval == "";
  }

  /** With both options, stop words are tested on the unstemmed tokens and
      only the survivors are stemmed. */
  lemma ProcessTextRemovesBeforeStemming(text: string, stop: set<string>, stem: string -> string)
    requires KeepsWords(stem)
    ensures Split(ProcessText(text, true, true, stop, stem))
         == StemTokens(Filter(Split(text), NotStopWord(stop)), stem)
  {
    assert Split(ProcessText(text, true, true, stop, stem))
        == StemTokens(Split(RemoveStopWords(text, stop)), stem);
  }

  /** The text analysis suite shows processed text only for non-empty input;
      what it shows is what the processing page computes. */
  function SuiteProcessedText(text: string, removeStops: bool, applyStem: bool,
                              stop: set<string>, stem: string -> string): (r: Option<string>)
    ensures r.None? <==> text == ""
    ensures r.Some? && !removeStops && !applyStem ==> r.value == text
    ensures r.Some? && removeStops && !applyStem ==> r.value == RemoveStopWords(text, stop)
    ensures r.Some? ==> r.value == ProcessText(text, removeStops, applyStem, stop, stem)
  {
    if text == "" then None else Some(ProcessText(text, removeStops, applyStem, stop, stem))
  }
}
