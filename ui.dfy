/**
 * The page state that static/script.js reads and writes, as a value, and the
 * effect of each of its functions on that value. The async functions
 * `summarizeArticle` and `loadDemoArticle` are split at their one
 * `await fetch(...)`: a start step (everything before the request is sent)
 * and a completion step that receives what the request produced.
 */
module Ui {
  import opened Wrappers
  import opened Whitespace
  import opened Text

  const EmptyArticleError: string := "Please paste an article first!"
  const SummarizeFallback: string := "Summarization failed"
  const DemoFallback: string := "Failed to load demo"
  const NetworkErrorPrefix: string := "Network error: "

  // ---------------------------------------------------------------------------
  // Responses

  /** The `stats` object of a `/summarize` response, as the page displays it. */
  datatype Stats = Stats(inputWords: int, summaryWords: int, compressionRate: string)

  /** The JSON body of a `/summarize` response; a field the body lacks is `None`. */
  datatype SummarizeBody = SummarizeBody(summary: Option<string>, stats: Option<Stats>, error: Option<string>)

  /** The JSON body of a `/demo` response. */
  datatype DemoBody = DemoBody(document: Option<string>, referenceSummary: Option<string>, error: Option<string>)

  /**
   * What the `try` block obtains from `await fetch(...)` and `await
   * response.json()`: a parsed body, or the `message` of the error thrown.
   */
  datatype Outcome<T> = Parsed(body: T) | Thrown(message: string)

  /** JavaScript truthiness of a string field: present and not empty. */
  predicate Truthy(o: Option<string>) {
    o.Some? && o.value != []
  }

  /** JavaScript's `o || fallback` on a string field. */
  function OrElse(o: Option<string>, fallback: string): (r: string)
    ensures Truthy(o) ==> r == o.value
    ensures !Truthy(o) ==> r == fallback
    ensures r != [] <==> Truthy(o) || fallback != []
  {
    if Truthy(o) then o.value else fallback
  }

  // ---------------------------------------------------------------------------
  // Counters

  /**
   * The number of words `updateWordCount` displays (static/script.js:26):
   * `text.trim() ? text.trim().split(/\s+/).filter(w => w.length).length : 0`.
   */
  function WordCount(text: string): nat {
    var t := Trim(text, JsSpace);
    if t == [] then 0 else |NonEmpty(SplitOnRuns(t, JsSpace))|
  }

  /**
   * The displayed count is the number of maximal runs of non-whitespace
   * characters in the untrimmed text, and zero exactly for empty or
   * whitespace-only text.
   */
  lemma WordCountRuns(text: string)
    ensures WordCount(text) == |Words(text, JsSpace)|
    ensures WordCount(text) == RunCount(text, JsSpace)
    ensures WordCount(text) == 0 <==> AllSpace(text, JsSpace)
  {
    var t := Trim(text, JsSpace);
    WordsTrim(text, JsSpace);
    WordsCount(text, JsSpace);
    WordsEmptyIff(text, JsSpace);
    if t != [] {
      SplitOnRunsNonEmpty(t, JsSpace);
    }
  }

  /**
   * JavaScript's `text.length`: the number of UTF-16 code units, two for a
   * character outside the Basic Multilingual Plane.
   */
  function Utf16Length(s: string): (n: nat)
    ensures |s| <= n <= 2 * |s|
  {
    if s == [] then 0
    else (if s[0] < '\U{10000}' then 1 else 2) + Utf16Length(s[1..])
  }

  /** The character count equals the number of characters exactly when all are in the Basic Multilingual Plane. */
  lemma {:induction false} Utf16LengthBmp(s: string)
    ensures Utf16Length(s) == |s| <==> forall i :: 0 <= i < |s| ==> s[i] < '\U{10000}'
    decreases |s|
  {
    if s != [] {
      Utf16LengthBmp(s[1..]);
      assert forall i :: 1 <= i < |s| ==> s[i] == s[1..][i - 1];
    }
  }

  // ---------------------------------------------------------------------------
  // The textarea

  /**
   * The `value` of a textarea to which a script assigned `s`: the HTML
   * standard's textarea line break normalization reads every CR LF pair and
   * every lone CR back as one LF.
   */
  function TextareaValue(s: string): string
    decreases |s|
  {
    if s == [] then []
    else if s[0] == '\r' then "\n" + TextareaValue(if |s| > 1 && s[1] == '\n' then s[2..] else s[1..])
    else [s[0]] + TextareaValue(s[1..])
  }

  predicate NoCarriageReturn(s: string) {
    forall i :: 0 <= i < |s| ==> s[i] != '\r'
  }

  /** The value holds no CR and is no longer than what was assigned. */
  lemma {:induction false} TextareaValueNormal(s: string)
    ensures NoCarriageReturn(TextareaValue(s)) && |TextareaValue(s)| <= |s|
    decreases |s|
  {
    if s != [] {
      var rest := if s[0] == '\r' && |s| > 1 && s[1] == '\n' then s[2..] else s[1..];
      TextareaValueNormal(rest);
      var r := TextareaValue(s);
      assert r == [r[0]] + TextareaValue(rest);
      assert r[0] != '\r';
      assert forall i :: 1 <= i < |r| ==> r[i] == TextareaValue(rest)[i - 1];
    }
  }

  /** Assigning text is read back unchanged exactly when the text holds no CR. */
  lemma {:induction false} TextareaValueKeeps(s: string)
    ensures TextareaValue(s) == s <==> NoCarriageReturn(s)
    decreases |s|
  {
    TextareaValueNormal(s);
    if s != [] && s[0] != '\r' && NoCarriageReturn(s) {
      assert NoCarriageReturn(s[1..]) by {
        forall i | 0 <= i < |s[1..]| ensures s[1..][i] != '\r' { assert s[1..][i] == s[i + 1]; }
      }
      TextareaValueKeeps(s[1..]);
      assert s == [s[0]] + s[1..];
    }
  }

  /** Reading the value back and assigning it again changes nothing. */
  lemma TextareaValueIdempotent(s: string)
    ensures TextareaValue(TextareaValue(s)) == TextareaValue(s)
  {
    TextareaValueNormal(s);
    TextareaValueKeeps(TextareaValue(s));
  }

  /** A Windows line break and a lone CR each read back as one LF. */
  lemma TextareaValueLineBreaks()
    ensures TextareaValue("a\r\nb") == "a\nb"
    ensures TextareaValue("a\rb") == "a\nb"
    ensures CountedArticle(TextareaValue("a\r\nb")).charCount == 3
  {
    var s, t := "a\r\nb", "a\rb";
    assert s[1..] == "\r\nb" && s[1..][2..] == "b" && "b"[1..] == [];
    assert t[1..] == "\rb" && t[1..][1..] == "b";
    assert TextareaValue("a\r\nb") == "a\nb";
    assert Utf16Length("a\nb") == 3 by {
      var u := "a\nb";
      assert u[1..] == "\nb" && u[1..][1..] == "b";
    }
  }

  // ---------------------------------------------------------------------------
  // The page

  /** A button: its `disabled` flag, and whether it shows its busy label. */
  datatype Button = Button(disabled: bool, busy: bool)

  /** The textarea's value and the two counters displayed under it. */
  datatype Article = Article(text: string, wordCount: nat, charCount: nat)

  /**
   * An element that is shown or hidden (the `d-none` class) together with
   * what it displays.
   */
  datatype Panel<T> = Panel(visible: bool, content: T)

  /**
   * What static/script.js keeps: the `isProcessing` guard, the two buttons,
   * the spinner, the textarea with its counters, the summary card, the stats
   * row, the reference card, the error alert and the demo placeholder.
   */
  datatype View = View(
    isProcessing: bool,
    summarizeButton: Button,
    spinnerVisible: bool,
    demoButton: Button,
    article: Article,
    summary: Panel<string>,
    stats: Panel<Option<Stats>>,
    reference: Panel<string>,
    error: Panel<string>,
    placeholderVisible: bool)

  const Idle: Button := Button(false, false)
  const Pressed: Button := Button(true, true)

  /** The page as loaded: empty textarea, idle buttons, only the placeholder shown. */
  const Initial: View := View(false, Idle, false, Idle, Article([], 0, 0),
                              Panel(false, []), Panel(false, None), Panel(false, []), Panel(false, []), true)

  /** The counters describe the text. */
  predicate Counted(a: Article) {
    a.wordCount == WordCount(a.text) && a.charCount == Utf16Length(a.text)
  }

  /**
   * The article `text` with its counters, as `updateWordCount` leaves it: as
   * many words as maximal non-whitespace runs, none exactly for blank text,
   * and between one and two UTF-16 code units per character.
   */
  function CountedArticle(text: string): (a: Article)
    ensures a.text == text && Counted(a)
    ensures a.wordCount == |Words(text, JsSpace)|
    ensures a.wordCount == 0 <==> AllSpace(text, JsSpace)
    ensures |text| <= a.charCount <= 2 * |text|
  {
    WordCountRuns(text);
    Article(text, WordCount(text), Utf16Length(text))
  }

  /**
   * What every function of the script keeps true: the guard, the summarize
   * button and the spinner move together; the demo button's label follows its
   * disabled flag; the counters describe the text; no summary is shown while a
   * request is in flight; stats are shown only under a summary; a card or
   * alert is shown only with text in it.
   */
  predicate Consistent(v: View) {
    && v.summarizeButton == Button(v.isProcessing, v.isProcessing)
    && v.spinnerVisible == v.isProcessing
    && v.demoButton.busy == v.demoButton.disabled
    && Counted(v.article)
    && (v.isProcessing ==> !v.summary.visible)
    && (v.stats.visible ==> v.summary.visible && v.stats.content.Some?)
    && (v.summary.visible ==> v.summary.content != [])
    && (v.reference.visible ==> v.reference.content != [])
    && (v.error.visible ==> v.error.content != [])
  }

  /** None of the result area is shown. */
  predicate Cleared(v: View) {
    !v.summary.visible && !v.stats.visible && !v.reference.visible && !v.error.visible && !v.placeholderVisible
  }

  /** `updateWordCount` (static/script.js:23-30): both counters recomputed from the text. */
  function UpdateWordCount(v: View): (r: View)
    ensures r.article == CountedArticle(v.article.text)
    ensures r.(article := v.article) == v
  {
    v.(article := CountedArticle(v.article.text))
  }

  /**
   * `resetUI` (static/script.js:120-132): the summary card, stats row,
   * reference card, error alert and demo placeholder hidden, what they display
   * kept; nothing else touched.
   */
  function ResetUI(v: View): (r: View)
    ensures Cleared(r)
    ensures && r.summary.content == v.summary.content && r.stats.content == v.stats.content
            && r.reference.content == v.reference.content && r.error.content == v.error.content
    ensures && r.isProcessing == v.isProcessing && r.summarizeButton == v.summarizeButton
            && r.spinnerVisible == v.spinnerVisible && r.demoButton == v.demoButton
            && r.article == v.article
  {
    v.(summary := v.summary.(visible := false), stats := v.stats.(visible := false),
       reference := v.reference.(visible := false), error := v.error.(visible := false),
       placeholderVisible := false)
  }

  /** `showError` (static/script.js:134-140) without its 5-second timer: the alert shows `msg`. */
  function ShowError(v: View, msg: string): (r: View)
    ensures r.error == Panel(true, msg)
    ensures r.(error := v.error) == v
  {
    v.(error := Panel(true, msg))
  }

  /**
   * `clearAll` (static/script.js:159-168) without its 50 ms fade: the text
   * emptied, both counters zero, the result area hidden and the placeholder
   * shown again; the buttons, the guard and what the panels display untouched.
   */
  function ClearAll(v: View): (r: View)
    ensures r.article == Article([], 0, 0)
    ensures !r.summary.visible && !r.stats.visible && !r.reference.visible && !r.error.visible
    ensures r.placeholderVisible
    ensures && r.summary.content == v.summary.content && r.stats.content == v.stats.content
            && r.reference.content == v.reference.content && r.error.content == v.error.content
    ensures && r.isProcessing == v.isProcessing && r.summarizeButton == v.summarizeButton
            && r.spinnerVisible == v.spinnerVisible && r.demoButton == v.demoButton
  {
    ResetUI(UpdateWordCount(v.(article := v.article.(text := [])))).(placeholderVisible := true)
  }

  // ---------------------------------------------------------------------------
  // summarizeArticle

  /** The page after a step, and the request body's `text` when the step sent one. */
  datatype Step = Step(view: View, request: Option<string>)

  /** The guard taken (static/script.js:47-50): guard set, button disabled with its busy label, spinner shown. */
  function Acquire(v: View): (r: View)
    ensures r.isProcessing && r.summarizeButton == Pressed && r.spinnerVisible
    ensures r.(isProcessing := v.isProcessing, summarizeButton := v.summarizeButton,
               spinnerVisible := v.spinnerVisible) == v
  {
    v.(isProcessing := true, summarizeButton := Pressed, spinnerVisible := true)
  }

  /**
   * `summarizeArticle` up to its `fetch` (static/script.js:37-57). The guard is
   * checked first: while a request is in flight nothing changes and nothing is
   * sent. Then the trimmed text is checked: without a word, only the error
   * alert changes. Only then is the result area reset, the guard taken, the
   * button disabled with its busy label, the spinner shown and the trimmed
   * text sent.
   */
  function SummarizeStart(v: View): (s: Step)
    ensures s.request.Some? <==> !v.isProcessing && !AllSpace(v.article.text, JsSpace)
    ensures v.isProcessing ==> s.view == v
    ensures !v.isProcessing && AllSpace(v.article.text, JsSpace) ==> s.view == ShowError(v, EmptyArticleError)
    ensures s.request.Some? ==> && s.request.value == Trim(v.article.text, JsSpace)
                                && s.view == Acquire(ResetUI(v))
  {
    if v.isProcessing then Step(v, None)
    else
      var t := Trim(v.article.text, JsSpace);
      if t == [] then Step(ShowError(v, EmptyArticleError), None)
      else Step(Acquire(ResetUI(v)), Some(t))
  }

  /** The response shows a summary: `data.summary` is truthy. */
  predicate Delivered(o: Outcome<SummarizeBody>) {
    o.Parsed? && Truthy(o.body.summary)
  }

  /**
   * The message `summarizeArticle` shows when no summary arrives:
   * `data.error || 'Summarization failed'`, or "Network error: " and the
   * thrown error's message.
   */
  function SummarizeFailure(o: Outcome<SummarizeBody>): (m: string)
    ensures m != []
    ensures o.Thrown? ==> m == NetworkErrorPrefix + o.message
    ensures o.Parsed? && Truthy(o.body.error) ==> m == o.body.error.value
    ensures o.Parsed? && !Truthy(o.body.error) ==> m == SummarizeFallback
  {
    match o
    case Thrown(msg) => NetworkErrorPrefix + msg
    case Parsed(body) => OrElse(body.error, SummarizeFallback)
  }

  /**
   * A truthy summary shown (static/script.js:61-72): the summary card with
   * its text, and the stats row with the stats when the body has them.
   */
  function ShowSummary(v: View, body: SummarizeBody): (r: View)
    requires Truthy(body.summary)
    ensures r.summary == Panel(true, body.summary.value)
    ensures body.stats.Some? ==> r.stats == Panel(true, body.stats)
    ensures body.stats.None? ==> r.stats == v.stats
    ensures r.(summary := v.summary, stats := v.stats) == v
  {
    var w := v.(summary := Panel(true, body.summary.value));
    if body.stats.Some? then w.(stats := Panel(true, body.stats)) else w
  }

  /** The `try`/`catch` of `summarizeArticle` (static/script.js:59-77). */
  function SummarizeBranch(v: View, o: Outcome<SummarizeBody>): View {
    if Delivered(o) then ShowSummary(v, o.body) else ShowError(v, SummarizeFailure(o))
  }

  /** The `finally` block of `summarizeArticle` (static/script.js:78-83): guard cleared, button restored, spinner hidden. */
  function Release(v: View): (r: View)
    ensures !r.isProcessing && r.summarizeButton == Idle && !r.spinnerVisible
    ensures r.(isProcessing := v.isProcessing, summarizeButton := v.summarizeButton,
               spinnerVisible := v.spinnerVisible) == v
  {
    v.(isProcessing := false, summarizeButton := Idle, spinnerVisible := false)
  }

  /**
   * `summarizeArticle` after its `fetch` (static/script.js:59-83). A truthy
   * summary is shown, with the stats row when `stats` came too; otherwise the
   * alert shows the failure message. On every outcome the guard is released,
   * the button re-enabled with its normal label and the spinner hidden. The
   * article, the demo button, the reference card and the placeholder are not
   * touched.
   */
  function SummarizeComplete(v: View, o: Outcome<SummarizeBody>): (r: View)
    ensures !r.isProcessing && r.summarizeButton == Idle && !r.spinnerVisible
    ensures Delivered(o) ==> && r.summary == Panel(true, o.body.summary.value)
                             && (o.body.stats.Some? ==> r.stats == Panel(true, o.body.stats))
                             && (o.body.stats.None? ==> r.stats == v.stats)
                             && r.error == v.error
    ensures !Delivered(o) ==> && r.error == Panel(true, SummarizeFailure(o))
                              && r.summary == v.summary && r.stats == v.stats
    ensures && r.article == v.article && r.demoButton == v.demoButton
            && r.reference == v.reference && r.placeholderVisible == v.placeholderVisible
  {
    Release(SummarizeBranch(v, o))
  }

  // ---------------------------------------------------------------------------
  // loadDemoArticle

  /**
   * `loadDemoArticle` up to its `fetch` (static/script.js:91-97): the result
   * area reset and the demo button disabled with its busy label. There is no
   * guard: the function itself runs whatever the button's state.
   */
  function DemoStart(v: View): (r: View)
    ensures Cleared(r) && r.demoButton == Pressed
    ensures && r.summary.content == v.summary.content && r.stats.content == v.stats.content
            && r.reference.content == v.reference.content && r.error.content == v.error.content
    ensures && r.isProcessing == v.isProcessing && r.summarizeButton == v.summarizeButton
            && r.spinnerVisible == v.spinnerVisible && r.article == v.article
  {
    ResetUI(v).(demoButton := Pressed)
  }

  /** The response carries an article: `data.document` is truthy. */
  predicate Loaded(o: Outcome<DemoBody>) {
    o.Parsed? && Truthy(o.body.document)
  }

  /**
   * The message `loadDemoArticle` shows when no article arrives:
   * `data.error || 'Failed to load demo'`, or "Network error: " and the
   * thrown error's message.
   */
  function DemoFailure(o: Outcome<DemoBody>): (m: string)
    ensures m != []
    ensures o.Thrown? ==> m == NetworkErrorPrefix + o.message
    ensures o.Parsed? && Truthy(o.body.error) ==> m == o.body.error.value
    ensures o.Parsed? && !Truthy(o.body.error) ==> m == DemoFallback
  {
    match o
    case Thrown(msg) => NetworkErrorPrefix + msg
    case Parsed(body) => OrElse(body.error, DemoFallback)
  }

  /**
   * A truthy document loaded (static/script.js:100-107): the text replaced by
   * the document as the textarea reads it back, and recounted, and the
   * reference card showing a truthy reference summary.
   */
  function LoadArticle(v: View, body: DemoBody): (r: View)
    requires Truthy(body.document)
    ensures r.article.text == TextareaValue(body.document.value) && Counted(r.article)
    ensures Truthy(body.referenceSummary) ==> r.reference == Panel(true, body.referenceSummary.value)
    ensures !Truthy(body.referenceSummary) ==> r.reference == v.reference
    ensures r.(article := v.article, reference := v.reference) == v
  {
    var w := UpdateWordCount(v.(article := v.article.(text := TextareaValue(body.document.value))));
    if Truthy(body.referenceSummary) then w.(reference := Panel(true, body.referenceSummary.value)) else w
  }

  /** The `try`/`catch` of `loadDemoArticle` (static/script.js:98-112). */
  function DemoBranch(v: View, o: Outcome<DemoBody>): View {
    if Loaded(o) then LoadArticle(v, o.body) else ShowError(v, DemoFailure(o))
  }

  /** The `finally` block of `loadDemoArticle` (static/script.js:113-116): the demo button enabled with its normal label. */
  function ReleaseDemo(v: View): (r: View)
    ensures r.demoButton == Idle
    ensures r.(demoButton := v.demoButton) == v
  {
    v.(demoButton := Idle)
  }

  /**
   * `loadDemoArticle` after its `fetch` (static/script.js:98-116). A truthy
   * document, as the textarea reads it back, replaces the text and the
   * counters are recomputed; the reference
   * card shows a truthy reference summary. Otherwise the alert shows the
   * failure message and the text stays. On every outcome the demo button is
   * re-enabled with its normal label. The summarize guard, button, spinner,
   * summary card, stats row and placeholder are not touched.
   */
  function DemoComplete(v: View, o: Outcome<DemoBody>): (r: View)
    ensures r.demoButton == Idle
    ensures Loaded(o) ==> && r.article.text == TextareaValue(o.body.document.value) && Counted(r.article)
                          && (Truthy(o.body.referenceSummary) ==>
                                r.reference == Panel(true, o.body.referenceSummary.value))
                          && (!Truthy(o.body.referenceSummary) ==> r.reference == v.reference)
                          && r.error == v.error
    ensures !Loaded(o) ==> && r.error == Panel(true, DemoFailure(o))
                           && r.article == v.article && r.reference == v.reference
    ensures && r.isProcessing == v.isProcessing && r.summarizeButton == v.summarizeButton
            && r.spinnerVisible == v.spinnerVisible && r.summary == v.summary && r.stats == v.stats
            && r.placeholderVisible == v.placeholderVisible
  {
    ReleaseDemo(DemoBranch(v, o))
  }

  // ---------------------------------------------------------------------------
  // Properties of the steps

  /** `resetUI` twice is `resetUI` once. */
  lemma ResetUIIdempotent(v: View)
    ensures ResetUI(ResetUI(v)) == ResetUI(v)
  {
  }

  /** `clearAll` twice is `clearAll` once. */
  lemma ClearAllIdempotent(v: View)
    ensures ClearAll(ClearAll(v)) == ClearAll(v)
  {
  }

  // Every step of the script keeps the page consistent.

  lemma SummarizeStartConsistent(v: View)
    requires Consistent(v)
    ensures Consistent(SummarizeStart(v).view)
  {
    assert EmptyArticleError != [];
  }

  lemma SummarizeCompleteConsistent(v: View, o: Outcome<SummarizeBody>)
    requires Consistent(v)
    ensures Consistent(SummarizeComplete(v, o))
  {
  }

  lemma DemoStartConsistent(v: View)
    requires Consistent(v)
    ensures Consistent(DemoStart(v))
  {
  }

  lemma DemoCompleteConsistent(v: View, o: Outcome<DemoBody>)
    requires Consistent(v)
    ensures Consistent(DemoComplete(v, o))
  {
  }

  lemma ClearAllConsistent(v: View)
    requires Consistent(v)
    ensures Consistent(ClearAll(v))
  {
  }

  /** Typing into the textarea fires `updateWordCount`, which keeps the counters right. */
  lemma InputConsistent(v: View, text: string)
    requires Consistent(v)
    ensures Consistent(UpdateWordCount(v.(article := v.article.(text := text))))
  {
  }

  /**
   * While a request is in flight a second start sends nothing and changes
   * nothing: at most one summarize request is outstanding.
   */
  lemma SummarizeExclusive(v: View)
    ensures var s := SummarizeStart(v);
            s.request.Some? ==> SummarizeStart(s.view) == Step(s.view, None)
  {
  }

  /**
   * Whatever a request's outcome, its completion frees the page: the same
   * text can be sent again, and is.
   */
  lemma ResubmitAfterAnyOutcome(v: View, o: Outcome<SummarizeBody>)
    ensures var s := SummarizeStart(v);
            s.request.Some? ==> SummarizeStart(SummarizeComplete(s.view, o)).request == s.request
  {
  }
}
