/**
 * The request controller of static/script.js as an object: the module-level
 * `isProcessing` flag and the DOM state the script mutates are the fields of
 * a `Page`, and each function of the script is a method that updates them in
 * place. Every method is specified by the step of module Ui it performs on
 * `Snapshot()`. Two ghost counters record the requests that were sent and
 * whose response has not been handled yet.
 */
module Controller {
  import opened Wrappers
  import opened Whitespace
  import opened Text
  import opened Ui

  class Page {
    var isProcessing: bool
    var summarizeButton: Button
    var spinnerVisible: bool
    var demoButton: Button
    var article: Article
    var summary: Panel<string>
    var stats: Panel<Option<Stats>>
    var reference: Panel<string>
    var error: Panel<string>
    var placeholderVisible: bool

    /** `/summarize` requests sent and not yet completed. */
    ghost var summarizeRequests: nat
    /** `/demo` requests sent and not yet completed. */
    ghost var demoRequests: nat

    /** The page as a value. */
    function Snapshot(): View
      reads this
    {
      View(isProcessing, summarizeButton, spinnerVisible, demoButton, article,
           summary, stats, reference, error, placeholderVisible)
    }

    /**
     * The page is consistent, the guard is held exactly while one summarize
     * request is outstanding, and a disabled demo button means a demo request
     * is outstanding.
     */
    ghost predicate Valid()
      reads this
    {
      && Consistent(Snapshot())
      && summarizeRequests == (if isProcessing then 1 else 0)
      && (demoButton.disabled ==> demoRequests > 0)
    }

    /**
     * At most one demo request is outstanding, and exactly while the demo
     * button is disabled. The script itself does not check this; clicks keep
     * it, because a disabled button receives none.
     */
    ghost predicate DemoExclusive()
      reads this
    {
      demoRequests == (if demoButton.disabled then 1 else 0)
    }

    /** The page as loaded. */
    constructor()
      ensures Snapshot() == Initial
      ensures summarizeRequests == 0 && demoRequests == 0
      ensures Valid() && DemoExclusive()
    {
      isProcessing := false;
      summarizeButton := Idle;
      spinnerVisible := false;
      demoButton := Idle;
      article := Article([], 0, 0);
      summary := Panel(false, []);
      stats := Panel(false, None);
      reference := Panel(false, []);
      error := Panel(false, []);
      placeholderVisible := true;
      summarizeRequests := 0;
      demoRequests := 0;
    }

    /** `updateWordCount` (static/script.js:23-30). */
    method UpdateWordCount()
      modifies this`article
      ensures Snapshot() == Ui.UpdateWordCount(old(Snapshot()))
    {
      article := CountedArticle(article.text);
      assert article == CountedArticle(old(article.text));
    }

    /** The user edits the textarea; its `input` listener runs `updateWordCount` (static/script.js:19-21). */
    method Input(text: string)
      requires Valid()
      modifies this`article
      ensures Snapshot() == Ui.UpdateWordCount(old(Snapshot()).(article := old(article).(text := text)))
      ensures Valid()
    {
      InputConsistent(Snapshot(), text);
      article := article.(text := text);
      UpdateWordCount();
    }

    /** `resetUI` (static/script.js:120-132). */
    method ResetUI()
      modifies this`summary, this`stats, this`reference, this`error, this`placeholderVisible
      ensures Snapshot() == Ui.ResetUI(old(Snapshot()))
    {
      summary := summary.(visible := false);
      stats := stats.(visible := false);
      reference := reference.(visible := false);
      error := error.(visible := false);
      placeholderVisible := false;
    }

    /** `showError` (static/script.js:134-140), without the timer that hides the alert again. */
    method ShowError(msg: string)
      modifies this`error
      ensures Snapshot() == Ui.ShowError(old(Snapshot()), msg)
    {
      error := Panel(true, msg);
    }

    /**
     * The guard taken (static/script.js:47-50): the guard set, the button
     * disabled with its busy label and the spinner shown, as the request is
     * about to be sent.
     */
    method Acquire()
      modifies this`isProcessing, this`summarizeButton, this`spinnerVisible, this`summarizeRequests
      ensures Snapshot() == Ui.Acquire(old(Snapshot()))
      ensures summarizeRequests == old(summarizeRequests) + 1
    {
      isProcessing := true;
      summarizeButton := Pressed;
      spinnerVisible := true;
      summarizeRequests := summarizeRequests + 1;
    }

    /**
     * The click handler `summarizeArticle` (static/script.js:37-57) up to its
     * `fetch`: returns the `text` of the request it sends, if it sends one.
     */
    method StartSummarize() returns (request: Option<string>)
      requires Valid()
      modifies this
      ensures Snapshot() == SummarizeStart(old(Snapshot())).view
      ensures request == SummarizeStart(old(Snapshot())).request
      ensures summarizeRequests == old(summarizeRequests) + (if request.Some? then 1 else 0)
      ensures demoRequests == old(demoRequests)
      ensures Valid()
    {
      ghost var v := Snapshot();
      ghost var step := SummarizeStart(v);
      SummarizeStartConsistent(v);
      if isProcessing {
        assert step == Step(v, None);
        return None;
      }
      var text := Trim(article.text, JsSpace);
      if text == [] {
        ShowError(EmptyArticleError);
        assert step == Step(Ui.ShowError(v, EmptyArticleError), None);
        return None;
      }
      ResetUI();
      Acquire();
      request := Some(text);
    }

    /**
     * `summarizeArticle` after its `fetch` (static/script.js:59-83): handles
     * the outcome of the request in flight, then the `finally` block.
     */
    method CompleteSummarize(outcome: Outcome<SummarizeBody>)
      requires Valid() && isProcessing
      modifies this`isProcessing, this`summarizeButton, this`spinnerVisible,
               this`summary, this`stats, this`error, this`summarizeRequests
      ensures Snapshot() == SummarizeComplete(old(Snapshot()), outcome)
      ensures summarizeRequests == old(summarizeRequests) - 1 == 0
      ensures Valid()
    {
      SummarizeCompleteConsistent(Snapshot(), outcome);
      if Delivered(outcome) {
        ShowSummary(outcome.body);
      } else {
        ShowError(SummarizeFailure(outcome));
      }
      Release();
    }

    /** A truthy summary shown (static/script.js:61-72). */
    method ShowSummary(body: SummarizeBody)
      requires Truthy(body.summary)
      modifies this`summary, this`stats
      ensures Snapshot() == Ui.ShowSummary(old(Snapshot()), body)
    {
      summary := Panel(true, body.summary.value);
      if body.stats.Some? {
        stats := Panel(true, body.stats);
      }
    }

    /**
     * The `finally` block of `summarizeArticle` (static/script.js:78-83),
     * which also ends the request.
     */
    method Release()
      requires summarizeRequests > 0
      modifies this`isProcessing, this`summarizeButton, this`spinnerVisible, this`summarizeRequests
      ensures Snapshot() == Ui.Release(old(Snapshot()))
      ensures summarizeRequests == old(summarizeRequests) - 1
    {
      isProcessing := false;
      summarizeButton := Idle;
      spinnerVisible := false;
      summarizeRequests := summarizeRequests - 1;
    }

    /**
     * `loadDemoArticle` (static/script.js:91-97) up to its `fetch`. The
     * function has no guard of its own: called while a demo request is
     * outstanding, it sends another.
     */
    method StartLoadDemo()
      requires Valid()
      modifies this`summary, this`stats, this`reference, this`error,
               this`placeholderVisible, this`demoButton, this`demoRequests
      ensures Snapshot() == DemoStart(old(Snapshot()))
      ensures demoRequests == old(demoRequests) + 1
      ensures Valid()
    {
      DemoStartConsistent(Snapshot());
      ResetUI();
      demoButton := Pressed;
      demoRequests := demoRequests + 1;
    }

    /**
     * A click on the demo button: the browser dispatches it only to an
     * enabled button, and the listener is `loadDemoArticle`
     * (static/script.js:87-89). Returns whether a request was sent.
     */
    method ClickLoadDemo() returns (sent: bool)
      requires Valid()
      modifies this`summary, this`stats, this`reference, this`error,
               this`placeholderVisible, this`demoButton, this`demoRequests
      ensures sent == !old(demoButton.disabled)
      ensures sent ==> Snapshot() == DemoStart(old(Snapshot())) && demoRequests == old(demoRequests) + 1
      ensures !sent ==> Snapshot() == old(Snapshot()) && demoRequests == old(demoRequests)
      ensures Valid()
      ensures old(DemoExclusive()) ==> DemoExclusive()
    {
      if demoButton.disabled {
        return false;
      }
      StartLoadDemo();
      sent := true;
    }

    /**
     * `loadDemoArticle` after its `fetch` (static/script.js:98-116): handles
     * the outcome of one outstanding demo request, then the `finally` block.
     */
    method CompleteLoadDemo(outcome: Outcome<DemoBody>)
      requires Valid() && demoRequests > 0
      modifies this`article, this`reference, this`error, this`demoButton, this`demoRequests
      ensures Snapshot() == DemoComplete(old(Snapshot()), outcome)
      ensures demoRequests == old(demoRequests) - 1
      ensures Valid()
      ensures old(DemoExclusive()) ==> DemoExclusive()
    {
      DemoCompleteConsistent(Snapshot(), outcome);
      if Loaded(outcome) {
        LoadArticle(outcome.body);
      } else {
        ShowError(DemoFailure(outcome));
      }
      ReleaseDemo();
    }

    /** A truthy document loaded into the textarea and recounted (static/script.js:100-107). */
    method LoadArticle(body: DemoBody)
      requires Truthy(body.document)
      modifies this`article, this`reference
      ensures Snapshot() == Ui.LoadArticle(old(Snapshot()), body)
    {
      article := article.(text := TextareaValue(body.document.value));
      UpdateWordCount();
      if Truthy(body.referenceSummary) {
        reference := Panel(true, body.referenceSummary.value);
      }
    }

    /**
     * The `finally` block of `loadDemoArticle` (static/script.js:113-116),
     * which also ends the request.
     */
    method ReleaseDemo()
      requires demoRequests > 0
      modifies this`demoButton, this`demoRequests
      ensures Snapshot() == Ui.ReleaseDemo(old(Snapshot()))
      ensures demoRequests == old(demoRequests) - 1
    {
      demoButton := Idle;
      demoRequests := demoRequests - 1;
    }

    /** `clearAll` (static/script.js:159-168), without the 50 ms fade of the placeholder. */
    method ClearAll()
      requires Valid()
      modifies this`article, this`summary, this`stats, this`reference,
               this`error, this`placeholderVisible
      ensures Snapshot() == Ui.ClearAll(old(Snapshot()))
      ensures Valid()
    {
      ghost var v0 := Snapshot();
      ClearAllConsistent(v0);
      article := article.(text := []);
      ghost var v1 := Snapshot();
      assert v1 == v0.(article := v0.article.(text := []));
      UpdateWordCount();
      ghost var v2 := Snapshot();
      assert v2 == Ui.UpdateWordCount(v1);
      ResetUI();
      assert Snapshot() == Ui.ResetUI(v2);
      placeholderVisible := true;
      assert Snapshot() == Ui.ClearAll(v0);
    }
  }
}
