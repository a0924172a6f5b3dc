/**
 * Sequences of calls on a fresh `Page` of static/script.js: what a user's
 * sequence of actions sends to the server and what it leaves on screen.
 */
module Scenarios {
  import opened Wrappers
  import opened Whitespace
  import opened Text
  import opened Ui
  import opened Controller

  /**
   * A double click on "summarize": the first click sends the trimmed article
   * (when it has a word), the second sends nothing.
   */
  method SummarizeTwice(text: string) returns (first: Option<string>, second: Option<string>)
    ensures first == (if AllSpace(text, JsSpace) then None else Some(Trim(text, JsSpace)))
    ensures second == None
  {
    var page := new Page();
    page.Input(text);
    first := page.StartSummarize();
    second := page.StartSummarize();
  }

  /**
   * Whatever the first request's outcome (a summary, an error body, a thrown
   * network error), the page sends the same text again on the next click.
   */
  method ResubmitAfter(text: string, outcome: Outcome<SummarizeBody>) returns (first: Option<string>, again: Option<string>)
    ensures first.Some? <==> !AllSpace(text, JsSpace)
    ensures again == first
  {
    var page := new Page();
    page.Input(text);
    first := page.StartSummarize();
    if first.Some? {
      page.CompleteSummarize(outcome);
    }
    again := page.StartSummarize();
  }

  /**
   * A summary on screen survives an empty submission: clearing the textarea
   * and clicking "summarize" only raises the error alert.
   */
  method EmptySubmitKeepsSummary(text: string, summary: string)
    returns (sent: Option<string>, summaryShown: bool, shownText: string, alert: Panel<string>)
    requires !AllSpace(text, JsSpace) && summary != []
    ensures sent == None
    ensures summaryShown && shownText == summary
    ensures alert == Panel(true, EmptyArticleError)
  {
    var page := new Page();
    page.Input(text);
    var request := page.StartSummarize();
    page.CompleteSummarize(Parsed(SummarizeBody(Some(summary), None, None)));
    page.Input([]);
    sent := page.StartSummarize();
    summaryShown := page.summary.visible;
    shownText := page.summary.content;
    alert := page.error;
  }

  /**
   * An empty `summary` in a response is falsy: the page shows the body's
   * error, or "Summarization failed" when that is missing or empty too.
   */
  method EmptySummaryIsAnError(text: string, error: Option<string>) returns (summaryShown: bool, alert: Panel<string>)
    requires !AllSpace(text, JsSpace)
    ensures !summaryShown
    ensures alert == Panel(true, if Truthy(error) then error.value else SummarizeFallback)
  {
    var page := new Page();
    page.Input(text);
    var request := page.StartSummarize();
    page.CompleteSummarize(Parsed(SummarizeBody(Some([]), None, error)));
    summaryShown := page.summary.visible;
    alert := page.error;
  }

  /**
   * Clicking "load article" twice sends one demo request: the button is
   * disabled until the response has been handled.
   */
  method LoadDemoTwice() returns (first: bool, second: bool)
    ensures first && !second
  {
    var page := new Page();
    first := page.ClickLoadDemo();
    second := page.ClickLoadDemo();
  }

  /**
   * A loaded demo article, as the textarea reads it back, is what the next
   * summarize click sends, trimmed, and its counters are those of that text.
   */
  method DemoThenSummarize(document: string, reference: Option<string>)
    returns (words: nat, request: Option<string>)
    ensures var text := TextareaValue(document);
            && words == WordCount(text)
            && request == (if AllSpace(text, JsSpace) then None else Some(Trim(text, JsSpace)))
  {
    var page := new Page();
    var sent := page.ClickLoadDemo();
    page.CompleteLoadDemo(Parsed(DemoBody(Some(document), reference, None)));
    words := page.article.wordCount;
    request := page.StartSummarize();
  }
}
