# SumX news summarizer: the request controller and the text helpers

SumX is a Flask web application. It summarizes news articles with a
sequence-to-sequence model. This project models its two small pieces that
have rules of their own, and proves properties of them.

- **The page controller** (`static/script.js`). The browser page counts the
  words and characters of the article as it is typed. It sends the trimmed
  article to `/summarize` and shows the summary, its statistics or an error.
  It can also load a demo article from `/demo`. A module-level
  `isProcessing` flag stops a second summarize request while one is in
  flight. While a demo request is in flight, only the demo button's disabled
  state keeps a second one from starting.
  - Module `Ui` (`ui.dfy`) describes the page as a value, `View`. Each
    function of the script is a step on that value.
  - Module `Controller` (`controller.dfy`) holds the mutable page. It is the
    class `Page`, and each script function is a method that updates its
    fields in place. Each method is specified by its step in `Ui`.
  - The two `async` functions are split at their one `await fetch(...)`. A
    start method runs up to the request and returns the request's `text`. A
    completion method receives the outcome: a parsed JSON body, or the
    message of a thrown error. It runs the branch and then the `finally`
    block.
  - Two ghost counters track the requests in flight. The class invariant
    `Valid` ties the summarize counter to the guard.
  - Module `Scenarios` (`scenarios.dfy`) states what sequences of calls on a
    fresh `Page` yield: double clicks, resubmission, an empty submission
    after a summary, and a demo load followed by a summarize.
  - Assigning to a textarea's `value` and reading it back turns every CR LF
    pair and every lone CR into LF, as the HTML standard's textarea line
    break normalization requires. `Ui.TextareaValue` models this, so a
    loaded demo article is counted and sent as the textarea holds it.
- **The server's text helpers** (`app.py`).
  - `preprocess_text` collapses whitespace.
  - `chunk_text` cuts the word list into groups of `chunk_size` words.
  - `summarize_text` returns early on empty text.
  - The `/summarize` route rejects empty text with status 400.
  - These are in modules `App` (`app.dfy`) and `Summarize`
    (`summarize.dfy`). Python's `split`, `join` and `strip` are the generic
    functions of module `Text` (`text.dfy`).
- **Two whitespace rules.** The page trims and splits with JavaScript's `\s`.
  The server strips and splits with Python's `str.isspace`. Module
  `Whitespace` defines both sets. Module `Interplay` proves that the two
  sides agree on text built from characters both rules classify alike. It
  also exhibits characters on which they do not agree.

Three facts about the code shape the model:
- `loadDemoArticle` has no guard of its own. Only the disabled demo button
  keeps demo loads exclusive, and `Page.ClickLoadDemo` models that.
- `showError` does not cancel the timer of an earlier error.
- The demo load calls `resetUI` before its request, which hides the demo
  placeholder. A failed demo load does not show it again.

## Model

| member | source | states |
|---|---|---|
| Whitespace.JsSpace | static/script.js:26 | Defined as the characters JavaScript's `\s` matches and `trim` removes: the ECMAScript WhiteSpace and LineTerminator code points. |
| Whitespace.PySpace | app.py:19 | Defined as the characters for which Python's `str.isspace` holds, which `split()` and `strip()` use. |
| Text.Join | app.py:19 | Defined as `sep.join(ws)`; its meaning with `split()` is proved in `Text.WordsJoin` and `Text.JoinWordsOfNormalized`. |
| Text.SplitOnRuns | static/script.js:26 | Defined as `s.split(/\s+/)`: the pieces between maximal whitespace runs, with an empty first or last piece for leading or trailing whitespace. It always has at least one piece. |
| Text.NonEmpty | static/script.js:26 | Defined as `filter(w => w.length)`; every piece kept is non-empty. With `Text.SplitOnRunsNonEmpty`, the filtered split equals `Text.Words`. |
| Text.RunCount | static/script.js:26 | Defined as the number of non-whitespace characters that start the text or follow a whitespace one: an independent reference count proved equal to the number of words in `Text.WordsCount`. |
| Text.Trim | static/script.js:26 | The trimmed text starts and ends with a non-whitespace character, and it is empty exactly when the text is all whitespace (JavaScript `trim`, Python `strip()`). |
| Text.TrimSlice | static/script.js:40 | Trimming removes only whitespace, and only at the two ends: the result is one contiguous slice of the input. |
| Text.Words | app.py:19 | Python's `split()`: every word is non-empty and free of whitespace. |
| Text.WordsEmptyIff | app.py:29-30 | A text has no words exactly when it is all whitespace. |
| Text.WordsTrim | app.py:72 | Stripping a text does not change its words. |
| Text.WordsSkipSpaces | app.py:19 | Leading whitespace does not change the words. |
| Text.WordsAppendSpaces | app.py:19 | Trailing whitespace does not change the words. |
| Text.RunLengthAppend | app.py:19 | The leading non-whitespace run of `s + t` is that of `s`, unless `s` contains no whitespace, in which case it runs on into `t`. |
| Text.RunLengthNoSpace | app.py:19 | A word-only string is one run to its end. |
| Text.SplitOnRunsNonEmpty | static/script.js:26 | `split(/\s+/)` followed by `filter(w => w.length)` gives exactly the maximal non-whitespace runs. |
| Text.RisesSkipRun | static/script.js:26 | Counting run starts can skip over the run in progress. |
| Text.WordsCount | static/script.js:26 | The number of words is the number of maximal non-whitespace runs, counted independently of the split. |
| Text.WordsJoin | app.py:19 | Joining whitespace-free, non-empty words with spaces and splitting again gives back the words. |
| Text.JoinNormalized | app.py:19 | Joining whitespace-free, non-empty words with single spaces gives normalized text: no whitespace at either end and no two whitespace characters in a row. |
| Text.TrimNormalized | app.py:19 | `strip()` leaves normalized text unchanged. |
| Text.NormalizedSuffix | app.py:19 | What follows a space in normalized text is normalized. |
| Text.NormalizedFirstWord | app.py:19 | Normalized text is its first word, then one space, then normalized text with the remaining words. |
| Text.JoinCons | app.py:19 | `" ".join` of a word followed by a non-empty list is the word, a space, and the join of the list. |
| Text.JoinWordsOfNormalized | app.py:19 | Splitting normalized text and joining with single spaces gives the text back. |
| App.PreprocessText | app.py:17-19 | `preprocess_text` gives normalized text with the same word sequence as its input. |
| App.PreprocessFixpoints | app.py:17-19 | `preprocess_text` leaves a string unchanged exactly when the string is already normalized. |
| App.PreprocessIdempotent | app.py:17-19 | `preprocess_text` applied twice equals `preprocess_text` applied once. |
| App.PreprocessEmptyIff | app.py:28-29 | `preprocess_text` gives the empty string exactly for text without a word. |
| App.ChunkWords | app.py:24 | Every group has between 1 and `n` words, and every group but the last has exactly `n`. |
| App.ChunkWordsConcat | app.py:23-24 | The groups, concatenated in order, are the word list. |
| App.ChunkWordsCount | app.py:24 | There are ceil(len(words) / n) groups, as many as `range(0, len(words), n)` has elements. |
| App.ChunkWordsAt | app.py:24 | Group `k` is the slice `words[k*n : k*n + n]` of the comprehension. |
| App.ChunkWordsTokens | app.py:23-24 | The groups of a word list from `split()` are word lists of the same kind. |
| App.JoinEach | app.py:24 | Defined as `" ".join(chunk)` for every group, as the comprehension does; it keeps the number of groups. |
| App.ChunkText | app.py:21-24 | A `chunk_size` of 0 raises `ValueError`, a negative one gives `[]`, and a positive one gives ceil(words / size) chunks. |
| App.ChunkTextWords | app.py:21-24 | For a positive size, each chunk holds 1 to `chunk_size` words, each chunk but the last holds exactly `chunk_size`, and the chunks' words in order are the text's words. |
| Summarize.SummarizeText | app.py:26-38 | `summarize_text` returns "No text provided." exactly when its input has no word, before any chunking; otherwise its chunks are `chunk_text` of the preprocessed text with the default size of 800. |
| Summarize.SummarizeTextChunks | app.py:28-38 | Past its early return, `summarize_text` sends at least one chunk to the model. Each chunk holds 1 to 800 words, every chunk but the last exactly 800, and the chunks cover the input's words in order. |
| Summarize.SummarizeChunks | app.py:38 | The 800-word chunks of non-empty preprocessed text are non-empty, bounded by 800 words each, all but the last full, and cover its words. |
| Summarize.SummarizeRoute | app.py:69-77 | `/summarize` answers 400 with "Please provide some text to summarize." exactly when the stripped `text` field, absent meaning `""`, is empty, and then `summarize_text` does not run. Otherwise it runs `summarize_text` on the stripped text and reports that text's word count. |
| Ui.OrElse | static/script.js:74 | `data.error \|\| fallback`: the error when it is truthy, else the fallback; the result is non-empty when either is. |
| Ui.Truthy | static/script.js:61 | Defined as JavaScript truthiness of a string field: present and non-empty. It is the test of `data.summary`, `data.error`, `data.document` and `data.reference_summary` (static/script.js:61, 74, 100, 104). |
| Ui.WordCount | static/script.js:26 | Defined as `text.trim() ? text.trim().split(/\s+/).filter(w => w.length).length : 0`; its meaning is proved in `Ui.WordCountRuns`. |
| Ui.WordCountRuns | static/script.js:23-30 | The displayed word count is the number of maximal non-whitespace runs of the untrimmed text, and it is 0 exactly for empty or whitespace-only text. |
| Ui.Utf16Length | static/script.js:25 | `text.length` counts UTF-16 code units: between one and two per character. |
| Ui.Utf16LengthBmp | static/script.js:25 | The character count equals the number of characters exactly when all of them lie in the Basic Multilingual Plane. |
| Ui.CountedArticle | static/script.js:23-30 | The counters `updateWordCount` shows: as many words as maximal non-whitespace runs, zero exactly for blank text, and between one and two UTF-16 code units per character. |
| Ui.TextareaValue | static/script.js:101 | Defined as the textarea's `value` after assigning `s`: each CR LF pair and each lone CR becomes LF. Its meaning is proved in the three lemmas below. |
| Ui.TextareaValueNormal | static/script.js:101 | The value a textarea reads back holds no CR and is no longer than what was assigned. |
| Ui.TextareaValueKeeps | static/script.js:101 | An assigned string is read back unchanged exactly when it holds no CR. |
| Ui.TextareaValueIdempotent | static/script.js:101 | Reading the value back and assigning it again changes nothing. |
| Ui.TextareaValueLineBreaks | static/script.js:101-102 | "a\r\nb" and "a\rb" both read back as "a\nb", and the first then counts 3 characters. |
| Ui.UpdateWordCount | static/script.js:23-30 | `updateWordCount` recomputes both counters from the text and changes nothing else. |
| Ui.ResetUI | static/script.js:120-132 | `resetUI` hides the summary card, stats row, reference card, error alert and placeholder, and changes nothing else. |
| Ui.ShowError | static/script.js:134-140 | `showError` shows the alert with the message and changes nothing else. |
| Ui.ClearAll | static/script.js:159-168 | `clearAll` empties the text and zeroes both counts, hides the result area, shows the placeholder again, and leaves the controls alone. |
| Ui.Acquire | static/script.js:47-50 | Taking the guard sets `isProcessing`, disables the button with its busy label and shows the spinner. |
| Ui.SummarizeStart | static/script.js:37-57 | A request is sent exactly when no request is in flight and the text has a non-whitespace character. The guard is checked first: while a request is in flight nothing changes, even for empty text. Empty text only raises "Please paste an article first!". A sent request carries the trimmed text, after `resetUI` and the guard are taken. |
| Ui.SummarizeFailure | static/script.js:73-77 | The shown message is "Network error: " plus the thrown message, or else a truthy `data.error`, or else "Summarization failed". It is never empty. |
| Ui.ShowSummary | static/script.js:61-72 | A truthy summary is shown in the summary card. The stats row is shown only when `stats` is present; otherwise it stays as it was. |
| Ui.SummarizeBranch | static/script.js:59-77 | Defined as the `try`/`catch`: `Ui.ShowSummary` when the summary is truthy, else `Ui.ShowError` with `Ui.SummarizeFailure`. Its effect is stated in `Ui.SummarizeComplete`. |
| Ui.Release | static/script.js:78-83 | The `finally` block clears the guard, enables the button with its normal label and hides the spinner. |
| Ui.SummarizeComplete | static/script.js:59-83 | On every outcome the guard is released. A truthy summary is shown with its stats; anything else shows the failure message. The text, demo button, reference card and placeholder are untouched. |
| Ui.DemoStart | static/script.js:91-97 | `loadDemoArticle` resets the result area and disables the demo button, with no guard of its own. |
| Ui.DemoFailure | static/script.js:108-112 | The shown message is "Network error: " plus the message, or a truthy `data.error`, or "Failed to load demo". It is never empty. |
| Ui.LoadArticle | static/script.js:100-107 | A truthy document, as the textarea reads it back, replaces the text and the counts are recomputed. The reference card shows only a truthy reference summary. |
| Ui.DemoBranch | static/script.js:98-112 | Defined as the `try`/`catch`: `Ui.LoadArticle` when the document is truthy, else `Ui.ShowError` with `Ui.DemoFailure`. Its effect is stated in `Ui.DemoComplete`. |
| Ui.ReleaseDemo | static/script.js:113-116 | The `finally` block re-enables the demo button with its normal label. |
| Ui.DemoComplete | static/script.js:98-116 | On every outcome the demo button is re-enabled. A truthy document is loaded, with its line breaks normalized; anything else shows the failure message and keeps the text. The summarize guard, button, spinner, summary card and stats row are untouched. |
| Ui.ResetUIIdempotent | static/script.js:120-132 | `resetUI` is idempotent. |
| Ui.ClearAllIdempotent | static/script.js:159-168 | `clearAll` is idempotent. |
| Ui.SummarizeStartConsistent | static/script.js:37-57 | Starting a summarize keeps the page consistent: counts match the text, button and spinner follow the guard, and a shown panel has content. |
| Ui.SummarizeCompleteConsistent | static/script.js:59-83 | Completing a summarize keeps the page consistent. |
| Ui.DemoStartConsistent | static/script.js:91-97 | Starting a demo load keeps the page consistent. |
| Ui.DemoCompleteConsistent | static/script.js:98-116 | Completing a demo load keeps the page consistent. In particular the counts match the new text. |
| Ui.ClearAllConsistent | static/script.js:159-168 | `clearAll` keeps the page consistent. |
| Ui.InputConsistent | static/script.js:19-21 | Typing, followed by the `input` listener's `updateWordCount`, keeps the page consistent. |
| Ui.SummarizeExclusive | static/script.js:38 | A click while a request is in flight sends nothing and changes nothing. |
| Ui.ResubmitAfterAnyOutcome | static/script.js:78-83 | After any outcome, the next click sends the same request again, because the guard is always released. |
| Controller.Page.constructor | static/script.js:1 | The page as loaded: guard clear, idle buttons, empty text, only the placeholder shown, nothing in flight. |
| Controller.Page.UpdateWordCount | static/script.js:23-30 | Performs `Ui.UpdateWordCount` in place. |
| Controller.Page.Input | static/script.js:19-21 | Sets the text and performs `updateWordCount`, keeping `Valid`. |
| Controller.Page.ResetUI | static/script.js:120-132 | Performs `Ui.ResetUI` in place, writing only the five visibility fields. |
| Controller.Page.ShowError | static/script.js:134-140 | Performs `Ui.ShowError` in place, writing only the alert. |
| Controller.Page.Acquire | static/script.js:47-50 | Performs `Ui.Acquire` in place and counts one more request in flight. |
| Controller.Page.StartSummarize | static/script.js:37-57 | Performs `Ui.SummarizeStart` and returns its request. A request is counted exactly when one is sent, so `Valid` holds: at most one summarize is ever in flight. |
| Controller.Page.CompleteSummarize | static/script.js:59-83 | Performs `Ui.SummarizeComplete` for the request in flight. Afterwards none is in flight and the guard is clear. |
| Controller.Page.ShowSummary | static/script.js:61-72 | Performs `Ui.ShowSummary` in place. |
| Controller.Page.Release | static/script.js:78-83 | Performs `Ui.Release` in place and ends one request. |
| Controller.Page.StartLoadDemo | static/script.js:91-97 | Performs `Ui.DemoStart` and counts one more demo request, even when one is already in flight. |
| Controller.Page.ClickLoadDemo | static/script.js:87-89 | A click on the disabled demo button sends nothing and changes nothing; otherwise it starts a demo load. Clicks keep at most one demo request in flight. |
| Controller.Page.CompleteLoadDemo | static/script.js:98-116 | Performs `Ui.DemoComplete` for a demo request in flight and ends it. |
| Controller.Page.LoadArticle | static/script.js:100-107 | Performs `Ui.LoadArticle` in place. |
| Controller.Page.ReleaseDemo | static/script.js:113-116 | Performs `Ui.ReleaseDemo` in place and ends one demo request. |
| Controller.Page.ClearAll | static/script.js:159-168 | Performs `Ui.ClearAll` in place, keeping `Valid`. |
| Scenarios.SummarizeTwice | static/script.js:37-50 | On a fresh page, the first click sends the trimmed article when it has a word, and a second click before the response sends nothing. |
| Scenarios.ResubmitAfter | static/script.js:37-83 | Whatever the outcome of the first request, the next click sends the same text. |
| Scenarios.EmptySubmitKeepsSummary | static/script.js:40-44 | Submitting an emptied textarea leaves a shown summary visible and unchanged, shows "Please paste an article first!" and sends nothing. |
| Scenarios.EmptySummaryIsAnError | static/script.js:61-75 | An empty `summary` is falsy: the card stays hidden and the alert shows `data.error` or "Summarization failed". |
| Scenarios.LoadDemoTwice | static/script.js:91-94 | Two clicks on the demo button send one request. |
| Scenarios.DemoThenSummarize | static/script.js:100-102 | A loaded demo article, as the textarea reads it back, is counted and is what the next click sends, trimmed. |
| Interplay.AgreeExcept | static/script.js:26 | The two whitespace rules disagree exactly on U+001C..U+001F, U+0085 and U+FEFF. |
| Interplay.RisesAgree | static/script.js:26 | Where the rules agree on every character, they count the same run starts. |
| Interplay.AgreeSlice | app.py:72 | A slice of text on which the rules agree is text on which they agree. |
| Interplay.TrimKeepsEdges | app.py:72 | Stripping text whose end characters are not whitespace removes nothing. |
| Interplay.WordCountsAgree | static/script.js:26 | Where the rules agree on every character, the page's split and Python's `split()` find the same number of words. |
| Interplay.SentTextStripped | app.py:72 | The trimmed text the page sends, if its characters are classified alike, has no Python whitespace at either end and is not all whitespace to Python. |
| Interplay.SentTextAccepted | app.py:72-77 | On text where the rules agree, the server accepts what the page sends, strips nothing more, and reports the word count the page displayed. |
| Interplay.FileSeparatorRejected | app.py:72-74 | U+001C alone passes the page's check and is sent, and the server rejects it with 400. |
| Interplay.ByteOrderMarkSplits | app.py:77 | For "a\uFEFFb" the page shows 2 words and the server reports 1. |
| Interplay.FileSeparatorJoins | app.py:77 | For "a\u001Cb" the page shows 1 word and the server reports 2. |

## Left out

- Timers: the 5-second hiding of the error alert (static/script.js:138), the 2-second revert of the copy button and the 50 ms placeholder fade. The alert stays visible until the next `resetUI`. No claim is made that a newer error cancels an older error's timer; the code does not do that.
- `copySummary`, the scroll-reveal observer, the navbar effect and `checkSystemStatus`: clipboard and browser calls and cosmetics.
- `fetch` and `response.json()`: the network is the `Outcome` value passed to the completion methods. A response whose body is not JSON is a `Thrown` outcome. JSON values that are not strings where the page expects strings are not modelled.
- The `innerHTML` labels are modelled only as the `busy` flag of a button. CSS classes are modelled only as the visibility they encode. Every `getElementById` is assumed to find its element.
- The state of `index.html` as loaded is assumed to be `Ui.Initial`; the HTML is not part of this model.
- Controller.Page event methods (`Input`, `StartSummarize`, `CompleteSummarize`, `StartLoadDemo`, `ClickLoadDemo`, `CompleteLoadDemo`, `ClearAll`): each requires `Valid()`, the class invariant each of them keeps, rather than an arbitrary page state. The helper methods for single script blocks carry no invariant.
- Controller.Page.Input: `text` is the textarea's value as the browser reports it after an edit. The keystrokes themselves are not modelled.
- Controller.Page.Release and Controller.Page.ReleaseDemo: they require a request in flight, which is how the completion methods call them. This is ghost bookkeeping; the code has no such check.
- Character positions are Unicode scalar values. Lone surrogates, which a JavaScript string may hold, are not modelled.
- Model loading, tokenization, `model.generate` and `tokenizer.decode` (app.py:9-15, 41-61): library calls. `summarize_text` is modelled up to the chunk list it would feed to the model, and its result after inference is not modelled.
- The `max_len`/`min_len` computation (app.py:32-36) and the compression rate (app.py:79): floating-point arithmetic and `round`.
- The `/demo` route and `load_dataset`, Flask routing, `jsonify`, and the 500 reply for an exception during inference (app.py:88-89).
- `request.get_json()` returning `None`, and a `text` field that is not a string: the route is modelled from the `text` field as an optional string.
