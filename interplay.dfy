/**
 * The browser and the server judge the same text by different whitespace
 * rules: static/script.js trims and counts with JavaScript's `\s`, app.py
 * strips and splits with Python's `str.isspace`. This module states where
 * the two agree (text made of characters both rules classify alike) and
 * exhibits inputs where they do not.
 */
module Interplay {
  import opened Wrappers
  import opened Whitespace
  import opened Text
  import opened Ui
  import opened Summarize

  /** Every character of `s` is whitespace for both rules or for neither. */
  predicate Agree(s: string) {
    forall i :: 0 <= i < |s| ==> (JsSpace(s[i]) <==> PySpace(s[i]))
  }

  /** The rules classify alike every character but U+001C..U+001F, U+0085 and U+FEFF. */
  lemma AgreeExcept(c: char)
    ensures (JsSpace(c) <==> PySpace(c)) <==> !('\U{001C}' <= c <= '\U{001F}' || c == '\U{0085}' || c == '\U{FEFF}')
  {
  }

  /** On text where the rules agree, they find the same number of word starts. */
  lemma {:induction false} RisesAgree(s: string)
    requires Agree(s)
    ensures Rises(s, JsSpace) == Rises(s, PySpace)
    decreases |s|
  {
    if |s| >= 2 {
      assert Agree(s[1..]) by {
        forall i | 0 <= i < |s[1..]| ensures JsSpace(s[1..][i]) <==> PySpace(s[1..][i]) {
          assert s[1..][i] == s[i + 1];
        }
      }
      RisesAgree(s[1..]);
    }
  }

  /** A slice of text where the rules agree is such text too. */
  lemma AgreeSlice(s: string, i: nat, j: nat)
    requires Agree(s) && i <= j <= |s|
    ensures Agree(s[i..j])
  {
    forall k | 0 <= k < j - i ensures JsSpace(s[i..j][k]) <==> PySpace(s[i..j][k]) {
      assert s[i..j][k] == s[i + k];
    }
  }

  /** Trimming text whose ends are not whitespace removes nothing. */
  lemma TrimKeepsEdges(s: string, sp: char -> bool)
    requires s != [] && !sp(s[0]) && !sp(s[|s| - 1])
    ensures Trim(s, sp) == s
  {
    var i := TrimSlice(s, sp);
  }

  /** On text where the rules agree, they find the same number of words. */
  lemma WordCountsAgree(s: string)
    requires Agree(s)
    ensures |Words(s, JsSpace)| == |Words(s, PySpace)|
  {
    WordsCount(s, JsSpace);
    WordsCount(s, PySpace);
    RisesAgree(s);
  }

  /**
   * What the page sends for text on which the rules agree is such text too,
   * and it has no Python whitespace at either end.
   */
  lemma SentTextStripped(text: string)
    requires Agree(text) && !AllSpace(text, JsSpace)
    ensures var sent := Trim(text, JsSpace);
            && Agree(sent) && Trim(sent, PySpace) == sent && !AllSpace(sent, PySpace)
  {
    var sent := Trim(text, JsSpace);
    var i := TrimSlice(text, JsSpace);
    AgreeSlice(text, i, i + |sent|);
    assert !PySpace(sent[0]) && !PySpace(sent[|sent| - 1]);
    TrimKeepsEdges(sent, PySpace);
  }

  /**
   * What the page sends for text on which the rules agree, the server accepts
   * as it is: the route neither rejects it nor strips anything more, and the
   * word count it reports is the one the page showed under the textarea.
   */
  lemma SentTextAccepted(text: string)
    requires Agree(text) && !AllSpace(text, JsSpace)
    ensures var sent := Trim(text, JsSpace);
            var reply := SummarizeRoute(Some(sent));
            && reply.Summarized?
            && reply.text == sent
            && reply.inputWords == WordCount(text)
  {
    var sent := Trim(text, JsSpace);
    SentTextStripped(text);
    WordCountRuns(text);
    WordsTrim(text, JsSpace);
    WordCountsAgree(sent);
  }

  /**
   * U+001C is whitespace to Python and not to JavaScript: the page finds a
   * word in it and sends it, and the server rejects it with status 400.
   */
  lemma FileSeparatorRejected()
    ensures var text := "\U{001C}";
            && Trim(text, JsSpace) == text
            && WordCount(text) == 1
            && SummarizeRoute(Some(text)) == BadRequest(BadRequestStatus, EmptyTextError)
  {
    var text := "\U{001C}";
    TrimKeepsEdges(text, JsSpace);
    WordCountRuns(text);
  }

  /**
   * U+FEFF is whitespace to JavaScript and not to Python: the page counts two
   * words where the server counts one.
   */
  lemma ByteOrderMarkSplits()
    ensures var text := "a\U{FEFF}b";
            WordCount(text) == 2 && SummarizeRoute(Some(text)).inputWords == 1
  {
    var text := "a\U{FEFF}b";
    assert text[1..] == "\U{FEFF}b" && text[1..][1..] == "b";
    assert RunCount(text, JsSpace) == 2;
    assert RunCount(text, PySpace) == 1;
    WordCountRuns(text);
    WordsCount(text, PySpace);
  }

  /**
   * U+001C is whitespace to Python and not to JavaScript: the page counts one
   * word where the server counts two.
   */
  lemma FileSeparatorJoins()
    ensures var text := "a\U{001C}b";
            WordCount(text) == 1 && SummarizeRoute(Some(text)).inputWords == 2
  {
    var text := "a\U{001C}b";
    assert text[1..] == "\U{001C}b" && text[1..][1..] == "b";
    assert RunCount(text, JsSpace) == 1;
    assert RunCount(text, PySpace) == 2;
    WordCountRuns(text);
    WordsCount(text, PySpace);
  }
}
