/**
 * The text helpers of the Flask server (app.py): `preprocess_text` and
 * `chunk_text`, with Python's `str.split`, `str.join` and `str.strip`
 * modelled by the functions of module Text over `PySpace`.
 */
module App {
  import opened Wrappers
  import opened Whitespace
  import opened Text

  /** The default `chunk_size` of `chunk_text`, the one `summarize_text` uses. */
  const DefaultChunkSize: int := 800
  /** The message of the `ValueError` Python's `range` raises for a step of zero. */
  const ZeroStepError: string := "range() arg 3 must not be zero"

  // ---------------------------------------------------------------------------
  // preprocess_text

  /**
   * `preprocess_text` (app.py:17-19): `" ".join(text.split()).strip()`. The
   * result is normalized and has the same words as `text`.
   */
  function PreprocessText(text: string): (r: string)
    ensures Normalized(r, PySpace)
    ensures Words(r, PySpace) == Words(text, PySpace)
  {
    var ws := Words(text, PySpace);
    var joined := Join(ws, " ");
    JoinNormalized(ws, PySpace);
    WordsJoin(ws, PySpace);
    TrimNormalized(joined, PySpace);
    Trim(joined, PySpace)
  }

  /** `preprocess_text` leaves a string unchanged exactly when it is already normalized. */
  lemma PreprocessFixpoints(s: string)
    ensures PreprocessText(s) == s <==> Normalized(s, PySpace)
  {
    if Normalized(s, PySpace) {
      JoinWordsOfNormalized(s, PySpace);
      TrimNormalized(s, PySpace);
    }
  }

  /** `preprocess_text` is idempotent. */
  lemma PreprocessIdempotent(text: string)
    ensures PreprocessText(PreprocessText(text)) == PreprocessText(text)
  {
    PreprocessFixpoints(PreprocessText(text));
  }

  /** `preprocess_text` yields the empty string exactly for text without a word. */
  lemma PreprocessEmptyIff(text: string)
    ensures PreprocessText(text) == [] <==> AllSpace(text, PySpace)
  {
    var r := PreprocessText(text);
    WordsEmptyIff(r, PySpace);
    WordsEmptyIff(text, PySpace);
  }

  // ---------------------------------------------------------------------------
  // chunk_text

  /**
   * The word groups of `chunk_text`: consecutive groups of `n` words, the last
   * one possibly shorter, and no group for an empty word list.
   */
  function ChunkWords(ws: seq<string>, n: nat): (cs: seq<seq<string>>)
    requires n > 0
    ensures forall k :: 0 <= k < |cs| ==> 0 < |cs[k]| <= n
    ensures forall k :: 0 <= k < |cs| - 1 ==> |cs[k]| == n
    decreases |ws|
  {
    if ws == [] then []
    else if |ws| <= n then [ws]
    else [ws[..n]] + ChunkWords(ws[n..], n)
  }

  /** The groups, concatenated in order, give back the word list. */
  lemma {:induction false} ChunkWordsConcat(ws: seq<string>, n: nat)
    requires n > 0
    ensures Concat(ChunkWords(ws, n)) == ws
    decreases |ws|
  {
    if |ws| > n {
      ChunkWordsConcat(ws[n..], n);
      var cs := ChunkWords(ws, n);
      assert cs[1..] == ChunkWords(ws[n..], n);
      assert ws == ws[..n] + ws[n..];
    }
  }

  lemma {:induction false} MulAtLeast(d: nat, n: nat)
    requires d >= 1
    ensures d * n >= n
    decreases d
  {
    if d > 1 {
      MulAtLeast(d - 1, n);
      assert d * n == (d - 1) * n + n;
    }
  }

  /** Euclidean division has one quotient: the `q` of any `a == q * n + r` with `0 <= r < n`. */
  lemma DivUnique(a: nat, n: nat, q: nat, r: nat)
    requires n > 0 && r < n && a == q * n + r
    ensures a / n == q
  {
    var q0, r0 := a / n, a % n;
    assert a == q0 * n + r0;
    if q0 < q {
      assert (q - q0) * n == q * n - q0 * n;
      MulAtLeast(q - q0, n);
    } else if q < q0 {
      assert (q0 - q) * n == q0 * n - q * n;
      MulAtLeast(q0 - q, n);
    }
  }

  lemma DivStep(x: nat, n: nat)
    requires n > 0
    ensures (x + n) / n == x / n + 1
  {
    var q, r := x / n, x % n;
    assert x == q * n + r;
    assert x + n == (q + 1) * n + r;
    DivUnique(x + n, n, q + 1, r);
  }

  lemma DivOne(x: nat, n: nat)
    requires 0 < n <= x < 2 * n
    ensures x / n == 1
  {
    DivUnique(x, n, 1, x - n);
  }

  /** There are ceil(|ws| / n) groups: as many as `range(0, len(words), n)` has elements. */
  lemma {:induction false} ChunkWordsCount(ws: seq<string>, n: nat)
    requires n > 0
    ensures |ChunkWords(ws, n)| == (|ws| + n - 1) / n
    decreases |ws|
  {
    if ws == [] {
    } else if |ws| <= n {
      DivOne(|ws| + n - 1, n);
    } else {
      ChunkWordsCount(ws[n..], n);
      DivStep(|ws| - 1, n);
    }
  }

  /** Group `k` is the slice `words[k*n : k*n + n]` of the list comprehension in app.py. */
  lemma {:induction false} ChunkWordsAt(ws: seq<string>, n: nat, k: nat)
    requires n > 0 && k < |ChunkWords(ws, n)|
    ensures k * n < |ws|
    ensures ChunkWords(ws, n)[k] == ws[k * n .. if k * n + n <= |ws| then k * n + n else |ws|]
    decreases k
  {
    if k > 0 {
      var cs := ChunkWords(ws, n);
      var rest := ws[n..];
      assert |ws| > n;
      assert cs[1..] == ChunkWords(rest, n);
      ChunkWordsAt(rest, n, k - 1);
      var m := (k - 1) * n;
      assert k * n == m + n;
      var e := if m + n <= |rest| then m + n else |rest|;
      assert cs[k] == cs[1..][k - 1] == rest[m..e];
      SliceOfSuffix(ws, n, m, e);
    }
  }

  /** A slice of a suffix is a slice of the whole sequence, shifted. */
  lemma SliceOfSuffix<T>(s: seq<T>, n: nat, a: nat, b: nat)
    requires n <= |s| && a <= b <= |s| - n
    ensures s[n..][a..b] == s[n + a..n + b]
  {
  }

  lemma {:induction false} ChunkWordsTokens(ws: seq<string>, n: nat)
    requires n > 0 && Tokens(ws, PySpace)
    ensures forall k :: 0 <= k < |ChunkWords(ws, n)| ==> Tokens(ChunkWords(ws, n)[k], PySpace)
    decreases |ws|
  {
    if |ws| > n {
      ChunkWordsTokens(ws[n..], n);
      var cs := ChunkWords(ws, n);
      assert cs[1..] == ChunkWords(ws[n..], n);
      assert Tokens(ws[..n], PySpace);
      forall k | 0 <= k < |cs| ensures Tokens(cs[k], PySpace) {
        if k > 0 { assert cs[k] == cs[1..][k - 1]; }
      }
    }
  }

  /** `" ".join(chunk)` for every chunk, as the list comprehension of `chunk_text` does. */
  function JoinEach(cs: seq<seq<string>>): (r: seq<string>)
    ensures |r| == |cs|
  {
    seq(|cs|, k requires 0 <= k < |cs| => Join(cs[k], " "))
  }

  /** The words of the chunks, taken in order, are exactly `ws`. */
  predicate ChunksCover(chunks: seq<string>, ws: seq<string>) {
    Concat(WordsOfEach(chunks)) == ws
  }

  /** The words of every string of a list, as Python's `split()` gives them. */
  function WordsOfEach(chunks: seq<string>): (r: seq<seq<string>>)
    ensures |r| == |chunks|
  {
    seq(|chunks|, k requires 0 <= k < |chunks| => Words(chunks[k], PySpace))
  }

  /**
   * `chunk_text` (app.py:21-24). A `chunk_size` of zero makes `range` raise
   * `ValueError`; a negative one makes the range empty, so the result is the
   * empty list.
   */
  function ChunkText(text: string, chunkSize: int): (r: Result<seq<string>>)
    ensures r.Failure? <==> chunkSize == 0
    ensures r.Failure? ==> r.error == ZeroStepError
    ensures chunkSize < 0 ==> r == Success([])
    ensures chunkSize > 0 ==> r.Success? && |r.value| == (|Words(text, PySpace)| + chunkSize - 1) / chunkSize
  {
    if chunkSize == 0 then Failure(ZeroStepError)
    else if chunkSize < 0 then Success([])
    else
      ChunkWordsCount(Words(text, PySpace), chunkSize);
      Success(JoinEach(ChunkWords(Words(text, PySpace), chunkSize)))
  }

  /**
   * For a positive chunk size, every chunk holds between one and `chunkSize`
   * words, every chunk but the last exactly `chunkSize`, and the chunks'
   * words, in order, are the words of the text.
   */
  lemma ChunkTextWords(text: string, chunkSize: int)
    requires chunkSize > 0
    ensures var chunks := ChunkText(text, chunkSize).value;
            && (forall k :: 0 <= k < |chunks| ==> 0 < |Words(chunks[k], PySpace)| <= chunkSize)
            && (forall k :: 0 <= k < |chunks| - 1 ==> |Words(chunks[k], PySpace)| == chunkSize)
            && ChunksCover(chunks, Words(text, PySpace))
  {
    var ws := Words(text, PySpace);
    var cs := ChunkWords(ws, chunkSize);
    var chunks := ChunkText(text, chunkSize).value;
    assert chunks == JoinEach(cs);
    ChunkWordsTokens(ws, chunkSize);
    forall k | 0 <= k < |cs| ensures Words(chunks[k], PySpace) == cs[k] {
      WordsJoin(cs[k], PySpace);
    }
    assert WordsOfEach(chunks) == cs;
    ChunkWordsConcat(ws, chunkSize);
  }
}
