/**
 * Splitting, trimming and joining text, parameterised by the whitespace
 * predicate `sp` so that the browser's rules and the server's rules share one
 * definition of each operation.
 *
 * `Words` is the sequence of maximal runs of non-whitespace characters: what
 * Python's `str.split()` returns, and the reference against which the
 * browser's `trim().split(/\s+/).filter(...)` pipeline is proved.
 */
module Text {

  predicate AllSpace(s: string, sp: char -> bool) {
    forall i :: 0 <= i < |s| ==> sp(s[i])
  }

  predicate NoSpace(s: string, sp: char -> bool) {
    forall i :: 0 <= i < |s| ==> !sp(s[i])
  }

  /** Length of the run of non-whitespace characters that starts `s`. */
  function RunLength(s: string, sp: char -> bool): (k: nat)
    ensures k <= |s| && NoSpace(s[..k], sp)
    ensures k < |s| ==> sp(s[k])
  {
    if s == [] || sp(s[0]) then 0 else 1 + RunLength(s[1..], sp)
  }

  /** The length of the whitespace prefix of `s`. */
  function LeadingSpaces(s: string, sp: char -> bool): (k: nat)
    ensures k <= |s| && AllSpace(s[..k], sp)
    ensures k < |s| ==> !sp(s[k])
  {
    if s != [] && sp(s[0]) then
      var k := 1 + LeadingSpaces(s[1..], sp);
      assert forall i :: 1 <= i < k ==> s[..k][i] == s[1..][..k - 1][i - 1];
      k
    else 0
  }

  /** `s` without its leading whitespace. */
  function SkipSpaces(s: string, sp: char -> bool): string {
    s[LeadingSpaces(s, sp)..]
  }

  /** The length of `s` without its whitespace suffix. */
  function TrailingStart(s: string, sp: char -> bool): (k: nat)
    ensures k <= |s| && AllSpace(s[k..], sp)
    ensures 0 < k ==> !sp(s[k - 1])
  {
    if s != [] && sp(s[|s| - 1]) then
      var k := TrailingStart(s[..|s| - 1], sp);
      assert forall i :: 0 <= i < |s| - 1 - k ==> s[k..][i] == s[..|s| - 1][k..][i];
      k
    else |s|
  }

  /** `s` without its trailing whitespace. */
  function TrimEnd(s: string, sp: char -> bool): string {
    s[..TrailingStart(s, sp)]
  }

  /**
   * JavaScript's `trim()` (with `JsSpace`) and Python's `strip()` (with
   * `PySpace`): the slice of `s` between its leading and its trailing
   * whitespace.
   */
  function Trim(s: string, sp: char -> bool): (r: string)
    ensures r == [] || (!sp(r[0]) && !sp(r[|r| - 1]))
    ensures r == [] <==> AllSpace(s, sp)
  {
    var u := SkipSpaces(s, sp);
    var r := TrimEnd(u, sp);
    var i := |s| - |u|;
    assert s == s[..i] + u;
    if r == [] then AllSpaceAppend(s[..i], u, sp); r else r
  }

  /** What `Trim` removes is whitespace at either end, and what it keeps is one slice of `s`. */
  lemma TrimSlice(s: string, sp: char -> bool) returns (i: nat)
    ensures var r := Trim(s, sp);
            i + |r| <= |s| && r == s[i..i + |r|] && AllSpace(s[..i], sp) && AllSpace(s[i + |r|..], sp)
  {
    var u := SkipSpaces(s, sp);
    var r := TrimEnd(u, sp);
    i := |s| - |u|;
    assert Trim(s, sp) == r;
    assert i + |r| <= |s|;
    assert r == s[i..i + |r|] by { assert s[i..i + |r|] == u[..|r|]; }
    assert AllSpace(s[..i], sp);
    assert AllSpace(s[i + |r|..], sp) by { assert s[i + |r|..] == u[|r|..]; }
  }

  lemma AllSpaceAppend(a: string, b: string, sp: char -> bool)
    requires AllSpace(a, sp) && AllSpace(b, sp)
    ensures AllSpace(a + b, sp)
  {
  }

  /** The maximal runs of non-whitespace characters of `s`, in order. */
  function Words(s: string, sp: char -> bool): (ws: seq<string>)
    ensures forall k :: 0 <= k < |ws| ==> ws[k] != [] && NoSpace(ws[k], sp)
    decreases |s|
  {
    if s == [] then []
    else if sp(s[0]) then Words(s[1..], sp)
    else
      var k := RunLength(s, sp);
      [s[..k]] + Words(s[k..], sp)
  }

  /**
   * JavaScript's `s.split(/\s+/)`: the pieces between the maximal whitespace
   * runs of `s`. Leading or trailing whitespace yields an empty first or last
   * piece, and the empty string yields one empty piece.
   */
  function SplitOnRuns(s: string, sp: char -> bool): (pieces: seq<string>)
    ensures |pieces| >= 1
    decreases |s|
  {
    var k := RunLength(s, sp);
    if k == |s| then [s]
    else [s[..k]] + SplitOnRuns(SkipSpaces(s[k..], sp), sp)
  }

  /** JavaScript's `.filter(w => w.length)`: the pieces that are not empty. */
  function NonEmpty(pieces: seq<string>): (r: seq<string>)
    ensures forall k :: 0 <= k < |r| ==> r[k] != []
  {
    if pieces == [] then []
    else if pieces[0] == [] then NonEmpty(pieces[1..])
    else [pieces[0]] + NonEmpty(pieces[1..])
  }

  /** Python's `sep.join(ws)`. */
  function Join(ws: seq<string>, sep: string): string {
    if |ws| == 0 then []
    else if |ws| == 1 then ws[0]
    else ws[0] + sep + Join(ws[1..], sep)
  }

  /** The concatenation of a sequence of sequences, in order. */
  function Concat<T>(ss: seq<seq<T>>): seq<T> {
    if ss == [] then [] else ss[0] + Concat(ss[1..])
  }

  /** The number of places where a non-whitespace character follows a whitespace one. */
  function Rises(s: string, sp: char -> bool): nat
    decreases |s|
  {
    if |s| < 2 then 0
    else (if sp(s[0]) && !sp(s[1]) then 1 else 0) + Rises(s[1..], sp)
  }

  /**
   * The number of maximal non-whitespace runs, counted by where they begin:
   * at the start of `s` or right after a whitespace character.
   */
  function RunCount(s: string, sp: char -> bool): nat {
    if s == [] then 0 else (if sp(s[0]) then 0 else 1) + Rises(s, sp)
  }

  // ---------------------------------------------------------------------------
  // Properties of the definitions

  lemma {:induction false} WordsEmptyIff(s: string, sp: char -> bool)
    ensures Words(s, sp) == [] <==> AllSpace(s, sp)
    decreases |s|
  {
    if s != [] && sp(s[0]) {
      WordsEmptyIff(s[1..], sp);
      assert AllSpace(s, sp) <==> AllSpace(s[1..], sp) by {
        if AllSpace(s[1..], sp) {
          forall j | 0 <= j < |s| ensures sp(s[j]) { if j > 0 { assert s[j] == s[1..][j - 1]; } }
        }
      }
    }
  }

  lemma {:induction false} RunLengthAppend(s: string, t: string, sp: char -> bool)
    ensures RunLength(s + t, sp) == if RunLength(s, sp) < |s| then RunLength(s, sp) else |s| + RunLength(t, sp)
    decreases |s|
  {
    if s != [] {
      assert (s + t)[0] == s[0];
      if !sp(s[0]) {
        assert (s + t)[1..] == s[1..] + t;
        RunLengthAppend(s[1..], t, sp);
      }
    } else {
      assert s + t == t;
    }
  }

  lemma {:induction false} RunLengthNoSpace(s: string, sp: char -> bool)
    requires NoSpace(s, sp)
    ensures RunLength(s, sp) == |s|
  {
  }

  lemma {:induction false} WordsSkipSpaces(s: string, sp: char -> bool)
    ensures Words(SkipSpaces(s, sp), sp) == Words(s, sp)
    decreases |s|
  {
    if s != [] && sp(s[0]) { WordsSkipSpaces(s[1..], sp); }
  }

  lemma {:induction false} WordsAppendSpaces(s: string, t: string, sp: char -> bool)
    requires AllSpace(t, sp)
    ensures Words(s + t, sp) == Words(s, sp)
    decreases |s|
  {
    if s == [] {
      assert s + t == t;
      WordsEmptyIff(t, sp);
    } else if sp(s[0]) {
      assert (s + t)[0] == s[0];
      assert (s + t)[1..] == s[1..] + t;
      WordsAppendSpaces(s[1..], t, sp);
    } else {
      assert (s + t)[0] == s[0];
      var k := RunLength(s, sp);
      RunLengthAppend(s, t, sp);
      if k == |s| && t != [] { assert sp(t[0]); }
      assert RunLength(s + t, sp) == k;
      assert (s + t)[..k] == s[..k];
      assert (s + t)[k..] == s[k..] + t;
      WordsAppendSpaces(s[k..], t, sp);
    }
  }

  /** Trimming changes no word. */
  lemma WordsTrim(s: string, sp: char -> bool)
    ensures Words(Trim(s, sp), sp) == Words(s, sp)
  {
    var u := SkipSpaces(s, sp);
    var r := TrimEnd(u, sp);
    assert u == r + u[|r|..];
    WordsAppendSpaces(r, u[|r|..], sp);
    WordsSkipSpaces(s, sp);
  }

  /** Filtering the empty pieces out of `split(/\s+/)` gives exactly the words. */
  lemma {:induction false} SplitOnRunsNonEmpty(s: string, sp: char -> bool)
    ensures NonEmpty(SplitOnRuns(s, sp)) == Words(s, sp)
    decreases |s|
  {
    var k := RunLength(s, sp);
    if k == |s| {
      if s != [] {
        RunLengthNoSpace(s, sp);
        assert s[..k] == s && s[k..] == [];
      }
    } else {
      var rest := SkipSpaces(s[k..], sp);
      SplitOnRunsNonEmpty(rest, sp);
      WordsSkipSpaces(s[k..], sp);
      var pieces := SplitOnRuns(s, sp);
      assert pieces == [s[..k]] + SplitOnRuns(rest, sp);
      assert pieces[1..] == SplitOnRuns(rest, sp);
      if k == 0 {
        assert s[k..] == s;
      }
    }
  }

  lemma {:induction false} RisesSkipRun(s: string, j: nat, sp: char -> bool)
    requires j < |s| && NoSpace(s[..j], sp)
    ensures Rises(s, sp) == Rises(s[j..], sp)
    decreases j
  {
    if j > 0 {
      assert !sp(s[..j][0]);
      assert NoSpace(s[1..][..j - 1], sp) by {
        forall i | 1 <= i < j ensures !sp(s[i]) { assert s[i] == s[..j][i]; }
      }
      RisesSkipRun(s[1..], j - 1, sp);
      assert s[1..][j - 1..] == s[j..];
    }
  }

  /** There are as many words as places where a word begins. */
  lemma {:induction false} WordsCount(s: string, sp: char -> bool)
    ensures |Words(s, sp)| == RunCount(s, sp)
    decreases |s|
  {
    if s == [] {
    } else if sp(s[0]) {
      WordsCount(s[1..], sp);
    } else {
      var k := RunLength(s, sp);
      WordsCount(s[k..], sp);
      RisesSkipRun(s, k - 1, sp);
      if k < |s| {
        assert s[k - 1..][1..] == s[k..];
        assert s[k..][0] == s[k];
      }
    }
  }

  /** Joining non-empty, whitespace-free words with one space and splitting again gives them back. */
  lemma {:induction false} WordsJoin(ws: seq<string>, sp: char -> bool)
    requires sp(' ')
    requires forall k :: 0 <= k < |ws| ==> ws[k] != [] && NoSpace(ws[k], sp)
    ensures Words(Join(ws, " "), sp) == ws
  {
    if |ws| == 1 {
      var w := ws[0];
      RunLengthNoSpace(w, sp);
      assert w[..|w|] == w && w[|w|..] == [];
    } else if |ws| > 1 {
      var w := ws[0];
      var tail := " " + Join(ws[1..], " ");
      var s := Join(ws, " ");
      assert s == w + tail;
      RunLengthNoSpace(w, sp);
      RunLengthAppend(w, tail, sp);
      assert RunLength(s, sp) == |w|;
      assert s[..|w|] == w && s[|w|..] == tail;
      assert tail[1..] == Join(ws[1..], " ");
      WordsJoin(ws[1..], sp);
      assert Words(tail, sp) == Words(tail[1..], sp);
      assert Words(s, sp) == [w] + ws[1..];
    }
  }

  /** Every element is a word: non-empty and free of whitespace. */
  predicate Tokens(ws: seq<string>, sp: char -> bool) {
    forall k :: 0 <= k < |ws| ==> ws[k] != [] && NoSpace(ws[k], sp)
  }

  /**
   * Text in normal form: no whitespace at either end, every whitespace
   * character a plain space, and no two whitespace characters in a row.
   */
  predicate Normalized(s: string, sp: char -> bool) {
    && (s == [] || (!sp(s[0]) && !sp(s[|s| - 1])))
    && (forall i :: 0 <= i < |s| && sp(s[i]) ==> s[i] == ' ')
    && (forall i :: 0 <= i < |s| - 1 ==> !sp(s[i]) || !sp(s[i + 1]))
  }

  lemma {:induction false} JoinNormalized(ws: seq<string>, sp: char -> bool)
    requires Tokens(ws, sp)
    ensures Normalized(Join(ws, " "), sp)
    ensures ws != [] ==> Join(ws, " ") != []
  {
    if |ws| > 1 {
      var w := ws[0];
      var j := Join(ws[1..], " ");
      JoinNormalized(ws[1..], sp);
      var s := Join(ws, " ");
      assert s == w + [' '] + j;
      assert forall i :: 0 <= i < |w| ==> s[i] == w[i];
      assert s[|w|] == ' ';
      assert forall i :: |w| < i < |s| ==> s[i] == j[i - |w| - 1];
      forall i | 0 <= i < |s| - 1
        ensures !sp(s[i]) || !sp(s[i + 1])
      {
        if i == |w| { assert s[i + 1] == j[0]; }
        else if i == |w| - 1 { assert !sp(w[i]); }
      }
    }
  }

  /** Trimming a normalized string removes nothing. */
  lemma TrimNormalized(s: string, sp: char -> bool)
    requires Normalized(s, sp)
    ensures Trim(s, sp) == s
  {
  }

  /** A suffix of normalized text that starts with a non-whitespace character is normalized. */
  lemma NormalizedSuffix(s: string, j: nat, sp: char -> bool)
    requires Normalized(s, sp) && j < |s| && !sp(s[j])
    ensures Normalized(s[j..], sp)
  {
    var t := s[j..];
    assert forall i :: 0 <= i < |t| ==> t[i] == s[j + i];
    forall i | 0 <= i < |t| - 1 ensures !sp(t[i]) || !sp(t[i + 1]) {
      assert t[i + 1] == s[j + i + 1];
    }
  }

  /**
   * Normalized text is either one word, or a word, a single space and normalized
   * text again.
   */
  lemma NormalizedFirstWord(s: string, sp: char -> bool) returns (k: nat)
    requires Normalized(s, sp) && s != []
    ensures k == RunLength(s, sp) && 0 < k
    ensures k == |s| ==> Words(s, sp) == [s]
    ensures k < |s| ==> && k + 1 < |s|
                        && s == s[..k] + " " + s[k + 1..]
                        && Normalized(s[k + 1..], sp)
                        && Words(s, sp) == [s[..k]] + Words(s[k + 1..], sp)
  {
    k := RunLength(s, sp);
    if k == |s| {
      assert s[..k] == s && s[k..] == [];
    } else {
      assert s[k] == ' ' && k + 1 < |s|;
      assert !sp(s[k + 1]);
      NormalizedSuffix(s, k + 1, sp);
      assert s[k..][1..] == s[k + 1..];
      assert s == s[..k] + " " + s[k + 1..];
    }
  }

  lemma JoinCons(w: string, ws: seq<string>)
    requires ws != []
    ensures Join([w] + ws, " ") == w + " " + Join(ws, " ")
  {
    assert ([w] + ws)[1..] == ws;
  }

  /** Joining the words of a normalized string with single spaces rebuilds it. */
  lemma {:induction false} JoinWordsOfNormalized(s: string, sp: char -> bool)
    requires Normalized(s, sp)
    ensures Join(Words(s, sp), " ") == s
    decreases |s|
  {
    if s != [] {
      var k := NormalizedFirstWord(s, sp);
      if k < |s| {
        var t := s[k + 1..];
        JoinWordsOfNormalized(t, sp);
        WordsEmptyIff(t, sp);
        JoinCons(s[..k], Words(t, sp));
      }
    }
  }
}
