/**
 * The server's request path (app.py): the empty-text early return of
 * `summarize_text` and the empty-text rejection of the `/summarize` route.
 * The model inference that runs on each chunk is not part of this model;
 * `summarize_text` is modelled up to the list of chunks it feeds to the model.
 */
module Summarize {
  import opened Wrappers
  import opened Whitespace
  import opened Text
  import opened App

  /** What `summarize_text` returns for text without a word. */
  const NoTextReply: string := "No text provided."
  /** The error body of the `/summarize` route for text without a word. */
  const EmptyTextError: string := "Please provide some text to summarize."
  const BadRequestStatus: int := 400
  const OkStatus: int := 200

  /**
   * How far `summarize_text` gets before inference: the fixed reply for text
   * without a word, or the chunks of the preprocessed text it summarizes one
   * by one.
   */
  datatype Summarization = NoText(reply: string) | Generate(chunks: seq<string>)

  /**
   * `summarize_text` (app.py:26-38) up to the inference loop: it returns
   * "No text provided." exactly when the preprocessed text is empty, before
   * any chunking; otherwise it chunks the preprocessed text by 800 words.
   */
  function SummarizeText(text: string): (r: Summarization)
    ensures r.NoText? <==> AllSpace(text, PySpace)
    ensures r.NoText? ==> r.reply == NoTextReply
    ensures r.Generate? ==> r.chunks == ChunkText(PreprocessText(text), DefaultChunkSize).value
  {
    PreprocessEmptyIff(text);
    if PreprocessText(text) == [] then NoText(NoTextReply)
    else Generate(ChunkText(PreprocessText(text), DefaultChunkSize).value)
  }

  /**
   * Past its early return, `summarize_text` feeds at least one chunk to the
   * model; each chunk holds 1 to 800 words, every chunk but the last exactly
   * 800, and the chunks' words, in order, are the words of its input.
   */
  lemma {:induction false} SummarizeTextChunks(text: string)
    ensures var r := SummarizeText(text);
            r.Generate? ==> && |r.chunks| > 0
                            && (forall k :: 0 <= k < |r.chunks| ==> 0 < |Words(r.chunks[k], PySpace)| <= DefaultChunkSize)
                            && (forall k :: 0 <= k < |r.chunks| - 1 ==> |Words(r.chunks[k], PySpace)| == DefaultChunkSize)
                            && ChunksCover(r.chunks, Words(text, PySpace))
  {
    match SummarizeText(text)
    case NoText(_) =>
    case Generate(chunks) =>
      SummarizeChunks(text);
  }

  lemma SummarizeChunks(text: string)
    requires PreprocessText(text) != []
    ensures var chunks := ChunkText(PreprocessText(text), DefaultChunkSize).value;
            && |chunks| > 0
            && (forall k :: 0 <= k < |chunks| ==> 0 < |Words(chunks[k], PySpace)| <= DefaultChunkSize)
            && (forall k :: 0 <= k < |chunks| - 1 ==> |Words(chunks[k], PySpace)| == DefaultChunkSize)
            && ChunksCover(chunks, Words(text, PySpace))
  {
    var t := PreprocessText(text);
    var ws := Words(t, PySpace);
    WordsEmptyIff(t, PySpace);
    assert ChunkText(t, DefaultChunkSize).value == JoinEach(ChunkWords(ws, DefaultChunkSize));
    assert |ChunkWords(ws, DefaultChunkSize)| > 0;
    ChunkTextWords(t, DefaultChunkSize);
  }

  /** The reply of the `/summarize` route, up to the inference results. */
  datatype RouteReply =
    | BadRequest(status: int, error: string)
    | Summarized(status: int, text: string, inputWords: nat, pipeline: Summarization)

  /**
   * The `/summarize` route (app.py:69-77): the request's "text" field (the
   * empty string when absent) is stripped; text without a word is rejected
   * with status 400 and a fixed message before `summarize_text` runs;
   * otherwise the stripped text is summarized and its word count reported.
   */
  function SummarizeRoute(field: Option<string>): (r: RouteReply)
    ensures var raw := field.GetOr([]);
            && (r.BadRequest? <==> AllSpace(raw, PySpace))
            && (r.BadRequest? ==> r.status == BadRequestStatus && r.error == EmptyTextError)
            && (r.Summarized? ==> r.status == OkStatus && r.text == Trim(raw, PySpace)
                                  && r.inputWords == |Words(raw, PySpace)|
                                  && r.pipeline == SummarizeText(r.text) && r.pipeline.Generate?)
  {
    var raw := field.GetOr([]);
    var text := Trim(raw, PySpace);
    if text == [] then BadRequest(BadRequestStatus, EmptyTextError)
    else
      WordsTrim(raw, PySpace);
      WordsEmptyIff(raw, PySpace);
      WordsEmptyIff(text, PySpace);
      Summarized(OkStatus, text, |Words(text, PySpace)|, SummarizeText(text))
  }
}
