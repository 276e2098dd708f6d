/**
 * The RWKV chat server: the weights download with its acceptance check,
 * and the chat and completion endpoints around the RWKV pipeline, whose
 * stream ends with a stop frame, or with an error frame when the pipeline
 * raises.
 *
 * The network and the pipeline are foreign: the download takes the
 * received chunks as input, and generation is a function of the prompt
 * and the token budget.
 */
module RwkvServer {
  import opened Text
  import opened Envelope

  newtype byte = x: int | 0 <= x < 256

  /** `b"<!DOCTYPE"`, the start of an HTML page served in place of the weights. */
  const Doctype: seq<byte> := [0x3C, 0x21, 0x44, 0x4F, 0x43, 0x54, 0x59, 0x50, 0x45]

  /** How many leading bytes the check reads back from the file. */
  const SniffLength: nat := 20

  /** The smallest file accepted as weights, in bytes. */
  const MinModelSize: nat := 1000000

  const InvalidModel := "Downloaded file is not a valid model."

  /** Startup succeeds, or fails with the text of the `ValueError`. */
  datatype Outcome = Pass | Fail(error: string)

  /** The check after download: the first bytes read back start with the doctype, or the file is small. */
  predicate Rejected(file: seq<byte>)
  {
    var firstBytes := file[..if |file| < SniffLength then |file| else SniffLength];
    Doctype <= firstBytes || |file| < MinModelSize
  }

  /**
   * Reading only the first 20 bytes loses nothing: a file is rejected
   * exactly when it starts with `<!DOCTYPE` or holds fewer than 1,000,000 bytes.
   */
  lemma RejectedIff(file: seq<byte>)
    ensures Rejected(file) <==> Doctype <= file || |file| < MinModelSize
  {
    var n := if |file| < SniffLength then |file| else SniffLength;
    var firstBytes := file[..n];
    if Doctype <= file {
      if |file| >= |Doctype| {
        assert firstBytes[..|Doctype|] == file[..|Doctype|];
      }
    }
    if Doctype <= firstBytes {
      assert file[..|Doctype|] == firstBytes[..|Doctype|];
    }
  }

  /** An HTML error page of any size is rejected; a large file with any other start is kept. */
  lemma RejectedExamples(page: seq<byte>, weights: seq<byte>)
    requires Doctype <= page
    requires |weights| >= MinModelSize && weights[0] != Doctype[0]
    ensures Rejected(page) && !Rejected(weights)
  {
    RejectedIff(page);
    RejectedIff(weights);
  }

  /** The models directory, as far as the weights file is concerned. */
  class ModelDirectory {
    /** The weights file: `None` when it does not exist, otherwise its bytes. */
    var modelFile: Option<seq<byte>>

    constructor (existing: Option<seq<byte>>)
      ensures modelFile == existing
    {
      modelFile := existing;
    }

    /**
     * `download_model`: the file is created empty, each received chunk is
     * appended in arrival order while the progress counter advances by its
     * length; then the file is removed and startup fails if it is rejected.
     */
    method DownloadModel(chunks: seq<seq<byte>>) returns (outcome: Outcome, progress: nat)
      modifies this
      ensures progress == TotalLength(chunks) == |Flatten(chunks)|
      ensures Rejected(Flatten(chunks)) ==> modelFile == None && outcome == Fail(InvalidModel)
      ensures !Rejected(Flatten(chunks)) ==> modelFile == Some(Flatten(chunks)) && outcome == Pass
    {
      modelFile := Some([]);
      progress := 0;
      var i := 0;
      while i < |chunks|
        invariant 0 <= i <= |chunks|
        invariant modelFile == Some(Flatten(chunks[..i]))
        invariant progress == |Flatten(chunks[..i])|
      {
        FlattenAppend(chunks[..i], [chunks[i]]);
        assert chunks[..i + 1] == chunks[..i] + [chunks[i]];
        assert Flatten([chunks[i]]) == chunks[i];
        modelFile := Some(modelFile.value + chunks[i]);
        progress := progress + |chunks[i]|;
        i := i + 1;
      }
      assert chunks[..i] == chunks;
      FlattenLength(chunks);
      var file := modelFile.value;
      var firstBytes := file[..if |file| < SniffLength then |file| else SniffLength];
      if Doctype <= firstBytes || |file| < MinModelSize {
        modelFile := None;
        outcome := Fail(InvalidModel);
      } else {
        outcome := Pass;
      }
    }

    /**
     * Startup: download only when the weights file is absent; an existing
     * file is left untouched and is not checked.
     */
    method EnsureModel(chunks: seq<seq<byte>>) returns (outcome: Outcome)
      modifies this
      ensures old(modelFile).Some? ==> modelFile == old(modelFile) && outcome == Pass
      ensures old(modelFile).None? && Rejected(Flatten(chunks))
              ==> modelFile == None && outcome == Fail(InvalidModel)
      ensures old(modelFile).None? && !Rejected(Flatten(chunks))
              ==> modelFile == Some(Flatten(chunks)) && outcome == Pass
    {
      if modelFile.None? {
        var progress;
        outcome, progress := DownloadModel(chunks);
      } else {
        outcome := Pass;
      }
    }
  }

  // ---------------------------------------------------------------------
  // Chat and completion endpoints
  // ---------------------------------------------------------------------

  /**
   * What the pipeline produced for a stream: the fragments it yielded, in
   * order, and the text of the exception it raised after them, if any.
   */
  datatype Generation = Generation(fragments: seq<string>, raised: Option<string>)

  /**
   * The generator `token_stream`: a content event per fragment, then the
   * stop event, or the error event in place of it when the pipeline raised.
   */
  method TokenStream(gen: Generation, encode: Frame -> string) returns (events: seq<string>)
    ensures events == Wire(StreamFrames(gen.fragments, gen.raised), encode)
    ensures |events| == |gen.fragments| + 1
    ensures forall i :: 0 <= i < |gen.fragments| ==>
      events[i] == SseEvent(encode(ContentFrame(gen.fragments[i])))
    ensures gen.raised == None ==> events[|gen.fragments|] == SseEvent(encode(StopFrame))
    ensures gen.raised.Some? ==>
      events[|gen.fragments|] == SseEvent(encode(ErrorFrame(gen.raised.value)))
  {
    events := [];
    var i := 0;
    while i < |gen.fragments|
      invariant 0 <= i <= |gen.fragments|
      invariant |events| == i
      invariant forall k :: 0 <= k < i ==>
        events[k] == SseEvent(encode(ContentFrame(gen.fragments[k])))
    {
      events := events + [SseEvent(encode(ContentFrame(gen.fragments[i])))];
      i := i + 1;
    }
    match gen.raised {
      case None =>
        events := events + [SseEvent(encode(StopFrame))];
      case Some(message) =>
        events := events + [SseEvent(encode(ErrorFrame(message)))];
    }
    StreamFramesShape(gen.fragments, gen.raised);
  }

  /**
   * When the pipeline raises after k fragments, the k content frames stay,
   * one error frame with the exception's text follows, and no stop frame
   * is sent; otherwise the stop frame is last and no error frame is sent.
   */
  lemma StreamEnding(gen: Generation)
    ensures var frames := StreamFrames(gen.fragments, gen.raised);
      var k := |gen.fragments|;
      && |frames| == k + 1
      && (forall i :: 0 <= i < k ==> frames[i] == ContentFrame(gen.fragments[i]))
      && (gen.raised.Some? ==>
            frames[k] == ErrorFrame(gen.raised.value)
            && forall i :: 0 <= i < |frames| ==> frames[i] != StopFrame)
      && (gen.raised == None ==>
            frames[k] == StopFrame
            && forall i :: 0 <= i < |frames| ==> !frames[i].ErrorFrame?)
  {
    StreamFramesShape(gen.fragments, gen.raised);
    StreamTerminatesOnce(gen.fragments, gen.raised);
  }

  /** The non-streaming chat record: the pipeline's output, unchanged. */
  function ChatResponse(req: ChatCompletionRequest, uuid: string, output: string): ChatCompletion
  {
    ChatCompletionOf(uuid, req.model, output)
  }

  /**
   * The non-streaming chat reply carries the output as it is, with no
   * prompt stripping; a stream that finished delivers the concatenation
   * of its fragments, so the two agree whenever the output is that concatenation.
   */
  lemma StreamMatchesResponse(req: ChatCompletionRequest, uuid: string, output: string, gen: Generation)
    ensures ReadChatContent(ChatResponse(req, uuid, output)) == Some(output)
    ensures gen.raised == None && output == Flatten(gen.fragments) ==>
      Some(Flatten(DeltaContents(StreamFrames(gen.fragments, gen.raised))))
      == ReadChatContent(ChatResponse(req, uuid, output))
  {
    ChatCompletionReadBack(uuid, req.model, output);
    StreamRoundTrip(gen.fragments, gen.raised);
  }

  /**
   * `chat_completions`: the pipeline runs on the user messages' prompt;
   * the reply is the event stream or the record.
   */
  method ChatCompletions(req: ChatCompletionRequest, uuid: string,
                         stream: (string, int) -> Generation,
                         generate: (string, int) -> string,
                         encode: Frame -> string)
    returns (reply: ChatReply)
    ensures var prompt := ChatPrompt(req.messages);
      && (req.stream ==> reply == Streamed(Wire(StreamFrames(stream(prompt, req.maxTokens).fragments,
                                                             stream(prompt, req.maxTokens).raised), encode)))
      && (!req.stream ==> reply == Complete(ChatResponse(req, uuid, generate(prompt, req.maxTokens))))
  {
    var prompt := ChatPrompt(req.messages);
    if req.stream {
      var events := TokenStream(stream(prompt, req.maxTokens), encode);
      reply := Streamed(events);
    } else {
      reply := Complete(ChatResponse(req, uuid, generate(prompt, req.maxTokens)));
    }
  }

  /** `completions`: the record around the pipeline's output, unchanged. */
  function Completions(req: CompletionRequest, uuid: string, generate: (string, int) -> string): TextCompletion
  {
    TextCompletionOf(uuid, req.model, generate(req.prompt, req.maxTokens))
  }

  /** A completion's `choices[0].text` is exactly the pipeline's output for the prompt. */
  lemma CompletionsText(req: CompletionRequest, uuid: string, generate: (string, int) -> string)
    ensures var r := Completions(req, uuid, generate);
      && r.kind == "text_completion"
      && IdSuffix(r.id, CompletionIdPrefix) == Some(uuid)
      && r.model == req.model
      && ReadCompletionText(r) == Some(generate(req.prompt, req.maxTokens))
  {
    TextCompletionReadBack(uuid, req.model, generate(req.prompt, req.maxTokens));
  }
}
