/**
 * The phi2 chat server. The transformer generates the whole reply at once
 * and the tokenizer decodes it together with the prompt; the server cuts
 * the prompt off by length and, when streaming, replays the rest one
 * character per event.
 *
 * Generation and decoding are foreign calls: the model takes them as a
 * function `generate(prompt, maxTokens)` returning the decoded output.
 */
module Phi2Server {
  import opened Text
  import opened Envelope

  /**
   * The decoded output sliced from the prompt's length on: as many leading
   * characters as the prompt has are dropped, without looking at them.
   */
  function StripPrompt(fullOutput: string, prompt: string): (r: string)
    ensures |fullOutput| <= |prompt| ==> r == ""
    ensures |fullOutput| > |prompt| ==> |r| == |fullOutput| - |prompt|
    ensures forall i :: 0 <= i < |r| ==> r[i] == fullOutput[|prompt| + i]
  {
    if |fullOutput| <= |prompt| then "" else fullOutput[|prompt|..]
  }

  /** When the decoded output echoes the prompt, stripping leaves exactly the generated text. */
  lemma StripEchoedPrompt(prompt: string, generated: string)
    ensures StripPrompt(prompt + generated, prompt) == generated
  {
    assert (prompt + generated)[|prompt|..] == generated;
  }

  /**
   * Stripping removes a prefix of the output, and which prefix depends on
   * the prompt's length alone: any other prompt of the same length strips
   * the same characters, whatever they are.
   */
  lemma StripPromptSplitsOutput(fullOutput: string, prompt: string, other: string)
    ensures var r := StripPrompt(fullOutput, prompt);
      fullOutput == fullOutput[..|fullOutput| - |r|] + r
    ensures |other| == |prompt| ==> StripPrompt(fullOutput, other) == StripPrompt(fullOutput, prompt)
  {
    var r := StripPrompt(fullOutput, prompt);
    assert fullOutput[|fullOutput| - |r|..] == r;
  }

  /** The fragments the stream loop walks over: one single-character string per character. */
  function Chars(text: string): seq<string>
  {
    seq(|text|, i requires 0 <= i < |text| => [text[i]])
  }

  /** Concatenating the per-character fragments gives the text back. */
  lemma {:induction false} CharsRoundTrip(text: string)
    ensures |Chars(text)| == |text|
    ensures Flatten(Chars(text)) == text
    decreases |text|
  {
    if |text| > 0 {
      assert Chars(text)[1..] == Chars(text[1..]);
      CharsRoundTrip(text[1..]);
      assert text == [text[0]] + text[1..];
    }
  }

  /** The frames of a streamed reply: one content frame per character, then stop. */
  function StreamedFrames(prompt: string, fullOutput: string): seq<Frame>
  {
    StreamFrames(Chars(StripPrompt(fullOutput, prompt)), None)
  }

  /**
   * A streamed reply has `|text| + 1` frames: the content frames carry the
   * characters of the text in order, and the last frame, the only stop
   * frame, follows them; no error frame is ever sent.
   */
  lemma StreamedFramesShape(prompt: string, fullOutput: string)
    ensures var text := StripPrompt(fullOutput, prompt);
      var frames := StreamedFrames(prompt, fullOutput);
      && |frames| == |text| + 1
      && (forall i :: 0 <= i < |text| ==> frames[i] == ContentFrame([text[i]]))
      && frames[|text|] == StopFrame
      && (forall i :: 0 <= i < |frames| ==> !frames[i].ErrorFrame?)
  {
    var text := StripPrompt(fullOutput, prompt);
    StreamFramesShape(Chars(text), None);
    StreamTerminatesOnce(Chars(text), None);
  }

  /**
   * The generator `token_stream`: the events it yields, in order, for the
   * decoded output `fullOutput`.
   */
  method TokenStream(prompt: string, fullOutput: string, encode: Frame -> string)
    returns (events: seq<string>)
    ensures events == Wire(StreamedFrames(prompt, fullOutput), encode)
    ensures var text := StripPrompt(fullOutput, prompt);
      && |events| == |text| + 1
      && (forall i :: 0 <= i < |text| ==> events[i] == SseEvent(encode(ContentFrame([text[i]]))))
      && events[|text|] == SseEvent(encode(StopFrame))
  {
    var text := StripPrompt(fullOutput, prompt);
    events := [];
    var i := 0;
    while i < |text|
      invariant 0 <= i <= |text|
      invariant |events| == i
      invariant forall k :: 0 <= k < i ==> events[k] == SseEvent(encode(ContentFrame([text[k]])))
    {
      events := events + [SseEvent(encode(ContentFrame([text[i]])))];
      i := i + 1;
    }
    events := events + [SseEvent(encode(StopFrame))];
    StreamedFramesShape(prompt, fullOutput);
  }

  /** The non-streaming chat record around the stripped output. */
  function ChatResponse(req: ChatCompletionRequest, uuid: string, fullOutput: string): ChatCompletion
  {
    ChatCompletionOf(uuid, req.model, StripPrompt(fullOutput, ChatPrompt(req.messages)))
  }

  /**
   * What the stream delivers, concatenated by the client, is what the
   * non-streaming reply carries as `message.content` for the same output.
   */
  lemma StreamMatchesResponse(req: ChatCompletionRequest, uuid: string, fullOutput: string)
    ensures var prompt := ChatPrompt(req.messages);
      Some(Flatten(DeltaContents(StreamedFrames(prompt, fullOutput))))
      == ReadChatContent(ChatResponse(req, uuid, fullOutput))
  {
    var text := StripPrompt(fullOutput, ChatPrompt(req.messages));
    StreamRoundTrip(Chars(text), None);
    CharsRoundTrip(text);
    ChatCompletionReadBack(uuid, req.model, text);
  }

  /**
   * `chat_completions`: the prompt is built from the user messages and
   * handed to generation; the reply is the event stream or the record.
   */
  method ChatCompletions(req: ChatCompletionRequest, uuid: string,
                         generate: (string, int) -> string, encode: Frame -> string)
    returns (reply: ChatReply)
    ensures var prompt := ChatPrompt(req.messages);
      var fullOutput := generate(prompt, req.maxTokens);
      && (req.stream ==> reply == Streamed(Wire(StreamedFrames(prompt, fullOutput), encode)))
      && (!req.stream ==> reply == Complete(ChatResponse(req, uuid, fullOutput)))
  {
    var prompt := ChatPrompt(req.messages);
    var fullOutput := generate(prompt, req.maxTokens);
    if req.stream {
      var events := TokenStream(prompt, fullOutput, encode);
      reply := Streamed(events);
    } else {
      reply := Complete(ChatResponse(req, uuid, fullOutput));
    }
  }

  /** `completions`: the record around the output with the prompt's length cut off. */
  function Completions(req: CompletionRequest, uuid: string, generate: (string, int) -> string): TextCompletion
  {
    TextCompletionOf(uuid, req.model, StripPrompt(generate(req.prompt, req.maxTokens), req.prompt))
  }

  /**
   * A completion's `choices[0].text` is the generated output minus as many
   * leading characters as the prompt has; it is empty when the output is
   * no longer than the prompt, and the generated text itself when the
   * output echoes the prompt.
   */
  lemma CompletionsText(req: CompletionRequest, uuid: string, generate: (string, int) -> string)
    ensures var out := generate(req.prompt, req.maxTokens);
      var r := Completions(req, uuid, generate);
      && r.kind == "text_completion"
      && IdSuffix(r.id, CompletionIdPrefix) == Some(uuid)
      && r.model == req.model
      && ReadCompletionText(r) == Some(StripPrompt(out, req.prompt))
      && (|out| <= |req.prompt| ==> ReadCompletionText(r) == Some(""))
      && (forall g :: out == req.prompt + g ==> ReadCompletionText(r) == Some(g))
  {
    var out := generate(req.prompt, req.maxTokens);
    TextCompletionReadBack(uuid, req.model, StripPrompt(out, req.prompt));
    forall g | out == req.prompt + g
      ensures StripPrompt(out, req.prompt) == g
    {
      StripEchoedPrompt(req.prompt, g);
    }
  }
}
