# Completion envelope of the phi2 and RWKV chat servers

The repository puts local language models behind HTTP endpoints in the shape of
the usual chat-completion API. Two of its servers do their own work around the
model: the phi2 server (`servers/phi2_server.py`) and the RWKV server
(`servers/rwkv_server.py`). This Dafny project models that work. Generation
itself stays outside the model.

- **Prompt assembly.** A chat request's prompt is the contents of its `user`
  messages joined by `"\n"`. System and assistant messages are dropped
  (`Envelope.ChatPrompt`, built on `Text.JoinLines`).
- **Prompt stripping (phi2).** The decoded output loses as many leading
  characters as the prompt has. Nothing checks that those characters are the
  prompt (`Phi2Server.StripPrompt`).
- **Stream framing.** A streamed reply is one content chunk per fragment, then
  exactly one terminal chunk. Each chunk goes on the wire as
  `data: <json>` followed by a blank line, in the Server-Sent Events format of
  section 9.2 of the WHATWG HTML Living Standard. phi2 replays its finished
  output one character per chunk and always ends with `stop`. RWKV sends one
  chunk per pipeline fragment and ends with `stop`, or with `{"error": ..}`
  when the pipeline raises (`Envelope.StreamFrames`, `Envelope.Wire`,
  `Phi2Server.TokenStream`, `RwkvServer.TokenStream`).
- **Client side of the stream.** `EventStream` is a reader for the event
  stream written from section 9.2.6 of the same standard. It is the
  independent partner of the framing: reading back everything a stream wrote
  gives one event per frame, holding that frame's encoding
  (`EventStream.ReadWire`).
- **Response records.** The non-streaming `chat.completion` and
  `text_completion` records hold a single choice (`Envelope.ChatCompletionOf`,
  `Envelope.TextCompletionOf`).
- **Weights download (RWKV).** The received chunks are written to the file in
  order. The file is then removed, and startup fails, when it starts with
  `<!DOCTYPE` or is under 1,000,000 bytes (`RwkvServer.ModelDirectory`,
  `RwkvServer.Rejected`).

Foreign behaviour enters the model as parameters:

- JSON encoding is any `encode: Frame -> string`.
- The random UUID in a response id is a `uuid: string`.
- Generation is a function of the prompt and the token budget. For phi2 it
  returns the decoded output. For RWKV it returns the output string, or, when
  streaming, a `Generation`: the fragments yielded, plus the exception text if
  the pipeline raised after them. The two RWKV paths take separate functions
  although the source calls `pipeline.generate` with the same arguments on
  both (`servers/rwkv_server.py:78`, `servers/rwkv_server.py:98`): sampling
  with `temperature=1.0, top_p=0.8, top_k=40` (`servers/rwkv_server.py:73`)
  makes two calls free to differ, so nothing ties one path's output to the
  other's.
- The download is the sequence of chunks received.

Files: `text.dfy` (join, split and concatenation helpers), `envelope.dfy`
(requests, prompt, frames, framing, responses), `event_stream.dfy` (the
event-stream reader), `phi2_server.dfy`, `rwkv_server.dfy`.

Three facts about the code worth stating:

- A chat history with no user message and one whose only user message is
  empty both give the prompt `""` (`Envelope.NoUserLikeEmptyUser`).
- Every content chunk repeats `"role": "assistant"`, not only the first
  (`servers/phi2_server.py:73`, `servers/rwkv_server.py:82`).
- phi2's stream has no error frame: it always ends with the stop chunk (see
  "Left out").

## Model

| member | source | states |
|---|---|---|
| `Envelope.PromptIgnoresNonUser` | servers/phi2_server.py:50 | inserting a system or assistant message anywhere in the history leaves the prompt unchanged |
| `Envelope.PromptWithoutUser` | servers/phi2_server.py:50 | a history with no user message gives the empty prompt |
| `Envelope.UserContentsFromUsers` | servers/phi2_server.py:50 | every piece joined into the prompt is the content of some user message |
| `Envelope.UserContents` | servers/phi2_server.py:50 | the list comprehension keeping the contents of `role == "user"` messages; its contract bounds the pieces by the messages, and `UserContentsAppend`, `UserContentsAround`, `UserContentsOfUsers` and `UserContentsFromUsers` state what it keeps |
| `Envelope.ChatPrompt` | servers/rwkv_server.py:72 | the prompt is the `"\n"`-join of the user contents; what it holds is stated by `PromptIgnoresNonUser`, `PromptWithoutUser`, `PromptSplitsIntoUserContents` and `PromptOfSystemAndUser` |
| `Envelope.UserContentsAppend` | servers/phi2_server.py:50 | the user contents of two histories placed one after the other are those of the first followed by those of the second |
| `Envelope.UserContentsAround` | servers/phi2_server.py:50 | every user message contributes its content exactly once, at its own place: after the pieces of the messages before it and before the pieces of the messages after it |
| `Envelope.UserContentsOfUsers` | servers/phi2_server.py:50 | a history of user messages only gives all their contents, in their order |
| `Envelope.PromptSplitsIntoUserContents` | servers/rwkv_server.py:72 | for a history with at least one user message and no newline in any user content, splitting the prompt on newlines gives exactly the user contents, in their original order (with no user message the split is `[""]`, not `[]`) |
| `Envelope.NoUserLikeEmptyUser` | servers/phi2_server.py:50 | a history without user messages and a history whose only user message is empty both give the prompt `""`, so generation cannot tell them apart |
| `Envelope.PromptOfSystemAndUser` | test_rwkv_server.py:35-41 | a system message followed by a user message gives the user text alone as the prompt |
| `Text.JoinLines` | servers/rwkv_server.py:72 | Python's `"\n".join(...)`: the empty list gives `""`, one piece gives itself, otherwise the pieces with a newline between each two; `Text.JoinSplit` and `Text.SplitJoin` state that it is undone by the newline split |
| `Text.JoinSplit` | servers/rwkv_server.py:72 | the newline join of a string's newline split is the string itself |
| `Text.SplitJoin` | servers/phi2_server.py:50 | the newline split of a join of one or more newline-free pieces returns the pieces (the empty list joins to `""`, which splits to `[""]`) |
| `Envelope.ContentFrame` | servers/rwkv_server.py:79-87 | the chunk `{"choices": [{"delta": {"role": "assistant", "content": fragment}, "index": 0}]}` carrying one fragment; `Envelope.StreamFramesShape` states that every content frame of a stream is one of these, carrying its fragment |
| `Envelope.TerminalFrame` | servers/rwkv_server.py:91-93 | the last frame: the stop chunk `{"choices": [{"delta": {}, "finish_reason": "stop", "index": 0}]}` (the constant `StopFrame`, also sent at servers/phi2_server.py:82) when the pipeline finished, `{"error": str(e)}` when it raised; `Envelope.StreamFramesShape` and `Envelope.StreamTerminatesOnce` state where it stands |
| `Envelope.StreamFrames` | servers/rwkv_server.py:77-93 | the frames of a stream whose backend yielded the fragments and then finished or raised; its shape is stated by `StreamFramesShape`, `StreamTerminatesOnce` and `StreamRoundTrip` |
| `Envelope.Wire` | servers/rwkv_server.py:88-93 | each frame goes on the wire as one event holding its JSON encoding; `EventStream.ReadWire` states that a reader gets the encodings back, one event per frame |
| `Envelope.StreamFramesShape` | servers/phi2_server.py:69-82 | a stream has one content frame per fragment, carrying it, in order, with role assistant and index 0, then the terminal frame |
| `Envelope.StreamTerminatesOnce` | servers/rwkv_server.py:77-93 | a stream has `|fragments| + 1` frames and exactly one of them is terminal, the last; it is the stop frame exactly when the backend finished, and an error frame exactly when it raised |
| `Envelope.StreamRoundTrip` | servers/phi2_server.py:69-79 | the `delta.content` values a client reads are the fragments, in order, and their concatenation is the fragments' concatenation |
| `Envelope.SseEvent` | servers/phi2_server.py:79 | an event starts with `data: `, ends with a blank line, and holds exactly the payload in between |
| `EventStream.ReadWire` | servers/phi2_server.py:79-82 | reading all events a stream wrote yields one event per frame, in order, whose data is that frame's encoding, given an encoder that writes no LF and no CR (a reader following the standard ends a line at either) |
| `Envelope.ChatCompletionOf` | servers/rwkv_server.py:99-111 | the `chat.completion` record around the content; `ChatCompletionReadBack` states what a client reads from it |
| `Envelope.TextCompletionOf` | servers/rwkv_server.py:125-134 | the `text_completion` record around the text; `TextCompletionReadBack` states what a client reads from it |
| `Envelope.ChatCompletionReadBack` | servers/phi2_server.py:95-107 | a chat record is `chat.completion` with one choice at index 0 from the assistant, finished with `stop`; the content, the uuid behind `chatcmpl-` and the model are read back unchanged |
| `Envelope.TextCompletionReadBack` | servers/phi2_server.py:133-142 | a completion record is `text_completion` with one choice at index 0 finished with `stop`; the text, the uuid behind `cmpl-` and the model are read back unchanged |
| `Phi2Server.StripPrompt` | servers/phi2_server.py:67 | the result is empty when the output is no longer than the prompt; otherwise it is the output's characters from position `len(prompt)` on |
| `Phi2Server.StripEchoedPrompt` | servers/phi2_server.py:94 | when the output is the prompt followed by generated text, stripping gives the generated text |
| `Phi2Server.StripPromptSplitsOutput` | servers/phi2_server.py:67 | stripping removes a prefix of the output, and which one depends on the prompt's length alone: a different prompt of the same length strips the same characters |
| `Phi2Server.Chars` | servers/phi2_server.py:69 | the fragments `for char in assistant_output` walks over, one single-character string per character; `Phi2Server.CharsRoundTrip` states that they keep the length and concatenate back to the text |
| `Phi2Server.CharsRoundTrip` | servers/phi2_server.py:69 | splitting a text into one-character fragments keeps its length, and concatenating them gives the text back |
| `Phi2Server.StreamedFrames` | servers/phi2_server.py:67-82 | phi2's frame sequence: the stream frames of the stripped text's characters, ending with stop; `Phi2Server.StreamedFramesShape` states its shape |
| `Phi2Server.StreamedFramesShape` | servers/phi2_server.py:67-82 | a phi2 stream has `len(text) + 1` frames: one content frame per character of the stripped text, in order, then the stop frame; it never holds an error frame |
| `Phi2Server.TokenStream` | servers/phi2_server.py:57-82 | the generator's events are the framing of the phi2 stream: one `data:` event per character, in order, then the stop event |
| `Phi2Server.ChatResponse` | servers/phi2_server.py:93-107 | the chat record around the output with the prompt's length cut off; `Phi2Server.StreamMatchesResponse` states that the stream delivers the same text |
| `Phi2Server.StreamMatchesResponse` | servers/phi2_server.py:94-102 | the concatenated contents of the stream equal the non-streaming `message.content` for the same output |
| `Phi2Server.ChatCompletions` | servers/phi2_server.py:47-107 | generation runs on the user-message prompt; a streaming request gets the phi2 event stream, and any other request gets the chat record around the stripped output |
| `Phi2Server.Completions` | servers/phi2_server.py:131-142 | the completion record around the output with the prompt's length cut off; `Phi2Server.CompletionsText` states its text, id and model |
| `Phi2Server.CompletionsText` | servers/phi2_server.py:116-142 | the completion text is the output with the prompt's length cut off: empty for an output no longer than the prompt, the generated text when the output echoes the prompt; it is a `text_completion` with a `cmpl-` id and the model echoed |
| `RwkvServer.Rejected` | servers/rwkv_server.py:41-43 | the check as written: the first 20 bytes read back start with `<!DOCTYPE`, or the file is under 1,000,000 bytes; `RwkvServer.RejectedIff` states it over the whole file |
| `RwkvServer.RejectedIff` | servers/rwkv_server.py:41-45 | a downloaded file is rejected if and only if it starts with `<!DOCTYPE` or holds fewer than 1,000,000 bytes; sniffing only the first 20 bytes loses nothing |
| `RwkvServer.RejectedExamples` | servers/rwkv_server.py:43 | an HTML page of any size is rejected; a file of at least 1,000,000 bytes whose first byte is not `<` is kept (`RwkvServer.RejectedIff` gives the general case) |
| `RwkvServer.ModelDirectory.DownloadModel` | servers/rwkv_server.py:25-45 | the file holds the chunks concatenated in arrival order; the progress counter ends at the total byte count; a rejected file is removed with the `ValueError` text, and any other file is kept |
| `RwkvServer.ModelDirectory.EnsureModel` | servers/rwkv_server.py:47-48 | an existing weights file is left untouched and not checked; only an absent one is downloaded and checked |
| `RwkvServer.TokenStream` | servers/rwkv_server.py:76-93 | the generator yields one content event per fragment, in order, then the stop event, or the error event in its place when the pipeline raised |
| `RwkvServer.StreamEnding` | servers/rwkv_server.py:77-93 | after k fragments and an exception, the k content frames stay and one error frame with the exception's text follows, with no stop frame; a finished stream ends with stop and holds no error frame |
| `RwkvServer.ChatResponse` | servers/rwkv_server.py:98-111 | the chat record around the pipeline's output, unchanged; `RwkvServer.StreamMatchesResponse` relates it to the stream |
| `RwkvServer.StreamMatchesResponse` | servers/rwkv_server.py:98-111 | the chat record carries the output unchanged, with no prompt stripping; a finished stream delivers the same text when the output is its fragments' concatenation |
| `RwkvServer.ChatCompletions` | servers/rwkv_server.py:69-111 | the pipeline runs on the user-message prompt; a streaming request gets the RWKV event stream, and any other request gets the chat record around the output |
| `RwkvServer.Completions` | servers/rwkv_server.py:124-134 | the completion record around the pipeline's output, unchanged; `RwkvServer.CompletionsText` states its text, id and model |
| `RwkvServer.CompletionsText` | servers/rwkv_server.py:120-134 | the completion text is exactly the pipeline's output for the prompt; it is a `text_completion` with a `cmpl-` id and the model echoed |

## Left out

- Model loading, tokenisation, sampling and generation are foreign calls to `transformers`/`torch` and `rwkv`. They are parameters here, so no frame count is bounded by `max_tokens`: phi2 streams characters, and the budget is enforced inside the libraries.
- An exception raised by generation in phi2, or in the non-streaming RWKV paths, leaves the handler. The web framework answers with a server error, or cuts the stream with no terminal frame. This is framework behaviour.
- Request validation and defaults are done by the schema library: a 422 on a missing field, `max_tokens` 100, `stream` false, `temperature` 0.7. The model's request records carry the fields without the defaults.
- Routing, `StreamingResponse`, uvicorn and the `text/event-stream` media type are left out.
- JSON escaping is any encoder. `EventStream.ReadWire` assumes the encoder writes no LF and no CR, which holds for `json.dumps` with its default settings: it escapes both inside strings.
- `EventStream` reads LF line endings and the `data` field only. CR and CRLF endings, the `event`, `id` and `retry` fields, and a leading byte-order mark are outside it, because the servers never send them.
- Logging is left out: the `logging.debug` of each request body (`servers/phi2_server.py:49`, `servers/phi2_server.py:118`, `servers/rwkv_server.py:71`, `servers/rwkv_server.py:122`) and the `print` lines around the download and model loading (`servers/rwkv_server.py:27`, `servers/rwkv_server.py:40`, `servers/rwkv_server.py:50`, `servers/rwkv_server.py:53`). They write to the console and change no state the model holds.
- The randomness of `uuid.uuid4()` is left out, as is the 10 ms pause between events.
- The download is left out apart from the received chunks: the HTTP request, the `content-length` header, directory creation and the `tqdm` display. A network error part-way through is left out too. In the source, such an error would leave a partial file that the next startup finds present and does not check.
- Concurrent requests share one model handle with no locking. Nothing sequential there can be verified.
- `llama_devstack_server.py` and `proxy-server/index.js` are not part of this model. The first wraps a library call and its download has no check. The second is proxy plumbing.
