/**
 * The completion envelope shared by the phi2 and RWKV chat servers: the
 * request records, the prompt built from a chat history, the chunks of a
 * streamed reply and their Server-Sent Events framing, and the two
 * non-streaming response records.
 *
 * JSON encoding is not modelled: wherever a server calls `json.dumps`, the
 * model takes an arbitrary serialiser `encode: Frame -> string`.
 */
module Envelope {
  import opened Text

  datatype Option<+T> = None | Some(value: T)

  /** The roles a chat message may carry. */
  datatype Role = System | User | Assistant

  datatype ChatMessage = ChatMessage(role: Role, content: string)

  /** Body of `POST /v1/chat/completions`. */
  datatype ChatCompletionRequest =
    ChatCompletionRequest(model: string, messages: seq<ChatMessage>, maxTokens: int, stream: bool)

  /** Body of `POST /v1/completions`. */
  datatype CompletionRequest =
    CompletionRequest(model: string, prompt: string, maxTokens: int, temperature: real)

  // ---------------------------------------------------------------------
  // Prompt assembly
  // ---------------------------------------------------------------------

  /** The contents of the user-role messages, in their original order. */
  function UserContents(messages: seq<ChatMessage>): (r: seq<string>)
    ensures |r| <= |messages|
  {
    if |messages| == 0 then []
    else (if messages[0].role == User then [messages[0].content] else [])
         + UserContents(messages[1..])
  }

  /** The prompt a chat request generates from: user contents joined by newlines. */
  function ChatPrompt(messages: seq<ChatMessage>): string
  {
    JoinLines(UserContents(messages))
  }

  lemma {:induction false} UserContentsAppend(a: seq<ChatMessage>, b: seq<ChatMessage>)
    ensures UserContents(a + b) == UserContents(a) + UserContents(b)
  {
    if |a| == 0 {
      assert a + b == b;
    } else {
      var head := if a[0].role == User then [a[0].content] else [];
      assert (a + b)[0] == a[0];
      assert (a + b)[1..] == a[1..] + b;
      assert UserContents(a + b) == head + UserContents(a[1..] + b);
      UserContentsAppend(a[1..], b);
      assert UserContents(a) == head + UserContents(a[1..]);
    }
  }

  /** `s` is the content of some user message of `messages`. */
  ghost predicate SentByUser(messages: seq<ChatMessage>, s: string)
  {
    exists i :: 0 <= i < |messages| && messages[i].role == User && messages[i].content == s
  }

  /** Every piece of the prompt is the content of some user message. */
  lemma {:induction false} UserContentsFromUsers(messages: seq<ChatMessage>)
    ensures forall k :: 0 <= k < |UserContents(messages)| ==>
      SentByUser(messages, UserContents(messages)[k])
  {
    if |messages| > 0 {
      var rest := messages[1..];
      UserContentsFromUsers(rest);
      var us := UserContents(messages);
      forall k | 0 <= k < |us|
        ensures SentByUser(messages, us[k])
      {
        if messages[0].role == User && k == 0 {
          assert messages[0].content == us[0];
        } else {
          var d := if messages[0].role == User then 1 else 0;
          assert us[k] == UserContents(rest)[k - d];
          assert SentByUser(rest, us[k]);
          var j :| 0 <= j < |rest| && rest[j].role == User && rest[j].content == us[k];
          assert messages[j + 1] == rest[j];
        }
      }
    } else {
      assert UserContents(messages) == [];
    }
  }

  /**
   * Every user message contributes its content, once, at its own place: the
   * pieces of the messages before it, then its content, then the pieces of
   * the messages after it.
   */
  lemma UserContentsAround(messages: seq<ChatMessage>, i: nat)
    requires i < |messages| && messages[i].role == User
    ensures UserContents(messages)
            == UserContents(messages[..i]) + [messages[i].content] + UserContents(messages[i + 1..])
    ensures |UserContents(messages)| >= 1
  {
    var m := messages[i];
    assert messages == messages[..i] + [m] + messages[i + 1..];
    UserContentsAppend(messages[..i] + [m], messages[i + 1..]);
    UserContentsAppend(messages[..i], [m]);
    assert [m][1..] == [];
    assert UserContents([m]) == [m.content];
  }

  /** A history of user messages only gives their contents, all of them, in order. */
  lemma {:induction false} UserContentsOfUsers(messages: seq<ChatMessage>)
    requires forall i :: 0 <= i < |messages| ==> messages[i].role == User
    ensures UserContents(messages) == seq(|messages|, i requires 0 <= i < |messages| => messages[i].content)
  {
    if |messages| > 0 {
      UserContentsOfUsers(messages[1..]);
    }
  }

  /** A message of another role, wherever it stands, leaves the prompt unchanged. */
  lemma PromptIgnoresNonUser(before: seq<ChatMessage>, m: ChatMessage, after: seq<ChatMessage>)
    requires m.role != User
    ensures ChatPrompt(before + [m] + after) == ChatPrompt(before + after)
  {
    UserContentsAppend(before + [m], after);
    UserContentsAppend(before, [m]);
    UserContentsAppend(before, after);
    assert [m][1..] == [];
    assert UserContents([m]) == [];
    assert UserContents(before + [m]) == UserContents(before);
  }

  /** Without a user message the prompt is empty. */
  lemma {:induction false} PromptWithoutUser(messages: seq<ChatMessage>)
    requires forall i :: 0 <= i < |messages| ==> messages[i].role != User
    ensures ChatPrompt(messages) == ""
  {
    if |messages| > 0 {
      PromptWithoutUser(messages[1..]);
    }
  }

  /**
   * The prompt cannot tell a history without user messages from one whose
   * only user message is empty: both give `""`.
   */
  lemma NoUserLikeEmptyUser(others: seq<ChatMessage>)
    requires forall i :: 0 <= i < |others| ==> others[i].role != User
    ensures ChatPrompt(others) == ChatPrompt([ChatMessage(User, "")]) == ""
  {
    PromptWithoutUser(others);
    UserContentsOfUsers([ChatMessage(User, "")]);
  }

  /**
   * When no user content holds a newline, splitting the prompt on newlines
   * gives back exactly the user contents, in order.
   */
  lemma PromptSplitsIntoUserContents(messages: seq<ChatMessage>, i: nat)
    requires i < |messages| && messages[i].role == User
    requires forall j :: 0 <= j < |messages| && messages[j].role == User ==> '\n' !in messages[j].content
    ensures SplitLines(ChatPrompt(messages)) == UserContents(messages)
  {
    UserContentsAround(messages, i);
    UserContentsFromUsers(messages);
    SplitJoin(UserContents(messages));
  }

  /** A system prompt followed by one user message generates from the user text alone. */
  lemma PromptOfSystemAndUser(system: string, user: string)
    ensures ChatPrompt([ChatMessage(System, system), ChatMessage(User, user)]) == user
  {
    var ms := [ChatMessage(System, system), ChatMessage(User, user)];
    assert ms[1..][1..] == [];
    assert UserContents(ms[1..]) == [user];
    assert UserContents(ms) == [user];
  }

  // ---------------------------------------------------------------------
  // Streamed chunks
  // ---------------------------------------------------------------------

  /** The `delta` object of a chunk; `Delta(None, None)` is the empty object `{}`. */
  datatype Delta = Delta(role: Option<Role>, content: Option<string>)

  /**
   * One streamed event: a one-choice chunk `{"choices": [{"delta": ..,
   * "finish_reason": .., "index": ..}]}` (the key `finish_reason` absent
   * when `finishReason` is `None`), or `{"error": ..}`.
   */
  datatype Frame =
    | Chunk(delta: Delta, finishReason: Option<string>, index: int)
    | ErrorFrame(error: string)

  /** The chunk carrying one generated fragment. */
  function ContentFrame(fragment: string): Frame
  {
    Chunk(Delta(Some(Assistant), Some(fragment)), None, 0)
  }

  /** The chunk that ends a successful stream. */
  const StopFrame: Frame := Chunk(Delta(None, None), Some("stop"), 0)

  /** The last frame of a stream: stop, or an error carrying the exception's text. */
  function TerminalFrame(raised: Option<string>): Frame
  {
    match raised
    case None => StopFrame
    case Some(message) => ErrorFrame(message)
  }

  predicate IsContentFrame(f: Frame)
  {
    f.Chunk? && f.delta.role == Some(Assistant) && f.delta.content.Some?
    && f.finishReason == None && f.index == 0
  }

  predicate IsTerminal(f: Frame)
  {
    f == StopFrame || f.ErrorFrame?
  }

  /**
   * The frames of a stream whose backend yielded `fragments` and then
   * either finished (`raised == None`) or raised an exception.
   */
  function StreamFrames(fragments: seq<string>, raised: Option<string>): seq<Frame>
  {
    if |fragments| == 0 then [TerminalFrame(raised)]
    else [ContentFrame(fragments[0])] + StreamFrames(fragments[1..], raised)
  }

  /**
   * A stream has one content frame per fragment, in order, each from the
   * assistant at index 0, then exactly one terminal frame, and nothing after it.
   */
  lemma {:induction false} StreamFramesShape(fragments: seq<string>, raised: Option<string>)
    ensures |StreamFrames(fragments, raised)| == |fragments| + 1
    ensures forall i :: 0 <= i < |fragments| ==>
      StreamFrames(fragments, raised)[i] == ContentFrame(fragments[i])
      && IsContentFrame(StreamFrames(fragments, raised)[i])
    ensures StreamFrames(fragments, raised)[|fragments|] == TerminalFrame(raised)
  {
    if |fragments| > 0 {
      StreamFramesShape(fragments[1..], raised);
    }
  }

  /**
   * Exactly one frame is terminal: the last. It is the stop frame when the
   * backend finished, and an error frame (with no stop frame anywhere) when it raised.
   */
  lemma StreamTerminatesOnce(fragments: seq<string>, raised: Option<string>)
    ensures var frames := StreamFrames(fragments, raised);
      && |frames| == |fragments| + 1
      && forall i :: 0 <= i < |frames| ==>
        && (IsTerminal(frames[i]) <==> i == |fragments|)
        && (frames[i] == StopFrame <==> i == |fragments| && raised == None)
        && (frames[i].ErrorFrame? <==> i == |fragments| && raised.Some?)
  {
    StreamFramesShape(fragments, raised);
  }

  /** What a client reads from a stream: the `delta.content` of each chunk, in order. */
  function DeltaContents(frames: seq<Frame>): seq<string>
  {
    if |frames| == 0 then []
    else (if frames[0].Chunk? && frames[0].delta.content.Some?
          then [frames[0].delta.content.value] else [])
         + DeltaContents(frames[1..])
  }

  /** The client reads back exactly the fragments, in the order they were produced. */
  lemma {:induction false} StreamRoundTrip(fragments: seq<string>, raised: Option<string>)
    ensures DeltaContents(StreamFrames(fragments, raised)) == fragments
    ensures Flatten(DeltaContents(StreamFrames(fragments, raised))) == Flatten(fragments)
  {
    if |fragments| == 0 {
      assert DeltaContents([TerminalFrame(raised)]) == [];
    } else {
      var frames := StreamFrames(fragments, raised);
      assert frames[0] == ContentFrame(fragments[0]);
      assert frames[1..] == StreamFrames(fragments[1..], raised);
      StreamRoundTrip(fragments[1..], raised);
      assert fragments == [fragments[0]] + fragments[1..];
    }
  }

  // ---------------------------------------------------------------------
  // Server-Sent Events framing
  // ---------------------------------------------------------------------

  /** One event on the wire: a `data:` line holding the payload, then a blank line. */
  function SseEvent(payload: string): (e: string)
    ensures |e| == |payload| + 8
    ensures "data: " <= e && e[|e| - 2..] == "\n\n"
    ensures e[6..|e| - 2] == payload
  {
    "data: " + payload + "\n\n"
  }

  /** The strings a stream yields: one event per frame, each frame's payload its encoding. */
  function Wire(frames: seq<Frame>, encode: Frame -> string): seq<string>
  {
    seq(|frames|, i requires 0 <= i < |frames| => SseEvent(encode(frames[i])))
  }

  // ---------------------------------------------------------------------
  // Non-streaming responses
  // ---------------------------------------------------------------------

  const ChatIdPrefix := "chatcmpl-"
  const CompletionIdPrefix := "cmpl-"

  datatype ChatChoice = ChatChoice(index: int, message: ChatMessage, finishReason: string)

  datatype ChatCompletion =
    ChatCompletion(id: string, kind: string, choices: seq<ChatChoice>, model: string)

  datatype TextChoice = TextChoice(text: string, index: int, finishReason: string)

  datatype TextCompletion =
    TextCompletion(id: string, kind: string, choices: seq<TextChoice>, model: string)

  /** The `chat.completion` record around generated `content`; `uuid` is the random id suffix. */
  function ChatCompletionOf(uuid: string, model: string, content: string): ChatCompletion
  {
    ChatCompletion(ChatIdPrefix + uuid, "chat.completion",
                   [ChatChoice(0, ChatMessage(Assistant, content), "stop")], model)
  }

  /** The `text_completion` record around generated `text`. */
  function TextCompletionOf(uuid: string, model: string, text: string): TextCompletion
  {
    TextCompletion(CompletionIdPrefix + uuid, "text_completion",
                   [TextChoice(text, 0, "stop")], model)
  }

  /** What `POST /v1/chat/completions` answers: an event stream, or one JSON record. */
  datatype ChatReply =
    | Streamed(events: seq<string>)
    | Complete(response: ChatCompletion)

  /** What a client takes from a chat response: `choices[0].message.content`, if the shape allows. */
  function ReadChatContent(r: ChatCompletion): Option<string>
  {
    if |r.choices| >= 1 then Some(r.choices[0].message.content) else None
  }

  /** What a client takes from a completion response: `choices[0].text`, if the shape allows. */
  function ReadCompletionText(r: TextCompletion): Option<string>
  {
    if |r.choices| >= 1 then Some(r.choices[0].text) else None
  }

  /** The part of an id after its prefix, if the id carries that prefix. */
  function IdSuffix(id: string, prefix: string): Option<string>
  {
    if prefix <= id then Some(id[|prefix|..]) else None
  }

  /**
   * A chat response has a single choice at index 0, from the assistant,
   * finished with "stop"; a client reads back the content and the uuid, and
   * the model name is echoed.
   */
  lemma ChatCompletionReadBack(uuid: string, model: string, content: string)
    ensures var r := ChatCompletionOf(uuid, model, content);
      && r.kind == "chat.completion"
      && |r.choices| == 1
      && r.choices[0].index == 0
      && r.choices[0].message.role == Assistant
      && r.choices[0].finishReason == "stop"
      && r.model == model
      && ReadChatContent(r) == Some(content)
      && IdSuffix(r.id, ChatIdPrefix) == Some(uuid)
  {
    var r := ChatCompletionOf(uuid, model, content);
    assert r.id[|ChatIdPrefix|..] == uuid;
  }

  /**
   * A completion response has a single choice at index 0 finished with
   * "stop"; a client reads back the text and the uuid, and the model name is echoed.
   */
  lemma TextCompletionReadBack(uuid: string, model: string, text: string)
    ensures var r := TextCompletionOf(uuid, model, text);
      && r.kind == "text_completion"
      && |r.choices| == 1
      && r.choices[0].index == 0
      && r.choices[0].finishReason == "stop"
      && r.model == model
      && ReadCompletionText(r) == Some(text)
      && IdSuffix(r.id, CompletionIdPrefix) == Some(uuid)
  {
    var r := TextCompletionOf(uuid, model, text);
    assert r.id[|CompletionIdPrefix|..] == uuid;
  }
}
