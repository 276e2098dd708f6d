/**
 * The client side of the streamed reply: a reader for the `text/event-stream`
 * format following the event-stream interpretation rules of section 9.2.6 of
 * the WHATWG HTML Living Standard, restricted to what the servers send:
 * lines end with LF, comment lines are skipped, the `data` field is buffered,
 * other fields are ignored, and a blank line dispatches the buffered data.
 *
 * It is the independent partner of `Envelope.Wire`: reading the bytes a
 * stream writes gives back the payloads of its frames, one event per frame.
 */
module EventStream {
  import opened Text
  import opened Envelope

  /** The pending line, the data buffer and the data of every dispatched event. */
  datatype Reader = Reader(line: string, data: string, dispatched: seq<string>)

  const Initial := Reader("", "", [])

  /** A blank line: dispatch the data buffer, without its final LF, unless it is empty. */
  function Dispatch(r: Reader): Reader
  {
    if r.data == "" then r
    else
      var data := if r.data[|r.data| - 1] == '\n' then r.data[..|r.data| - 1] else r.data;
      r.(data := "", dispatched := r.dispatched + [data])
  }

  /** A field line: only `data` is kept; its value and a LF go to the data buffer. */
  function ProcessField(r: Reader, field: string, value: string): Reader
  {
    if field == "data" then r.(data := r.data + value + "\n") else r
  }

  /** One complete line, without its terminator. */
  function ProcessLine(r: Reader, line: string): Reader
  {
    if line == "" then Dispatch(r)
    else if line[0] == ':' then r
    else
      var colon := IndexOf(line, ':');
      var value := if colon == |line| then "" else line[colon + 1..];
      var value := if |value| > 0 && value[0] == ' ' then value[1..] else value;
      ProcessField(r, line[..colon], value)
  }

  /** One received character: a LF completes the pending line. */
  function Feed(r: Reader, c: char): Reader
  {
    if c == '\n' then ProcessLine(r.(line := ""), r.line) else r.(line := r.line + [c])
  }

  function FeedAll(r: Reader, s: string): Reader
    decreases |s|
  {
    if |s| == 0 then r else FeedAll(Feed(r, s[0]), s[1..])
  }

  /** The data of every event a client reads from a complete stream. */
  function ReadEvents(stream: string): seq<string>
  {
    FeedAll(Initial, stream).dispatched
  }

  lemma {:induction false} FeedAllAppend(r: Reader, a: string, b: string)
    ensures FeedAll(r, a + b) == FeedAll(FeedAll(r, a), b)
    decreases |a|
  {
    if |a| == 0 {
      assert a + b == b;
    } else {
      assert (a + b)[0] == a[0];
      assert (a + b)[1..] == a[1..] + b;
      FeedAllAppend(Feed(r, a[0]), a[1..], b);
    }
  }

  /** Text without a LF only extends the pending line. */
  lemma {:induction false} FeedWithinLine(r: Reader, s: string)
    requires '\n' !in s
    ensures FeedAll(r, s) == r.(line := r.line + s)
    decreases |s|
  {
    if |s| > 0 {
      assert s[0] != '\n';
      FeedWithinLine(r.(line := r.line + [s[0]]), s[1..]);
      assert r.line + [s[0]] + s[1..] == r.line + s;
    }
  }

  /** The line `data: p` puts `p` and a LF in the data buffer, whatever colons `p` holds. */
  lemma DataLine(r: Reader, payload: string)
    requires r.line == "data: " + payload
    ensures Feed(r, '\n') == r.(line := "", data := r.data + payload + "\n")
  {
    DataField(r.(line := ""), payload);
  }

  lemma DataField(r: Reader, payload: string)
    ensures ProcessLine(r, "data: " + payload) == r.(data := r.data + payload + "\n")
  {
    var line := "data: " + payload;
    var colon := IndexOf(line, ':');
    assert colon == 4 by {
      assert line == "data" + (": " + payload);
      IndexOfAfter("data", ": " + payload, ':');
      assert (": " + payload)[0] == ':';
    }
    assert line[..colon] == "data";
    var value := line[colon + 1..];
    assert value == " " + payload;
    assert value[1..] == payload;
  }

  lemma DispatchLine(r: Reader, payload: string)
    requires r.line == "" && r.data == payload + "\n"
    ensures Feed(r, '\n') == r.(data := "", dispatched := r.dispatched + [payload])
  {
    assert r.data[..|r.data| - 1] == payload;
  }

  lemma TwoLineFeeds(r: Reader)
    ensures FeedAll(r, "\n\n") == Feed(Feed(r, '\n'), '\n')
  {
    assert "\n\n"[1..] == "\n";
    assert "\n"[1..] == "";
  }

  /** The two LFs after a `data:` line end the line, then dispatch the event. */
  lemma FinishEvent(r: Reader, payload: string)
    requires r.line == "data: " + payload && r.data == ""
    ensures FeedAll(r, "\n\n") == r.(line := "", dispatched := r.dispatched + [payload])
  {
    TwoLineFeeds(r);
    DataLine(r, payload);
    var r2 := r.(line := "", data := payload + "\n");
    assert r.data + payload + "\n" == payload + "\n";
    assert Feed(r, '\n') == r2;
    DispatchLine(r2, payload);
    assert r2.(data := "", dispatched := r2.dispatched + [payload])
        == r.(line := "", dispatched := r.dispatched + [payload]);
  }

  /** One event on the wire, read from a fresh line and an empty buffer, dispatches its payload. */
  lemma ReadOneEvent(r: Reader, payload: string)
    requires r.line == "" && r.data == ""
    requires '\n' !in payload
    ensures FeedAll(r, SseEvent(payload)) == r.(dispatched := r.dispatched + [payload])
  {
    var line := "data: " + payload;
    assert SseEvent(payload) == line + "\n\n";
    FeedAllAppend(r, line, "\n\n");
    FeedWithinLine(r, line);
    assert r.line + line == line;
    FinishEvent(r.(line := line), payload);
  }

  /** Reading the events a stream writes for `frames`, from a fresh line and an empty buffer, dispatches their encodings. */
  lemma {:induction false} ReadEventsFrom(r: Reader, frames: seq<Frame>, encode: Frame -> string)
    requires r.line == "" && r.data == ""
    requires forall i :: 0 <= i < |frames| ==> '\n' !in encode(frames[i]) && '\r' !in encode(frames[i])
    ensures FeedAll(r, Flatten(Wire(frames, encode)))
            == r.(dispatched := r.dispatched + seq(|frames|, i requires 0 <= i < |frames| => encode(frames[i])))
    decreases |frames|
  {
    var payloads := seq(|frames|, i requires 0 <= i < |frames| => encode(frames[i]));
    if |frames| == 0 {
      assert r.dispatched + payloads == r.dispatched;
    } else {
      var events := Wire(frames, encode);
      assert events[1..] == Wire(frames[1..], encode);
      FeedAllAppend(r, events[0], Flatten(events[1..]));
      ReadOneEvent(r, encode(frames[0]));
      var r1 := r.(dispatched := r.dispatched + [payloads[0]]);
      ReadEventsFrom(r1, frames[1..], encode);
      assert payloads == [payloads[0]] + seq(|frames| - 1, i requires 0 <= i < |frames| - 1 => encode(frames[1..][i]));
      assert r1.dispatched + payloads[1..] == r.dispatched + payloads;
    }
  }

  /**
   * A client reading everything a stream wrote gets one event per frame, in
   * order, whose data is that frame's encoding, provided the encoder writes
   * no line break, LF or CR (`json.dumps` escapes both inside strings).
   */
  lemma ReadWire(frames: seq<Frame>, encode: Frame -> string)
    requires forall i :: 0 <= i < |frames| ==> '\n' !in encode(frames[i]) && '\r' !in encode(frames[i])
    ensures ReadEvents(Flatten(Wire(frames, encode)))
            == seq(|frames|, i requires 0 <= i < |frames| => encode(frames[i]))
  {
    ReadEventsFrom(Initial, frames, encode);
  }
}
