/** The chat client (services/geminiService.ts). Each SDK call is an input:
    a function from the request the client builds to what the awaited call
    yields, so the model states exactly what is sent and how every possible
    outcome is turned into a response. */
module GeminiService {
  import opened Wrappers
  import opened ChatTypes
  import opened History
  import opened Errors

  /** The fallback shown when the model returned no text. It is a reply, not
      an error. */
  const Apology := "I apologize, but I couldn't generate a response. Please try again."

  const MissingKeyMessage :=
    "Gemini API key not found. Please set EXPO_PUBLIC_GEMINI_API_KEY in your .env file"

  /** The utterance `testConnection` sends. */
  const Probe := "Hello"

  /** The credential the SDK is built with. */
  datatype Client = Client(apiKey: string)

  /** A constructed client. The constructor refuses an empty key, so no
      client holds one. */
  type Service = c: Client | c.apiKey != "" witness Client("k")

  /** The constructor. A missing or empty key throws at once and no client
      exists; any other key yields a client holding that key. */
  function NewService(apiKey: Option<string>): (r: Result<Service, Fault>)
    ensures r.Success? <==> apiKey.Some? && apiKey.value != ""
    ensures r.Success? ==> r.value.apiKey == apiKey.value
    ensures r.Failure? ==> r.error == ErrorObj(MissingKeyMessage)
  {
    match apiKey
    case Some(key) => if key == "" then Failure(ErrorObj(MissingKeyMessage)) else Success(Client(key))
    case None => Failure(ErrorObj(MissingKeyMessage))
  }

  /** Every client is reachable: constructing with the key a client holds
      succeeds and gives back that client. */
  lemma NewServiceRoundTrip(svc: Service)
    ensures NewService(Some(svc.apiKey)).Success?
    ensures NewService(Some(svc.apiKey)) == Success(svc)
  {
  }

  /** JavaScript's `text || fallback` for a `string | undefined`: the text
      when it is a non-empty string, the fallback otherwise. */
  function OrElse(text: Option<string>, fallback: string): (r: string)
    ensures text.Some? && text.value != "" ==> r == text.value
    ensures text.None? || text.value == "" ==> r == fallback
  {
    match text
    case Some(t) => if t != "" then t else fallback
    case None => fallback
  }

  /** `chats.create(...)` followed by `await chat.sendMessage(...)` on the
      SDK built with the given key. */
  type ChatCall = (string, seq<GeminiMessage>, string) -> Attempt<Option<string>>

  /** The body of `sendMessage` after the SDK call. A returned non-empty text
      comes back unchanged; an absent or empty one becomes the apology;
      neither sets `error`. A fault becomes its classified text and always
      carries an error code. */
  function Respond(reply: Attempt<Option<string>>): (r: GeminiResponse)
    ensures r.error.None? <==> reply.Returned?
    ensures reply.Returned? && reply.value.Some? && reply.value.value != "" ==> r.text == reply.value.value
    ensures reply.Returned? && (reply.value.None? || reply.value.value == "") ==> r.text == Apology
    ensures reply.Threw? ==>
      r.text == Classify(reply.fault).UserText() && r.error == Some(Classify(reply.fault).Code())
  {
    match reply
    case Returned(text) => GeminiResponse(OrElse(text, Apology), None)
    case Threw(fault) => CaughtResponse(fault)
  }

  /** `sendMessage`. The SDK, built with the client's key, receives the
      converted history and the new message as given; its outcome is
      answered as `Respond` describes. */
  function SendMessage(svc: Service, send: ChatCall, userMessage: string, conversationHistory: seq<ChatMessage>)
    : (r: GeminiResponse)
    ensures var reply := send(svc.apiKey, ConvertToGeminiHistory(conversationHistory), userMessage);
      && (r.error.None? <==> reply.Returned?)
      && (reply.Returned? && reply.value.Some? && reply.value.value != "" ==> r.text == reply.value.value)
      && (reply.Returned? && (reply.value.None? || reply.value.value == "") ==> r.text == Apology)
      && (reply.Threw? ==>
            r.text == Classify(reply.fault).UserText() && r.error == Some(Classify(reply.fault).Code()))
  {
    Respond(send(svc.apiKey, ConvertToGeminiHistory(conversationHistory), userMessage))
  }

  /** One step of the stream: a chunk whose `text` may be absent, or a fault
      raised while iterating. */
  datatype StreamEvent = Chunk(text: Option<string>) | Fail(fault: Fault)

  /** `chats.create(...)` followed by `await chat.sendMessageStream(...)` on
      the SDK built with the given key: either the stream's events or a fault
      raised while opening it. */
  type StreamCall = (string, seq<GeminiMessage>, string) -> Attempt<seq<StreamEvent>>

  /** The text a chunk contributes, `chunk.text || ""`: its own text when
      present, and nothing when absent. */
  function ChunkText(e: StreamEvent): (r: string)
    requires e.Chunk?
    ensures e.text.Some? ==> r == e.text.value
    ensures r == "" <==> e.text.None? || e.text.value == ""
  {
    e.text.GetOr("")
  }

  /** The texts concatenated left to right. */
  function Concat(parts: seq<string>): string {
    if |parts| == 0 then "" else Concat(parts[..|parts| - 1]) + parts[|parts| - 1]
  }

  /** `delivered` is the trace of `onChunk` calls for a prefix of `events`:
      one call per chunk, in order, each with that chunk's text. */
  ghost predicate DeliveredFrom(events: seq<StreamEvent>, delivered: seq<string>) {
    && |delivered| <= |events|
    && forall i :: 0 <= i < |delivered| ==> events[i].Chunk? && delivered[i] == ChunkText(events[i])
  }

  /** How the `for await` loop ended. */
  datatype LoopExit = Exhausted | Aborted(fault: Fault)

  /** The loop's state: `fullResponse`, the `onChunk` trace, and how it ended. */
  datatype LoopState = LoopState(fullResponse: string, delivered: seq<string>, exit: LoopExit)

  /** The `for await` loop from the point where `delivered` has been passed
      to `onChunk`: each chunk's text is appended to `fullResponse` and
      delivered, until the events run out or one of them is a fault. The
      accumulated text is always the concatenation of the trace. */
  function ConsumeStream(events: seq<StreamEvent>, fullResponse: string, delivered: seq<string>)
    : (s: LoopState)
    requires DeliveredFrom(events, delivered) && fullResponse == Concat(delivered)
    ensures DeliveredFrom(events, s.delivered) && s.fullResponse == Concat(s.delivered)
    ensures |delivered| <= |s.delivered| && s.delivered[..|delivered|] == delivered
    ensures s.exit == Exhausted ==> |s.delivered| == |events|
    ensures s.exit.Aborted? ==> |s.delivered| < |events| && events[|s.delivered|] == Fail(s.exit.fault)
    decreases |events| - |delivered|
  {
    var i := |delivered|;
    if i == |events| then LoopState(fullResponse, delivered, Exhausted)
    else
      match events[i]
      case Fail(fault) => LoopState(fullResponse, delivered, Aborted(fault))
      case Chunk(_) =>
        var chunkText := ChunkText(events[i]);
        DeliverNext(events, delivered);
        var s := ConsumeStream(events, fullResponse + chunkText, delivered + [chunkText]);
        PrefixOfPrefix(s.delivered, delivered + [chunkText], delivered);
        s
  }

  /** One loop step: delivering the next chunk's text extends the trace and
      appends that text to the concatenation. */
  lemma DeliverNext(events: seq<StreamEvent>, delivered: seq<string>)
    requires DeliveredFrom(events, delivered) && |delivered| < |events| && events[|delivered|].Chunk?
    ensures var next := delivered + [ChunkText(events[|delivered|])];
      && DeliveredFrom(events, next)
      && Concat(next) == Concat(delivered) + ChunkText(events[|delivered|])
      && next[..|delivered|] == delivered
  {
    var n := |delivered|;
    var next := delivered + [ChunkText(events[n])];
    assert next[..n] == delivered;
    forall i | 0 <= i < |next| ensures events[i].Chunk? && next[i] == ChunkText(events[i]) {
      if i < n {
        assert next[i] == delivered[i];
        assert events[i].Chunk? && delivered[i] == ChunkText(events[i]);
      } else {
        assert i == n;
      }
    }
    ConcatSnoc(delivered, ChunkText(events[n]));
  }

  /** Concatenating one more text appends it. */
  lemma ConcatSnoc(parts: seq<string>, last: string)
    ensures Concat(parts + [last]) == Concat(parts) + last
  {
    assert (parts + [last])[..|parts|] == parts;
  }

  /** A prefix of a prefix is a prefix. */
  lemma PrefixOfPrefix(t: seq<string>, mid: seq<string>, pre: seq<string>)
    requires |mid| <= |t| && t[..|mid|] == mid
    requires |pre| <= |mid| && mid[..|pre|] == pre
    ensures t[..|pre|] == pre
  {
    assert t[..|pre|] == t[..|mid|][..|pre|];
  }

  /** What one `sendMessageStream` call produces: the texts passed to
      `onChunk`, in call order, and the response it resolves to. */
  datatype StreamRun = StreamRun(delivered: seq<string>, response: GeminiResponse)

  /** The rest of `sendMessageStream` once the stream is open: the loop,
      then the return after it, or the catch block if an event is a fault.
      `onChunk` sees the text of every chunk before the first fault, in
      order. A fault stops the loop, keeps what was delivered and is
      classified. Without a fault the result is the concatenation of
      everything delivered, or the apology when that is empty, with no
      error. */
  function DrainStream(events: seq<StreamEvent>): (run: StreamRun)
    ensures DeliveredFrom(events, run.delivered)
    ensures |run.delivered| == |events| ==>
      run.response == GeminiResponse(OrElse(Some(Concat(run.delivered)), Apology), None)
    ensures |run.delivered| < |events| ==>
      events[|run.delivered|].Fail? && run.response == CaughtResponse(events[|run.delivered|].fault)
  {
    var s := ConsumeStream(events, "", []);
    match s.exit
    case Exhausted => StreamRun(s.delivered, GeminiResponse(OrElse(Some(s.fullResponse), Apology), None))
    case Aborted(fault) => StreamRun(s.delivered, CaughtResponse(fault))
  }

  /** `sendMessageStream`. The SDK receives the converted history and the new
      message. If opening fails nothing is delivered and the fault is
      classified; otherwise the open stream is drained as above. */
  function SendMessageStream(svc: Service, open: StreamCall, userMessage: string,
                             conversationHistory: seq<ChatMessage>)
    : (run: StreamRun)
    ensures var attempt := open(svc.apiKey, ConvertToGeminiHistory(conversationHistory), userMessage);
      && (attempt.Threw? ==> run.delivered == [] && run.response == CaughtResponse(attempt.fault))
      && (attempt.Returned? ==>
            var events := attempt.value;
            var n := |run.delivered|;
            && DeliveredFrom(events, run.delivered)
            && (n == |events| ==>
                  run.response == GeminiResponse(OrElse(Some(Concat(run.delivered)), Apology), None))
            && (n < |events| ==> events[n].Fail? && run.response == CaughtResponse(events[n].fault)))
  {
    match open(svc.apiKey, ConvertToGeminiHistory(conversationHistory), userMessage)
    case Threw(fault) => StreamRun([], CaughtResponse(fault))
    case Returned(events) => DrainStream(events)
  }

  /** `models.generateContent(...)` on a single utterance, on the SDK built
      with the given key. */
  type GenerateCall = (string, string) -> Attempt<Option<string>>

  /** `testConnection`: true exactly when the probe, sent with the client's
      key, came back with a non-empty text; false when it came back empty or
      threw. */
  function TestConnection(svc: Service, generate: GenerateCall): (ok: bool)
    ensures var reply := generate(svc.apiKey, Probe);
      ok <==> reply.Returned? && reply.value.Some? && reply.value.value != ""
  {
    match generate(svc.apiKey, Probe)
    case Returned(text) => text.Some? && text.value != ""
    case Threw(_) => false
  }

  /** Streaming and one-shot sending agree: a stream that opens and runs to
      its end resolves like `sendMessage` on a reply holding the delivered
      text, and a fault, at open time or mid-stream, resolves exactly like
      `sendMessage` throwing that fault. */
  lemma StreamAgreesWithSendMessage(svc: Service, open: StreamCall, userMessage: string,
                                    conversationHistory: seq<ChatMessage>)
    ensures var attempt := open(svc.apiKey, ConvertToGeminiHistory(conversationHistory), userMessage);
      var run := SendMessageStream(svc, open, userMessage, conversationHistory);
      && (attempt.Threw? ==>
            run.response == SendMessage(svc, (k, h, m) => Threw(attempt.fault), userMessage, conversationHistory))
      && (attempt.Returned? && |run.delivered| == |attempt.value| ==>
            run.response
            == SendMessage(svc, (k, h, m) => Returned(Some(Concat(run.delivered))), userMessage, conversationHistory))
      && (attempt.Returned? && |run.delivered| < |attempt.value| ==>
            run.response
            == SendMessage(svc, (k, h, m) => Threw(attempt.value[|run.delivered|].fault), userMessage, conversationHistory))
  {
  }

  /** A stream of chunks followed by a fault: every chunk before the fault
      reaches `onChunk`, in order and with its text, and the call still
      resolves to the fault's classified response, whatever follows. */
  lemma MidStreamFaultKeepsDelivered(chunks: seq<StreamEvent>, fault: Fault, rest: seq<StreamEvent>)
    requires forall i :: 0 <= i < |chunks| ==> chunks[i].Chunk?
    ensures var run := DrainStream(chunks + [Fail(fault)] + rest);
      && |run.delivered| == |chunks|
      && (forall i :: 0 <= i < |chunks| ==> run.delivered[i] == ChunkText(chunks[i]))
      && run.response == CaughtResponse(fault)
  {
    var events := chunks + [Fail(fault)] + rest;
    forall i | 0 <= i < |chunks| ensures events[i] == chunks[i] {
    }
    DrainStopsAtFirstFault(events, |chunks|);
  }

  /** Draining a stream whose first fault is at `k` delivers exactly the
      `k` chunks before it. */
  lemma DrainStopsAtFirstFault(events: seq<StreamEvent>, k: nat)
    requires k < |events| && events[k].Fail?
    requires forall i :: 0 <= i < k ==> events[i].Chunk?
    ensures |DrainStream(events).delivered| == k
  {
    var run := DrainStream(events);
    StopsAtFirstFault(events, k, run.delivered);
  }

  /** The only trace that fits a stream whose first fault is at `k` is one
      of length `k`. */
  lemma StopsAtFirstFault(events: seq<StreamEvent>, k: nat, delivered: seq<string>)
    requires k < |events| && events[k].Fail?
    requires forall i :: 0 <= i < k ==> events[i].Chunk?
    requires DeliveredFrom(events, delivered)
    requires |delivered| == |events| || events[|delivered|].Fail?
    ensures |delivered| == k
  {
  }

  /** A stream without faults delivers every chunk, in order, and resolves
      to their concatenation with no error. */
  lemma FaultFreeDeliversAll(events: seq<StreamEvent>)
    requires forall i :: 0 <= i < |events| ==> events[i].Chunk?
    ensures var run := DrainStream(events);
      && |run.delivered| == |events|
      && (forall i :: 0 <= i < |events| ==> run.delivered[i] == ChunkText(events[i]))
      && run.response == GeminiResponse(OrElse(Some(Concat(run.delivered)), Apology), None)
  {
  }

  /** A stream yielding "A", an empty chunk and "BC" calls `onChunk` three
      times with exactly those texts and resolves to "ABC". */
  lemma StreamExample()
    ensures DrainStream([Chunk(Some("A")), Chunk(Some("")), Chunk(Some("BC"))])
            == StreamRun(["A", "", "BC"], GeminiResponse("ABC", None))
  {
    var events := [Chunk(Some("A")), Chunk(Some("")), Chunk(Some("BC"))];
    FaultFreeDeliversAll(events);
    var delivered := DrainStream(events).delivered;
    assert delivered == ["A", "", "BC"] by {
      assert delivered[0] == ChunkText(events[0]) == "A";
      assert delivered[1] == ChunkText(events[1]) == "";
      assert delivered[2] == ChunkText(events[2]) == "BC";
    }
    assert Concat(delivered) == "ABC" by {
      assert delivered[..2] == ["A", ""];
      assert ["A", ""][..1] == ["A"];
      assert ["A"][..0] == [];
    }
  }

  /** `testConnection` succeeds exactly when `sendMessage` on the same reply
      would show the model's own text rather than the apology or an error. */
  lemma TestConnectionMatchesSendMessage(svc: Service, generate: GenerateCall,
                                         conversationHistory: seq<ChatMessage>)
    ensures var reply := generate(svc.apiKey, Probe);
      TestConnection(svc, generate)
      <==> && reply.Returned?
           && SendMessage(svc, (k, h, m) => reply, Probe, conversationHistory).text == reply.value.GetOr("")
  {
    var reply := generate(svc.apiKey, Probe);
    if reply.Returned? && reply.value.GetOr("") == "" {
      assert Apology != "";
    }
  }
}
