/** `convertToGeminiHistory`: the conversation as the SDK receives it. */
module History {
  import opened Text
  import opened ArrayOps
  import opened ChatTypes

  /** The filter test `msg.text.trim() !== ""`: a message is sent along
      exactly when its text has a character that is not whitespace. */
  function IsKept(m: ChatMessage): (kept: bool)
    ensures kept <==> HasVisible(m.text)
  {
    TrimEmptyIffWhitespace(m.text);
    VisibleIffNotAllWhitespace(m.text);
    Trim(m.text) != ""
  }

  /** A message is sent along exactly when its text has a character that is
      not whitespace: empty and whitespace-only texts are both dropped. */
  lemma KeptIffVisible(m: ChatMessage)
    ensures IsKept(m) <==> !AllWhitespace(m.text)
  {
    TrimEmptyIffWhitespace(m.text);
  }

  /** The entry one kept message becomes: role `'user'` exactly for the
      user's messages, and the original, untrimmed text as the single part. */
  function ToGemini(m: ChatMessage): (g: GeminiMessage)
    ensures g.role == User <==> m.isUser
    ensures g.parts == [Part(m.text)]
  {
    GeminiMessage(if m.isUser then User else Model, [Part(m.text)])
  }

  /** `messages.filter(keep).map(toEntry)`: one entry per non-blank message,
      in the order of the conversation. Entry `j` is built from the message
      at the `j`-th kept index, and the kept indices are exactly the
      messages whose text is not whitespace only. */
  function ConvertToGeminiHistory(messages: seq<ChatMessage>): (history: seq<GeminiMessage>)
    ensures |history| == |KeptIndices(messages, IsKept)|
    ensures forall j :: 0 <= j < |history| ==>
      history[j] == ToGemini(messages[KeptIndices(messages, IsKept)[j]])
  {
    Map(Filter(messages, IsKept), ToGemini)
  }

  /** The history sent downstream has exactly one entry per non-blank
      message: with k blank messages it has `|messages| - k` entries. */
  lemma ConvertDropsBlank(messages: seq<ChatMessage>)
    ensures |ConvertToGeminiHistory(messages)| == |messages| - RejectedCount(messages, IsKept)
  {
    FilterLength(messages, IsKept);
  }

  /** Converting a conversation piecewise gives the same history as
      converting it whole, so a conversation that grows by one message
      grows its history by at most that message's entry, at the end. */
  lemma ConvertAppend(a: seq<ChatMessage>, b: seq<ChatMessage>)
    ensures ConvertToGeminiHistory(a + b) == ConvertToGeminiHistory(a) + ConvertToGeminiHistory(b)
  {
    FilterAppend(a, b, IsKept);
    MapAppend(Filter(a, IsKept), Filter(b, IsKept), ToGemini);
  }
}
