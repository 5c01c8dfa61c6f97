/** The records exchanged between the chat screen, the client and the
    generative-language SDK (types/chat.ts). */
module ChatTypes {
  import opened Wrappers

  /** One turn shown in the chat screen. `id` and `timestamp` (milliseconds)
      are carried along but play no part in the client's logic. */
  datatype ChatMessage = ChatMessage(id: int, text: string, isUser: bool, timestamp: int)

  /** The SDK's role vocabulary: `'user' | 'model'`. */
  datatype Role = User | Model

  datatype Part = Part(text: string)

  /** One role-tagged history entry as the SDK expects it. */
  datatype GeminiMessage = GeminiMessage(role: Role, parts: seq<Part>)

  /** What the client hands back to the screen: the text to show and, on the
      error path only, an error code. */
  datatype GeminiResponse = GeminiResponse(text: string, error: Option<string>)

  /** A value caught by a `catch` clause: an `Error` object carrying its
      `message`, or any other thrown value. */
  datatype Fault = ErrorObj(message: string) | NonError

  /** The outcome of one awaited SDK call: it returned, or it threw. */
  datatype Attempt<+T> = Returned(value: T) | Threw(fault: Fault)
}
