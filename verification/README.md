# Gemini chat client — a Dafny model

This project models the chat client of a wellness app: the `GeminiService`
class in `services/geminiService.ts`, with the records of `types/chat.ts`.
The client turns the app's message list into the history the
generative-language SDK expects. It sends one user utterance, either at once
(`sendMessage`) or as a stream whose chunks go to an `onChunk` callback
(`sendMessageStream`). It turns every failure into one of four fixed
responses, and it can probe the API (`testConnection`). Its constructor
refuses to start without an API key.

Every SDK call is an input to the model. `sendMessage` takes a function from
the request the client builds (the client's key, converted history, new message) to what the
awaited call yields: `Returned(text?)` or `Threw(fault)`. `sendMessageStream`
takes a function to a finite sequence of events (`Chunk(text?)` or
`Fail(fault)`), or to a fault raised while opening the stream. A thrown value
is `ErrorObj(message)` for an `Error` and `NonError` for anything else. The
stream call returns the trace of `onChunk` calls together with the response.
Because the request is an argument, the contracts also state that the SDK
receives exactly the client's key, the converted history and the untouched
user message.

Files, one module each:

- `wrappers.dfy` (`Wrappers`): `Option` for `T | undefined`, `Result` for the constructor.
- `text.dfy` (`Text`): `String.prototype.trim` and `String.prototype.includes`.
- `array_ops.dfy` (`ArrayOps`): `Array.prototype.filter` and `map`, with the kept indices as reference.
- `chat_types.dfy` (`ChatTypes`): `ChatMessage`, `GeminiMessage`, `GeminiResponse`, faults and SDK outcomes.
- `history.dfy` (`History`): `convertToGeminiHistory`.
- `errors.dfy` (`Errors`): the error ladder, codes and user texts.
- `gemini_service.dfy` (`GeminiService`): constructor, `sendMessage`, `sendMessageStream`, `testConnection`.

Whitespace for `trim` is the full ECMAScript set: TAB, VT, FF, SPACE, NBSP,
ZWNBSP, every Unicode "Zs" space separator, and the line terminators LF, CR,
LS and PS. Dafny characters are Unicode scalar values, while JavaScript
strings are UTF-16 code units. Every whitespace character and every needle of
the error ladder lies in the Basic Multilingual Plane, so the difference does
not change any result modelled here.

Three behaviours of the code are easy to misread:

- History filtering drops whitespace-only texts as well as empty ones, because the test is `trim() !== ""`.
- The key check refuses an empty key as well as a missing one, because the test is `!apiKey`.
- A chunk whose `text` is absent counts as `""`. It is still delivered to `onChunk`.

## Model

| member | source | states |
|---|---|---|
| Text.Trim | services/geminiService.ts:45 | `trim()` never lengthens the text, and what it returns is empty or neither starts nor ends with whitespace |
| Text.TrimEmptyIffWhitespace | services/geminiService.ts:45 | `trim()` yields the empty string exactly when every character of the text is whitespace (the empty text included) |
| Text.TrimStripsOnlyWhitespace | services/geminiService.ts:45 | what `trim()` keeps is an infix with only whitespace before and after it, and it neither starts nor ends with whitespace |
| Text.Contains | services/geminiService.ts:85 | `includes(sub)` holds exactly when `sub` occurs at some index of the message, character for character (case-sensitive) |
| Text.MissingCharNotContained | services/geminiService.ts:85 | a needle with a character the message lacks is never found, the basis of the case-sensitivity examples |
| Text.ContainsInfix | services/geminiService.ts:85 | a needle placed anywhere in a message is found, whatever surrounds it |
| ArrayOps.Filter | services/geminiService.ts:44-45 | `filter` yields the accepted elements in order: element `j` of the result is the element at the `j`-th accepted index, and the accepted indices are exactly those the test accepts, strictly increasing |
| ArrayOps.Map | services/geminiService.ts:46-49 | `map` builds a new sequence of the same length, element by element, with each result at the same position as its source element |
| ArrayOps.FilterLength | services/geminiService.ts:44-45 | filtering removes exactly the rejected elements: the result has the input's length minus the rejected count |
| ArrayOps.FilterAppend | services/geminiService.ts:44-45 | filtering a concatenation is concatenating the filtered parts |
| ArrayOps.MapAppend | services/geminiService.ts:46-49 | mapping a concatenation is concatenating the mapped parts |
| History.IsKept | services/geminiService.ts:45 | the filter test `trim() !== ""` accepts a message exactly when its text has a visible (non-whitespace) character |
| History.KeptIffVisible | services/geminiService.ts:45 | a message is kept exactly when its text has a non-whitespace character, so empty and whitespace-only texts are both dropped |
| History.ToGemini | services/geminiService.ts:46-49 | a kept message becomes an entry with role `'user'` exactly for user messages (`'model'` otherwise) and the original, untrimmed text as its only part |
| History.ConvertToGeminiHistory | services/geminiService.ts:43-50 | the history has one entry per message with non-blank text, in conversation order; entry `j` is built from the `j`-th such message |
| History.ConvertDropsBlank | services/geminiService.ts:44-45 | with k blank messages (empty or whitespace only) among n, the history has n - k entries |
| History.ConvertAppend | services/geminiService.ts:43-50 | converting a conversation piecewise equals converting it whole, so appending a message appends at most its entry |
| Errors.ErrorKind.Code | services/geminiService.ts:86-110 | each kind's `error` string reads back as that kind, so a caller can tell the failure from the code alone |
| Errors.CodesDistinct | services/geminiService.ts:86-110 | no two kinds share an error code |
| Errors.ErrorKind.UserText | services/geminiService.ts:86-110 | each kind's user-facing text identifies that kind, so the four texts are distinct |
| Errors.Classify | services/geminiService.ts:84-111 | first match wins: "API key" gives API_KEY_ERROR whatever else is present; otherwise "quota" or "limit" gives QUOTA_EXCEEDED; otherwise "network" or "fetch" gives NETWORK_ERROR; anything else, including a non-`Error` value, gives UNKNOWN_ERROR |
| Errors.CaughtResponse | services/geminiService.ts:107-111 | every response from a catch block carries an error code, and the code and the text are those of the fault's kind |
| Errors.ClassifyFollowsLadder | services/geminiService.ts:84-105 | the hand-written ladder equals reading the rule table ("API key"; "quota", "limit"; "network", "fetch") top to bottom |
| Errors.ApiKeyDominates | services/geminiService.ts:85-90 | "API key" anywhere in a message gives API_KEY_ERROR, whatever precedes or follows it |
| Errors.QuotaDominatesNetwork | services/geminiService.ts:92-97 | without "API key", "quota" anywhere gives QUOTA_EXCEEDED, even if "network" or "fetch" also appears |
| Errors.ApiKeyAndNetworkExample | services/geminiService.ts:85-90 | a message mentioning both an API key and a network problem is an API_KEY_ERROR |
| Errors.MissingCharsIsUnknown | services/geminiService.ts:84-111 | a message lacking some character of each of the five needles is classified UNKNOWN_ERROR |
| Errors.CapitalisedQuotaIsUnknown | services/geminiService.ts:92-111 | "Quota exceeded" matches no needle (capital Q) and gives UNKNOWN_ERROR |
| Errors.LowerCaseApiKeyIsUnknown | services/geminiService.ts:85-111 | "Invalid api key" matches no needle (lower-case) and gives UNKNOWN_ERROR |
| GeminiService.NewService | services/geminiService.ts:32-40 | construction succeeds exactly when the key is present and non-empty, and then holds that key; otherwise it fails with the fixed missing-key error |
| GeminiService.NewServiceRoundTrip | services/geminiService.ts:32-40 | every client (whose key is non-empty by construction) is reachable: constructing with its key succeeds and gives back the same client |
| GeminiService.OrElse | services/geminiService.ts:77 | `text \|\| fallback` is the text when it is a non-empty string and the fallback when it is absent or empty |
| GeminiService.Respond | services/geminiService.ts:76-111 | after the call: a non-empty reply comes back unchanged, an absent or empty one as the apology, neither with an error; a fault gives its kind's text and code, and there is an error exactly when the call threw |
| GeminiService.SendMessage | services/geminiService.ts:53-113 | the SDK gets the client's key, the converted history and the message; a non-empty reply comes back unchanged, an absent or empty one as the apology, neither with an error; a fault gives its kind's text and code |
| GeminiService.ChunkText | services/geminiService.ts:146 | a chunk contributes its own text when present and `""` when absent; it contributes nothing exactly when its text is absent or empty |
| GeminiService.ConsumeStream | services/geminiService.ts:143-149 | the loop calls `onChunk` once per chunk, in order, with the chunk's text (`""` if absent), stops at the first fault, and its accumulated text is always the concatenation of what was delivered |
| GeminiService.DeliverNext | services/geminiService.ts:145-148 | one loop step on a chunk extends the trace by that chunk's text, keeps the earlier trace as a prefix, and appends the text to the concatenation |
| GeminiService.ConcatSnoc | services/geminiService.ts:147 | `fullResponse += chunkText` on the concatenation of a trace gives the concatenation of the extended trace |
| GeminiService.SendMessageStream | services/geminiService.ts:116-187 | the SDK gets the client's key, the converted history and the message; an open failure delivers nothing and is classified; otherwise every chunk before the first fault is delivered in order, a mid-stream fault keeps what was delivered and is classified, and a clean end returns the concatenation, or the apology if it is empty, with no error |
| GeminiService.DrainStream | services/geminiService.ts:143-185 | once the stream is open, the trace is a chunk-for-chunk prefix of the events that ends at the end of the stream or at a fault; a fault gives its classified response; a clean end gives the concatenation of the trace, or the apology if it is empty, with no error |
| GeminiService.DrainStopsAtFirstFault | services/geminiService.ts:145-149 | with the first fault at position k, exactly the k chunks before it are delivered |
| GeminiService.StreamAgreesWithSendMessage | services/geminiService.ts:155-185 | the streaming catch block classifies every fault, at open time or mid-stream, exactly as `sendMessage` does, and a clean stream resolves like `sendMessage` on a reply of the delivered text |
| GeminiService.MidStreamFaultKeepsDelivered | services/geminiService.ts:143-185 | chunks followed by a fault: all chunks before the fault are delivered with their texts, and the result is the fault's classified response whatever follows |
| GeminiService.StopsAtFirstFault | services/geminiService.ts:145-149 | a trace that is a chunk-for-chunk prefix and ends at a fault or at the end has exactly the length of the run of chunks before the first fault |
| GeminiService.FaultFreeDeliversAll | services/geminiService.ts:143-153 | a stream without faults delivers every chunk's text, in order, and resolves to their concatenation (or the apology if empty) with no error |
| GeminiService.StreamExample | services/geminiService.ts:143-153 | chunks "A", "" and "BC" give three `onChunk` calls with exactly those texts and the result "ABC" |
| GeminiService.TestConnection | services/geminiService.ts:190-208 | the probe, sent with the client's key, succeeds exactly when the call returns a non-empty text; an empty or absent text or any fault gives false |
| GeminiService.TestConnectionMatchesSendMessage | services/geminiService.ts:203-206 | `testConnection` is true exactly when `sendMessage` on the same reply would show the model's own text, not the apology or an error |

## Left out

- The SDK calls (`chats.create`, `chat.sendMessage`, `chat.sendMessageStream`, `models.generateContent`) are networked foreign code. They are function-typed inputs, so every reply, stream and fault they could produce is covered.
- `async`/`await` and `for await` are left out. A stream is a finite sequence of events consumed in order. `onChunk` calls are recorded as a returned trace of texts, not performed.
- A fault thrown by the caller's own `onChunk` is not modelled. The same catch block would classify it, but its timing belongs to code outside the client.
- The contents of `GEMINI_CONFIG` are opaque settings passed to the SDK: the model name, the system instruction, the temperatures 0.7 and 0.1 (floating point) and the thinking budget.
- `console.error` logging is output only and changes no result.
- The `process.env` read is replaced by the constructor's `Option<string>` parameter.
- The module-level singleton at services/geminiService.ts:212 is not modelled: a client is a value built by `NewService`.
- The unused `chatHistory` field is not modelled, nor `ChatState` and `GeminiStreamChunk` from types/chat.ts. `ChatMessage.id` and `timestamp` are carried but unused, as in the source.
