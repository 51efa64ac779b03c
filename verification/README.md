# chatgpt-demo: the conversation state, the first-message stripping and the event stream, in Dafny

This project models the core of a small chat front-end that turns a product
name into advertising slogans. The front-end sends the conversation to a
text-generation endpoint and shows the streamed reply as it arrives. The
model covers three pieces:

- **`Generator`** (`generator.dfy`, from `src/components/Generator.tsx`).
  This is the component's state: the message log, the pending assistant
  text, the `loading` flag, whether an abort controller is installed, and
  the system-role setting. The state is a class `Conversation` with one
  method per event handler:
  - submit
  - start a request
  - the read loop
  - archive
  - the failure path
  - stop
  - retry
  - clear

  Each handler is one atomic step. A request is issued by returning a
  `Request` value. The response body arrives as a sequence of already
  decoded reads, given to `Pump`. A failed fetch or read is the call
  `HandleFailure`. The class keeps the invariant `loading == hasController`.
- **`MessageItem`** (`message_item.dfy`, from `src/components/MessageItem.tsx`).
  This is the text handed to the markdown renderer. JavaScript's
  `String.prototype.replace` with a string pattern is modelled for a
  replacement without `$`, which covers the empty replacement the component
  uses: it replaces the first occurrence only, and finds the empty pattern at
  0. The `$` substitution patterns are not modelled.
  `StripTemplate` applies it twice to the first message. The renderer is a
  parameter.
- **`OpenAI`** (`open_ai.dfy`, from `src/utils/openAI.ts`). This covers:
  - the request record built by `generatePayload`
  - the decision `streamParser` takes for each upstream event
  - a fold of those decisions over the events into an `Open`, `Closed` or
    `Errored` stream
  - the `for await` loop that feeds the body chunks to the event parser

`chat_types.dfy` holds the shared `Message`/`Role` types and `Option`.

The model follows the code as written, including these behaviours:

- Only the empty string is rejected on submit. Whitespace-only input is
  accepted.
- Submit and retry do not look at `loading`, so a second request can start
  while one is under way.
- Archiving with nothing pending changes nothing. `loading` stays set
  (`EarlyStopStaysLoading`).
- The failure path leaves the pending text in place instead of discarding
  it. So `loading` can be false while text is still pending
  (`FailureKeepsPendingText`).
- The head and tail texts that `MessageItem` strips are not the ones
  `Generator` wraps the first prompt in. A generated prompt such as the
  one for "炸鸡" is rendered whole (`FirstPromptShownWhole`).
  - Inputs that contain neither text are not always left alone. An input
    that ends with the head text minus its closing quotation mark is
    completed by the template's own quotation mark, and that part is then
    stripped (`HeadCompletedAcrossBoundary`).
  - `GeneratedPromptUnchanged` and `GeneratedPromptChanged` together give
    the exact condition under which the prompt is left alone. The input
    followed by a quotation mark must not contain the head text, and a
    quotation mark followed by the input must not contain the tail text.

## Model

| member | source | states |
|---|---|---|
| `Generator.Template` | src/components/Generator.tsx:25-27 | the first prompt is the product name wrapped in the fixed slogan request; its length is the sum of the three parts and `Unwrap` recovers the name from it |
| `Generator.OutgoingList` | src/components/Generator.tsx:44-50 | the outgoing list ends with the whole log, unchanged and in order; it is one longer and starts with a system message carrying the setting exactly when the setting is non-empty |
| `Generator.SignedContentOfOutgoing` | src/components/Generator.tsx:59 | the signed text is the last logged message's content; only with an empty log is it the system setting (the empty string when that is unset too) |
| `Generator.Append` | src/components/Generator.tsx:77-84 | a chunk leaves the pending text unchanged exactly when it is empty or a lone newline arriving after a newline; otherwise it is appended |
| `Generator.AccumulateWithoutNewlines` | src/components/Generator.tsx:75-88 | with no lone-newline chunks, the pending text grows by exactly the concatenation of the chunks, in order |
| `Generator.SignedContent` | src/components/Generator.tsx:59 | the signed text is the content of the list's last message; it is empty exactly when the list is empty or that content is empty |
| `Generator.PumpFrom` | src/components/Generator.tsx:75-88 | the read loop takes at least one read when any is left, ends only on a read carrying the end flag, and otherwise takes every read |
| `Generator.PumpFromAccumulates` | src/components/Generator.tsx:75-88 | the pending text after the loop is the chunks of the reads it took, applied in arrival order |
| `Generator.PumpFromStopsAtFirstEnd` | src/components/Generator.tsx:75-88 | the loop stops at the first read that carries the end flag and is not a suppressed newline, given the text pending when it arrives; a suppressed newline read with the end flag does not stop it |
| `Generator.Conversation.constructor` | src/components/Generator.tsx:12-17 | the signals start empty, not loading, with no controller |
| `Generator.Conversation.HandleButtonClick` | src/components/Generator.tsx:19-36 | the empty string changes nothing and starts no request; any other input appends exactly one user message (templated when the log was empty, verbatim otherwise) after the unchanged log, starts a request, and the request's signature covers that message |
| `Generator.Conversation.RequestWithLatestMessage` | src/components/Generator.tsx:38-63 | sets loading, installs a controller, empties the pending text, leaves the log and setting alone, and issues the outgoing list with the timestamp and the signature over its last content |
| `Generator.Conversation.Pump` | src/components/Generator.tsx:71-88 | the pending text becomes the read loop's result; when the reader reports the end the text is archived as one assistant message (if non-empty); while the stream is open the old pending text is a prefix of the new |
| `Generator.Conversation.HandleFailure` | src/components/Generator.tsx:89-94 | clears loading and the controller; the log and the pending text are unchanged and nothing is archived |
| `Generator.Conversation.ArchiveCurrentMessage` | src/components/Generator.tsx:98-112 | non-empty pending text becomes exactly one appended assistant message, pending is emptied and loading and the controller cleared; empty pending text changes nothing at all |
| `Generator.Conversation.Clear` | src/components/Generator.tsx:114-120 | empties the log, the pending text and the system setting; loading and the controller are untouched |
| `Generator.Conversation.StopStreamFetch` | src/components/Generator.tsx:122-127 | acts only with a controller present, and then archives |
| `Generator.Conversation.RetryLastFetch` | src/components/Generator.tsx:129-138 | with a trailing assistant message, removes exactly that message and starts a request without adding a user message; with an empty log or a trailing user message, changes nothing |
| `Generator.CancelKeepsPartialText` | src/components/Generator.tsx:122-127 | stopping after "Buy now" has arrived leaves the log with that text as the assistant reply and the request ended |
| `Generator.RetryReplacesReply` | src/components/Generator.tsx:129-138 | for any log ending in an assistant reply, retrying and then receiving a complete non-empty reply puts the new reply in place of the old one, the rest of the log unchanged, and ends the request |
| `Generator.FailureKeepsPendingText` | src/components/Generator.tsx:89-93 | a failure after "Buy" has arrived ends loading but keeps "Buy" pending and archives nothing |
| `Generator.EarlyStopStaysLoading` | src/components/Generator.tsx:98-112 | stopping before any text has arrived archives nothing and leaves the component loading |
| `MessageItem.FindFrom` | src/components/MessageItem.tsx:30-31 | finds the first occurrence of the pattern at or after a position, or reports that there is none |
| `MessageItem.IndexOf` | src/components/MessageItem.tsx:30-31 | an index is found exactly when the pattern occurs, and it is the first occurrence |
| `MessageItem.ReplaceFirst` | src/components/MessageItem.tsx:30-31 | for a replacement without `$`: without an occurrence the string is unchanged; otherwise the first occurrence's span, and only it, is replaced, with the length changing accordingly |
| `MessageItem.RemoveFirstSpan` | src/components/MessageItem.tsx:30 | removing a present pattern makes the string exactly its length shorter and drops precisely the span of its first occurrence |
| `MessageItem.LaterOccurrenceSurvives` | src/components/MessageItem.tsx:30 | an occurrence after the first one survives the removal |
| `MessageItem.StripTemplate` | src/components/MessageItem.tsx:30-31 | the first message never grows, and it is left exactly as it is if and only if neither the head nor the tail text occurs in it |
| `MessageItem.StripsOwnWrapper` | src/components/MessageItem.tsx:29-32 | a quote-free name wrapped in the stripped head and tail texts comes back unchanged |
| `MessageItem.GeneratedPromptUnchanged` | src/components/MessageItem.tsx:30-31 | stripping leaves a generated first prompt as it is when the input does not complete the head or the tail text across its boundary with the template |
| `MessageItem.GeneratedPromptChanged` | src/components/MessageItem.tsx:30-31 | conversely, an input that completes the head or the tail text across that boundary makes the stripping change the prompt |
| `MessageItem.FirstPromptShownWhole` | src/components/MessageItem.tsx:29-32 | the first prompt generated for "炸鸡" is rendered with the whole template, nothing stripped |
| `MessageItem.HeadCompletedAcrossBoundary` | src/components/MessageItem.tsx:30 | an input without the head text can still lose text to the stripping: ending it with the head text minus its quotation mark makes the template complete the head |
| `MessageItem.HtmlString` | src/components/MessageItem.tsx:23-38 | the accessor form and string messages at any index but 0 reach the renderer unchanged; the string message at index 0 reaches it stripped |
| `OpenAI.GeneratePayload` | src/utils/openAI.ts:4-16 | a POST with a JSON content type whose bearer header yields back the API key, model `gpt-3.5-turbo`, streaming on, and the messages passed through unchanged and in order |
| `OpenAI.Decide` | src/utils/openAI.ts:24-40 | reconnect intervals are ignored; `[DONE]` and only it closes; unparseable data or missing or empty `choices` errors; otherwise the first choice's content is enqueued, or the empty string when the delta or content is absent |
| `OpenAI.Apply` | src/utils/openAI.ts:28-37 | an open stream gains exactly the enqueued fragment, is closed by a close and errored by an error; a closed or errored stream stays as it is |
| `OpenAI.Run` | src/utils/openAI.ts:42-45 | handling events in arrival order only extends the output, and never reopens a stream once it is closed or errored |
| `OpenAI.FirstStop` | src/utils/openAI.ts:27-37 | the first item that closes or errors the stream, with none before it |
| `OpenAI.RunAfterStop` | src/utils/openAI.ts:27-37 | a closed or errored stream ignores every later item |
| `OpenAI.RunOutput` | src/utils/openAI.ts:24-45 | the stream carries the fragments of the items before the first close or error in arrival order, and ends open, closed or errored as that item decides |
| `OpenAI.RunAppend` | src/utils/openAI.ts:43-45 | feeding two runs of events one after the other is feeding them joined |
| `OpenAI.ParseOpenAIStream` | src/utils/openAI.ts:43-45 | the loop over the body chunks leaves the stream as the fold of all their events, chunk after chunk |

## Left out

- The network, as I/O: `fetch`, `Response`, `reader.read` and `AbortController.abort`. A request is returned as a value, reads and events are input sequences, and a failure is the explicit call `HandleFailure`.
- The async interleaving between `stopStreamFetch` and a read still pending. In the program, the later `AbortError` reaches the `catch`. Each handler is modelled as one atomic step.
- `TextDecoder` and `TextEncoder`: chunks are already-decoded strings. Both are called without streaming mode, so nothing is carried over between chunks. In the program, a UTF-8 character split across two chunks is therefore decoded as replacement characters (U+FFFD) on both sides of the split. The model takes each chunk's decoded text as given and does not produce those replacement characters.
- The `eventsource-parser` framing, `JSON.parse` and `JSON.stringify`. Events arrive framed, and the parsed value of an event's data comes from the parameter `parse`.
- `generateSignature` (from `src/utils/auth`) and `Date.now()`. `src/utils/auth` is not part of this model; the signer and the timestamp are parameters.
- The markdown renderer (markdown-it with KaTeX and highlight.js) is the parameter `render`.
- `OpenAI.GeneratePayload`: does not record the `temperature: 0.6` field, because it is a floating-point constant that nothing depends on.
- `OpenAI.Decide`: the parsed JSON is abstract. `choices` is either absent or an array of objects, and `content` is either absent or a string. A non-array `choices`, a `null` first choice and a non-string `content` are not modelled.
- `MessageItem.ReplaceFirst`: requires a replacement without `$`, because JavaScript expands the `$$`, `$&`, `` $` `` and `$'` patterns in a replacement string and the model inserts it verbatim. The component only passes the empty string.
- `MessageItem.HtmlString`: `index` is taken to be a number or absent, as `Generator` passes it. The final `return ''` cannot be reached for the two message forms.
- The UI: layout, styles, icons, the `SystemRoleSettings` editor, textarea resizing, `window.scrollTo`, `inputRef.focus`, clearing the input box, `console.*`, `handleKeydown`, and the buttons that `systemRoleEditing` disables.
- Nothing in `Generator.tsx` sets the system-role setting: `SystemRoleSettings` is imported but never rendered. The model keeps the setting general.
- `OpenAI.Apply`: after `close`, a later event is ignored only once the reader has drained the queue. If `[DONE]` is followed by another data event while enqueued fragments are still unread, the failing `enqueue` leads to `controller.error`, which errors the stream and discards those fragments. The model yields `Closed` with the fragments kept, because it does not follow the reader's timing.
