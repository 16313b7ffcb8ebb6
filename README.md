# Breeze chat client for Ollama — verified model

This project models the core of a small browser chat client for a locally
running Ollama server. It covers four pieces:

- **The Ollama client** (`src/utils/ollama.ts`):
  - `fetchAvailableModels` turns the directory reply into a list of models.
  - `streamChat` posts `{model, messages, stream: true}` and reads the reply
    as newline-delimited JSON (NDJSON): each read chunk is split on `"\n"`,
    blank lines are dropped, and every line that parses is handed to the
    callback in order.
- **The conversation state** (`ChatContainer`): one submission appends a
  user turn and an empty streaming assistant turn, sends the history, folds
  each streamed record into the assistant turn, and replaces it with a fixed
  error text when the stream fails.
- **The message box** (`MessageInput`): the trim/non-empty/not-disabled
  submit guard, the Enter-key shortcut and the send button's disabled rule.
- **The model drop-down** (`ModelSelector`): the loading, models and error
  fields after a directory query, and the default selection of the first
  model.

Modules: `Wrappers` (Option, Result), `Text` (JavaScript `split` with a
one-character separator, and `trim`), `Ollama`, `Chat`, `Input`, `Selector`.

The network is replaced by its observable outcome. A chat reply is a status
plus the list of reads its body reader returns; a read is either a chunk of
decoded text or a rejected read. `JSON.parse` is the parameter
`parse: string -> Option<OllamaResponse>`, and `None` means it threw.

The model follows the code as written, where one might expect partial-line
buffering, a stop at `done: true`, or a way to cancel:

- **No partial lines across reads.** Each chunk is split on its own, and no
  unterminated fragment is kept for the next read. A record split across two
  reads reaches the parser as two fragments (`Ollama.SplitRecordLost`).
  Because no state carries between reads, the output is the concatenation
  of the per-chunk outputs (`Ollama.StreamRecordsAppend`).
- **`done: true` does not end the loop.** Only the reader's own `done` ends
  it, so records after a `done: true` record are still delivered
  (`Ollama.EveryReadDelivered`).
- **No cancellation.** There is no cancellation hook, and none is modelled.
- **No `done` record leaves the input locked.** If the stream completes
  without any `done: true` record, `isProcessing` stays `true`, the reply
  stays marked as streaming, and the message box stays disabled. The
  postcondition of `Chat.ChatContainer.HandleSendMessage` states this
  outright: after a send the box is disabled exactly when the stream
  completed without a `done` record.

## Model

| member | source | states |
|---|---|---|
| `Text.IsWhitespace` | src/utils/ollama.ts:99 | the characters `trim()` removes: the ECMAScript WhiteSpace and LineTerminator code points |
| `Text.IsBlank` | src/utils/ollama.ts:99 | a text made only of whitespace, which is what `line.trim() === ""` tests (see `TrimEmptyIffBlank`) |
| `Text.TrimStart` | src/utils/ollama.ts:99 | the result is the suffix of the input left after its longest all-whitespace prefix; it is empty or starts with non-whitespace |
| `Text.TrimEnd` | src/utils/ollama.ts:99 | the result is the prefix of the input left before its longest all-whitespace suffix; it is empty or ends with non-whitespace |
| `Text.Trim` | src/utils/ollama.ts:99 | `trim()` is `TrimStart` then `TrimEnd`; its meaning is pinned down by `TrimIsSlice`, `TrimEnds` and `TrimEmptyIffBlank` |
| `Text.TrimIsSlice` | src/utils/ollama.ts:99 | `trim()` returns a slice `s[i..j]` with only whitespace outside it |
| `Text.TrimEnds` | src/utils/ollama.ts:99 | a trimmed text is empty or neither its first nor its last character is whitespace |
| `Text.TrimEmptyIffBlank` | src/utils/ollama.ts:99 | `line.trim() !== ""` holds exactly when the line has a non-whitespace character |
| `Text.TrimIdempotent` | src/components/MessageInput.tsx:26-27 | trimming an already trimmed text changes nothing |
| `Text.Split` | src/utils/ollama.ts:99 | `split("\n")` gives at least one piece, even for `""` |
| `Text.SplitFromPieces` | src/utils/ollama.ts:99 | the scan from any position yields separator-free pieces that join back to the rest of the text |
| `Text.SplitPieces` | src/utils/ollama.ts:99 | no piece of `split("\n")` contains the separator |
| `Text.JoinSplit` | src/utils/ollama.ts:99 | joining the pieces of a split with the separator gives back the original text, so splitting loses no character |
| `Text.SplitJoin` | src/utils/ollama.ts:99 | splitting the join of separator-free pieces gives back exactly those pieces |
| `Text.SplitFromScan` | src/utils/ollama.ts:99 | scanning over separator-free characters does not change the pieces that follow |
| `Text.SplitFromShift` | src/utils/ollama.ts:99 | the pieces of a suffix do not depend on the text before it |
| `Text.SplitNoSeparator` | src/utils/ollama.ts:99 | a text without the separator splits into itself alone |
| `Text.SplitAfterPiece` | src/utils/ollama.ts:99 | a separator-free piece followed by the separator splits off as the first piece |
| `Ollama.IsOk` | src/utils/ollama.ts:48 | `response.ok`: the status is in 200..299 (the same test guards the chat call at line 83) |
| `Ollama.FetchAvailableModels` | src/utils/ollama.ts:45-57 | a non-ok status fails with that status; success exactly when the status is 2xx and the body is JSON; the result is `models` when present and `[]` when absent |
| `Ollama.NonBlank` | src/utils/ollama.ts:99 | the filter never makes the list of lines longer |
| `Ollama.NonBlankMembers` | src/utils/ollama.ts:99 | a line survives the filter exactly when it is one of the split lines and is not blank |
| `Ollama.ChunkLines` | src/utils/ollama.ts:99 | `chunk.split("\n").filter(line => line.trim() !== "")`: the split lines without the blank ones |
| `Ollama.LineRecords` | src/utils/ollama.ts:101-108 | each line is parsed in order; a parsed line yields its record, a line that fails to parse yields nothing |
| `Ollama.StreamRecords` | src/utils/ollama.ts:93-99 | each read chunk is framed on its own and the records are concatenated in read order |
| `Ollama.ReadsBeforeFailure` | src/utils/ollama.ts:93-95 | the chunks the loop processes: those of the reads before the first rejected `reader.read()` |
| `Ollama.Interrupted` | src/utils/ollama.ts:93-112 | some `reader.read()` was rejected, and the rejection is rethrown to the caller |
| `Ollama.Transfer` | src/utils/ollama.ts:65-114 | an unreachable server fails with a network error, a non-ok status with that status and a missing body with the no-body error, each before any record; otherwise the records of the chunks read before the first rejected read, interrupted exactly when some read was rejected |
| `Ollama.StreamChat` | src/utils/ollama.ts:65-114 | sends `{model, messages, stream: true}`; delivers exactly what the spec function `Transfer` gives for the reply; completes only on an ok status; a non-ok status fails with that status before any record is delivered |
| `Ollama.DeliverLines` | src/utils/ollama.ts:101-108 | the inner line loop hands the callback exactly the records `LineRecords` gives, in line order, skipping lines that do not parse |
| `Ollama.ReadsAllData` | src/utils/ollama.ts:93-95 | when no read is rejected, every read chunk is processed, in order, and the call is not interrupted |
| `Ollama.ReadsAppend` | src/utils/ollama.ts:93-95 | the chunks read before a failure, across two runs of reads, are those of the first run followed by those of the second, when the first run has no failure |
| `Ollama.ReadsExtend` | src/utils/ollama.ts:93-98 | one more successful read adds its chunk at the end of the chunks processed |
| `Ollama.ReadsStopAtFailure` | src/utils/ollama.ts:93-94 | a rejected read ends the loop: later reads are never processed and the call is interrupted |
| `Ollama.LineRecordsAppend` | src/utils/ollama.ts:101-108 | the records of two runs of lines are the first run's records followed by the second's: delivery keeps line order |
| `Ollama.StreamRecordsAppend` | src/utils/ollama.ts:93-99 | no state carries between reads: the records of two runs of chunks are each run's records, concatenated |
| `Ollama.StreamRecordsOne` | src/utils/ollama.ts:93-99 | a single read delivers exactly the records of its own chunk |
| `Ollama.FlatMapAppend` | src/utils/ollama.ts:93-99 | per-read framing with no carried state maps the reads of `a + b` to the output of `a` followed by that of `b` |
| `Ollama.LineRecordsCount` | src/utils/ollama.ts:99-104 | at most one callback per non-blank line, with exactly one per line exactly when every line parses |
| `Ollama.LineRecordsMembers` | src/utils/ollama.ts:101-104 | a record is delivered exactly when some line parses to it |
| `Ollama.MalformedLineSkipped` | src/utils/ollama.ts:101-108 | a line that fails to parse is skipped, and the lines before and after it are still delivered |
| `Ollama.BlankLinesNeverParsed` | src/utils/ollama.ts:99-103 | blank lines never reach the parser: two parsers that agree on non-blank lines deliver the same records for any chunks |
| `Ollama.NonBlankRecordsAgree` | src/utils/ollama.ts:101-104 | for lines that are all non-blank, two parsers that agree on non-blank text deliver the same records |
| `Ollama.EveryReadDelivered` | src/utils/ollama.ts:93-95 | every read's records are delivered in place, whatever came before; a `done: true` record does not end the loop |
| `Ollama.FlatMapAt` | src/utils/ollama.ts:93-99 | read `j`'s output sits, unchanged, between the outputs of the reads before and after it |
| `Ollama.SplitRecordLost` | src/utils/ollama.ts:93-99 | a record whose text is split across two reads is parsed as two fragments and lost, though the same text in one read is delivered |
| `Chat.UpdateById` | src/components/ChatContainer.tsx:67-76 | the `map` keeps the list length, rewrites the messages with the given id and leaves every other message as it was |
| `Chat.UserMessage` | src/components/ChatContainer.tsx:27-32 | the new user turn: its id, role `user`, the typed content and its timestamp, with no `isStreaming` |
| `Chat.Placeholder` | src/components/ChatContainer.tsx:36-42 | the assistant turn the stream fills in: its id, role `assistant`, content `""`, its timestamp and `isStreaming: true` |
| `Chat.Fragment` | src/components/ChatContainer.tsx:71 | `response.message?.content \|\| ""`: the message's text, or `""` when there is no message |
| `Chat.ApplyResponse` | src/components/ChatContainer.tsx:66-77 | the callback's update: the reply gets the fragment appended and is streaming exactly when the record is not `done` |
| `Chat.ApplyResponses` | src/components/ChatContainer.tsx:64-83 | the records of one stream applied one after the other, in delivery order |
| `Chat.ApplyFailure` | src/components/ChatContainer.tsx:89-100 | the `catch` update: the reply's text becomes the fixed error text and it stops streaming |
| `Chat.AfterSend` | src/components/ChatContainer.tsx:27-100 | the message list after one send: the two new turns appended, every delivered record applied, then the failure update if the stream failed |
| `Chat.ChatTurns` | src/components/ChatContainer.tsx:50-55 | the prior turns are no more than the messages, and none has the system role |
| `Chat.History` | src/components/ChatContainer.tsx:49-57 | the history ends with `{role: "user", content}` and everything before it is the snapshot's turns |
| `Chat.ApplyResponsesAt` | src/components/ChatContainer.tsx:66-77 | after records r1..rn the list length is unchanged, every message with another id is unchanged, and the assistant turn's content is the old content followed by every fragment in order (absent fragments as `""`), streaming exactly when the last record was not `done` |
| `Chat.FailureEffect` | src/components/ChatContainer.tsx:89-100 | on failure the assistant turn is the same record with its content replaced by the fixed error text and streaming off (id, role and timestamp kept, as the `...msg` spread does); every other message is unchanged |
| `Chat.ChatTurnsAppend` | src/components/ChatContainer.tsx:50-55 | the turns of two runs of messages are each run's turns, in order |
| `Chat.ChatTurnsMembers` | src/components/ChatContainer.tsx:50-55 | a turn is sent exactly when some user or assistant message projects to it; system messages are never sent |
| `Chat.HistoryExcludesPlaceholder` | src/components/ChatContainer.tsx:45-57 | the history is taken from the snapshot before the two new turns: it is the updated list's turns without the empty placeholder |
| `Chat.ApplyResponsesAlone` | src/components/ChatContainer.tsx:66-77 | a lone assistant turn ends as its old content followed by every fragment, streaming exactly when the last record was not `done` |
| `Chat.FragmentsOfThree` | src/components/ChatContainer.tsx:71 | three records contribute their three fragments, in arrival order |
| `Chat.HelloReply` | src/components/ChatContainer.tsx:66-77 | the records "He", "llo", "" (the last one `done`) turn the placeholder into "Hello", no longer streaming |
| `Chat.AnyDoneExtend` | src/components/ChatContainer.tsx:80-82 | some record among the first i+1 is `done` exactly when one among the first i is, or record i is |
| `Chat.ChatContainer.constructor` | src/components/ChatContainer.tsx:11-13 | an empty conversation, no model selected, not processing |
| `Chat.ChatContainer.SelectModel` | src/components/ChatContainer.tsx:114-117 | the header's model change sets the selected model |
| `Chat.ChatContainer.InputDisabled` | src/components/ChatContainer.tsx:123 | the message box is disabled while processing or when no model is selected |
| `Chat.ChatContainer.OnResponse` | src/components/ChatContainer.tsx:64-83 | a record is folded into the assistant turn, and processing ends when the record is `done` |
| `Chat.ChatContainer.HandleSendMessage` | src/components/ChatContainer.tsx:16-110 | with no model the state is unchanged and nothing is sent; otherwise the history request is sent, the two turns are appended, every delivered record is applied, a failure replaces the reply with the error text, and processing stays on, and the message box stays disabled, exactly when the stream completed without a `done` record; with no model the box is disabled |
| `Chat.SendResult` | src/components/ChatContainer.tsx:27-108 | one send adds exactly two messages after the untouched prior ones, the exact user turn with its own timestamp, then the assistant turn with its id, role and own timestamp, whose content is every fragment in order (streaming unless the last record was `done`) on completion, and the error text, not streaming, on failure |
| `Input.Submission` | src/components/MessageInput.tsx:24-30 | a submit sends something exactly when the box is enabled and the text is not blank, and then it sends the trimmed text, non-empty and without outer whitespace |
| `Input.SendButtonDisabled` | src/components/MessageInput.tsx:57 | `disabled \|\| !input.trim()`: the send button is disabled when the box is disabled or the trimmed input is empty |
| `Input.SendButtonMatchesSubmit` | src/components/MessageInput.tsx:57 | the send button is disabled exactly when `disabled` is set or the trimmed input is empty, which is exactly when a submit would send nothing |
| `Input.SubmissionStable` | src/components/MessageInput.tsx:26-27 | when the box is enabled and the text is not blank, a submit sends the trimmed text, and submitting that text again sends it unchanged |
| `Input.SubmitsOnKey` | src/components/MessageInput.tsx:34 | `e.key === "Enter" && !e.shiftKey`: only Enter without Shift submits |
| `Input.MessageInput.constructor` | src/components/MessageInput.tsx:13 | the box starts empty |
| `Input.MessageInput.SetDisabled` | src/components/MessageInput.tsx:12 | a new `disabled` prop from the parent replaces the old one |
| `Input.MessageInput.OnChange` | src/components/MessageInput.tsx:46 | typing replaces the input text |
| `Input.MessageInput.HandleSubmit` | src/components/MessageInput.tsx:24-30 | sends exactly what `Submission` allows; after a send the input is `""`, otherwise it is unchanged |
| `Input.MessageInput.HandleKeyDown` | src/components/MessageInput.tsx:32-38 | Enter without Shift submits; any other key, or Shift+Enter, sends nothing and leaves the input unchanged |
| `Selector.DefaultSelection` | src/components/ModelSelector.tsx:24-26 | a selection is made exactly when models came back and nothing was selected, and it is the first model's name |
| `Selector.ModelSelector.constructor` | src/components/ModelSelector.tsx:12-14 | no models, loading, no error |
| `Selector.ModelSelector.Disabled` | src/components/ModelSelector.tsx:44 | the drop-down is disabled while loading or when there are no models |
| `Selector.ModelSelector.GetModels` | src/components/ModelSelector.tsx:17-34 | loading is off after either outcome; success stores the fetched list, clears the error and makes the default selection; failure sets the fixed notice and keeps the old models; the drop-down is then disabled exactly when the list is empty |

## Left out

- HTTP is not modelled: `fetch`, the URLs, the headers and the reader's `await`s. A reply is a status plus a list of reads, and an unreachable server is a separate case.
- `TextDecoder` is not modelled. Chunks are already-decoded text. The source makes a fresh decoder per chunk, so it can corrupt a multi-byte character split across reads, and the model does not show this.
- `JSON.parse` is the `parse` parameter, and `JSON.stringify` is the `ChatRequest` value. JSON syntax is not modelled.
- `Ollama.StreamChat`: the records come back as a list after the read loop ends. The source pushes them to the callback while the loop runs. `Chat.ChatContainer.HandleSendMessage` applies them in the same order, so the final state is the same, but the intermediate renders are not modelled.
- `Ollama.StreamChat`: the model assumes the callback never throws. In the source, an exception thrown by the callback would be caught and logged like a parse failure.
- React is not modelled: `useState` batching, `useCallback` and `useEffect` re-runs. `messages` is the snapshot at call time, and `getModels` is one call.
- `Chat.ChatContainer.HandleSendMessage` requires the assistant id to be distinct from the user id and from every existing id. This stands in for `uuidv4` freshness. The two `new Date()` calls are two integer parameters, one per turn.
- `Input.MessageInput`: the `disabled` prop is a field, given to the constructor and replaced by `SetDisabled`. Its default of `false` and its wiring to `isProcessing || !selectedModel` in `ChatContainer` are not modelled; the parent's side of that rule is `Chat.ChatContainer.InputDisabled`.
- Toasts, `console.error` and all rendering are not modelled: `MessageList`, `ChatHeader` and its greeting, the page layout, textarea auto-resize and auto-scroll.
- `Text.IsWhitespace` uses a fixed list of code points: the ECMAScript WhiteSpace and LineTerminator code points, with the space separators of Unicode 15.
