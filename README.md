# CTFBot front-end core, modelled in Dafny

CTFBot is a browser chat client for a large language model, written as one
script, `assets/js/app.js`. This project models that script's logic and
leaves out its page, network and storage glue:

- **Conversations** (`conversations.dfy`). The flat chat history is a list
  of `{type, content}` messages. The sidebar cuts it into conversations. A
  `system` message whose content includes `Hello! I'm CTFBot` is pushed
  onto the current conversation and then closes it, and a non-empty
  leftover becomes the last conversation. The model has:
  - the grouping loop;
  - `deleteConversation`, which splices one conversation out and flattens
    the rest back into the history;
  - the sidebar titles, which are the first user message cut to thirty
    characters.
- **Prompts** (`prompts.dfy`):
  - `constructPromptWithContext` sends the system prompt, the optional
    current context, the last five history entries and the user's turn.
  - `constructPromptWithHistory` does the same with the last twenty
    entries and no context. The page never calls it.
  - `formatQueryForAssistanceType` puts a fixed request in front of the
    message for four assistance types.
- **Streaming** (`streaming.dfy`). The read loop of `sendToGemini` turns
  streamed chunks into the answer. It splits each chunk into lines, drops
  blank lines, and appends the text each `data: ` line carries. Parsing a
  line's JSON is a parameter that says what the payload holds.
- **Settings** (`settings.dfy`):
  - the theme toggle and the theme actually shown;
  - the API-key format check `^[A-Za-z0-9-_]{39}$`.
- **The state object** (`app_state.dfy`). The class `App.AppState` holds
  `apiKey`, `theme`, `saveHistory`, `isProcessing`, `chatHistory` and
  `currentContext`. Its methods are:
  - `handleSendMessage`, with its guards, the push of the user entry
    before the call, the push of the answer on success, the error line on
    failure and the busy flag cleared in `finally`;
  - `sendToGemini`, `setProcessingState` and `deleteConversation`;
  - what `clearChatHistory`, `loadChatHistory` and `saveSettings` do to
    the state;
  - the theme controls.

  The API's behaviour for one request is an `ApiOutcome` given by the
  caller: a network failure, an HTTP error with a JSON body or with a body
  that is not JSON, a stream of chunks that completes, or one whose reader
  fails partway through.
- **JavaScript built-ins** (`js_builtins.dfy`): the parts of the language
  the code depends on.
  - `Array.prototype.slice` with a negative start, `splice(i, 1)` and
    `flat()`.
  - `String.prototype.trim`, `includes`, `startsWith` and `split`.
  - The decimal rendering of a number in a template string.

## Model

| member | source | states |
|---|---|---|
| JsBuiltins.Trim | assets/js/app.js:169 | the trimmed text is the input with a run of JS whitespace cut from each end, and it neither starts nor ends with whitespace |
| JsBuiltins.TrimEmptyIffBlank | assets/js/app.js:169-170 | the trimmed message is empty (so the send guard fires) exactly when the input is all whitespace |
| JsBuiltins.IncludesIffOccurs | assets/js/app.js:703 | `includes` holds exactly when the text occurs at some position |
| JsBuiltins.SliceStart | assets/js/app.js:357 | where `slice(start)` begins: a negative start counts back from the end, and both directions are clamped to the array |
| JsBuiltins.SliceLast | assets/js/app.js:357 | `slice(-n)` holds the last min(n, length) elements in their order |
| JsBuiltins.SliceLastSlides | assets/js/app.js:357 | once the history holds n entries, pushing one more slides the `slice(-n)` window by one |
| JsBuiltins.SpliceOne | assets/js/app.js:790 | `splice(index, 1)` removes the element at the clamped index and keeps the others in order, or changes nothing when the index is past the end |
| JsBuiltins.FlatAppend | assets/js/app.js:793 | `flat()` of two runs of groups is the two flattenings one after the other |
| JsBuiltins.FlatAt | assets/js/app.js:793 | the flattening is the groups before `j`, group `j`, then the groups after `j` |
| JsBuiltins.NumberToString | assets/js/app.js:271 | a status code is written with at least one decimal digit, with one digit exactly below ten, and with no leading zero |
| JsBuiltins.NumberToStringValue | assets/js/app.js:271 | the digits written for a status read back as that status |
| JsBuiltins.Split | assets/js/app.js:284 | `split('\n')` yields at least one piece, and no piece contains a line break |
| JsBuiltins.JoinSplit | assets/js/app.js:284 | joining the pieces of `split` with the separator gives back the text |
| JsBuiltins.SplitJoin | assets/js/app.js:284 | splitting a join of separator-free pieces gives back the pieces |
| JsBuiltins.SplitAround | assets/js/app.js:284 | the pieces of `x + sep + y` are the pieces of `x` followed by the pieces of `y` |
| Conversations.SentinelIff | assets/js/app.js:703 | a message closes a conversation exactly when its type is `system` and the greeting occurs somewhere in its content |
| Conversations.DeletedHistory | assets/js/app.js:773-793 | deleting a conversation never lengthens the history |
| Conversations.OrdinaryHistoryIsOneConversation | assets/js/app.js:698-712 | a history without sentinels is a single conversation, or none when empty |
| Conversations.DeleteInOrdinaryHistory | assets/js/app.js:773-793 | in a history without sentinels, index 0 or a negative index deletes everything and any other index deletes nothing |
| Conversations.FirstGroupLength | assets/js/app.js:700-704 | the first conversation reaches up to and including the first sentinel, or to the end of the history |
| Conversations.Partition | assets/js/app.js:698-712 | there are no more conversations than messages, and none exactly for an empty history |
| Conversations.PartitionIsPartition | assets/js/app.js:698-712 | the conversations laid end to end give back the history, none is empty, a sentinel only ends a conversation, and every conversation but the last ends with one |
| Conversations.PartitionUnique | assets/js/app.js:698-712 | any cutting of the history with those properties is the one the grouping computes |
| Conversations.FlatPartition | assets/js/app.js:698-712 | flattening the conversations gives back the history, and none of them is empty |
| Conversations.GroupConversations | assets/js/app.js:698-712 | the `forEach` grouping loop computes the partition of the history |
| Conversations.DeleteCutsOneBlock | assets/js/app.js:773-793 | deleting conversation `i` removes exactly its block of messages and keeps everything before and after it in order |
| Conversations.DeleteRegroups | assets/js/app.js:773-793 | after deleting conversation `i` the history regroups into exactly the other conversations, in their old order, one fewer |
| Conversations.DeleteOutOfRange | assets/js/app.js:790-793 | an index past the last conversation leaves the history unchanged |
| Conversations.DeleteFromEnd | assets/js/app.js:790-793 | a negative index deletes the conversation that many places from the newest |
| Conversations.FirstUserIndex | assets/js/app.js:720 | `find` stops at the first user message, and no message before it is a user message |
| Conversations.TitleOfConversation | assets/js/app.js:720-725 | the title is the first user message, or that message's first thirty characters followed by `...` when it is longer, or `New Conversation` when there is no user message |
| Conversations.UpdateChatHistoryList | assets/js/app.js:685-749 | an empty history shows the placeholder; otherwise there is one title per conversation, oldest first |
| Conversations.AppendAfterClosed | assets/js/app.js:195-203 | messages pushed after a closed conversation, or onto an empty history, form a new conversation of their own |
| Conversations.AppendToOpen | assets/js/app.js:195-203 | messages pushed while the newest conversation is open join that conversation |
| Prompts.HistoryLineLabel | assets/js/app.js:361 | an entry is labelled `User` exactly when its type is `user`, and `CTFBot` otherwise |
| Prompts.RenderHistoryAppend | assets/js/app.js:360-363 | replaying two runs of entries gives the two replays one after the other |
| Prompts.RenderHistoryAt | assets/js/app.js:360-363 | the line of entry `j` sits between the lines of the entries before it and those after it |
| Prompts.ConstructPromptWithContext | assets/js/app.js:347-371 | the prompt starts with the system prompt and a blank line, and ends with the `User: …\n\nCTFBot:` cue for the given user prompt |
| Prompts.ConstructPromptWithHistory | assets/js/app.js:399-418 | the same start and end for the history composer |
| Prompts.PromptForFreshChat | assets/js/app.js:349-368 | with no context and no history, each composer gives the system prompt, a blank line and the user cue, and nothing else |
| Prompts.RecentConversationWindow | assets/js/app.js:347-371 | the replayed block holds exactly the last min(5, length) entries, oldest first, after the optional context block; it is left out for an empty history |
| Prompts.PreviousConversationWindow | assets/js/app.js:399-418 | the same with the last min(20, length) entries under `Previous conversation:` |
| Prompts.ComposersAgreeOnShortHistory | assets/js/app.js:347-418 | on at most five entries and no context, the two composers replay the same entries and differ only in the header |
| Prompts.SendPromptRepeatsUserText | assets/js/app.js:195-198 | the user entry is pushed before composing, so the sent prompt ends with the raw user line, a blank line and the cue carrying the formatted query |
| Prompts.ParseAssistanceType | assets/js/app.js:378-394 | exactly `analyze`, `hint`, `approach` and `explain` select a request |
| Prompts.FormatQueryForAssistanceType | assets/js/app.js:374-396 | the query always ends with the user's message, and it differs from the message exactly for the four assistance types |
| Prompts.FormatQueryRoundTrip | assets/js/app.js:374-396 | the user's message can be read back from the formatted query |
| Streaming.KeepNonBlank | assets/js/app.js:284 | the blank-line filter keeps no more lines than it is given, and none it keeps is blank |
| Streaming.LineText | assets/js/app.js:288-295 | a line adds text exactly when it is a `data: ` line whose payload parses to a non-empty text, and then it adds that text; a blank line adds nothing |
| Streaming.ContributingLine | assets/js/app.js:288-292 | a `data: ` line whose payload carries text `t` adds `t` to the answer between the texts of the lines before and after it |
| Streaming.KeepNonBlankOne | assets/js/app.js:284 | the filter keeps a single line exactly when it is not blank; with `KeepNonBlankAppend`, every non-blank line is kept, in order |
| Streaming.FilterKeepsText | assets/js/app.js:284-295 | dropping the blank lines never changes the answer |
| Streaming.StreamText | assets/js/app.js:274-300 | the answer is empty exactly when no chunk carries text |
| Streaming.ReadLines | assets/js/app.js:286-299 | the inner `for` appends to `fullResponse` the text of every kept line, in order |
| Streaming.ReadStream | assets/js/app.js:274-299 | the read loop's `fullResponse` is the in-order concatenation of the text of every `data: ` line of every chunk |
| Streaming.TextsGrow | assets/js/app.js:286-296 | one more line adds exactly its text to the answer so far |
| Streaming.StreamGrows | assets/js/app.js:278-299 | one more chunk adds exactly its text to the answer so far |
| Streaming.LinesTextAppend | assets/js/app.js:286-296 | the text of two runs of lines is the two texts one after the other |
| Streaming.SkippedLine | assets/js/app.js:288-297 | a line that is not a `data: ` line, or whose payload is malformed or has no text, leaves the answer as if it were absent |
| Streaming.StreamTextAppend | assets/js/app.js:278-299 | reading more chunks only extends the answer |
| Streaming.KeepNonBlankAppend | assets/js/app.js:284 | the blank-line filter works line by line |
| Streaming.ChunkBoundaryAtLineBreak | assets/js/app.js:283-284 | when a chunk ends with a line break, reading it separately from the next chunk gives the same text as reading both at once |
| Streaming.LinesAtLineBreak | assets/js/app.js:284 | a trailing line break adds no kept line, and text after a line break adds its own lines |
| Settings.ToggledTheme | assets/js/app.js:590-595 | the toggle always leaves `light` or `dark`, swaps those two, and always changes the theme shown |
| Settings.EffectiveTheme | assets/js/app.js:616-618 | the theme shown is never `system`; a known theme shows as light or dark; any theme other than `system` shows as itself |
| Settings.ToggleFromSystem | assets/js/app.js:590-592 | from `system`, the toggle picks the opposite of the theme that was shown |
| Settings.ToggleTwice | assets/js/app.js:590-595 | toggling twice from a known theme shows the theme shown at the start, and gives back `light` or `dark` themselves |
| Settings.HasValidKeyFormat | assets/js/app.js:480 | a key that passes the format check is 39 characters long |
| Settings.MatchesKeyClassIff | assets/js/app.js:480 | `[A-Za-z0-9-_]{n}` anchored at both ends matches exactly the texts of `n` characters of the class |
| Settings.KeyFormatIff | assets/js/app.js:480 | a key passes the format check exactly when it is 39 characters long and each character is a letter, a digit, `-` or `_` |
| App.HttpErrorMessage | assets/js/app.js:269-272 | the error is the body's `error.message` when it is non-empty, else `API Error: ` followed by the status in decimal |
| App.Response | assets/js/app.js:236-314 | `sendToGemini` resolves exactly when the response streams to the end, and then with an empty answer exactly when no chunk carries text; every other outcome rejects |
| App.HistoryAfterSend | assets/js/app.js:194-203 | a send past the guards keeps the old history as a prefix, adds the user entry with the trimmed text, and adds the assistant entry with the streamed answer only when the stream completes |
| App.ErrorShown | assets/js/app.js:222-225 | an error line is shown exactly when the call rejects, and it starts with `Error: ` |
| App.SendKeepsOrdinary | assets/js/app.js:195-203 | a send keeps a history free of sentinels |
| App.AppState.constructor | assets/js/app.js:24-31 | the stored key and theme are used when present and non-empty, otherwise `""` and `system`; history saving is on unless storage says `false`; the busy flag is off, the history empty and the context empty |
| App.AppState.SetProcessingState | assets/js/app.js:463-464 | only the busy flag changes |
| App.AppState.SendToGemini | assets/js/app.js:236-302 | without a key nothing is sent and the call rejects with `API key is required`; otherwise the prompt composed from the current context and history is sent, and the call settles as the outcome says, a stream giving the concatenated text |
| App.AppState.HandleSendMessage | assets/js/app.js:168-233 | if the trimmed input is empty, a send is running or there is no key, nothing changes; otherwise the prompt sent replays the history with the user entry already pushed, the history grows by the user entry and then by the answer only on success, the error line is shown only on failure, and the busy flag ends cleared |
| App.AppState.Submit | assets/js/app.js:184-227 | past the guards: the user entry is pushed before the call, the answer after it on success, and the busy flag is cleared in both cases |
| App.AppState.DeleteConversation | assets/js/app.js:773-802 | the history becomes the flattening of its conversations with the one at `index` spliced out, and nothing else changes |
| App.AppState.ClearChatHistory | assets/js/app.js:672-675 | the history becomes empty, and nothing else changes |
| App.AppState.LoadChatHistory | assets/js/app.js:653-669 | a stored, parseable history replaces the current one when saving history is on; otherwise nothing changes |
| App.AppState.SaveSettings | assets/js/app.js:565-582 | a non-empty trimmed key input becomes the key, the toggle becomes the history preference, and switching saving off empties the history |
| App.AppState.ToggleTheme | assets/js/app.js:585-598 | the stored theme becomes the toggled theme, and nothing else changes |
| App.AppState.SelectTheme | assets/js/app.js:147-153 | a theme button with a `data-theme` stores that theme; one without leaves the state unchanged |
| App.SendEntriesAreOrdinary | assets/js/app.js:195-203 | the entries a send pushes are never sentinels |
| App.SuccessfulSendGrowsNewestConversation | assets/js/app.js:195-203 | after a successful send the sidebar shows the same conversations, with the user entry and the answer added to the newest one, or as a new one after a closed conversation |

## Left out

- Page work is not modelled. This covers `addMessageToChat`, `addEmptyMessage`, `updateMessageContent`, the modals, the sidebar, `loadConversation`, `adjustTextareaHeight`, the event wiring and the markdown rendering in `processMessageContent`/`escapeHtml`. None of it changes the state beyond what is modelled. The error line of a failed send is returned by `HandleSendMessage` instead of being drawn.
- The network is an input:
  - `fetch`, the `ReadableStream` reader and `TextDecoder` are replaced by `ApiOutcome`, which lists the decoded chunks of a stream.
  - `JSON.parse` and the optional chaining to `candidates[0].content.parts[0].text` are replaced by the `parse` parameter, which says whether a payload is malformed, carries no text or carries a text.
  - A payload whose text is truthy but not a string is not modelled.
  - An error response whose body is not JSON rejects with the parser's message (`ApiOutcome.UnreadableErrorBody`). A `reader.read()` that rejects partway through a stream drops the text read so far and rejects with its own message (`ApiOutcome.StreamBroken`). Both end the send like a network failure: only the user entry is pushed, and the error line is shown. The parser's and the reader's messages are inputs.
- Streaming.ChunkText: a line split across two chunks is read as two separate lines, as the code does. Nothing reassembles it, so `ChunkBoundaryAtLineBreak` holds only where a chunk ends on a line break.
- Storage itself is left out. The `localStorage` reads are parameters: the constructor's for the settings, and `LoadChatHistory`'s for the stored history once parsed. The writes are not modelled: `saveChatHistory`, the `setItem`/`removeItem` calls in `saveSettings` and `clearChatHistory`, and the `saveHistory` branch of `handleSendMessage` (with its `updateChatHistoryList`). What those handlers do to the state is modelled (`ClearChatHistory`, `LoadChatHistory`, `SaveSettings`). The code stores the whole history: it trims nothing, has no pagination and does not retry on a full quota.
- App.AppState.SaveSettings: the `checkApiKeyStatus` call after a new key is left out; it only issues a request and reports its outcome on the page.
- App.AppState.LoadChatHistory: stored JSON that parses to something other than a list of `{type, content}` records is not modelled. The code assigns the parsed value to `state.chatHistory` in every case (assets/js/app.js:658). A value that is not an array (`null`, a number, a string, an object) makes `forEach` throw; the error is caught and the value stays in `state.chatHistory`. An array of other values is assigned and each entry is drawn with its `type` and `content` without error, except that an entry that is `null` throws at `msg.type`, after the entries before it are drawn. The messages it draws on the page are left out, as is the call of `loadChatHistory` from `init`.
- Only `loadChatHistory` can bring a `system` entry, and so a sentinel, into the history; a send pushes only `user` and `assistant` entries (`App.SendKeepsOrdinary`). So in every state the handlers reach from a fresh state without loading stored history, the history is at most one conversation, and a delete removes everything or nothing (`Conversations.DeleteInOrdinaryHistory`).
- `checkApiKeyStatus` and `updateApiStatus` are left out: they only issue a network request and report its outcome.
- `checkApiStatus` is not called anywhere in the script. Only its format check is modelled (`Settings.HasValidKeyFormat`); its request is left out.
- Browser inputs are parameters:
  - `window.matchMedia` is the `systemPrefersDark` parameter.
  - `window.innerWidth`, `requestAnimationFrame` and `setTimeout` only affect focus, scrolling and timing, and are left out.
- `updateApiUrl`, `updateModelSelect` and the `modelSelect` listener (assets/js/app.js:805-839) are left out. They read state fields that are never defined.
- Concurrency is not modelled. `handleSendMessage` runs as one atomic step; the code's only guard against a second send is the busy flag, which the model keeps.
- App.AppState.systemPrompt: the text of DEFAULT_SYSTEM_PROMPT (assets/js/app.js:10-21) is not reproduced. The system prompt is given to the constructor, which stands for that constant, and every property proved holds for any system prompt.
- Conversations.TitleOfConversation: lengths are counted in characters. JavaScript counts UTF-16 code units, so a title with characters outside the Basic Multilingual Plane may be cut at a different place.
- `state.currentContext` is never assigned anywhere in the script. It is kept as a field that no method changes.
- Behaviours of the code worth knowing, which the model keeps:
  - An out-of-range delete index removes nothing, as `splice` does.
  - A stream with no text yields an empty answer, and that empty answer is pushed to the history as the assistant entry.
  - An error is shown in the chat but is not stored in the history.
