/** The front-end's mutable `state` object (assets/js/app.js) and the
    handlers that change it: sending a message, deleting a conversation,
    clearing, loading and saving settings, and the theme controls.
    Everything the handlers do to the page, to `localStorage` and to the
    network is outside the model; what storage holds and the answer of the
    API are parameters the caller supplies. */
module App {
  import opened JsBuiltins
  import opened Conversations
  import opened Prompts
  import opened Streaming
  import opened Settings

  /** What the streaming request of one send meets. */
  datatype ApiOutcome =
      /** `fetch` itself rejects, with this error message. */
    | NetworkFailure(message: string)
      /** The response is not ok and its body is JSON: its status and the
          `error.message` of that JSON, if it has one. */
    | HttpError(status: nat, errorMessage: Option<string>)
      /** The response is not ok and its body is not JSON (an HTML error
          page, say): `response.json()` rejects with the parser's message,
          and that message is the error, not `API Error: <status>`. */
    | UnreadableErrorBody(status: nat, parseError: string)
      /** The response streams these decoded chunks; `parse` says what the
          payload of each `data: ` line parses to. */
    | Streamed(chunks: seq<string>, parse: string -> Payload)
      /** The response streams these decoded chunks, then `reader.read()`
          rejects with `readError`; the text read so far is dropped. */
    | StreamBroken(chunks: seq<string>, parse: string -> Payload, readError: string)

  /** The message of the error thrown for a response that is not ok:
      `errorData.error?.message || \`API Error: ${response.status}\``. */
  function HttpErrorMessage(status: nat, errorMessage: Option<string>): (message: string)
    ensures errorMessage.Some? && errorMessage.value != "" ==> message == errorMessage.value
    ensures (errorMessage.None? || errorMessage.value == "") ==> message == "API Error: " + NumberToString(status)
  {
    if errorMessage.Some? && errorMessage.value != "" then errorMessage.value
    else "API Error: " + NumberToString(status)
  }

  /** What `sendToGemini` resolves to or rejects with, once the key is
      present: the streamed answer, or the error message. */
  function Response(outcome: ApiOutcome): (r: Result<string>)
    ensures r.Ok? <==> outcome.Streamed?
    ensures r.Ok? ==> (r.value == "" <==> forall k :: 0 <= k < |outcome.chunks| ==> ChunkText(outcome.chunks[k], outcome.parse) == "")
  {
    match outcome
    case NetworkFailure(message) => Err(message)
    case HttpError(status, errorMessage) => Err(HttpErrorMessage(status, errorMessage))
    case UnreadableErrorBody(_, parseError) => Err(parseError)
    case Streamed(chunks, parse) => Ok(StreamText(chunks, parse))
    case StreamBroken(_, _, readError) => Err(readError)
  }

  /** Whether `handleSendMessage` returns before doing anything: the
      trimmed input is empty, a send is still running, or there is no key. */
  predicate SendIsBlocked(text: string, isProcessing: bool, apiKey: string)
  {
    text == "" || isProcessing || apiKey == ""
  }

  /** The history after a send that got past the guards: the user entry
      with the trimmed text, then the answer if there is one. */
  function HistoryAfterSend(history: seq<Message>, text: string, outcome: ApiOutcome): (after: seq<Message>)
    ensures |after| == |history| + (if outcome.Streamed? then 2 else 1)
    ensures after[..|history|] == history && after[|history|] == Message("user", text)
    ensures outcome.Streamed? ==> after[|history| + 1] == Message("assistant", StreamText(outcome.chunks, outcome.parse))
  {
    match Response(outcome)
    case Ok(answer) => history + [Message("user", text), Message("assistant", answer)]
    case Err(_) => history + [Message("user", text)]
  }

  /** The error line a send that got past the guards shows in the chat. */
  function ErrorShown(outcome: ApiOutcome): (shown: Option<string>)
    ensures shown.None? <==> outcome.Streamed?
    ensures shown.Some? ==> "Error: " <= shown.value
  {
    match Response(outcome)
    case Ok(_) => None
    case Err(message) => Some("Error: " + message)
  }

  /** The value `localStorage.getItem(key) || fallback` gives. */
  function StoredOr(stored: Option<string>, fallback: string): string
  {
    if stored.Some? && stored.value != "" then stored.value else fallback
  }

  /** The `state` object. `systemPrompt` is the instruction text
      `sendToGemini` composes every prompt with: the module constant
      DEFAULT_SYSTEM_PROMPT. */
  class AppState {
    const systemPrompt: string
    var apiKey: string
    var theme: string
    var saveHistory: bool
    var isProcessing: bool
    var chatHistory: seq<Message>
    var currentContext: string

    /** The initial state, from the system prompt and what storage holds
        under 'ctfbot_api_key', 'ctfbot_theme' and 'ctfbot_save_history'
        (None when a key is absent). Saving history is on unless storage
        says 'false'. */
    constructor (instructions: string, storedApiKey: Option<string>, storedTheme: Option<string>,
                 storedSaveHistory: Option<string>)
      ensures systemPrompt == instructions
      ensures apiKey == StoredOr(storedApiKey, "")
      ensures theme == StoredOr(storedTheme, "system")
      ensures saveHistory <==> storedSaveHistory != Some("false")
      ensures !isProcessing && chatHistory == [] && currentContext == ""
    {
      systemPrompt := instructions;
      apiKey := StoredOr(storedApiKey, "");
      theme := StoredOr(storedTheme, "system");
      saveHistory := storedSaveHistory != Some("false");
      isProcessing := false;
      chatHistory := [];
      currentContext := "";
    }

    /** `setProcessingState`: only the busy flag of the state changes. */
    method SetProcessingState(processing: bool)
      modifies this
      ensures isProcessing == processing
      ensures apiKey == old(apiKey) && theme == old(theme) && saveHistory == old(saveHistory)
      ensures chatHistory == old(chatHistory) && currentContext == old(currentContext)
    {
      isProcessing := processing;
    }

    /** `sendToGemini(prompt)`. Without a key nothing is sent and the call
        rejects; otherwise the prompt composed from the current state is
        sent and the call settles as the outcome says. The state is only
        read. */
    method SendToGemini(prompt: string, outcome: ApiOutcome) returns (sent: Option<string>, result: Result<string>)
      ensures apiKey == "" ==> sent.None? && result == Err("API key is required")
      ensures apiKey != "" ==>
        sent == Some(ConstructPromptWithContext(systemPrompt, currentContext, chatHistory, prompt))
        && result == Response(outcome)
    {
      if apiKey == "" {
        return None, Err("API key is required");
      }
      sent := Some(ConstructPromptWithContext(systemPrompt, currentContext, chatHistory, prompt));
      match outcome {
        case NetworkFailure(message) =>
          result := Err(message);
        case HttpError(status, errorMessage) =>
          result := Err(HttpErrorMessage(status, errorMessage));
        case UnreadableErrorBody(_, parseError) =>
          result := Err(parseError);
        case Streamed(chunks, parse) =>
          var fullResponse := ReadStream(chunks, parse);
          result := Ok(fullResponse);
        case StreamBroken(chunks, parse, readError) =>
          var partial := ReadStream(chunks, parse);
          result := Err(readError);
      }
    }

    /** `handleSendMessage`, run to completion as one step, with the text of
        the input box, the selected assistance type and what the request
        meets. Returns the prompt sent to the API and the error line shown
        in the chat, if any. */
    method HandleSendMessage(input: string, assistanceType: string, outcome: ApiOutcome)
      returns (sent: Option<string>, shownError: Option<string>)
      modifies this
      ensures SendIsBlocked(Trim(input), old(isProcessing), old(apiKey)) ==>
        chatHistory == old(chatHistory) && isProcessing == old(isProcessing)
        && sent.None? && shownError.None?
      ensures !SendIsBlocked(Trim(input), old(isProcessing), old(apiKey)) ==>
        var user := Message("user", Trim(input));
        sent == Some(ConstructPromptWithContext(systemPrompt, currentContext, old(chatHistory) + [user],
                                                FormatQueryForAssistanceType(Trim(input), assistanceType)))
        && chatHistory == HistoryAfterSend(old(chatHistory), Trim(input), outcome)
        && !isProcessing && shownError == ErrorShown(outcome)
      ensures apiKey == old(apiKey) && theme == old(theme) && saveHistory == old(saveHistory)
      ensures currentContext == old(currentContext)
    {
      var messageText := Trim(input);
      if messageText == "" || isProcessing {
        return None, None;
      }
      if apiKey == "" {
        return None, None;
      }
      var formattedMessage := FormatQueryForAssistanceType(messageText, assistanceType);
      sent, shownError := Submit(messageText, formattedMessage, outcome);
    }

    /** The part of `handleSendMessage` past the guards: mark the state
        busy, push the user entry, send the formatted query, push the answer
        or take the error, and clear the busy flag. */
    method Submit(messageText: string, formattedMessage: string, outcome: ApiOutcome)
      returns (sent: Option<string>, shownError: Option<string>)
      requires apiKey != ""
      modifies this
      ensures sent == Some(ConstructPromptWithContext(systemPrompt, currentContext,
                                                      old(chatHistory) + [Message("user", messageText)], formattedMessage))
      ensures chatHistory == HistoryAfterSend(old(chatHistory), messageText, outcome)
      ensures !isProcessing && shownError == ErrorShown(outcome)
      ensures apiKey == old(apiKey) && theme == old(theme) && saveHistory == old(saveHistory)
      ensures currentContext == old(currentContext)
    {
      SetProcessingState(true);
      chatHistory := chatHistory + [Message("user", messageText)];
      var result;
      sent, result := SendToGemini(formattedMessage, outcome);
      match result {
        case Ok(response) =>
          chatHistory := chatHistory + [Message("assistant", response)];
          shownError := None;
        case Err(message) =>
          shownError := Some("Error: " + message);
      }
      SetProcessingState(false);
    }

    /** `deleteConversation(index)`: group the history, splice out the
        conversation at `index`, flatten the rest back into the history. */
    method DeleteConversation(index: int)
      modifies this
      ensures chatHistory == DeletedHistory(old(chatHistory), index)
      ensures apiKey == old(apiKey) && theme == old(theme) && saveHistory == old(saveHistory)
      ensures isProcessing == old(isProcessing) && currentContext == old(currentContext)
    {
      var conversations := GroupConversations(chatHistory);
      conversations := SpliceOne(conversations, index);
      chatHistory := Flat(conversations);
    }

    /** `clearChatHistory`: the history becomes empty. */
    method ClearChatHistory()
      modifies this
      ensures chatHistory == []
      ensures apiKey == old(apiKey) && theme == old(theme) && saveHistory == old(saveHistory)
      ensures isProcessing == old(isProcessing) && currentContext == old(currentContext)
    {
      chatHistory := [];
    }

    /** `loadChatHistory`, with what storage holds under
        'ctfbot_chat_history' once parsed: None when the key is absent,
        empty, or not valid JSON (`JSON.parse` throws before anything is
        assigned). The stored history replaces the current one only when
        saving history is on. */
    method LoadChatHistory(stored: Option<seq<Message>>)
      modifies this
      ensures chatHistory == (if saveHistory && stored.Some? then stored.value else old(chatHistory))
      ensures apiKey == old(apiKey) && theme == old(theme) && saveHistory == old(saveHistory)
      ensures isProcessing == old(isProcessing) && currentContext == old(currentContext)
    {
      if saveHistory {
        if stored.Some? {
          chatHistory := stored.value;
        }
      }
    }

    /** `saveSettings`, with the text of the key field and the state of the
        history toggle: a non-empty trimmed key replaces the stored one,
        the toggle becomes the history preference, and switching saving
        off clears the history. */
    method SaveSettings(apiKeyInput: string, historyToggle: bool)
      modifies this
      ensures apiKey == (if Trim(apiKeyInput) != "" then Trim(apiKeyInput) else old(apiKey))
      ensures saveHistory == historyToggle
      ensures chatHistory == (if historyToggle then old(chatHistory) else [])
      ensures theme == old(theme) && isProcessing == old(isProcessing) && currentContext == old(currentContext)
    {
      var newApiKey := Trim(apiKeyInput);
      if newApiKey != "" && newApiKey != apiKey {
        apiKey := newApiKey;
      }
      saveHistory := historyToggle;
      if !saveHistory {
        ClearChatHistory();
      }
    }

    /** `toggleTheme`, with the browser's dark-mode preference. */
    method ToggleTheme(systemPrefersDark: bool)
      modifies this
      ensures theme == ToggledTheme(old(theme), systemPrefersDark)
      ensures apiKey == old(apiKey) && saveHistory == old(saveHistory) && isProcessing == old(isProcessing)
      ensures chatHistory == old(chatHistory) && currentContext == old(currentContext)
    {
      var currentTheme := theme;
      var newTheme;
      if currentTheme == "system" {
        newTheme := if systemPrefersDark then "light" else "dark";
      } else {
        newTheme := if currentTheme == "light" then "dark" else "light";
      }
      theme := newTheme;
    }

    /** A theme button in the settings: its `data-theme` is stored when it
        has one. */
    method SelectTheme(dataTheme: string)
      modifies this
      ensures theme == (if dataTheme != "" then dataTheme else old(theme))
      ensures apiKey == old(apiKey) && saveHistory == old(saveHistory) && isProcessing == old(isProcessing)
      ensures chatHistory == old(chatHistory) && currentContext == old(currentContext)
    {
      if dataTheme != "" {
        theme := dataTheme;
      }
    }
  }

  // ------------------------------------------------------------ properties

  /** Messages a send pushes are never sentinels, so they never close a
      conversation. */
  lemma SendEntriesAreOrdinary(text: string, answer: string)
    ensures !IsSentinel(Message("user", text)) && !IsSentinel(Message("assistant", answer))
  {
  }

  /** A send keeps a history free of sentinels, so by
      `Conversations.DeleteInOrdinaryHistory` a delete in such a history
      removes everything or nothing. */
  lemma SendKeepsOrdinary(history: seq<Message>, text: string, outcome: ApiOutcome)
    requires NoSentinel(history)
    ensures NoSentinel(HistoryAfterSend(history, text, outcome))
  {
    var after := HistoryAfterSend(history, text, outcome);
    forall j | 0 <= j < |after|
      ensures !IsSentinel(after[j])
    {
      if j < |history| {
        assert after[j] == after[..|history|][j];
      }
    }
  }

  /** After a successful send the sidebar shows the same conversations, the
      newest one grown by the user entry and the answer; after a closed
      conversation, or on an empty history, the pair starts a new one. */
  lemma SuccessfulSendGrowsNewestConversation(history: seq<Message>, text: string, answer: string)
    ensures var u, a := Message("user", text), Message("assistant", answer);
      var groups := Partition(history);
      var after := Partition(history + [u, a]);
      if history == [] || IsSentinel(history[|history| - 1]) then after == groups + [[u, a]]
      else after == groups[..|groups| - 1] + [groups[|groups| - 1] + [u, a]]
  {
    var u, a := Message("user", text), Message("assistant", answer);
    SendEntriesAreOrdinary(text, answer);
    assert NoSentinelBeforeLast([u, a]);
    if history == [] || IsSentinel(history[|history| - 1]) {
      AppendAfterClosed(history, [u, a]);
    } else {
      AppendToOpen(history, [u, a]);
    }
  }
}
