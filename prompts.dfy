/** How the front-end turns a user message into the text it sends to the
    language model (assets/js/app.js, `constructPromptWithContext`,
    `constructPromptWithHistory`, `formatQueryForAssistanceType`). All of
    these are pure string builders: they read the history and never change
    it.

    The composers read the module constant DEFAULT_SYSTEM_PROMPT; here they
    take the system prompt as their first argument, the state object holds
    it (`App.AppState.systemPrompt`), and every property below holds for
    any system prompt. */
module Prompts {
  import opened JsBuiltins
  import opened Conversations

  /** Number of history entries `constructPromptWithHistory` replays. */
  const MAX_HISTORY_LENGTH: int := 20

  /** Number of history entries `constructPromptWithContext` replays. */
  const RECENT_WINDOW: int := 5

  /** The label a history entry is shown under: only entries of type
      'user' are the user's, everything else is the bot's. */
  function RoleLabel(m: Message): string
  {
    if m.kind == "user" then "User" else "CTFBot"
  }

  /** One replayed history entry: `Role: content` and a line break. */
  function HistoryLine(m: Message): string
  {
    RoleLabel(m) + ": " + m.content + "\n"
  }

  /** The lines the `forEach` produces, one per entry, in history order. */
  function HistoryLines(entries: seq<Message>): seq<string>
  {
    seq(|entries|, i requires 0 <= i < |entries| => HistoryLine(entries[i]))
  }

  /** What the `forEach` appends to the prompt: its lines, one after the
      other. */
  function RenderHistory(entries: seq<Message>): string
  {
    Flat(HistoryLines(entries))
  }

  /** The replayed-history block: a header, the lines, a blank line; nothing
      at all when there is nothing to replay. */
  function HistoryBlock(header: string, window: seq<Message>): string
  {
    if |window| > 0 then header + RenderHistory(window) + "\n" else ""
  }

  /** The block for `state.currentContext`, left out when it is empty. */
  function ContextBlock(currentContext: string): string
  {
    if currentContext != "" then "Current context:\n" + currentContext + "\n\n" else ""
  }

  /** The closing user turn and the cue for the bot to answer. */
  function UserCue(userPrompt: string): string
  {
    "User: " + userPrompt + "\n\nCTFBot:"
  }

  /** `constructPromptWithContext(userPrompt)`, with the system prompt,
      `state.currentContext` and `state.chatHistory` passed in: the system
      prompt, the context, the last five history entries and the new user
      turn. */
  function ConstructPromptWithContext(systemPrompt: string, currentContext: string, history: seq<Message>,
                                      userPrompt: string): (prompt: string)
    ensures systemPrompt + "\n\n" <= prompt
    ensures |prompt| >= |UserCue(userPrompt)| && prompt[|prompt| - |UserCue(userPrompt)|..] == UserCue(userPrompt)
  {
    var head := systemPrompt + "\n\n";
    var body := ContextBlock(currentContext) + HistoryBlock("Recent conversation:\n", SliceFrom(history, -RECENT_WINDOW));
    assert head + body + UserCue(userPrompt) == head + (body + UserCue(userPrompt));
    head + body + UserCue(userPrompt)
  }

  /** `constructPromptWithHistory(userPrompt)`, with the system prompt and
      `state.chatHistory` passed in: the system prompt, the last
      MAX_HISTORY_LENGTH history entries and the new user turn. */
  function ConstructPromptWithHistory(systemPrompt: string, history: seq<Message>, userPrompt: string): (prompt: string)
    ensures systemPrompt + "\n\n" <= prompt
    ensures |prompt| >= |UserCue(userPrompt)| && prompt[|prompt| - |UserCue(userPrompt)|..] == UserCue(userPrompt)
  {
    var head := systemPrompt + "\n\n";
    var body := HistoryBlock("Previous conversation:\n", SliceFrom(history, -MAX_HISTORY_LENGTH));
    assert head + body + UserCue(userPrompt) == head + (body + UserCue(userPrompt));
    head + body + UserCue(userPrompt)
  }

  // ------------------------------------------------------------ properties

  /** With no context and no history the prompt is just the system prompt,
      a blank line and the user turn. */
  lemma PromptForFreshChat(systemPrompt: string, userPrompt: string)
    ensures ConstructPromptWithContext(systemPrompt, "", [], userPrompt)
      == systemPrompt + "\n\n" + UserCue(userPrompt)
    ensures ConstructPromptWithHistory(systemPrompt, [], userPrompt)
      == systemPrompt + "\n\n" + UserCue(userPrompt)
  {
    var none: seq<Message> := [];
    assert ContextBlock("") + HistoryBlock("Recent conversation:\n", SliceFrom(none, -RECENT_WINDOW)) == "";
    assert HistoryBlock("Previous conversation:\n", SliceFrom(none, -MAX_HISTORY_LENGTH)) == "";
  }

  /** Rendering two runs of entries one after the other gives the two
      renderings one after the other. */
  lemma RenderHistoryAppend(s: seq<Message>, t: seq<Message>)
    ensures RenderHistory(s + t) == RenderHistory(s) + RenderHistory(t)
  {
    assert HistoryLines(s + t) == HistoryLines(s) + HistoryLines(t);
    FlatAppend(HistoryLines(s), HistoryLines(t));
  }

  /** The rendered block holds one line per entry, oldest first: the line
      of entry `j` comes right after the lines of the entries before it and
      right before those of the entries after it. */
  lemma RenderHistoryAt(entries: seq<Message>, j: int)
    requires 0 <= j < |entries|
    ensures RenderHistory(entries)
      == RenderHistory(entries[..j]) + HistoryLine(entries[j]) + RenderHistory(entries[j + 1..])
  {
    var lines := HistoryLines(entries);
    assert HistoryLines(entries[..j]) == lines[..j];
    assert HistoryLines(entries[j + 1..]) == lines[j + 1..];
    FlatAt(lines, j);
  }

  /** A line is labelled `User` exactly for entries of type 'user'; every
      other entry is labelled `CTFBot`. */
  lemma HistoryLineLabel(m: Message)
    ensures "User: " <= HistoryLine(m) <==> m.kind == "user"
    ensures m.kind != "user" ==> "CTFBot: " <= HistoryLine(m)
  {
    if m.kind != "user" {
      assert HistoryLine(m)[0] == 'C';
    }
  }

  /** The window `constructPromptWithContext` replays is the last
      min(5, |history|) entries, oldest first; with an empty history the
      "Recent conversation" block is left out entirely. */
  lemma RecentConversationWindow(systemPrompt: string, currentContext: string, history: seq<Message>,
                                 userPrompt: string)
    ensures var k := Min(RECENT_WINDOW, |history|);
      var window := history[|history| - k..];
      |window| == k
      && ConstructPromptWithContext(systemPrompt, currentContext, history, userPrompt)
         == systemPrompt + "\n\n"
            + (ContextBlock(currentContext)
               + (if history == [] then "" else "Recent conversation:\n" + RenderHistory(window) + "\n"))
            + UserCue(userPrompt)
  {
    var k := Min(RECENT_WINDOW, |history|);
    assert SliceStart(|history|, -RECENT_WINDOW) == |history| - k;
    assert SliceFrom(history, -RECENT_WINDOW) == history[|history| - k..];
  }

  /** The window `constructPromptWithHistory` replays is the last
      min(MAX_HISTORY_LENGTH, |history|) entries, oldest first, under the
      "Previous conversation" header, left out for an empty history. */
  lemma PreviousConversationWindow(systemPrompt: string, history: seq<Message>, userPrompt: string)
    ensures var k := Min(MAX_HISTORY_LENGTH, |history|);
      var window := history[|history| - k..];
      |window| == k
      && ConstructPromptWithHistory(systemPrompt, history, userPrompt)
         == systemPrompt + "\n\n"
            + (if history == [] then "" else "Previous conversation:\n" + RenderHistory(window) + "\n")
            + UserCue(userPrompt)
  {
    var k := Min(MAX_HISTORY_LENGTH, |history|);
    assert SliceStart(|history|, -MAX_HISTORY_LENGTH) == |history| - k;
    assert SliceFrom(history, -MAX_HISTORY_LENGTH) == history[|history| - k..];
  }

  /** On a history of at most five entries and without context, the two
      composers replay the same entries and differ only in the header. */
  lemma ComposersAgreeOnShortHistory(systemPrompt: string, history: seq<Message>, userPrompt: string)
    requires |history| <= RECENT_WINDOW
    ensures ConstructPromptWithContext(systemPrompt, "", history, userPrompt)
      == systemPrompt + "\n\n" + HistoryBlock("Recent conversation:\n", history) + UserCue(userPrompt)
    ensures ConstructPromptWithHistory(systemPrompt, history, userPrompt)
      == systemPrompt + "\n\n" + HistoryBlock("Previous conversation:\n", history) + UserCue(userPrompt)
  {
    assert SliceFrom(history, -RECENT_WINDOW) == history[0..] == history;
    assert SliceFrom(history, -MAX_HISTORY_LENGTH) == history;
  }

  /** In a send the user entry is pushed before the prompt is composed, so
      the replayed block ends with the user's raw text, right before the
      closing turn that carries the formatted query. */
  lemma SendPromptRepeatsUserText(systemPrompt: string, currentContext: string, history: seq<Message>,
                                  text: string, query: string)
    ensures var prompt := ConstructPromptWithContext(systemPrompt, currentContext, history + [Message("user", text)], query);
      var tail := "User: " + text + "\n" + "\n" + UserCue(query);
      |prompt| >= |tail| && prompt[|prompt| - |tail|..] == tail
  {
    var prompt := ConstructPromptWithContext(systemPrompt, currentContext, history + [Message("user", text)], query);
    var before := PushedPrompt(systemPrompt, currentContext, history, text, query);
    ReplayedBlockTail(prompt, systemPrompt + "\n\n", ContextBlock(currentContext), before, text, UserCue(query));
  }

  /** The prompt after a user entry was pushed: the lines of the window
      entries before it, then the line of the entry itself. */
  lemma PushedPrompt(systemPrompt: string, currentContext: string, history: seq<Message>, text: string,
                     query: string) returns (before: string)
    ensures ConstructPromptWithContext(systemPrompt, currentContext, history + [Message("user", text)], query)
      == ReplayedPrompt(systemPrompt + "\n\n", ContextBlock(currentContext), before, text, UserCue(query))
  {
    var m := Message("user", text);
    var h := history + [m];
    RecentConversationWindow(systemPrompt, currentContext, h, query);
    var k := Min(RECENT_WINDOW, |h|);
    var window := h[|h| - k..];
    WindowEndsWithPushed(window, m);
    UserLine(text);
    before := RenderHistory(window[..k - 1]);
  }

  lemma WindowEndsWithPushed(window: seq<Message>, m: Message)
    requires window != [] && window[|window| - 1] == m
    ensures RenderHistory(window) == RenderHistory(window[..|window| - 1]) + HistoryLine(m)
  {
    RenderLast(window);
  }

  /** The line a user entry is replayed as. */
  lemma UserLine(text: string)
    ensures HistoryLine(Message("user", text)) == "User: " + text + "\n"
  {
  }

  /** The rendering of a non-empty run ends with the line of its last entry. */
  lemma RenderLast(entries: seq<Message>)
    requires entries != []
    ensures RenderHistory(entries)
      == RenderHistory(entries[..|entries| - 1]) + HistoryLine(entries[|entries| - 1])
  {
    var n := |entries|;
    RenderHistoryAt(entries, n - 1);
    assert HistoryLines(entries[n..]) == [];
  }

  /** A composed prompt whose replayed block ends with the user line of
      `text`. */
  function ReplayedPrompt(head: string, context: string, before: string, text: string, cue: string): string
  {
    head + (context + ("Recent conversation:\n" + (before + ("User: " + text + "\n")) + "\n")) + cue
  }

  /** Such a prompt ends with that line, the blank line closing the block
      and the user cue. */
  lemma ReplayedBlockTail(prompt: string, head: string, context: string, before: string, text: string, cue: string)
    requires prompt == ReplayedPrompt(head, context, before, text, cue)
    ensures var tail := "User: " + text + "\n" + "\n" + cue;
      |prompt| >= |tail| && prompt[|prompt| - |tail|..] == tail
  {
    var line := "User: " + text + "\n";
    var front := head + context + "Recent conversation:\n" + before;
    assert prompt == front + (line + "\n" + cue);
  }

  // ------------------------------------------------------ assistance types

  /** The assistance types with a request of their own. */
  datatype AssistanceKind = Analyze | Hint | Approach | Explain

  /** The `switch (assistanceType)`: which request a type selects, if any
      ('general', the default of the selector, selects none). */
  function ParseAssistanceType(assistanceType: string): (kind: Option<AssistanceKind>)
    ensures kind.Some? <==> assistanceType in {"analyze", "hint", "approach", "explain"}
  {
    if assistanceType == "analyze" then Some(Analyze)
    else if assistanceType == "hint" then Some(Hint)
    else if assistanceType == "approach" then Some(Approach)
    else if assistanceType == "explain" then Some(Explain)
    else None
  }

  /** The fixed request each assistance type puts in front of the user's
      message. */
  function AssistanceRequest(kind: AssistanceKind): string
  {
    match kind
    case Analyze =>
      "Please analyze this CTF challenge. Identify the likely category, potential techniques to solve it, and provide initial guidance on how to approach it without giving away the full solution:"
    case Hint =>
      "Please provide a subtle hint for this CTF challenge. The hint should point me in the right direction without spoiling the challenge or giving away the solution:"
    case Approach =>
      "Please suggest a step-by-step approach to solve this CTF challenge. Include tools, techniques, and methodology that would be helpful:"
    case Explain =>
      "Please explain the following security concept or technique in the context of CTF challenges. Include examples and use cases where applicable:"
  }

  /** `formatQueryForAssistanceType(userMessage, assistanceType)`. The result
      always ends with the user's message, and differs from it exactly for
      the four assistance types. */
  function FormatQueryForAssistanceType(userMessage: string, assistanceType: string): (query: string)
    ensures |query| >= |userMessage| && query[|query| - |userMessage|..] == userMessage
    ensures query == userMessage <==> ParseAssistanceType(assistanceType).None?
  {
    match ParseAssistanceType(assistanceType)
    case Some(kind) => AssistanceRequest(kind) + "\n\n" + userMessage
    case None => userMessage
  }

  /** Recovers the user's message from a formatted query, if the query
      starts the way the assistance type demands. */
  function StripAssistanceRequest(query: string, assistanceType: string): Option<string>
  {
    match ParseAssistanceType(assistanceType)
    case Some(kind) =>
      var head := AssistanceRequest(kind) + "\n\n";
      if head <= query then Some(query[|head|..]) else None
    case None => Some(query)
  }

  /** Formatting loses nothing: the user's message can be read back. */
  lemma FormatQueryRoundTrip(userMessage: string, assistanceType: string)
    ensures StripAssistanceRequest(FormatQueryForAssistanceType(userMessage, assistanceType), assistanceType)
      == Some(userMessage)
  {
    match ParseAssistanceType(assistanceType)
    case Some(kind) =>
      var head := AssistanceRequest(kind) + "\n\n";
      assert FormatQueryForAssistanceType(userMessage, assistanceType) == head + userMessage;
      assert (head + userMessage)[|head|..] == userMessage;
    case None =>
  }
}
