/** Chat history entries and the way the history sidebar cuts the flat
    history into conversations (assets/js/app.js, `updateChatHistoryList`
    and `deleteConversation`). */
module Conversations {
  import opened JsBuiltins

  /** One `{type, content}` record of `state.chatHistory`. The `type` is a
      free string: 'user' and 'assistant' are pushed by a send, 'system'
      entries only arrive through history loaded from storage. */
  datatype Message = Message(kind: string, content: string)

  /** The greeting that marks the end of a conversation. */
  const GreetingMarker: string := "Hello! I'm CTFBot"

  /** A system message carrying the greeting closes the conversation it is in. */
  predicate IsSentinel(m: Message)
  {
    m.kind == "system" && Includes(m.content, GreetingMarker)
  }

  /** The sentinel test `msg.type === 'system' &&
      msg.content.includes(...)`: a system message with the greeting at
      some position of its content. */
  lemma SentinelIff(m: Message)
    ensures IsSentinel(m) <==> m.kind == "system" && exists i :: OccursAt(m.content, GreetingMarker, i)
  {
    IncludesIffOccurs(m.content, GreetingMarker);
  }

  /** `groups` is a partition of `history` in the sidebar's sense: laid end
      to end the groups give back the history, no group is empty, a
      sentinel is never followed by another message of its own group, and
      every group but the last one is closed by a sentinel. */
  ghost predicate IsPartition(history: seq<Message>, groups: seq<seq<Message>>)
  {
    Flat(groups) == history
    && (forall g :: 0 <= g < |groups| ==> groups[g] != [])
    && (forall g :: 0 <= g < |groups| ==> NoSentinelBeforeLast(groups[g]))
    && (forall g :: 0 <= g < |groups| - 1 ==> IsSentinel(groups[g][|groups[g]| - 1]))
  }

  /** No message other than the last one is a sentinel. */
  predicate NoSentinelBeforeLast(group: seq<Message>)
  {
    forall j :: 0 <= j < |group| - 1 ==> !IsSentinel(group[j])
  }

  /** Length of the first conversation of a non-empty history: up to and
      including its first sentinel, or the whole history if it has none. */
  function FirstGroupLength(history: seq<Message>): (k: nat)
    requires history != []
    ensures 0 < k <= |history|
    ensures forall j :: 0 <= j < k - 1 ==> !IsSentinel(history[j])
    ensures IsSentinel(history[k - 1]) || k == |history|
  {
    if IsSentinel(history[0]) || |history| == 1 then 1
    else 1 + FirstGroupLength(history[1..])
  }

  /** The conversations of a history, oldest first. */
  function Partition(history: seq<Message>): (groups: seq<seq<Message>>)
    ensures |groups| <= |history|
    ensures groups == [] <==> history == []
    decreases |history|
  {
    if history == [] then []
    else
      var k := FirstGroupLength(history);
      [history[..k]] + Partition(history[k..])
  }

  /** The conversations computed by `Partition` form a partition. */
  lemma {:induction false} PartitionIsPartition(history: seq<Message>)
    ensures IsPartition(history, Partition(history))
    decreases |history|
  {
    if history != [] {
      var k := FirstGroupLength(history);
      PartitionIsPartition(history[k..]);
      assert history[..k] + history[k..] == history;
      PrependGroup(history[..k], history[k..], Partition(history[k..]));
    }
  }

  /** A first conversation that is closed, or that is followed by nothing,
      can be put in front of any partition. */
  lemma PrependGroup(first: seq<Message>, rest: seq<Message>, groups: seq<seq<Message>>)
    requires first != [] && NoSentinelBeforeLast(first)
    requires IsSentinel(first[|first| - 1]) || rest == []
    requires IsPartition(rest, groups)
    ensures IsPartition(first + rest, [first] + groups)
  {
    var all := [first] + groups;
    assert all[1..] == groups;
    assert rest == [] ==> groups == [];
    forall g | 0 < g < |all|
      ensures all[g] == groups[g - 1]
    {
    }
  }

  /** A history has exactly one partition: the sentinel rule determines the
      conversations completely. */
  lemma {:induction false} PartitionUnique(history: seq<Message>, groups: seq<seq<Message>>)
    requires IsPartition(history, groups)
    ensures groups == Partition(history)
    decreases |groups|
  {
    if groups != [] {
      var k := |groups[0]|;
      DropFirstGroup(history, groups);
      FirstGroupOfPartition(history, groups);
      PartitionUnique(history[k..], groups[1..]);
      PartitionCons(history, groups);
    }
  }

  lemma PartitionCons(history: seq<Message>, groups: seq<seq<Message>>)
    requires history != [] && groups != []
    requires groups[0] == history[..FirstGroupLength(history)]
    requires groups[1..] == Partition(history[FirstGroupLength(history)..])
    ensures groups == Partition(history)
  {
    assert groups == [groups[0]] + groups[1..];
  }

  /** Removing the first group of a partition leaves a partition of the rest
      of the history. */
  lemma DropFirstGroup(history: seq<Message>, groups: seq<seq<Message>>)
    requires IsPartition(history, groups) && groups != []
    ensures var k := |groups[0]|;
      k <= |history| && history[..k] == groups[0] && IsPartition(history[k..], groups[1..])
  {
    var k := |groups[0]|;
    assert history == groups[0] + Flat(groups[1..]);
    assert history[k..] == Flat(groups[1..]);
    forall g | 0 <= g < |groups| - 1
      ensures groups[1..][g] == groups[g + 1]
    {
    }
  }

  /** The first group of any partition is exactly as long as
      `FirstGroupLength` says. */
  lemma FirstGroupOfPartition(history: seq<Message>, groups: seq<seq<Message>>)
    requires IsPartition(history, groups) && groups != []
    ensures history != [] && |groups[0]| == FirstGroupLength(history)
  {
    var g0 := groups[0];
    DropFirstGroup(history, groups);
    assert history[..|g0|] == g0;
    if |groups| > 1 {
      DropFirstGroup(history[|g0|..], groups[1..]);
      assert groups[1..][0] == groups[1];
      assert IsSentinel(history[|g0| - 1]);
      assert |g0| < |history|;
    } else {
      assert groups[1..] == [];
      assert |g0| == |history|;
    }
    assert forall j :: 0 <= j < |g0| - 1 ==> !IsSentinel(history[j]) by {
      forall j | 0 <= j < |g0| - 1 ensures !IsSentinel(history[j]) {
        assert history[j] == g0[j];
      }
    }
  }

  /** The flat history is the conversations laid end to end. */
  lemma FlatPartition(history: seq<Message>)
    ensures Flat(Partition(history)) == history
    ensures forall g :: 0 <= g < |Partition(history)| ==> Partition(history)[g] != []
  {
    PartitionIsPartition(history);
  }

  /** No message of the run is a sentinel. */
  predicate NoSentinel(run: seq<Message>)
  {
    forall j :: 0 <= j < |run| ==> !IsSentinel(run[j])
  }

  /** Every group is non-empty and closed by its only sentinel. */
  ghost predicate ClosedGroups(groups: seq<seq<Message>>)
  {
    forall g :: 0 <= g < |groups| ==>
      groups[g] != [] && NoSentinelBeforeLast(groups[g]) && IsSentinel(groups[g][|groups[g]| - 1])
  }

  /** The messages `seen` so far are cut into closed conversations and the
      open conversation `current`. */
  ghost predicate Grouped(seen: seq<Message>, closed: seq<seq<Message>>, current: seq<Message>)
  {
    Flat(closed) + current == seen && ClosedGroups(closed) && NoSentinel(current)
  }

  /** One step of the grouping loop: the message joins the open
      conversation, and a sentinel then closes it. */
  lemma PushStep(seen: seq<Message>, closed: seq<seq<Message>>, current: seq<Message>, msg: Message)
    requires Grouped(seen, closed, current)
    ensures IsSentinel(msg) ==> Grouped(seen + [msg], closed + [current + [msg]], [])
    ensures !IsSentinel(msg) ==> Grouped(seen + [msg], closed, current + [msg])
  {
    FlatAppend(closed, [current + [msg]]);
    FlatSingle(current + [msg]);
    if IsSentinel(msg) {
      var c := closed + [current + [msg]];
      assert forall g :: 0 <= g < |closed| ==> c[g] == closed[g];
    }
  }

  /** After the last message, a non-empty open conversation is added as the
      last group, and the result is the partition. */
  lemma FinishGrouping(history: seq<Message>, closed: seq<seq<Message>>, current: seq<Message>)
    requires Grouped(history, closed, current)
    ensures var groups := if |current| > 0 then closed + [current] else closed;
      IsPartition(history, groups)
  {
    if |current| > 0 {
      FlatAppend(closed, [current]);
      FlatSingle(current);
      var c := closed + [current];
      assert forall g :: 0 <= g < |closed| ==> c[g] == closed[g];
    }
  }

  /** The grouping loop shared by `updateChatHistoryList` and
      `deleteConversation`: each message is pushed on the current
      conversation, a sentinel then closes it, and a non-empty leftover
      becomes the last conversation. */
  method GroupConversations(history: seq<Message>) returns (conversations: seq<seq<Message>>)
    ensures IsPartition(history, conversations)
    ensures conversations == Partition(history)
  {
    conversations := [];
    var current: seq<Message> := [];
    for i := 0 to |history|
      invariant Grouped(history[..i], conversations, current)
    {
      var msg := history[i];
      PushStep(history[..i], conversations, current, msg);
      assert history[..i + 1] == history[..i] + [msg];
      current := current + [msg];
      if msg.kind == "system" && Includes(msg.content, GreetingMarker) {
        conversations := conversations + [current];
        current := [];
      }
    }
    assert history[..|history|] == history;
    FinishGrouping(history, conversations, current);
    if |current| > 0 {
      conversations := conversations + [current];
    }
    PartitionUnique(history, conversations);
  }

  // -------------------------------------------------------------- deletion

  /** The history `deleteConversation(index)` leaves: the conversations,
      with the one `splice(index, 1)` picks removed, flattened again. */
  function DeletedHistory(history: seq<Message>, index: int): (rest: seq<Message>)
    ensures |rest| <= |history|
  {
    DeleteShrinks(history, index);
    Flat(SpliceOne(Partition(history), index))
  }

  lemma DeleteShrinks(history: seq<Message>, index: int)
    ensures |Flat(SpliceOne(Partition(history), index))| <= |history|
  {
    var groups := Partition(history);
    var k := SpliceStart(|groups|, index);
    FlatPartition(history);
    if k < |groups| {
      assert SpliceOne(groups, index) == groups[..k] + groups[k + 1..];
      FlatAt(groups, k);
      FlatAppend(groups[..k], groups[k + 1..]);
    }
  }

  /** Deleting conversation `i` cuts exactly that conversation's block out
      of the history: everything before it and everything after it stays,
      in the same order. */
  lemma DeleteCutsOneBlock(history: seq<Message>, i: int)
    requires 0 <= i < |Partition(history)|
    ensures var groups := Partition(history);
      history == Flat(groups[..i]) + groups[i] + Flat(groups[i + 1..])
      && DeletedHistory(history, i) == Flat(groups[..i]) + Flat(groups[i + 1..])
  {
    var groups := Partition(history);
    FlatPartition(history);
    FlatAt(groups, i);
    FlatAppend(groups[..i], groups[i + 1..]);
  }

  /** After deleting conversation `i`, the sidebar shows exactly the other
      conversations, in their old order: one fewer than before. */
  lemma {:induction false} DeleteRegroups(history: seq<Message>, i: int)
    requires 0 <= i < |Partition(history)|
    ensures Partition(DeletedHistory(history, i))
      == Partition(history)[..i] + Partition(history)[i + 1..]
    ensures |Partition(DeletedHistory(history, i))| == |Partition(history)| - 1
  {
    var groups := Partition(history);
    PartitionIsPartition(history);
    var rest := groups[..i] + groups[i + 1..];
    assert SpliceOne(groups, i) == rest;
    forall g | 0 <= g < |rest|
      ensures rest[g] != [] && NoSentinelBeforeLast(rest[g])
      ensures g < |rest| - 1 ==> IsSentinel(rest[g][|rest[g]| - 1])
    {
      if g < i {
        assert rest[g] == groups[g];
      } else {
        assert rest[g] == groups[g + 1];
      }
    }
    assert IsPartition(DeletedHistory(history, i), rest);
    PartitionUnique(DeletedHistory(history, i), rest);
  }

  /** An index past the last conversation deletes nothing. */
  lemma DeleteOutOfRange(history: seq<Message>, i: int)
    requires i >= |Partition(history)|
    ensures DeletedHistory(history, i) == history
  {
    FlatPartition(history);
  }

  /** A negative index counts back from the newest conversation. */
  lemma DeleteFromEnd(history: seq<Message>, i: int)
    requires -|Partition(history)| <= i < 0
    ensures DeletedHistory(history, i) == DeletedHistory(history, |Partition(history)| + i)
  {
    var n := |Partition(history)|;
    assert SpliceStart(n, i) == SpliceStart(n, n + i);
  }

  /** A history without sentinels, which is every history a send builds
      (only history loaded from storage can hold a system entry), is a
      single conversation. */
  lemma OrdinaryHistoryIsOneConversation(history: seq<Message>)
    requires NoSentinel(history)
    ensures Partition(history) == if history == [] then [] else [history]
  {
    if history != [] {
      FlatSingle(history);
      assert IsPartition(history, [history]);
      PartitionUnique(history, [history]);
    }
  }

  /** So in such a history a delete removes everything (index 0, or any
      negative index) or nothing. */
  lemma DeleteInOrdinaryHistory(history: seq<Message>, index: int)
    requires NoSentinel(history)
    ensures DeletedHistory(history, index) == if index <= 0 then [] else history
  {
    OrdinaryHistoryIsOneConversation(history);
    if history != [] {
      assert SpliceOne([history], index) == if index <= 0 then [] else [history];
      FlatSingle(history);
    }
  }

  // ---------------------------------------------------------------- titles

  /** Where `conversation.find(msg => msg.type === 'user')` stops: the
      index of the first user message, or the length when there is none. */
  function FirstUserIndex(conversation: seq<Message>): (i: nat)
    ensures i <= |conversation|
    ensures i < |conversation| ==> conversation[i].kind == "user"
    ensures forall k :: 0 <= k < i ==> conversation[k].kind != "user"
  {
    if conversation == [] || conversation[0].kind == "user" then 0
    else 1 + FirstUserIndex(conversation[1..])
  }

  /** `conversation.find(msg => msg.type === 'user')`. */
  function FirstUserMessage(conversation: seq<Message>): Option<Message>
  {
    var i := FirstUserIndex(conversation);
    if i < |conversation| then Some(conversation[i]) else None
  }

  const TitleLimit: nat := 30

  /** The sidebar title of a conversation: its first user message, cut to
      thirty characters plus an ellipsis when longer, or a fixed caption
      when it has no user message. */
  function ConversationTitle(conversation: seq<Message>): string
  {
    match FirstUserMessage(conversation)
    case None => "New Conversation"
    case Some(m) =>
      if |m.content| > TitleLimit then m.content[..TitleLimit] + "..." else m.content
  }

  /** A conversation without a user message is titled "New Conversation";
      otherwise the title is its first user message, cut to TitleLimit
      characters followed by "..." when it is longer. */
  lemma TitleOfConversation(conversation: seq<Message>)
    ensures var title := ConversationTitle(conversation);
      FirstUserMessage(conversation).None? ==> title == "New Conversation"
    ensures var title := ConversationTitle(conversation);
      FirstUserMessage(conversation).Some? ==>
      var c := FirstUserMessage(conversation).value.content;
      |title| <= TitleLimit + 3
      && (|c| <= TitleLimit ==> title == c)
      && (|c| > TitleLimit ==> |title| == TitleLimit + 3 && title[..TitleLimit] == c[..TitleLimit] && title[TitleLimit..] == "...")
  {
  }

  /** What the sidebar lists: a placeholder for an empty history, otherwise
      one item per conversation. */
  datatype HistoryListing = NoChatHistoryYet | Items(titles: seq<string>)

  /** The computation behind `updateChatHistoryList`: group the history and
      give each conversation its title, oldest first. */
  method UpdateChatHistoryList(history: seq<Message>) returns (listing: HistoryListing)
    ensures listing.NoChatHistoryYet? <==> history == []
    ensures listing.Items? ==>
      |listing.titles| == |Partition(history)| > 0
      && forall g :: 0 <= g < |listing.titles| ==>
           listing.titles[g] == ConversationTitle(Partition(history)[g])
  {
    if |history| == 0 {
      return NoChatHistoryYet;
    }
    var conversations := GroupConversations(history);
    var titles: seq<string> := [];
    for index := 0 to |conversations|
      invariant |titles| == index
      invariant forall g :: 0 <= g < index ==> titles[g] == ConversationTitle(conversations[g])
    {
      var title := ConversationTitle(conversations[index]);
      ghost var before := titles;
      titles := titles + [title];
      forall g | 0 <= g < index + 1
        ensures titles[g] == ConversationTitle(conversations[g])
      {
        if g < index {
          assert titles[g] == before[g];
        }
      }
    }
    listing := Items(titles);
  }

  /** The newest conversation of a partition ends with the newest message. */
  lemma LastGroupEndsHistory(history: seq<Message>, groups: seq<seq<Message>>)
    requires IsPartition(history, groups) && history != []
    ensures groups != [] && history == Flat(groups[..|groups| - 1]) + groups[|groups| - 1]
    ensures groups[|groups| - 1] != []
    ensures groups[|groups| - 1][|groups[|groups| - 1]| - 1] == history[|history| - 1]
  {
    var n := |groups|;
    assert groups == groups[..n - 1] + [groups[n - 1]];
    FlatAppend(groups[..n - 1], [groups[n - 1]]);
    FlatSingle(groups[n - 1]);
    var pre, last := Flat(groups[..n - 1]), groups[n - 1];
    assert history == pre + last;
    assert history[|history| - 1] == last[|last| - 1];
  }

  /** Messages pushed after a closed conversation, or onto an empty
      history, form a new conversation of their own as long as no sentinel
      comes before their last message. */
  lemma AppendAfterClosed(history: seq<Message>, block: seq<Message>)
    requires block != [] && NoSentinelBeforeLast(block)
    requires history == [] || IsSentinel(history[|history| - 1])
    ensures Partition(history + block) == Partition(history) + [block]
  {
    var groups := Partition(history);
    PartitionIsPartition(history);
    ExtendClosed(history, groups, block);
    PartitionUnique(history + block, groups + [block]);
  }

  lemma ExtendClosed(history: seq<Message>, groups: seq<seq<Message>>, block: seq<Message>)
    requires IsPartition(history, groups)
    requires block != [] && NoSentinelBeforeLast(block)
    requires history == [] || IsSentinel(history[|history| - 1])
    ensures IsPartition(history + block, groups + [block])
  {
    var n := |groups|;
    var r := groups + [block];
    FlatAppend(groups, [block]);
    FlatSingle(block);
    if history != [] {
      LastGroupEndsHistory(history, groups);
    }
    forall g | 0 <= g < n + 1
      ensures r[g] != [] && NoSentinelBeforeLast(r[g])
      ensures g < n ==> IsSentinel(r[g][|r[g]| - 1])
    {
      if g < n {
        assert r[g] == groups[g];
      } else {
        assert r[g] == block;
      }
    }
  }

  /** Messages pushed onto an open conversation join it, as long as no
      sentinel comes before their last message. */
  lemma AppendToOpen(history: seq<Message>, block: seq<Message>)
    requires NoSentinelBeforeLast(block)
    requires history != [] && !IsSentinel(history[|history| - 1])
    ensures var groups := Partition(history);
      groups != [] && Partition(history + block) == groups[..|groups| - 1] + [groups[|groups| - 1] + block]
  {
    var groups := Partition(history);
    PartitionIsPartition(history);
    ExtendOpen(history, groups, block);
    PartitionUnique(history + block, groups[..|groups| - 1] + [groups[|groups| - 1] + block]);
  }

  lemma ExtendOpen(history: seq<Message>, groups: seq<seq<Message>>, block: seq<Message>)
    requires IsPartition(history, groups)
    requires NoSentinelBeforeLast(block)
    requires history != [] && !IsSentinel(history[|history| - 1])
    ensures groups != []
    ensures IsPartition(history + block, groups[..|groups| - 1] + [groups[|groups| - 1] + block])
  {
    LastGroupEndsHistory(history, groups);
    var n := |groups|;
    var last := groups[n - 1];
    var grown := last + block;
    var r := groups[..n - 1] + [grown];
    FlatAppend(groups[..n - 1], [grown]);
    FlatSingle(grown);
    assert Flat(r) == history + block;
    assert NoSentinelBeforeLast(last);
    JoinOpenGroup(last, block);
    forall g | 0 <= g < n
      ensures r[g] != [] && NoSentinelBeforeLast(r[g])
      ensures g < n - 1 ==> IsSentinel(r[g][|r[g]| - 1])
    {
      if g < n - 1 {
        assert r[g] == groups[g];
      } else {
        assert r[g] == grown;
      }
    }
  }


  /** An open group (no sentinel anywhere) followed by a block with no
      sentinel before its last message has no sentinel before its last
      message. */
  lemma JoinOpenGroup(group: seq<Message>, block: seq<Message>)
    requires group != [] && NoSentinelBeforeLast(group) && !IsSentinel(group[|group| - 1])
    requires NoSentinelBeforeLast(block)
    ensures NoSentinelBeforeLast(group + block)
  {
    var grown := group + block;
    forall j | 0 <= j < |grown| - 1
      ensures !IsSentinel(grown[j])
    {
      if j < |group| {
        assert grown[j] == group[j];
      } else {
        assert grown[j] == block[j - |group|];
      }
    }
  }
}
