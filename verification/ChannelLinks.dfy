/** Which agent answers which Telegram chat (channel_service.py, channel_repository.py). */
module ChannelLinks {
  import opened Prelude
  import opened Text

  const TELEGRAM := "telegram"

  /** One row; `chatId` and `conversationRun` live in its JSON config. */
  datatype Link = Link(
    id: nat, agentId: int, channelType: string, chatId: string, conversationRun: Option<nat>, isActive: bool)

  /** The table, with the ids that the database gives to the next link and the next run. */
  datatype Table = Table(links: seq<Link>, nextLink: nat, nextRun: nat)

  const EMPTY := Table([], 1, 1)

  datatype Problem = BlankChat | NoAgent | WrongType | ChatTaken

  predicate IsActiveTelegram(l: Link) {
    l.channelType == TELEGRAM && l.isActive
  }

  /** `get_telegram_by_chat_id`: the position of the first match in scan order, or the length */
  function FirstByChat(links: seq<Link>, chatId: string): (i: nat)
    ensures i <= |links|
    ensures i < |links| ==> IsActiveTelegram(links[i]) && links[i].chatId == chatId
    ensures forall j :: 0 <= j < i ==> !(IsActiveTelegram(links[j]) && links[j].chatId == chatId)
  {
    if links == [] then 0
    else if IsActiveTelegram(links[0]) && links[0].chatId == chatId then 0
    else 1 + FirstByChat(links[1..], chatId)
  }

  /** `get_active_telegram_for_agent`: the position of the match with the highest id */
  function NewestFor(links: seq<Link>, agentId: int): (i: Option<nat>)
    ensures i.Some? ==> i.value < |links| && IsActiveTelegram(links[i.value]) && links[i.value].agentId == agentId
    ensures forall j :: 0 <= j < |links| && IsActiveTelegram(links[j]) && links[j].agentId == agentId ==>
      i.Some? && links[j].id <= links[i.value].id
  {
    if links == [] then None else
    var n := |links| - 1;
    var before := NewestFor(links[..n], agentId);
    if IsActiveTelegram(links[n]) && links[n].agentId == agentId
      && (before.None? || links[before.value].id <= links[n].id)
    then Some(n) else before
  }

  // ---------------------------------------------------------------- the operations

  datatype Op =
    | LinkAgent(agentId: int, agentExists: bool, channelType: string, chatId: string, isActive: bool)
    | DeleteLink(id: nat)
    | DeleteAgent(agentId: int)                                             // cascades to its links
    | Reset(chatId: string)
    | StartConversation(chatId: string, runExists: bool, hasWorkflow: bool) // a message arrives from the chat

  function FormProblems(op: Op): set<Problem>
    requires op.LinkAgent?
  {
    (if Strip(op.chatId) == "" then {BlankChat} else {})
    + (if op.agentExists then {} else {NoAgent})
    + (if op.channelType != TELEGRAM then {WrongType} else {})
  }

  /** Why `link_agent` refuses; empty when it does not. */
  function Problems(links: seq<Link>, op: Op): set<Problem>
    requires op.LinkAgent?
  {
    if FormProblems(op) != {} then FormProblems(op) else
    var existing := FirstByChat(links, Strip(op.chatId));
    if existing < |links| && links[existing].agentId != op.agentId then {ChatTaken} else {}
  }

  function Apply(t: Table, op: Op): Table {
    match op
    case LinkAgent(agentId, _, channelType, chatId, isActive) =>
      if Problems(t.links, op) != {} then t
      else (
        match NewestFor(t.links, agentId)
        case Some(i) => t.(links := t.links[i := t.links[i].(chatId := Strip(chatId), isActive := isActive)])
        case None =>
          t.(links := t.links + [Link(t.nextLink, agentId, channelType, Strip(chatId), None, isActive)],
             nextLink := t.nextLink + 1))
    case DeleteLink(id) => t.(links := Filter((l: Link) => l.id != id, t.links))
    case DeleteAgent(agentId) => t.(links := Filter((l: Link) => l.agentId != agentId, t.links))
    case Reset(chatId) =>
      var i := FirstByChat(t.links, chatId);
      if i < |t.links| then t.(links := t.links[i := t.links[i].(conversationRun := None)]) else t
    case StartConversation(chatId, runExists, hasWorkflow) =>
      var i := FirstByChat(t.links, chatId);
      if i == |t.links| || (t.links[i].conversationRun.Some? && runExists) || !hasWorkflow then t
      else t.(links := t.links[i := t.links[i].(conversationRun := Some(t.nextRun))], nextRun := t.nextRun + 1)
  }

  function After(ops: seq<Op>): Table {
    if ops == [] then EMPTY else Apply(After(ops[..|ops| - 1]), ops[|ops| - 1])
  }

  // ---------------------------------------------------------------- one agent per chat, one chat per agent

  /** Two active links share neither the agent nor the chat. */
  predicate Apart(a: Link, b: Link) {
    IsActiveTelegram(a) && IsActiveTelegram(b) ==> a.agentId != b.agentId && a.chatId != b.chatId
  }

  predicate OneToOne(links: seq<Link>) {
    forall i, j :: 0 <= i < |links| && 0 <= j < |links| && i != j ==> Apart(links[i], links[j])
  }

  /** Two links, active or not, do not log into one conversation run. */
  predicate RunsApart(a: Link, b: Link) {
    a.conversationRun.Some? ==> a.conversationRun != b.conversationRun
  }

  predicate OwnRuns(links: seq<Link>) {
    forall i, j :: 0 <= i < |links| && 0 <= j < |links| && i != j ==> RunsApart(links[i], links[j])
  }

  /** No two links share an id. */
  predicate OwnIds(links: seq<Link>) {
    forall i, j :: 0 <= i < j < |links| ==> links[i].id != links[j].id
  }

  predicate RowOk(t: Table, l: Link) {
    && l.id < t.nextLink
    && l.channelType == TELEGRAM
    && Trimmed(l.chatId) && l.chatId != ""
    && (l.conversationRun.Some? ==> l.conversationRun.value < t.nextRun)
  }

  predicate Sound(t: Table) {
    && OneToOne(t.links)
    && OwnRuns(t.links)
    && OwnIds(t.links)
    && forall i :: 0 <= i < |t.links| ==> RowOk(t, t.links[i])
  }

  lemma {:induction false} FilterKeepsApart(keep: Link -> bool, links: seq<Link>)
    requires OneToOne(links) && OwnRuns(links) && OwnIds(links)
    ensures OneToOne(Filter(keep, links)) && OwnRuns(Filter(keep, links)) && OwnIds(Filter(keep, links))
  {
    if links != [] {
      var n := |links| - 1;
      var kept := Filter(keep, links[..n]);
      FilterKeepsApart(keep, links[..n]);
      forall i | 0 <= i < |kept|
        ensures Apart(kept[i], links[n]) && RunsApart(kept[i], links[n]) && RunsApart(links[n], kept[i])
        ensures kept[i].id != links[n].id
      {
        assert kept[i] in links[..n];
        var k :| 0 <= k < n && links[k] == kept[i];
      }
    }
  }

  lemma FilterKeepsSound(keep: Link -> bool, t: Table)
    requires Sound(t)
    ensures Sound(t.(links := Filter(keep, t.links)))
  {
    FilterKeepsApart(keep, t.links);
    var kept := Filter(keep, t.links);
    forall i | 0 <= i < |kept| ensures RowOk(t, kept[i]) {
      assert kept[i] in t.links;
      var k :| 0 <= k < |t.links| && t.links[k] == kept[i];
    }
  }

  lemma AddingKeepsSound(t: Table, link: Link)
    requires Sound(t) && link.id == t.nextLink && link.conversationRun == None
    requires RowOk(t.(nextLink := t.nextLink + 1), link)
    requires forall i :: 0 <= i < |t.links| ==> Apart(t.links[i], link)
    ensures Sound(t.(links := t.links + [link], nextLink := t.nextLink + 1))
  {
    forall i | 0 <= i < |t.links|
      ensures t.links[i].id < t.nextLink && RowOk(t.(nextLink := t.nextLink + 1), t.links[i]) {
      assert RowOk(t, t.links[i]);
    }
  }

  lemma ChangingKeepsSound(t: Table, k: nat, link: Link)
    requires Sound(t) && k < |t.links| && RowOk(t, link)
    requires link.id == t.links[k].id && link.conversationRun == t.links[k].conversationRun
    requires forall i :: 0 <= i < |t.links| && i != k ==> Apart(t.links[i], link)
    ensures Sound(t.(links := t.links[k := link]))
  {
    var links := t.links[k := link];
    forall i, j | 0 <= i < |links| && 0 <= j < |links| && i != j ensures RunsApart(links[i], links[j]) {
      assert RunsApart(t.links[i], t.links[j]);
    }
  }

  lemma LinkingKeepsSound(t: Table, op: Op)
    requires Sound(t) && op.LinkAgent?
    ensures Sound(Apply(t, op))
  {
    if Problems(t.links, op) == {} {
      match NewestFor(t.links, op.agentId)
      case None =>
        AddingKeepsSound(t, Link(t.nextLink, op.agentId, op.channelType, Strip(op.chatId), None, op.isActive));
      case Some(k) =>
        forall i | 0 <= i < |t.links| && i != k ensures t.links[i].isActive ==> t.links[i].agentId != op.agentId {
          assert Apart(t.links[i], t.links[k]) && RowOk(t, t.links[i]);
        }
        assert RowOk(t, t.links[k]);
        ChangingKeepsSound(t, k, t.links[k].(chatId := Strip(op.chatId), isActive := op.isActive));
    }
  }

  lemma {:induction false} RunIsSound(ops: seq<Op>)
    ensures Sound(After(ops))
  {
    if ops != [] {
      var t, op := After(ops[..|ops| - 1]), ops[|ops| - 1];
      RunIsSound(ops[..|ops| - 1]);
      match op
      case LinkAgent(_, _, _, _, _) => LinkingKeepsSound(t, op);
      case DeleteLink(id) => FilterKeepsSound((l: Link) => l.id != id, t);
      case DeleteAgent(agentId) => FilterKeepsSound((l: Link) => l.agentId != agentId, t);
      case Reset(_) => RunsKeepSound(t, op);
      case StartConversation(_, _, _) => RunsKeepSound(t, op);
    }
  }

  lemma RunsKeepSound(t: Table, op: Op)
    requires Sound(t) && (op.Reset? || op.StartConversation?)
    ensures Sound(Apply(t, op))
  {
    var i := FirstByChat(t.links, op.chatId);
    if Apply(t, op) != t {
      RunChangeKeepsSound(t, i, Apply(t, op).links[i].conversationRun, Apply(t, op).nextRun);
    }
  }

  lemma RunChangeKeepsSound(t: Table, i: nat, run: Option<nat>, nextRun: nat)
    requires Sound(t) && i < |t.links| && nextRun >= t.nextRun
    requires run == None || (run == Some(t.nextRun) && nextRun > t.nextRun)
    ensures Sound(t.(links := t.links[i := t.links[i].(conversationRun := run)], nextRun := nextRun))
  {
    var links := t.links[i := t.links[i].(conversationRun := run)];
    forall k | 0 <= k < |links| ensures RowOk(t.(nextRun := nextRun), links[k]) {
      assert RowOk(t, t.links[k]);
    }
    forall k, l | 0 <= k < |links| && 0 <= l < |links| && k != l
      ensures Apart(links[k], links[l]) && RunsApart(links[k], links[l])
    {
      assert Apart(t.links[k], t.links[l]) && RunsApart(t.links[k], t.links[l]);
      assert RowOk(t, t.links[k]) && RowOk(t, t.links[l]);
    }
  }

  // ---------------------------------------------------------------- what the operations do to the rows

  /** Deleting removes exactly the links with that id, or of that agent, and keeps the order of the others. */
  lemma DeletionExactly(t: Table, id: nat, agentId: int, l: Link)
    ensures l in Apply(t, DeleteLink(id)).links <==> l in t.links && l.id != id
    ensures l in Apply(t, DeleteAgent(agentId)).links <==> l in t.links && l.agentId != agentId
    ensures Apply(t, DeleteLink(id)) == t.(links := Apply(t, DeleteLink(id)).links)
    ensures Apply(t, DeleteAgent(agentId)) == t.(links := Apply(t, DeleteAgent(agentId)).links)
  {
  }

  /** What changes at one place only. */
  predicate ChangesAt(before: seq<Link>, after: seq<Link>, i: nat, changed: Link) {
    && i < |before| == |after| && after[i] == changed
    && forall j :: 0 <= j < |before| && j != i ==> after[j] == before[j]
  }

  predicate IsLinkOf(links: seq<Link>, i: nat, chatId: string) {
    i < |links| && links[i].channelType == "telegram" && links[i].isActive && links[i].chatId == chatId
  }

  /** Resetting a chat makes its link forget its run, and does nothing else; an unlinked chat has nothing to reset. */
  lemma ResetExactly(t: Table, chatId: string, i: nat)
    requires Sound(t) && IsLinkOf(t.links, i, chatId)
    ensures ChangesAt(t.links, Apply(t, Reset(chatId)).links, i, t.links[i].(conversationRun := None))
    ensures Apply(t, Reset(chatId)) == t.(links := Apply(t, Reset(chatId)).links)
  {
    FoundLink(t.links, i);
  }

  /** A message goes to the run of its chat's link while that exists, or else to a new one, if there is a workflow. */
  lemma ConversationExactly(t: Table, chatId: string, runExists: bool, hasWorkflow: bool, i: nat)
    requires Sound(t) && IsLinkOf(t.links, i, chatId)
    ensures var later := Apply(t, StartConversation(chatId, runExists, hasWorkflow));
      if (t.links[i].conversationRun == None || !runExists) && hasWorkflow then
        && ChangesAt(t.links, later.links, i, t.links[i].(conversationRun := Some(t.nextRun)))
        && later == Table(later.links, t.nextLink, t.nextRun + 1)
      else later == t
  {
    FoundLink(t.links, i);
  }

  lemma UnlinkedChatsStay(t: Table, chatId: string, runExists: bool, hasWorkflow: bool)
    requires forall i :: 0 <= i < |t.links| ==> !IsLinkOf(t.links, i, chatId)
    ensures Apply(t, Reset(chatId)) == t && Apply(t, StartConversation(chatId, runExists, hasWorkflow)) == t
  {
    var i := FirstByChat(t.links, chatId);
    assert i < |t.links| ==> IsLinkOf(t.links, i, chatId);
  }

  /** Why linking is refused: every fault of the form, or, if it has none, that the chat is another agent's. */
  lemma RefusalsExactly(links: seq<Link>, op: Op)
    requires op.LinkAgent?
    ensures BlankChat in Problems(links, op) <==> forall c :: c in op.chatId ==> IsSpace(c)
    ensures NoAgent in Problems(links, op) <==> !op.agentExists
    ensures WrongType in Problems(links, op) <==> op.channelType != "telegram"
    ensures ChatTaken in Problems(links, op) ==>
      && Problems(links, op) == {ChatTaken}
      && exists i: nat :: IsLinkOf(links, i, Strip(op.chatId)) && links[i].agentId != op.agentId
  {
    var i := FirstByChat(links, Strip(op.chatId));
    assert i < |links| ==> IsLinkOf(links, i, Strip(op.chatId));
  }

  /** Linking moves the agent's active link to the chat, or adds one; other links, and all else of this one, stay. */
  lemma LinkingExactly(t: Table, op: Op)
    requires Sound(t) && op.LinkAgent?
    ensures Problems(t.links, op) != {} ==> Apply(t, op) == t
    ensures Problems(t.links, op) == {} ==>
      if exists i :: 0 <= i < |t.links| && t.links[i].isActive && t.links[i].agentId == op.agentId then
        exists i :: 0 <= i < |t.links| && t.links[i].isActive && t.links[i].agentId == op.agentId
          && Apply(t, op) == t.(links := Apply(t, op).links)
          && ChangesAt(t.links, Apply(t, op).links, i, t.links[i].(chatId := Strip(op.chatId), isActive := op.isActive))
      else
        Apply(t, op) == Table(
          t.links + [Link(t.nextLink, op.agentId, "telegram", Strip(op.chatId), None, op.isActive)],
          t.nextLink + 1, t.nextRun)
  {
    var newest := NewestFor(t.links, op.agentId);
    forall i | 0 <= i < |t.links| ensures t.links[i].channelType == TELEGRAM {
      assert RowOk(t, t.links[i]);
    }
    if Problems(t.links, op) == {} && newest.Some? {
      assert ChangesAt(t.links, Apply(t, op).links, newest.value,
        t.links[newest.value].(chatId := Strip(op.chatId), isActive := op.isActive));
    }
  }

  // ---------------------------------------------------------------- what a chat sees

  /** The agent that answers a chat. */
  function AgentOf(links: seq<Link>, chatId: string): Option<int> {
    var i := FirstByChat(links, chatId);
    if i < |links| then Some(links[i].agentId) else None
  }

  /** One active link settles the lookup, wherever it stands. */
  lemma FoundLink(links: seq<Link>, k: nat)
    requires OneToOne(links) && k < |links| && IsActiveTelegram(links[k])
    ensures FirstByChat(links, links[k].chatId) == k
  {
    var i := FirstByChat(links, links[k].chatId);
    assert !Apart(links[i], links[k]);
  }

  /** After any sequence of operations, the lookup by chat finds the same link in whatever order it scans. */
  lemma LookupHasOneAnswer(ops: seq<Op>, scanned: seq<Link>, chatId: string)
    requires multiset(scanned) == multiset(After(ops).links)
    ensures var links, i, k := After(ops).links, FirstByChat(After(ops).links, chatId), FirstByChat(scanned, chatId);
      if i < |links| then k < |scanned| && scanned[k] == links[i] else k == |scanned|
  {
    var links, i, k := After(ops).links, FirstByChat(After(ops).links, chatId), FirstByChat(scanned, chatId);
    RunIsSound(ops);
    if k < |scanned| {
      assert scanned[k] in multiset(links);
      var m :| 0 <= m < |links| && links[m] == scanned[k];
      FoundLink(links, m);
    } else {
      forall m | 0 <= m < |links| ensures !(IsActiveTelegram(links[m]) && links[m].chatId == chatId) {
        assert links[m] in multiset(scanned);
      }
    }
  }

  /** The lookup by chat through a change at one position. */
  lemma AgentOfUpdated(links: seq<Link>, k: nat, link: Link, chatId: string)
    requires k < |links| && OneToOne(links) && OneToOne(links[k := link])
    ensures AgentOf(links[k := link], chatId) ==
      if IsActiveTelegram(link) && link.chatId == chatId then Some(link.agentId)
      else if IsActiveTelegram(links[k]) && links[k].chatId == chatId then None
      else AgentOf(links, chatId)
  {
    var after, i := links[k := link], FirstByChat(links, chatId);
    if IsActiveTelegram(link) && link.chatId == chatId {
      FoundLink(after, k);
    } else if IsActiveTelegram(links[k]) && links[k].chatId == chatId {
      forall j | 0 <= j < |links| && j != k ensures !(IsActiveTelegram(links[j]) && links[j].chatId == chatId) {
        assert Apart(links[j], links[k]);
      }
    } else if i < |links| {
      FoundLink(after, i);
    }
  }

  lemma AgentOfAppended(links: seq<Link>, link: Link, chatId: string)
    requires OneToOne(links + [link])
    ensures AgentOf(links + [link], chatId) ==
      if IsActiveTelegram(link) && link.chatId == chatId then Some(link.agentId) else AgentOf(links, chatId)
  {
    var after, i := links + [link], FirstByChat(links, chatId);
    if IsActiveTelegram(link) && link.chatId == chatId {
      FoundLink(after, |links|);
    } else if i < |links| {
      FoundLink(after, i);
    }
  }

  /** An active link is the newest of its agent's, there being no other. */
  lemma NewestIsOnly(links: seq<Link>, chatId: string, agentId: int)
    requires OneToOne(links)
    ensures AgentOf(links, chatId) == Some(agentId) <==>
      NewestFor(links, agentId).Some? && links[NewestFor(links, agentId).value].chatId == chatId
  {
    var i, newest := FirstByChat(links, chatId), NewestFor(links, agentId);
    if newest.Some? && i < |links| && links[i].agentId == agentId {
      assert !Apart(links[i], links[newest.value]);
    }
    if newest.Some? && links[newest.value].chatId == chatId {
      FoundLink(links, newest.value);
    }
  }

  /**
   Linking seen from the chats: it is refused for a chat exactly when another agent answers it; otherwise
   the agent answers the new chat (if the link is to be active), no longer its previous one, and all other
   chats are as before.
   */
  lemma LinkingMeaning(t: Table, op: Op, chatId: string)
    requires Sound(t) && op.LinkAgent? && FormProblems(op) == {}
    ensures var chat, before := Strip(op.chatId), AgentOf(t.links, chatId);
      && Problems(t.links, op) == (if AgentOf(t.links, chat) in {None, Some(op.agentId)} then {} else {ChatTaken})
      && AgentOf(Apply(t, op).links, chatId) ==
           if Problems(t.links, op) != {} then before
           else if chatId == chat then (if op.isActive then Some(op.agentId) else None)
           else if before == Some(op.agentId) then None
           else before
  {
    if Problems(t.links, op) == {} {
      var links, after := t.links, Apply(t, op).links;
      LinkingKeepsSound(t, op);
      match NewestFor(links, op.agentId)
      case None =>
        NewestIsOnly(links, chatId, op.agentId);
        AgentOfAppended(links, after[|links|], chatId);
      case Some(k) =>
        NewestIsOnly(links, chatId, op.agentId);
        AgentOfUpdated(links, k, after[k], chatId);
    }
  }

  // ---------------------------------------------------------------- the service

  class ChannelService {
    var links: seq<Link>
    var nextLink: nat
    var nextRun: nat

    constructor ()
      ensures links == [] && nextLink == 1 && nextRun == 1
      ensures View() == EMPTY
    {
      links, nextLink, nextRun := [], 1, 1;
    }

    ghost function View(): Table
      reads this
    {
      Table(links, nextLink, nextRun)
    }

    /** `get_telegram_by_chat_id` */
    method GetTelegramByChatId(chatId: string) returns (position: nat)
      ensures position == FirstByChat(links, chatId)
    {
      position := 0;
      while position < |links|
        invariant position <= |links|
        invariant forall j :: 0 <= j < position ==> !(IsActiveTelegram(links[j]) && links[j].chatId == chatId)
      {
        if IsActiveTelegram(links[position]) && links[position].chatId == chatId {
          return;
        }
        position := position + 1;
      }
    }

    /** `get_active_telegram_for_agent` */
    method GetActiveTelegramForAgent(agentId: int) returns (newest: Option<nat>)
      ensures newest == NewestFor(links, agentId)
    {
      newest := None;
      for i := 0 to |links|
        invariant newest == NewestFor(links[..i], agentId)
      {
        assert links[..i + 1][..i] == links[..i];
        if IsActiveTelegram(links[i]) && links[i].agentId == agentId
           && (newest.None? || links[newest.value].id <= links[i].id)
        {
          newest := Some(i);
        }
      }
      assert links[..|links|] == links;
    }

    /** `link_agent` */
    method LinkAgent(agentId: int, agentExists: bool, channelType: string, chatId: string, isActive: bool)
      returns (problems: set<Problem>)
      modifies this
      ensures var op := Op.LinkAgent(agentId, agentExists, channelType, chatId, isActive);
        problems == Problems(old(links), op) && View() == Apply(old(View()), op)
    {
      problems := {};
      var chat := Strip(chatId);
      if chat == "" {
        problems := problems + {BlankChat};
      }
      if !agentExists {
        problems := problems + {NoAgent};
      }
      if channelType != TELEGRAM {
        problems := problems + {WrongType};
      }
      if problems != {} {
        return;
      }
      var existing := GetTelegramByChatId(chat);
      if existing < |links| && links[existing].agentId != agentId {
        return {ChatTaken};
      }
      var prior := GetActiveTelegramForAgent(agentId);
      if prior.Some? {
        links := links[prior.value := links[prior.value].(chatId := chat, isActive := isActive)];
      } else {
        links := links + [Link(nextLink, agentId, channelType, chat, None, isActive)];
        nextLink := nextLink + 1;
      }
    }

    /** `delete_link`; ids are the primary key */
    method DeleteLink(id: nat) returns (found: bool)
      modifies this
      ensures found <==> exists l :: l in old(links) && l.id == id
      ensures View() == Apply(old(View()), Op.DeleteLink(id))
    {
      found := exists l :: l in links && l.id == id;
      links := Filter((l: Link) => l.id != id, links);
    }

    /** `_reset_conversation`, for a message from a linked chat */
    method ResetConversation(chatId: string)
      modifies this
      ensures View() == Apply(old(View()), Reset(chatId))
    {
      var i := GetTelegramByChatId(chatId);
      if i < |links| {
        links := links[i := links[i].(conversationRun := None)];
      }
    }

    /** `_ensure_conversation_run`, for a message from a linked chat */
    method EnsureConversationRun(chatId: string, runExists: bool, hasWorkflow: bool) returns (run: Option<nat>)
      modifies this
      ensures View() == Apply(old(View()), StartConversation(chatId, runExists, hasWorkflow))
      ensures var i := FirstByChat(old(links), chatId);
        if run.Some? then i < |links| && links[i].conversationRun == run
        else i == |links| || (!hasWorkflow && (runExists ==> links[i].conversationRun.None?))
    {
      var i := GetTelegramByChatId(chatId);
      if i == |links| {
        return None;
      }
      run := links[i].conversationRun;
      if run.Some? && runExists {
        return;
      }
      if !hasWorkflow {
        return None;
      }
      run := Some(nextRun);
      links, nextRun := links[i := links[i].(conversationRun := run)], nextRun + 1;
    }
  }
}
