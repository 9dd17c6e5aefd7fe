/**
 * `chat_endpoint` of backend/api/chat.py: one chat turn. Check the caller, load or create the
 * conversation, exchange one message with the agent, touch the conversation's `updated_at`, and
 * answer. The caller's id from the token and from the path are both parameters.
 */
module ChatLegacy {
  import opened Wrappers
  import opened Runner
  import opened ConversationStore

  /** The request body: the message and an optional conversation id. */
  datatype ChatRequest = ChatRequest(message: string, conversationId: Option<string>)

  const Forbidden: ChatError := ChatError(403, "Access denied: User ID mismatch")
  const ConversationNotFound: ChatError := ChatError(404, "Conversation not found or access denied")

  /** The conversation id the request names; `if conversation_id:` treats `""` like no id. */
  function NamedConversation(req: ChatRequest): (c: Option<string>)
    ensures c.Some? <==> req.conversationId.Some? && req.conversationId.value != ""
    ensures c.Some? ==> c == req.conversationId
  {
    if req.conversationId.Some? && req.conversationId.value != "" then req.conversationId else None
  }

  function ChatTurn(st: Store, pathUser: string, tokenUser: string, req: ChatRequest, agent: Agent, ids: FreshIds, now: int)
    : (o: TurnOutcome)
    requires ids.conversation !in st.conversations
    ensures tokenUser != pathUser ==> o == TurnOutcome(st, Err(Forbidden))
    ensures tokenUser == pathUser && NamedConversation(req).Some? && !Owned(st, NamedConversation(req).value, pathUser) ==>
      o == TurnOutcome(st, Err(ConversationNotFound))
    ensures o.result.Err? ==> o.store == st
    ensures o.result.Ok? ==>
      var cid := o.result.value.conversationId;
      && tokenUser == pathUser
      && (NamedConversation(req).Some? ==> cid == NamedConversation(req).value && Owned(st, cid, pathUser))
      && (NamedConversation(req).None? ==> cid == ids.conversation)
      && Owned(o.store, cid, pathUser)
  {
    if tokenUser != pathUser then TurnOutcome(st, Err(Forbidden))
    else
      var base := match NamedConversation(req)
        case Some(cid) => st
        case None => Create(st, ids.conversation, pathUser, None, now);
      var cid := NamedConversation(req).GetOr(ids.conversation);
      if !Owned(base, cid, pathUser) then TurnOutcome(st, Err(ConversationNotFound))
      else
        var exchanged := Exchange(base, pathUser, cid, req.message, agent, ids, now);
        TurnOutcome(Touch(exchanged.store, cid, now), exchanged.result)
  }

  /**
   * A successful turn writes exactly two messages, the user's then the agent's, both tagged with the
   * caller; the agent saw the conversation's earlier history followed by the new message; the stored
   * and returned replies agree; `updated_at` is the turn's time; and no other conversation changes.
   */
  lemma SuccessfulTurn(st: Store, user: string, req: ChatRequest, agent: Agent, ids: FreshIds, now: int)
    requires ids.conversation !in st.conversations
    requires ChatTurn(st, user, user, req, agent, ids, now).result.Ok?
    ensures var o := ChatTurn(st, user, user, req, agent, ids, now);
      var cid := o.result.value.conversationId;
      var reply := agent(History(st, cid) + [ChatMessage("user", req.message)], user);
      && o.store.messages == st.messages + [Message(ids.userMessage, cid, user, "user", req.message, now),
                                            Message(ids.assistantMessage, cid, user, "assistant", reply.response, now)]
      && o.result.value.response == reply.response
      && o.result.value.toolCalls == reply.toolCalls
      && o.store.conversations[cid].updatedAt == now
      && (forall c :: c in st.conversations && c != cid ==> c in o.store.conversations && o.store.conversations[c] == st.conversations[c])
      && (NamedConversation(req).None? ==> o.store.conversations.Keys == st.conversations.Keys + {cid})
      && (NamedConversation(req).Some? ==> o.store.conversations.Keys == st.conversations.Keys)
  {
    var cid := NamedConversation(req).GetOr(ids.conversation);
    if NamedConversation(req).None? {
      var created := Create(st, cid, user, None, now);
      assert History(created, cid) == History(st, cid);
    }
  }

  /** A new conversation holds exactly the turn's two messages: no earlier row is attributed to it. */
  lemma NewConversationHistory(st: Store, user: string, req: ChatRequest, agent: Agent, ids: FreshIds, now: int)
    requires Valid(st) && ids.conversation !in st.conversations && NamedConversation(req).None?
    ensures var o := ChatTurn(st, user, user, req, agent, ids, now);
      History(o.store, ids.conversation) ==
        [ChatMessage("user", req.message), ChatMessage("assistant", agent([ChatMessage("user", req.message)], user).response)]
  {
    var cid := ids.conversation;
    var created := Create(st, cid, user, None, now);
    NoHistoryWithoutConversation(st, cid);
    assert History(created, cid) == [];
    ExchangeHistory(created, user, cid, req.message, agent, ids, now);
    var exchanged := Exchange(created, user, cid, req.message, agent, ids, now);
    assert ChatTurn(st, user, user, req, agent, ids, now).store == Touch(exchanged.store, cid, now);
    assert History(Touch(exchanged.store, cid, now), cid) == History(exchanged.store, cid);
    var first := [ChatMessage("user", req.message)];
    assert History(created, cid) + first == first;
  }

  /** Every turn keeps every message attached to a stored conversation. */
  lemma TurnKeepsValid(st: Store, pathUser: string, tokenUser: string, req: ChatRequest, agent: Agent, ids: FreshIds, now: int)
    requires Valid(st) && ids.conversation !in st.conversations
    ensures Valid(ChatTurn(st, pathUser, tokenUser, req, agent, ids, now).store)
  {
  }

  /** The endpoint does not check the message: an empty one is stored and sent to the agent. */
  lemma EmptyMessageStored(st: Store, user: string, agent: Agent, ids: FreshIds, now: int)
    requires ids.conversation !in st.conversations
    ensures var o := ChatTurn(st, user, user, ChatRequest("", None), agent, ids, now);
      o.result.Ok? && o.store.messages[|st.messages|].content == ""
  {
  }
}
