/**
 * `chat_endpoint` of backend/src/api/chat_router.py: the second version of the chat turn. It takes
 * the caller from the token's `sub` claim, refuses a blank message, and, when the named
 * conversation is not the caller's, quietly starts a new one instead of failing. It does not touch
 * `updated_at`.
 */
module ChatRouter {
  import opened Wrappers
  import opened Text
  import opened Runner
  import opened ConversationStore
  import ChatLegacy

  const NoUserInToken: ChatError := ChatError(401, "No user ID found in token")
  const EmptyMessage: ChatError := ChatError(400, "Message cannot be empty")

  /** `ConversationBase.title`'s default (backend/src/models/conversation.py). */
  const DefaultTitle: string := "New Conversation"

  /** The 401 raised when the token names another user; the detail quotes both ids. */
  function Mismatch(pathUser: string, tokenUser: string): ChatError {
    ChatError(401, "User ID mismatch. Path: " + pathUser + ", Token: " + tokenUser)
  }

  /** The conversation a turn writes to: the named one if the caller owns it, otherwise the new one. */
  function Target(st: Store, user: string, conversationId: Option<string>, ids: FreshIds): (cid: string)
    ensures cid == ids.conversation || (conversationId == Some(cid) && Owned(st, cid, user))
    ensures conversationId.Some? && Owned(st, conversationId.value, user) ==> cid == conversationId.value
  {
    if conversationId.Some? && Owned(st, conversationId.value, user) then conversationId.value else ids.conversation
  }

  /**
   * One turn. `sub` is the token's claim (`None` when absent), `conversationId` the optional id in the
   * body, and `pathUser` the id in the route.
   */
  function RouterTurn(st: Store, pathUser: string, sub: Option<string>, message: string, conversationId: Option<string>,
                      agent: Agent, ids: FreshIds, now: int): (o: TurnOutcome)
    requires ids.conversation !in st.conversations
    ensures sub.None? || sub == Some("") ==> o == TurnOutcome(st, Err(NoUserInToken))
    ensures sub.Some? && sub.value != "" && sub.value != pathUser ==> o == TurnOutcome(st, Err(Mismatch(pathUser, sub.value)))
    ensures sub == Some(pathUser) && pathUser != "" && IsBlank(message) ==> o == TurnOutcome(st, Err(EmptyMessage))
    ensures o.result.Ok? <==> sub == Some(pathUser) && pathUser != "" && !IsBlank(message)
    ensures o.result.Err? ==> o.store == st
    ensures o.result.Ok? ==>
      && o.result.value.conversationId == Target(st, pathUser, conversationId, ids)
      && Owned(o.store, o.result.value.conversationId, pathUser)
      && (forall c :: c in st.conversations ==> c in o.store.conversations && o.store.conversations[c] == st.conversations[c])
  {
    if sub.None? || sub.value == "" then TurnOutcome(st, Err(NoUserInToken))
    else if sub.value != pathUser then TurnOutcome(st, Err(Mismatch(pathUser, sub.value)))
    else if IsBlank(message) then TurnOutcome(st, Err(EmptyMessage))
    else
      var cid := Target(st, pathUser, conversationId, ids);
      var base := if cid == ids.conversation then Create(st, cid, pathUser, Some(DefaultTitle), now) else st;
      Exchange(base, pathUser, cid, message, agent, ids, now)
  }

  /**
   * A successful turn writes exactly the user's message and the agent's reply, both tagged with the
   * caller, and the agent saw the target conversation's history followed by the new message.
   */
  lemma SuccessfulTurn(st: Store, user: string, message: string, conversationId: Option<string>, agent: Agent, ids: FreshIds, now: int)
    requires ids.conversation !in st.conversations
    requires RouterTurn(st, user, Some(user), message, conversationId, agent, ids, now).result.Ok?
    ensures var o := RouterTurn(st, user, Some(user), message, conversationId, agent, ids, now);
      var cid := o.result.value.conversationId;
      var reply := agent(History(st, cid) + [ChatMessage("user", message)], user);
      && o.store.messages == st.messages + [Message(ids.userMessage, cid, user, "user", message, now),
                                            Message(ids.assistantMessage, cid, user, "assistant", reply.response, now)]
      && o.result.value.response == reply.response
      && o.result.value.toolCalls == reply.toolCalls
  {
    var cid := Target(st, user, conversationId, ids);
    if cid == ids.conversation {
      var created := Create(st, cid, user, Some(DefaultTitle), now);
      assert History(created, cid) == History(st, cid);
    }
  }

  /**
   * Naming a conversation the caller does not own starts a fresh one titled "New Conversation": the
   * agent sees only the new message, and the named conversation's history is left as it was.
   */
  lemma ForeignConversationRestarts(st: Store, user: string, message: string, other: string, agent: Agent, ids: FreshIds, now: int)
    requires Valid(st) && ids.conversation !in st.conversations
    requires !Owned(st, other, user) && user != "" && !IsBlank(message)
    ensures var o := RouterTurn(st, user, Some(user), message, Some(other), agent, ids, now);
      var first := [ChatMessage("user", message)];
      && o.result.Ok?
      && o.result.value.conversationId == ids.conversation
      && o.store.conversations[ids.conversation].title == Some(DefaultTitle)
      && History(o.store, ids.conversation) == first + [ChatMessage("assistant", agent(first, user).response)]
      && (other != ids.conversation ==> History(o.store, other) == History(st, other))
  {
    var cid := ids.conversation;
    var created := Create(st, cid, user, Some(DefaultTitle), now);
    NoHistoryWithoutConversation(st, cid);
    assert History(created, cid) == [];
    ExchangeHistory(created, user, cid, message, agent, ids, now);
    var first := [ChatMessage("user", message)];
    assert History(created, cid) + first == first;
  }

  /**
   * On a conversation the caller owns and a message that is not blank, the two versions store the same
   * rows and return the same reply; they differ only in the legacy version's `updated_at` touch.
   */
  lemma VersionsAgree(st: Store, user: string, message: string, cid: string, agent: Agent, ids: FreshIds, now: int)
    requires ids.conversation !in st.conversations
    requires Owned(st, cid, user) && user != "" && cid != "" && !IsBlank(message)
    ensures var legacy := ChatLegacy.ChatTurn(st, user, user, ChatLegacy.ChatRequest(message, Some(cid)), agent, ids, now);
      var current := RouterTurn(st, user, Some(user), message, Some(cid), agent, ids, now);
      && legacy.result == current.result
      && legacy.store.messages == current.store.messages
      && legacy.store.conversations == current.store.conversations[cid := current.store.conversations[cid].(updatedAt := now)]
  {
  }
}
