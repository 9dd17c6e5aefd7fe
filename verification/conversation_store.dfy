/**
 * The conversation and message tables the chat endpoints read and write, as one immutable value:
 * conversations by id, and the messages in the order they were written. Ordering a conversation's
 * messages by `created_at` is taken to be this write order.
 */
module ConversationStore {
  import opened Wrappers
  import opened Json
  import opened Runner

  datatype Conversation = Conversation(id: string, owner: string, title: Option<string>, createdAt: int, updatedAt: int)

  datatype Message = Message(id: string, conversationId: string, userId: string, role: string, content: string, createdAt: int)

  datatype Store = Store(conversations: map<string, Conversation>, messages: seq<Message>)

  /** Every conversation is stored under its id, and every message references a stored conversation. */
  ghost predicate Valid(st: Store) {
    && (forall c :: c in st.conversations ==> st.conversations[c].id == c)
    && (forall i :: 0 <= i < |st.messages| ==> st.messages[i].conversationId in st.conversations)
  }

  /** The lookup `id == conversation_id and user_id == user`. */
  predicate Owned(st: Store, cid: string, user: string) {
    cid in st.conversations && st.conversations[cid].owner == user
  }

  /** A conversation's messages, oldest first, as the agent receives them. */
  function History(st: Store, cid: string): (h: seq<ChatMessage>)
    ensures |h| <= |st.messages|
  {
    HistoryOf(st.messages, cid)
  }

  function HistoryOf(ms: seq<Message>, cid: string): (h: seq<ChatMessage>)
    ensures |h| <= |ms|
    decreases |ms|
  {
    if ms == [] then []
    else
      var last := ms[|ms| - 1];
      HistoryOf(ms[..|ms| - 1], cid) + (if last.conversationId == cid then [AgentView(last)] else [])
  }

  /** Writing a message adds it at the end of its own conversation's history and nowhere else. */
  lemma HistoryAfterAppend(st: Store, m: Message, cid: string)
    ensures History(Store(st.conversations, st.messages + [m]), cid) ==
      History(st, cid) + (if m.conversationId == cid then [AgentView(m)] else [])
  {
    assert (st.messages + [m])[..|st.messages|] == st.messages;
  }

  /** Only the messages of `cid` make up its history: the history counts exactly those. */
  lemma {:induction false} HistoryCountsOwnMessages(ms: seq<Message>, cid: string)
    ensures |HistoryOf(ms, cid)| == |set i | 0 <= i < |ms| && ms[i].conversationId == cid|
    decreases |ms|
  {
    if ms != [] {
      var n := |ms| - 1;
      var prefix := ms[..n];
      HistoryCountsOwnMessages(prefix, cid);
      assert |HistoryOf(ms, cid)| == |HistoryOf(prefix, cid)| + (if ms[n].conversationId == cid then 1 else 0);
      var before := set i | 0 <= i < n && prefix[i].conversationId == cid;
      var all := set i | 0 <= i < |ms| && ms[i].conversationId == cid;
      assert n !in before;
      if ms[n].conversationId == cid {
        assert all == before + {n} by {
          forall i | i in all ensures i in before + {n} {
            if i < n { assert prefix[i] == ms[i]; }
          }
        }
      } else {
        assert all == before by {
          forall i | i in all ensures i in before {
            assert prefix[i] == ms[i];
          }
        }
      }
    }
  }

  /** Append a message. */
  function Append(st: Store, m: Message): (st': Store)
    ensures st'.conversations == st.conversations && st'.messages == st.messages + [m]
  {
    Store(st.conversations, st.messages + [m])
  }

  /** Insert a new conversation whose timestamps are both `now`. */
  function Create(st: Store, id: string, owner: string, title: Option<string>, now: int): (st': Store)
    requires id !in st.conversations
    ensures Owned(st', id, owner) && st'.messages == st.messages
    ensures forall c :: c in st.conversations ==> c in st'.conversations && st'.conversations[c] == st.conversations[c]
    ensures st'.conversations.Keys == st.conversations.Keys + {id}
    ensures Valid(st) ==> Valid(st')
  {
    Store(st.conversations[id := Conversation(id, owner, title, now, now)], st.messages)
  }

  /** Set a conversation's `updated_at`. */
  function Touch(st: Store, cid: string, now: int): (st': Store)
    requires cid in st.conversations
    ensures st'.messages == st.messages && st'.conversations.Keys == st.conversations.Keys
    ensures st'.conversations[cid] == st.conversations[cid].(updatedAt := now)
    ensures forall c :: c in st.conversations && c != cid ==> st'.conversations[c] == st.conversations[c]
    ensures Valid(st) ==> Valid(st')
  {
    Store(st.conversations[cid := st.conversations[cid].(updatedAt := now)], st.messages)
  }

  // ---------------------------------------------------------------- one exchange with the agent

  /** `run_agent`: the conversation so far and the caller's id in, a reply out. */
  type Agent = (seq<ChatMessage>, string) -> AgentResult

  /** The identifiers the database generates for the rows one turn may insert. */
  datatype FreshIds = FreshIds(conversation: string, userMessage: string, assistantMessage: string)

  /** An `HTTPException`: status code and detail. */
  datatype ChatError = ChatError(status: int, detail: string)

  /** The dictionary a successful turn returns. */
  datatype TurnReply = TurnReply(conversationId: string, response: string, toolCalls: seq<Value>)

  datatype TurnOutcome = TurnOutcome(store: Store, result: Result<TurnReply, ChatError>)

  /** The message the agent's `messages` list holds for a stored row. */
  function AgentView(m: Message): ChatMessage {
    ChatMessage(m.role, m.content)
  }

  /**
   * Store the user's message, run the agent on the conversation's history read back after that
   * write, and store the agent's reply: both rows carry the caller's id, and the returned reply is the
   * stored one.
   */
  function Exchange(st: Store, user: string, cid: string, message: string, agent: Agent, ids: FreshIds, now: int)
    : (o: TurnOutcome)
    ensures var reply := agent(History(st, cid) + [ChatMessage("user", message)], user);
      && o.store.conversations == st.conversations
      && o.store.messages == st.messages + [Message(ids.userMessage, cid, user, "user", message, now),
                                            Message(ids.assistantMessage, cid, user, "assistant", reply.response, now)]
      && o.result == Ok(TurnReply(cid, reply.response, reply.toolCalls))
    ensures Valid(st) && cid in st.conversations ==> Valid(o.store)
  {
    var userRow := Message(ids.userMessage, cid, user, "user", message, now);
    var withUser := Append(st, userRow);
    HistoryAfterAppend(st, userRow, cid);
    var reply := agent(History(withUser, cid), user);
    TurnOutcome(Append(withUser, Message(ids.assistantMessage, cid, user, "assistant", reply.response, now)),
                Ok(TurnReply(cid, reply.response, reply.toolCalls)))
  }

  /** An exchange adds exactly the user's message and the agent's reply to the conversation's history. */
  lemma ExchangeHistory(st: Store, user: string, cid: string, message: string, agent: Agent, ids: FreshIds, now: int)
    ensures var o := Exchange(st, user, cid, message, agent, ids, now);
      var before := History(st, cid);
      History(o.store, cid) ==
        before + [ChatMessage("user", message), ChatMessage("assistant", agent(before + [ChatMessage("user", message)], user).response)]
    ensures forall c :: c != cid ==> History(Exchange(st, user, cid, message, agent, ids, now).store, c) == History(st, c)
  {
    var userRow := Message(ids.userMessage, cid, user, "user", message, now);
    var withUser := Append(st, userRow);
    HistoryAfterAppend(st, userRow, cid);
    var reply := agent(History(withUser, cid), user);
    var replyRow := Message(ids.assistantMessage, cid, user, "assistant", reply.response, now);
    HistoryAfterAppend(withUser, replyRow, cid);
    forall c | c != cid
      ensures History(Exchange(st, user, cid, message, agent, ids, now).store, c) == History(st, c)
    {
      HistoryAfterAppend(st, userRow, c);
      HistoryAfterAppend(withUser, replyRow, c);
    }
  }

  /** In a well-formed store a conversation that does not exist has no messages. */
  lemma NoHistoryWithoutConversation(st: Store, cid: string)
    requires Valid(st) && cid !in st.conversations
    ensures History(st, cid) == []
  {
    NoMessagesOf(st.messages, cid, st.conversations.Keys);
  }

  lemma {:induction false} NoMessagesOf(ms: seq<Message>, cid: string, keys: set<string>)
    requires cid !in keys && forall i :: 0 <= i < |ms| ==> ms[i].conversationId in keys
    ensures HistoryOf(ms, cid) == []
    decreases |ms|
  {
    if ms != [] {
      NoMessagesOf(ms[..|ms| - 1], cid, keys);
    }
  }
}
