/**
 * The field rules of the two message models: backend/src/models/message.py (`MessageBase`,
 * `MessageUpdate`) and backend/models/message.py (`MessageBase`, the `Message` table). A pydantic
 * `regex` of the form `^(a|b|...)$` is an anchored alternation: it accepts exactly the listed words.
 * `min_length` and `max_length` count characters.
 *
 * The rules belong to the validating models. The `table=True` classes do not validate when they are
 * constructed, so the chat endpoints can store rows the rules would refuse; the lemmas at the end
 * state which.
 */
module MessageSchema {
  import opened Wrappers
  import opened Text
  import opened ConversationStore
  import ChatLegacy
  import ChatRouter

  // ---------------------------------------------------------------- anchored alternation

  /** Does the anchored alternation of `words` accept `s`? */
  predicate AlternationAccepts(words: seq<string>, s: string) {
    exists i :: 0 <= i < |words| && words[i] == s
  }

  const Roles: seq<string> := ["user", "assistant"]
  const LegacyRoles: seq<string> := ["user", "assistant", "system"]

  /** `^(user|assistant)$` */
  predicate RoleValid(role: string) {
    AlternationAccepts(Roles, role)
  }

  /** `^(user|assistant|system)$` */
  predicate LegacyRoleValid(role: string) {
    AlternationAccepts(LegacyRoles, role)
  }

  /** The current model accepts exactly the roles "user" and "assistant". */
  lemma RoleValidExactly(role: string)
    ensures RoleValid(role) <==> role == "user" || role == "assistant"
  {
    if role == "user" {
      assert Roles[0] == role;
    } else if role == "assistant" {
      assert Roles[1] == role;
    }
  }

  /** The legacy model accepts exactly "user", "assistant" and "system". */
  lemma LegacyRoleValidExactly(role: string)
    ensures LegacyRoleValid(role) <==> role == "user" || role == "assistant" || role == "system"
  {
    if role == "user" {
      assert LegacyRoles[0] == role;
    } else if role == "assistant" {
      assert LegacyRoles[1] == role;
    } else if role == "system" {
      assert LegacyRoles[2] == role;
    }
  }

  /** The legacy model accepts every role the current one does, and "system" besides. */
  lemma RolesWiden(role: string)
    ensures RoleValid(role) ==> LegacyRoleValid(role)
    ensures LegacyRoleValid(role) && !RoleValid(role) <==> role == "system"
  {
    RoleValidExactly(role);
    LegacyRoleValidExactly(role);
  }

  // ---------------------------------------------------------------- content

  const MaxContent: nat := 10000

  /** `Field(min_length=1, max_length=10000)` */
  predicate ContentValid(content: string) {
    1 <= |content| <= MaxContent
  }

  /** `Field(min_length=1)` of the legacy create schema. */
  predicate LegacyContentValid(content: string) {
    1 <= |content|
  }

  // ---------------------------------------------------------------- validating a message

  /** The fields a message is built from. */
  datatype MessageFields = MessageFields(role: string, content: string)

  /**
   * Validate `MessageCreate` of the current model: the fields it refuses, in declaration order, or the
   * fields themselves.
   */
  function ValidateCreate(f: MessageFields): (r: Result<MessageFields, seq<string>>)
    ensures r.Ok? <==> (f.role == "user" || f.role == "assistant") && 1 <= |f.content| <= 10000
    ensures r.Ok? ==> r.value == f
    ensures r.Err? ==> r.error != [] && (forall k :: 0 <= k < |r.error| ==> r.error[k] in {"role", "content"})
    ensures r.Err? ==> ("role" in r.error <==> !RoleValid(f.role)) && ("content" in r.error <==> !ContentValid(f.content))
  {
    RoleValidExactly(f.role);
    var bad := (if RoleValid(f.role) then [] else ["role"]) + (if ContentValid(f.content) then [] else ["content"]);
    if bad == [] then Ok(f) else Err(bad)
  }

  /** Validate the legacy `MessageCreate`: role among three, content not empty. */
  function ValidateLegacyCreate(f: MessageFields): (r: Result<MessageFields, seq<string>>)
    ensures r.Ok? <==> (f.role == "user" || f.role == "assistant" || f.role == "system") && |f.content| >= 1
    ensures r.Ok? ==> r.value == f
    ensures r.Err? ==> ("role" in r.error <==> !LegacyRoleValid(f.role)) && ("content" in r.error <==> !LegacyContentValid(f.content))
  {
    LegacyRoleValidExactly(f.role);
    var bad := (if LegacyRoleValid(f.role) then [] else ["role"]) + (if LegacyContentValid(f.content) then [] else ["content"]);
    if bad == [] then Ok(f) else Err(bad)
  }

  /** Whatever the current model accepts, the legacy one accepts too. */
  lemma CreateWidens(f: MessageFields)
    ensures ValidateCreate(f).Ok? ==> ValidateLegacyCreate(f).Ok?
  {
  }

  // ---------------------------------------------------------------- updating a message

  /**
   * `MessageUpdate(content=...)` applied to a stored message: no content leaves it as it is, a valid
   * one replaces it, and an invalid one is refused.
   */
  function ApplyUpdate(m: Message, content: Option<string>): (r: Result<Message, seq<string>>)
    ensures content.None? ==> r == Ok(m)
    ensures content.Some? ==> (r.Ok? <==> 1 <= |content.value| <= 10000)
    ensures r.Ok? ==> r.value == m.(content := content.GetOr(m.content))
    ensures r.Err? ==> r.error == ["content"]
  {
    match content
    case None => Ok(m)
    case Some(c) => if ContentValid(c) then Ok(m.(content := c)) else Err(["content"])
  }

  /** A valid message stays valid under any update the model accepts. */
  lemma UpdateKeepsValid(m: Message, content: Option<string>)
    requires RoleValid(m.role) && ContentValid(m.content)
    requires ApplyUpdate(m, content).Ok?
    ensures var u := ApplyUpdate(m, content).value;
      RoleValid(u.role) && ContentValid(u.content) && u.id == m.id && u.conversationId == m.conversationId
  {
  }

  // ---------------------------------------------------------------- defaults of the legacy table

  /** A legacy `Message` row: `id` and `created_at` default to a fresh id and the current time. */
  function NewRow(conversationId: string, userId: string, f: MessageFields, id: Option<string>, createdAt: Option<int>,
                  freshId: string, now: int): (m: Message)
    ensures m.id == (if id.Some? then id.value else freshId)
    ensures m.createdAt == (if createdAt.Some? then createdAt.value else now)
    ensures m.conversationId == conversationId && m.userId == userId && m.role == f.role && m.content == f.content
  {
    Message(id.GetOr(freshId), conversationId, userId, f.role, f.content, createdAt.GetOr(now))
  }

  // ---------------------------------------------------------------- what the endpoints store

  /**
   * The current endpoint's rows satisfy the role rule, and its user message satisfies the content
   * rule whenever it is at most 10000 characters long: the blank check already rules out the empty one.
   */
  lemma RouterRowsValid(st: Store, user: string, message: string, conversationId: Option<string>,
                        agent: Agent, ids: FreshIds, now: int)
    requires ids.conversation !in st.conversations
    requires ChatRouter.RouterTurn(st, user, Some(user), message, conversationId, agent, ids, now).result.Ok?
    requires |message| <= MaxContent
    ensures var o := ChatRouter.RouterTurn(st, user, Some(user), message, conversationId, agent, ids, now);
      && |o.store.messages| == |st.messages| + 2
      && RoleValid(o.store.messages[|st.messages|].role) && RoleValid(o.store.messages[|st.messages| + 1].role)
      && ContentValid(o.store.messages[|st.messages|].content)
  {
    ChatRouter.SuccessfulTurn(st, user, message, conversationId, agent, ids, now);
    RoleValidExactly("user");
    RoleValidExactly("assistant");
  }

  /**
   * The legacy endpoint stores an empty message, a row its own create schema refuses, because the
   * table class does not validate.
   */
  lemma LegacyStoresInvalidContent(st: Store, user: string, agent: Agent, ids: FreshIds, now: int)
    requires ids.conversation !in st.conversations
    ensures var o := ChatLegacy.ChatTurn(st, user, user, ChatLegacy.ChatRequest("", None), agent, ids, now);
      && o.result.Ok?
      && var row := o.store.messages[|st.messages|];
      ValidateLegacyCreate(MessageFields(row.role, row.content)).Err?
  {
    ChatLegacy.EmptyMessageStored(st, user, agent, ids, now);
  }

  /**
   * The legacy endpoint supplies neither `id` nor `created_at`: its two rows are the defaults, with
   * the turn's fresh ids and its time.
   */
  lemma LegacyRowsAreDefaults(st: Store, user: string, req: ChatLegacy.ChatRequest, agent: Agent, ids: FreshIds, now: int)
    requires ids.conversation !in st.conversations
    requires ChatLegacy.ChatTurn(st, user, user, req, agent, ids, now).result.Ok?
    ensures var o := ChatLegacy.ChatTurn(st, user, user, req, agent, ids, now);
      var cid := o.result.value.conversationId;
      o.store.messages == st.messages + [
        NewRow(cid, user, MessageFields("user", req.message), None, None, ids.userMessage, now),
        NewRow(cid, user, MessageFields("assistant", o.result.value.response), None, None, ids.assistantMessage, now)]
  {
    ChatLegacy.SuccessfulTurn(st, user, req, agent, ids, now);
  }
}
