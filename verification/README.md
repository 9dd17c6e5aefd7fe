# Chat-to-todo orchestrator: a Dafny model

This project models the core of a chat service that keeps a to-do list. A user's message is stored in a
conversation. The conversation is handed to an assistant run. The run may call five task tools
(`add_task`, `list_tasks`, `complete_task`, `update_task`, `delete_task`). The assistant's reply is
compressed, stored and returned.

The model is purely functional. Databases are immutable values, and every outside component is a parameter:

- the assistants API is a finite script of replies;
- the HTTP layer is a state-threading `send` function;
- the agent a chat turn runs is a function from history to reply;
- the clock and the generated ids are passed in.

Modules, one per component of the source:

| module | file | models |
|---|---|---|
| `Wrappers`, `Json` | wrappers.dfy, json.dfy | `Option`/`Result`, and JSON values and dictionaries |
| `Text` | text.dfy | Python's `str.split()`, `" ".join`, `strip()`, `replace`, `in` and ASCII `lower()` |
| `Compress` | compress.dfy | `compress_response` |
| `TaskClient` | task_client.dfy | `MCPTaskClient`: the request each operation sends, and failure normalisation |
| `Runner` | runner.dfy | `run_agent`: tool dispatch, batches, the polling loop, reply extraction, the stand-in assistant, the exception fallback |
| `ToolErrors` | tool_errors.dfy | the `MCPError` classes and `handle_tool_errors` |
| `TaskTools` | task_tools.dfy | the five typed task tools; `tool_implementations.py` and `mcp_server_setup.py` hold the same code |
| `Registry` | registry.dfy | the dictionary handlers of `tool_registry.py` |
| `ConversationStore` | conversation_store.dfy | conversations, messages, history, and the store-message / run-agent / store-reply exchange |
| `ChatLegacy` | chat_legacy.dfy | `chat_endpoint` of `backend/api/chat.py` |
| `ChatRouter` | chat_router.dfy | `chat_endpoint` of `backend/src/api/chat_router.py` |
| `MessageSchema` | message_schema.dfy | the field rules of the two message models |

Where the design notes of the system and its code disagree, the model follows the code:

- The polling loop has no iteration ceiling (`Runner.NoPollCeiling`).
- A run that ends `failed`, `cancelled` or `expired` is not treated specially: its text is extracted like a completed one's.
- `run_agent` always returns an empty `tool_calls` list.
- In the current chat endpoint, a well-formed conversation id that does not name one of the caller's conversations starts a new conversation instead of failing. An integration test of the repository expects the id to be echoed back.
- That endpoint does not update `updated_at`.
- The legacy chat endpoint stores an empty message, although its own schema requires at least one character.

## Model

| member | source | states |
|---|---|---|
| Text.StripEmptyIffBlank | backend/mcp/tool_implementations.py:37-38 | `strip()` is empty exactly when the text is all whitespace, which is what the blank-title checks test |
| Text.SplitEmptyIffBlank | backend/agent/runner.py:18 | `split()` yields no words exactly when the text is blank |
| Text.JoinWordsNormalized | backend/agent/runner.py:18 | joining whitespace-free words with one space gives text with no edge space and no doubled space, empty only for no words |
| Text.CollapseNormalized | backend/agent/runner.py:18 | `" ".join(s.split())` is in whitespace normal form, and is empty iff `s` is blank |
| Text.CollapseShorter | backend/agent/runner.py:18 | collapsing whitespace never lengthens the text |
| Text.CollapseFixesNormalized | backend/agent/runner.py:18 | collapsing text already in normal form changes nothing |
| Text.ReplaceAbsent | backend/agent/runner.py:34-35 | `replace` of a pattern that does not occur leaves the text unchanged |
| Text.ReplaceShorter | backend/agent/runner.py:34-35 | replacing a pattern with a shorter text never lengthens the text |
| Text.ReplaceKeepsNormalized | backend/agent/runner.py:34-35 | replacing a pattern without edge spaces by a normalized text keeps the whitespace normal form |
| Compress.RulesShrink | backend/agent/runner.py:20-33 | every replacement of the table is non-empty, shorter than its pattern, and normalized, and no pattern starts or ends with a space |
| Compress.ApplyShrinkingRules | backend/agent/runner.py:34-35 | applying such rules in order keeps normal form and never lengthens |
| Compress.CompressResponse | backend/agent/runner.py:15-36 | the compressed reply has no edge or doubled whitespace, is never longer than the input, and is "" for blank input |
| Compress.CompressWithoutPhrases | backend/agent/runner.py:15-36 | a reply containing none of the phrases only has its whitespace collapsed |
| Compress.CompressedIsCollapsed | backend/agent/runner.py:15-36 | the compressed reply is a fixed point of the whitespace collapse |
| TaskClient.RequestFor | backend/services/mcp_client.py:16-107 | only `list_tasks` is a bodiless GET; every body carries `user_id`, rendered as `null` for `None` |
| TaskClient.FailureFor | backend/services/mcp_client.py:28-33 | every failure dictionary has `success` False and the error text; add adds `task_id` None, list adds `tasks` [], the other three add the fixed not-found message |
| TaskClient.Invoke | backend/services/mcp_client.py:18-33 | the client never raises: a delivered body is returned unchanged, a failure becomes the failure dictionary |
| TaskClient.RequestRoundTrip | backend/services/mcp_client.py:37-40 | the service recovers the operation and every argument from the request; `?user_id=` is appended only for a truthy id, so an empty id is sent like none |
| TaskClient.EndpointsDiffer | backend/services/mcp_client.py:20 | different operation names give different URLs |
| TaskClient.InvokeAsWritten | backend/services/mcp_client.py:70-87 | a delete never sends a request and returns the failure dictionary of the `TypeError`; the other operations behave as `Invoke` |
| TaskClient.DeleteNeverSent | backend/services/mcp_client.py:70-87 | as written, a delete leaves the service untouched and fails even when the service would have answered |
| TaskClient.DeleteReachesService | backend/services/mcp_client.py:70-80 | the corrected delete is a DELETE request from which the service reads back the id and the user |
| Runner.Arguments | backend/agent/runner.py:106-121 | every decoded key keeps its decoded value; the caller's id is added as `user_id` exactly when the decoded arguments lack one; no other key appears (undecodable text gives `{}`) |
| Runner.Route | backend/agent/runner.py:124-140 | exactly the five tool names select a client call; each name selects its own operation with `task`, `task_id` and `new_content` taken from the arguments; every call carries the caller's id |
| Runner.RouteIgnoresUserArgument | backend/agent/runner.py:119-138 | a `user_id` in the arguments, or its absence, never changes the call made |
| Runner.HandleToolCall | backend/agent/runner.py:124-146 | an unknown name gives the unknown-function dictionary and makes no call; a raising call gives the retry dictionary; otherwise the client's result is the output |
| Runner.RunBatch | backend/agent/runner.py:104-151 | one output per requested call, in order, tagged with its id; output `i` is what handling call `i` gives from the state the previous call left; an unknown name gives the unknown-function dictionary; the calls made are exactly the routed calls, in order; a batch of unknown names changes nothing |
| Runner.Routed | backend/agent/runner.py:124-140 | one client call per tool call whose name routes, in order and for the caller; none for unknown names, and one per call when all names are known |
| Runner.ClientBatchOutputs | backend/agent/runner.py:124-146 | answered through the client, which never raises, each output is the unknown-function dictionary or exactly the client's result for the routed call |
| Runner.Poll | backend/agent/runner.py:98-159 | the loop ends only on a status outside queued/in progress/requires action; a retrieve that raises ends it at once with that exception; it ends with an exception only when one of the replies raised it; every call made carries the caller's id |
| Runner.NoPollCeiling | backend/agent/runner.py:98-100 | any number of in-progress polls is waited out |
| Runner.WaitsOutPending | backend/agent/runner.py:98-102 | from any polled run, any sequence of queued or in-progress answers is waited out, and the first answer no longer polled ends the loop with no calls made |
| Runner.EmptyBatchNotSubmitted | backend/agent/runner.py:153-159 | a required action with no tool calls submits nothing and polling goes on |
| Runner.BatchSubmittedOnce | backend/agent/runner.py:102-159 | a required action with tool calls answers them all, then submits once; polling continues from the run the submission returns |
| Runner.SubmissionRaisesCrashes | backend/agent/runner.py:153-159 | a submission that raises ends polling with that exception, after the batch's calls were made |
| Runner.InProgressLikeQueued | backend/agent/runner.py:98 | queued and in-progress runs are polled alike |
| Runner.Texts | backend/agent/runner.py:169-172 | every collected string is the value of a text part of the message; there are none without text parts and never more than parts; when all parts are text, the strings are their values in order |
| Runner.TextsAppend | backend/agent/runner.py:169-172 | collecting the texts of two runs of parts gives the texts of the first followed by those of the second |
| Runner.FirstAssistant | backend/agent/runner.py:165-174 | finds the first assistant message of the listing, or reports that there is none |
| Runner.AssistantText | backend/agent/runner.py:161-174 | the reply is the text parts of the first assistant message joined by one space, or "" when there is none |
| Runner.MockReply | backend/agent/runner.py:60-73 | the stand-in reply is chosen by the first matching keyword pair of the lower-cased last message, in priority order add/create, list/show, complete/done, delete/remove, else the default |
| Runner.MockReplyIgnoresCaseAndHistory | backend/agent/runner.py:60-62 | the stand-in reply depends only on the last message, and not on the case of its ASCII letters |
| Runner.RunAgent | backend/agent/runner.py:39-195 | a result carries an error exactly when `create_agent`, the setup, a poll or the listing raised, and then the reply is "Error. Retry." with that exception's text; every reply is normalized with no tool calls; every task call is made for the caller; the stand-in path returns the compressed keyword reply |
| Runner.FailedReplyNormalized | backend/agent/runner.py:192 | the fallback reply is already in whitespace normal form |
| Runner.CompletedRunReply | backend/agent/runner.py:161-180 | a run that stops polling answers with the compressed first assistant message, after all its tool calls |
| Runner.Posted | backend/agent/runner.py:84-89 | the thread holds one message per history entry, with that entry's role and text, in order |
| Runner.HistoricalReplyReturned | backend/agent/runner.py:84-174 | when the posted history holds an assistant message, the first one is the reply, whatever the run added |
| Runner.StaleReplyOnSecondTurn | backend/agent/runner.py:84-174 | on a second turn the first turn's reply is returned instead of the new one |
| Runner.RunReplySkipsHistory | backend/agent/runner.py:161-174 | the corrected extraction depends only on the messages the run added |
| ToolErrors.Digits | backend/mcp/errors.py:36 | `str(n)` is a non-empty string of decimal digits with no leading zero |
| ToolErrors.DigitsRoundTrip | backend/mcp/errors.py:36 | reading the decimal rendering back gives the number |
| ToolErrors.ParseSigned | backend/mcp/errors.py:36 | a digit string reads as its value, and with a leading `-` as its negation |
| ToolErrors.IntRoundTrip | backend/mcp/errors.py:36 | parsing `str(n)` gives `n` back |
| ToolErrors.IntToStringInjective | backend/mcp/errors.py:36 | distinct integers render differently |
| ToolErrors.Describe | backend/mcp/errors.py:24-66 | not-found is NOT_FOUND with the message "Task with id {id} not found" and `{task_id}`; validation is BAD_REQUEST with its message and `{field}` exactly when a non-empty field was given; unauthorized is FORBIDDEN and internal is INTERNAL_ERROR, each with its message and empty details |
| ToolErrors.NotFoundMessagesDistinct | backend/mcp/errors.py:32-38 | the not-found message determines the task id |
| ToolErrors.HandleToolErrors | backend/mcp/errors.py:70-94 | a result passes through unchanged; no `Exception` escapes; the four subclasses are reported with their own code, message and details; any other exception becomes INTERNAL_ERROR with its text and empty details; the message is always the exception's text; the code is never UNAUTHORIZED |
| ToolErrors.HandledCodeIdentifiesClass | backend/mcp/errors.py:77-92 | the reported code is NOT_FOUND, BAD_REQUEST or FORBIDDEN exactly for the matching subclass, and INTERNAL_ERROR for everything else |
| ToolErrors.NotFoundReportRecoversId | backend/mcp/errors.py:32-38 | a reported not-found error gives back its id from the details and from the message |
| TaskTools.AddTaskError | backend/mcp/tool_implementations.py:37-41 | a blank title is refused first, then a description over 1000 characters; otherwise there is no error |
| TaskTools.AddTask | backend/mcp/tool_implementations.py:32-64 | on error nothing is inserted; otherwise one row with the next id, the stripped title, `completed` false and the caller as owner is inserted and echoed |
| TaskTools.ScanIds | backend/mcp/tool_implementations.py:77-85 | every scanned id is a listed row of the caller |
| TaskTools.ScanComplete | backend/mcp/tool_implementations.py:77-85 | the scan misses no listed row |
| TaskTools.ScanAscending | backend/mcp/tool_implementations.py:85 | the scan is in strictly ascending id order |
| TaskTools.ListTasks | backend/mcp/tool_implementations.py:67-92 | the list holds exactly the caller's rows the filter selects, each as stored, in ascending id order |
| TaskTools.ListedItems | backend/mcp/tool_implementations.py:87-90 | the items built from the scan are sound, complete and ordered |
| TaskTools.ListedIdsExact | backend/mcp/tool_implementations.py:77-92 | the listed ids are exactly the caller's selected ids |
| TaskTools.PendingCompletedPartition | backend/mcp/tool_registry.py:149-155 | the pending and completed lists are disjoint, and together they make up the full list |
| TaskTools.CompleteTask | backend/mcp/tool_implementations.py:95-122 | a row not owned by the caller raises not-found and changes nothing; otherwise only that row becomes completed |
| TaskTools.CompleteTwice | backend/mcp/tool_implementations.py:105-122 | completing twice succeeds twice with the same answer; the second call only moves `updated_at` |
| TaskTools.UpdateTaskError | backend/mcp/tool_implementations.py:134-148 | the checks run in order: nothing to update, then the ownership lookup, then a blank title |
| TaskTools.UpdateTask | backend/mcp/tool_implementations.py:125-162 | an error changes nothing; otherwise only the given fields change, the title unstripped, and `completed` is kept |
| TaskTools.DeleteTask | backend/mcp/tool_implementations.py:165-188 | a row not owned by the caller raises not-found; otherwise exactly that row is removed and `status` is "deleted" |
| TaskTools.ApplyKeepsValid | backend/mcp/mcp_server_setup.py:94-246 | every tool keeps each row under its own id and below the id counter |
| TaskTools.ApplyKeepsOthers | backend/mcp/mcp_server_setup.py:94-246 | no tool changes, removes or adds a row of another user |
| TaskTools.ResultsIgnoreOthers | backend/mcp/tool_implementations.py:67-188 | no tool's answer depends on other users' rows |
| TaskTools.ScanAgrees | backend/mcp/tool_implementations.py:77 | tables that agree on the caller's rows scan alike |
| TaskTools.AddThenDelete | backend/mcp/tool_registry.py:97-166 | after an add, the full list contains the new id; after deleting it, the list no longer does |
| TaskTools.DescriptionLimit | backend/mcp/tool_implementations.py:40-41 | a description of exactly 1000 characters is accepted, and one of 1001 is refused |
| TaskTools.UpdateSkipsLengthCheck | backend/mcp/tool_implementations.py:150-151 | an update stores a description over 1000 characters as given |
| Registry.ParamsRoundTrip | backend/mcp/tool_registry.py:23-72 | the request models read back the fields of a parameter dictionary; `status` defaults to "all" |
| Registry.AddTaskHandler | backend/mcp/tool_registry.py:97-134 | a missing title, then a malformed description, is refused by the request model; otherwise it fails exactly when the tool's title or length check does, raising that error; a successful add returns the next id, the stripped title, `completed` False and the creation time, and inserts only that row, keeping every other row; the table stays well formed and no other user's row changes |
| Registry.ListTasksHandler | backend/mcp/tool_registry.py:137-166 | the handler changes nothing, refuses an unknown status, and returns the filtered list as `{"tasks": [...]}` |
| Registry.CompleteTaskHandler | backend/mcp/tool_registry.py:169-200 | a missing `task_id` is refused; an id the caller does not own raises not-found; success means the caller owned the id, the same `task_id` is returned with `completed` True, and only that row changes, to completed with the new `updated_at`; the table stays well formed and no other user's row changes |
| Registry.UpdateTaskHandler | backend/mcp/tool_registry.py:203-244 | neither field is refused before the ownership lookup; a blank title is refused after it; it succeeds exactly when none of the three checks fails, returning the new title and the unchanged `completed`; on success only that row changes, and only in the given fields and `updated_at`; an error changes nothing; the table stays well formed and no other user's row changes |
| Registry.DeleteTaskHandler | backend/mcp/tool_registry.py:247-274 | a missing `task_id` is refused; an id the caller does not own raises not-found; success means the caller owned the id, exactly that row is removed, and the answer is `{"task_id", "status": "deleted"}`; the table stays well formed and no other user's row changes |
| Registry.HandlersIgnoreOthers | backend/mcp/tool_registry.py:137-274 | no handler's answer depends on other users' rows |
| Registry.TaskIdHandlersIgnoreOthers | backend/mcp/tool_registry.py:169-274 | the same for the three handlers that look up a `task_id` |
| ConversationStore.HistoryAfterAppend | backend/api/chat.py:83-92 | a new message extends the history of its own conversation only |
| ConversationStore.HistoryCountsOwnMessages | backend/api/chat.py:83 | a history holds exactly as many entries as its conversation has messages |
| ConversationStore.Create | backend/api/chat.py:65-70 | a new conversation owned by the caller is added; no existing one changes |
| ConversationStore.Touch | backend/api/chat.py:107-110 | only the conversation's `updated_at` changes |
| ConversationStore.Exchange | backend/api/chat.py:72-117 | user row then assistant row, both tagged with the caller; the agent saw the history plus the new message; the stored reply is the returned reply |
| ConversationStore.ExchangeHistory | backend/api/chat.py:72-105 | the conversation's history gains exactly the two messages, and every other history is unchanged |
| ConversationStore.NoHistoryWithoutConversation | backend/models/message.py:19 | in a well-formed store, a conversation that does not exist has no messages |
| ChatLegacy.ChatTurn | backend/api/chat.py:46-117 | a token mismatch gives 403 and a foreign or unknown conversation gives 404, both with no writes; success targets the named owned conversation, or a new one when none is named |
| ChatLegacy.SuccessfulTurn | backend/api/chat.py:65-117 | two messages are appended; the reply is stored and returned; `updated_at` is the turn's time; no other conversation changes; only a turn without an id creates a conversation |
| ChatLegacy.NewConversationHistory | backend/api/chat.py:65-95 | a new conversation's history is exactly the user message and the reply |
| ChatLegacy.TurnKeepsValid | backend/api/chat.py:54-110 | every message still references a stored conversation after a turn |
| ChatLegacy.EmptyMessageStored | backend/api/chat.py:73-79 | an empty message is stored and answered |
| ChatRouter.Target | backend/src/api/chat_router.py:71-86 | the turn writes to the named conversation when the caller owns it, and otherwise to a new one |
| ChatRouter.RouterTurn | backend/src/api/chat_router.py:44-136 | a missing subject gives 401, then a mismatch gives 401, then a blank message gives 400, all with no writes; success iff none of these applies; existing conversations are never changed |
| ChatRouter.SuccessfulTurn | backend/src/api/chat_router.py:89-136 | the user row then the assistant row, both tagged with the caller; the agent saw the history plus the new message; the stored and returned replies agree |
| ChatRouter.ForeignConversationRestarts | backend/src/api/chat_router.py:71-86 | naming a conversation the caller does not own starts a fresh "New Conversation" whose history is the two new messages; the named one is untouched |
| ChatRouter.VersionsAgree | backend/src/api/chat_router.py:89-136 | on an owned conversation and a non-blank message the two endpoints store and return the same; only the legacy one touches `updated_at` |
| MessageSchema.RoleValidExactly | backend/src/models/message.py:8 | a role is valid iff it is "user" or "assistant" |
| MessageSchema.LegacyRoleValidExactly | backend/models/message.py:10 | a legacy role is valid iff it is "user", "assistant" or "system" |
| MessageSchema.RolesWiden | backend/models/message.py:10 | the legacy rule accepts every current role, and "system" besides |
| MessageSchema.ValidateCreate | backend/src/models/message.py:7-9 | accepted iff the role is valid and the content has 1 to 10000 characters; a refusal names exactly the bad fields |
| MessageSchema.ValidateLegacyCreate | backend/models/message.py:7-11 | accepted iff the role is one of three and the content is non-empty; a refusal names exactly the bad fields |
| MessageSchema.CreateWidens | backend/models/message.py:10-11 | whatever the current schema accepts, the legacy one accepts |
| MessageSchema.ApplyUpdate | backend/src/models/message.py:36-37 | no content leaves the message as it is; content of 1 to 10000 characters replaces it; anything else is refused |
| MessageSchema.UpdateKeepsValid | backend/src/models/message.py:36-37 | an accepted update keeps a valid message valid and keeps its identity |
| MessageSchema.RouterRowsValid | backend/src/api/chat_router.py:63-67 | the current endpoint's rows have valid roles, and its user message obeys the content rule when at most 10000 characters long |
| MessageSchema.LegacyStoresInvalidContent | backend/models/message.py:22 | the legacy endpoint stores an empty message, which its create schema refuses |
| MessageSchema.LegacyRowsAreDefaults | backend/models/message.py:18-23 | the legacy endpoint's two rows carry the defaulted fresh ids and the turn's time |

## Left out

- The assistants API: thread creation, message posting, run creation, retrieval, submission and thread deletion are answers from a finite script. The half-second sleep is not modelled. When the script runs out while the run is still polled, `run_agent` returns no result (`Unfinished`); the source would keep waiting.
- Setup calls: `threads.create`, each `messages.create` and `runs.create` are folded into one scripted reply, because only their failure affects the outcome.
- Runner.Arguments: `eval` and `json.loads` are one opaque decoder. A decoded value that is not a dictionary is not modelled.
- Runner.HandleToolCall: the output is the result dictionary; `str(result)`, the Python rendering sent to the API, is not modelled.
- Text.Lower: only ASCII letters are lower-cased; Python's `lower()` also folds non-ASCII letters.
- Registry.AddTaskHandler: pydantic's coercion of values and its error text are not modelled; a field of the wrong JSON kind is refused by name.
- Registry.CompleteTaskHandler: pydantic's lax coercion of a numeric string `task_id` (`"5"` to 5) or of a boolean (`True` to 1) is not modelled; the model refuses it as a bad `task_id`.
- Registry.UpdateTaskHandler: the same coercion of a numeric string or boolean `task_id` is not modelled; the model refuses it as a bad `task_id`.
- Registry.DeleteTaskHandler: the same coercion of a numeric string or boolean `task_id` is not modelled; the model refuses it as a bad `task_id`.
- Creation times are a parameter `now`; `isoformat()` is a parameter of the add handler.
- A conversation's history is its messages in write order. The source orders them by `created_at`, which agrees with write order only while the clock strictly increases between writes. The model stamps both rows of one turn with the turn's time `now`, so it does not decide ties by time.
- `list_tasks` has no `ORDER BY`; the model returns ascending id order. The table's next id is a counter that is never reused.
- The acting user of the task tools is a parameter; the source reads the `MOCK_USER_ID` environment variable.
- The JWT check and the token's contents are parameters: the legacy endpoint takes the token's user id as given. Its token check answers 401 for a token carrying neither `user_id` nor `sub`; that refusal is not modelled.
- Database failures, logging, debug printing and concurrent turns are not modelled.
- Fresh `uuid4` ids are parameters, and the new conversation's id is required not to be in use.
- The path `user_id` of the current endpoint is a `UUID`; a malformed one (422) is not modelled. Its string form is the caller's id.
- ChatRouter.RouterTurn: the request body's `conversation_id` is also a `UUID`; FastAPI refuses a malformed one with 422 before the endpoint runs, which is not modelled: the model takes any string and treats one it cannot resolve like an unknown id.
- The conversation models of both versions are mirrored only by the fields the endpoints use. backend/mcp/models/task.py and the database modules are not part of this model.
- TaskClient.Invoke: it is the corrected client (see "## Findings"), so a delete may be delivered; the client as written is `TaskClient.InvokeAsWritten`, whose delete always fails. `Invoke` therefore allows more outcomes for a delete than the source.
- Runner.RunAgent: it models the reply extraction as written (`Runner.AssistantText`, the first assistant message of the whole thread); the corrected extraction `Runner.RunReply` is stated beside it and not threaded through `RunAgent`.
- The MCP framework registration (`Server`, `FastMCP.add_tool`, the `Tool` schemas) is not modelled.

## Findings

| source | as written | input that shows it | evidently intended | confidence | as-written member | corrected member |
|---|---|---|---|---|---|---|
| backend/services/mcp_client.py:73-79 | `self.client.delete(url, json={...})`; `httpx.AsyncClient.delete` has no `json` parameter, so it raises `TypeError` and the failure dictionary is returned | any `delete_task(task_id=1, user_id="u")` | send a DELETE with the JSON body (for example through `client.request("DELETE", url, json=...)`) | high; not executed | TaskClient.DeleteNeverSent | TaskClient.DeleteReachesService |
| backend/agent/runner.py:84-174 | the whole history, assistant replies included, is posted into the thread, and the first assistant message of the oldest-first listing is returned | history `user "add milk"`, `assistant "Added milk."`, `user "list"`; the run adds `assistant "You have: milk."`; the reply is "Added milk." | the first assistant message after the posted history | medium; not executed | Runner.HistoricalReplyReturned | Runner.RunReplySkipsHistory |
