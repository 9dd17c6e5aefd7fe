/**
 * `run_agent` (backend/agent/runner.py): drive one assistant run over a conversation, answer the
 * run's tool calls through the task-service client, and return the compressed assistant reply.
 *
 * The assistants API is not part of this model: every call into it is answered from a `Backend`,
 * a finite script of the replies (or exceptions) that the calls receive, consumed in call order.
 */
module Runner {
  import opened Wrappers
  import opened Json
  import opened Text
  import opened Compress
  import opened TaskClient

  /** The id `create_agent` gives its stand-in assistant when no API key is configured. */
  const MockAssistantId: string := "mock-assistant-id"

  /** The reply of every failed run. */
  const FailedReply: string := "Error. Retry."

  /** The `message` of a tool call whose client call raised. */
  const ToolErrorMessage: string := "I encountered an error while processing your request. Could you try again?"

  /** One entry of the conversation history handed to the agent. */
  datatype ChatMessage = ChatMessage(role: string, content: string)

  /** The states of an assistants-API run. */
  datatype RunStatus =
    | Queued | InProgress | RequiresAction | Cancelling | Cancelled | Failed | Completed | Incomplete | Expired

  /** The statuses the polling loop keeps waiting on; any other status ends it. */
  predicate Polling(s: RunStatus) {
    s == Queued || s == InProgress || s == RequiresAction
  }

  /** A function call the run asks for; `arguments` is the raw argument text. */
  datatype ToolCall = ToolCall(id: string, name: string, arguments: string)

  /** A run as retrieved: its status and, when present, `required_action.submit_tool_outputs.tool_calls`. */
  datatype Run = Run(status: RunStatus, toolCalls: Option<seq<ToolCall>>)

  /** The answer to one call into an outside component: a value, or the text of the exception it raised. */
  datatype Reply<T> = Answer(value: T) | Raises(error: string)

  /** The outcome of one task-service call as the runner sees it. */
  datatype Attempt = Returned(value: Value) | Raised(error: string)

  /** A service that threads outside state `W` through each call. */
  type Service<!W> = (W, ServiceCall) -> (W, Attempt)

  /** The argument decoder: `eval`, then `json.loads`; `None` when both fail. */
  type Decoder = string -> Option<Dict>

  /** One entry of `tool_outputs`. */
  datatype ToolOutput = ToolOutput(toolCallId: string, output: Value)

  const ToolNames: set<string> := {"add_task", "list_tasks", "complete_task", "delete_task", "update_task"}

  // ---------------------------------------------------------------- one tool call

  /** The decoded arguments, `{}` when they cannot be decoded, with the caller's id added when absent. */
  function Arguments(decode: Decoder, text: string, user: string): (args: Dict)
    ensures "user_id" in args
    ensures forall k :: k in args && k != "user_id" ==> decode(text).Some? && k in decode(text).value
    ensures decode(text).Some? ==> forall k :: k in decode(text).value ==> k in args && args[k] == decode(text).value[k]
    ensures "user_id" !in decode(text).GetOr(map[]) ==> args["user_id"] == Str(user)
  {
    var parsed := decode(text).GetOr(map[]);
    if "user_id" in parsed then parsed else parsed["user_id" := Str(user)]
  }

  /** The client call a tool name selects. The caller's id is passed, whatever the arguments say. */
  function Route(name: string, args: Dict, user: string): (c: Option<ServiceCall>)
    ensures c.Some? <==> name in ToolNames
    ensures c.Some? ==> c.value.user == Some(user)
    ensures name == "add_task" ==> c == Some(AddTask(Get(args, "task"), Some(user)))
    ensures name == "list_tasks" ==> c == Some(ListTasks(Some(user)))
    ensures name == "complete_task" ==> c == Some(CompleteTask(Get(args, "task_id"), Some(user)))
    ensures name == "delete_task" ==> c == Some(DeleteTask(Get(args, "task_id"), Some(user)))
    ensures name == "update_task" ==> c == Some(UpdateTask(Get(args, "task_id"), Get(args, "new_content"), Some(user)))
  {
    if name == "add_task" then Some(AddTask(Get(args, "task"), Some(user)))
    else if name == "list_tasks" then Some(ListTasks(Some(user)))
    else if name == "complete_task" then Some(CompleteTask(Get(args, "task_id"), Some(user)))
    else if name == "delete_task" then Some(DeleteTask(Get(args, "task_id"), Some(user)))
    else if name == "update_task" then Some(UpdateTask(Get(args, "task_id"), Get(args, "new_content"), Some(user)))
    else None
  }

  /** A `user_id` in the arguments, or its absence, never changes which call is made. */
  lemma RouteIgnoresUserArgument(name: string, args: Dict, user: string, v: Value)
    ensures Route(name, args["user_id" := v], user) == Route(name, args, user)
    ensures Route(name, args - {"user_id"}, user) == Route(name, args, user)
  {
    var a1 := args["user_id" := v];
    var a2 := args - {"user_id"};
    assert Get(a1, "task") == Get(args, "task") && Get(a2, "task") == Get(args, "task");
    assert Get(a1, "task_id") == Get(args, "task_id") && Get(a2, "task_id") == Get(args, "task_id");
    assert Get(a1, "new_content") == Get(args, "new_content") && Get(a2, "new_content") == Get(args, "new_content");
  }

  function UnknownFunction(name: string): Value {
    Object(map["success" := Bool(false), "error" := Str("Unknown function: " + name)])
  }

  function ToolError(error: string): Value {
    Object(map["success" := Bool(false), "error" := Str(error), "message" := Str(ToolErrorMessage)])
  }

  /** The result of one tool call, the state after it and the client call it made, if any. */
  datatype Handled<W> = Handled(world: W, output: Value, issued: Option<ServiceCall>)

  function HandleToolCall<W>(service: Service<W>, decode: Decoder, w: W, call: ToolCall, user: string): (h: Handled<W>)
    ensures h.issued == Route(call.name, Arguments(decode, call.arguments, user), user)
    ensures h.issued.None? ==> h.world == w && h.output == UnknownFunction(call.name)
    ensures h.issued.Some? ==>
      var (w', a) := service(w, h.issued.value);
      && h.world == w'
      && (a.Returned? ==> h.output == a.value)
      && (a.Raised? ==> h.output == ToolError(a.error))
  {
    var args := Arguments(decode, call.arguments, user);
    match Route(call.name, args, user)
    case None => Handled(w, UnknownFunction(call.name), None)
    case Some(c) =>
      var (w', a) := service(w, c);
      match a
      case Returned(v) => Handled(w', v, Some(c))
      case Raised(e) => Handled(w', ToolError(e), Some(c))
  }

  // ---------------------------------------------------------------- a batch of tool calls

  /**
   * The outputs of a batch, the state after it, the client calls made (in order), and the state
   * each call of the batch started from.
   */
  datatype Batch<W> = Batch(world: W, outputs: seq<ToolOutput>, issued: seq<ServiceCall>, before: seq<W>)

  /** Call `i` of the batch started from `before[i]`, gave output `i`, and handed its state on. */
  ghost predicate AnsweredAt<W>(service: Service<W>, decode: Decoder, user: string, calls: seq<ToolCall>, b: Batch<W>, i: int)
    requires 0 <= i < |calls| == |b.outputs| == |b.before|
  {
    var h := HandleToolCall(service, decode, b.before[i], calls[i], user);
    && b.outputs[i] == ToolOutput(calls[i].id, h.output)
    && (if i + 1 < |calls| then b.before[i + 1] == h.world else b.world == h.world)
  }

  /** The client calls a batch makes, in order: one per call whose name routes, none for the others. */
  function Routed(decode: Decoder, calls: seq<ToolCall>, user: string): (cs: seq<ServiceCall>)
    ensures |cs| <= |calls|
    ensures forall i :: 0 <= i < |cs| ==> cs[i].user == Some(user)
    ensures (forall i :: 0 <= i < |calls| ==> calls[i].name !in ToolNames) ==> cs == []
    ensures (forall i :: 0 <= i < |calls| ==> calls[i].name in ToolNames) ==>
      |cs| == |calls| && forall i :: 0 <= i < |calls| ==>
        Some(cs[i]) == Route(calls[i].name, Arguments(decode, calls[i].arguments, user), user)
    decreases |calls|
  {
    if calls == [] then []
    else
      var c := Route(calls[0].name, Arguments(decode, calls[0].arguments, user), user);
      var rest := Routed(decode, calls[1..], user);
      assert forall i :: 1 <= i < |calls| ==> calls[i] == calls[1..][i - 1];
      (if c.Some? then [c.value] else []) + rest
  }

  /** Answer the calls one after the other, threading the state. */
  function RunBatch<W>(service: Service<W>, decode: Decoder, w: W, calls: seq<ToolCall>, user: string): (b: Batch<W>)
    ensures |b.outputs| == |calls| && |b.before| == |calls|
    ensures |calls| > 0 ==> b.before[0] == w
    ensures calls == [] ==> b.world == w
    ensures forall i :: 0 <= i < |calls| ==> AnsweredAt(service, decode, user, calls, b, i)
    ensures forall i :: 0 <= i < |calls| && calls[i].name !in ToolNames ==>
      b.outputs[i].output == UnknownFunction(calls[i].name)
    ensures b.issued == Routed(decode, calls, user)
    ensures |b.issued| <= |calls|
    ensures forall i :: 0 <= i < |b.issued| ==> b.issued[i].user == Some(user)
    ensures (forall i :: 0 <= i < |calls| ==> calls[i].name !in ToolNames) ==> b.world == w && b.issued == []
    decreases |calls|
  {
    if calls == [] then Batch(w, [], [], [])
    else
      var h := HandleToolCall(service, decode, w, calls[0], user);
      var rest := RunBatch(service, decode, h.world, calls[1..], user);
      var mine := if h.issued.Some? then [h.issued.value] else [];
      assert mine + rest.issued == Routed(decode, calls, user);
      var b := Batch(rest.world, [ToolOutput(calls[0].id, h.output)] + rest.outputs, mine + rest.issued, [w] + rest.before);
      AnsweredAfterFirst(service, decode, user, calls, rest, b);
      b
  }

  /** Prepending the first call's answer to the batch of the remaining calls keeps every call answered. */
  lemma AnsweredAfterFirst<W>(service: Service<W>, decode: Decoder, user: string, calls: seq<ToolCall>,
                              rest: Batch<W>, b: Batch<W>)
    requires |calls| > 0 && |rest.outputs| == |rest.before| == |calls| - 1
    requires |b.outputs| == |b.before| == |calls|
    requires forall j :: 0 <= j < |calls| - 1 ==> AnsweredAt(service, decode, user, calls[1..], rest, j)
    requires |calls| > 1 ==> rest.before[0] == HandleToolCall(service, decode, b.before[0], calls[0], user).world
    requires |calls| == 1 ==> rest.world == HandleToolCall(service, decode, b.before[0], calls[0], user).world
    requires b.world == rest.world && b.outputs[1..] == rest.outputs && b.before[1..] == rest.before
    requires b.outputs[0] == ToolOutput(calls[0].id, HandleToolCall(service, decode, b.before[0], calls[0], user).output)
    ensures forall i :: 0 <= i < |calls| ==> AnsweredAt(service, decode, user, calls, b, i)
  {
    forall i | 0 <= i < |calls|
      ensures AnsweredAt(service, decode, user, calls, b, i)
    {
      if i > 0 {
        var j := i - 1;
        assert AnsweredAt(service, decode, user, calls[1..], rest, j);
        assert b.outputs[i] == rest.outputs[j] && b.before[i] == rest.before[j] && calls[i] == calls[1..][j];
        if i + 1 < |calls| {
          assert b.before[i + 1] == rest.before[j + 1];
        }
      }
    }
  }

  /**
   * The runner's view of `MCPTaskClient`: every call goes through `Invoke`, which never raises, so
   * the service never answers `Raised`.
   */
  function ClientService<W>(send: (W, Request) -> (W, Transport), base: string): Service<W> {
    (w, c) => (Invoke(send, base, w, c).0, Returned(Invoke(send, base, w, c).1))
  }

  /**
   * Answered through the client, every tool call of a batch is either refused as unknown without a
   * request, or answered with exactly what the client returned for its routed call; the retry
   * dictionary of a raising call never arises.
   */
  lemma {:induction false} ClientBatchOutputs<W>(send: (W, Request) -> (W, Transport), base: string, decode: Decoder,
                                                 w: W, calls: seq<ToolCall>, user: string)
    ensures var b := RunBatch(ClientService(send, base), decode, w, calls, user);
      forall i :: 0 <= i < |calls| ==>
        var c := Route(calls[i].name, Arguments(decode, calls[i].arguments, user), user);
        && (c.None? ==> b.outputs[i].output == UnknownFunction(calls[i].name))
        && (c.Some? ==> b.outputs[i].output == Invoke(send, base, b.before[i], c.value).1)
  {
    var service := ClientService(send, base);
    var b := RunBatch(service, decode, w, calls, user);
    forall i | 0 <= i < |calls|
      ensures var c := Route(calls[i].name, Arguments(decode, calls[i].arguments, user), user);
        && (c.None? ==> b.outputs[i].output == UnknownFunction(calls[i].name))
        && (c.Some? ==> b.outputs[i].output == Invoke(send, base, b.before[i], c.value).1)
    {
      var h := HandleToolCall(service, decode, b.before[i], calls[i], user);
      assert AnsweredAt(service, decode, user, calls, b, i);
      if h.issued.Some? {
        assert service(b.before[i], h.issued.value).1 == Returned(Invoke(send, base, b.before[i], h.issued.value).1);
      }
    }
  }

  // ---------------------------------------------------------------- polling

  /** How polling ended: on a run that is no longer polled, on an exception, or with the script exhausted. */
  datatype Stop = Exited(run: Run) | Crashed(error: string) | Unfinished

  datatype Polled<W> = Polled(world: W, stop: Stop, issued: seq<ServiceCall>)

  /**
   * The `while` loop: while the run is polled, retrieve it (one reply); when it requires action,
   * answer its tool calls and, only when there is at least one output, submit them (one more reply).
   */
  function Poll<W>(service: Service<W>, decode: Decoder, user: string, w: W, run: Run, replies: seq<Reply<Run>>): (p: Polled<W>)
    ensures p.stop.Exited? ==> !Polling(p.stop.run.status)
    ensures !Polling(run.status) ==> p == Polled(w, Exited(run), [])
    ensures forall i :: 0 <= i < |p.issued| ==> p.issued[i].user == Some(user)
    ensures Polling(run.status) && replies != [] && replies[0].Raises? ==> p == Polled(w, Crashed(replies[0].error), [])
    ensures p.stop.Crashed? ==> exists i :: 0 <= i < |replies| && replies[i] == Raises(p.stop.error)
    decreases |replies|
  {
    if !Polling(run.status) then Polled(w, Exited(run), [])
    else if replies == [] then Polled(w, Unfinished, [])
    else match replies[0]
      case Raises(e) => Polled(w, Crashed(e), [])
      case Answer(r) =>
        if r.status != RequiresAction then Poll(service, decode, user, w, r, replies[1..])
        else
          var b := RunBatch(service, decode, w, r.toolCalls.GetOr([]), user);
          if b.outputs == [] then
            var p := Poll(service, decode, user, b.world, r, replies[1..]);
            Polled(p.world, p.stop, b.issued + p.issued)
          else if |replies| < 2 then Polled(b.world, Unfinished, b.issued)
          else match replies[1]
            case Raises(e) => Polled(b.world, Crashed(e), b.issued)
            case Answer(r2) =>
              var p := Poll(service, decode, user, b.world, r2, replies[2..]);
              Polled(p.world, p.stop, b.issued + p.issued)
  }

  /** `n` replies of a run still in progress. */
  function Waiting(n: nat): (rs: seq<Reply<Run>>)
    ensures |rs| == n && forall i :: 0 <= i < n ==> rs[i] == Answer(Run(InProgress, None))
  {
    if n == 0 then [] else [Answer(Run(InProgress, None))] + Waiting(n - 1)
  }

  /** The loop has no ceiling: a run that stays in progress for any number of polls is still waited for. */
  lemma {:induction false} NoPollCeiling<W>(service: Service<W>, decode: Decoder, user: string, w: W, n: nat, last: Run)
    requires !Polling(last.status)
    ensures Poll(service, decode, user, w, Run(Queued, None), Waiting(n) + [Answer(last)]) == Polled(w, Exited(last), [])
  {
    if n > 0 {
      var rs := Waiting(n) + [Answer(last)];
      assert rs[0] == Answer(Run(InProgress, None));
      assert rs[1..] == Waiting(n - 1) + [Answer(last)];
      NoPollCeiling(service, decode, user, w, n - 1, last);
      InProgressLikeQueued(service, decode, user, w, rs[1..]);
    } else {
      assert (Waiting(0) + [Answer(last)])[1..] == [];
    }
  }

  /**
   * The same for any mix of queued and in-progress answers, from any polled run: they are waited
   * out, and the first answer that is no longer polled ends the loop.
   */
  lemma {:induction false} WaitsOutPending<W>(service: Service<W>, decode: Decoder, user: string, w: W, run: Run,
                                              rs: seq<Reply<Run>>, last: Run)
    requires Polling(run.status) && !Polling(last.status)
    requires forall i :: 0 <= i < |rs| ==> rs[i].Answer? && (rs[i].value.status == Queued || rs[i].value.status == InProgress)
    ensures Poll(service, decode, user, w, run, rs + [Answer(last)]) == Polled(w, Exited(last), [])
    decreases |rs|
  {
    var all := rs + [Answer(last)];
    if rs == [] {
      assert all[0] == Answer(last) && all[1..] == [];
    } else {
      assert all[0] == rs[0] && all[1..] == rs[1..] + [Answer(last)];
      WaitsOutPending(service, decode, user, w, rs[0].value, rs[1..], last);
    }
  }

  /** A required action with no tool calls submits nothing: the next reply is another retrieve. */
  lemma EmptyBatchNotSubmitted<W>(service: Service<W>, decode: Decoder, user: string, w: W, run: Run, r: Run, rest: seq<Reply<Run>>)
    requires Polling(run.status) && r.status == RequiresAction && r.toolCalls.GetOr([]) == []
    ensures Poll(service, decode, user, w, run, [Answer(r)] + rest) == Poll(service, decode, user, w, r, rest)
  {
    assert ([Answer(r)] + rest)[1..] == rest;
  }

  /**
   * A required action with tool calls answers them all, then submits the outputs once: the reply
   * after the retrieve is the submission's, and polling continues from the run it returns.
   */
  lemma BatchSubmittedOnce<W>(service: Service<W>, decode: Decoder, user: string, w: W, run: Run, r: Run, r2: Run,
                              rest: seq<Reply<Run>>)
    requires Polling(run.status) && r.status == RequiresAction && r.toolCalls.GetOr([]) != []
    ensures var b := RunBatch(service, decode, w, r.toolCalls.value, user);
      var p := Poll(service, decode, user, b.world, r2, rest);
      Poll(service, decode, user, w, run, [Answer(r), Answer(r2)] + rest) == Polled(p.world, p.stop, b.issued + p.issued)
  {
    var rs := [Answer(r), Answer(r2)] + rest;
    assert rs[0] == Answer(r) && rs[1] == Answer(r2) && rs[2..] == rest;
  }

  /**
   * A submission that raises ends polling with that exception, after the batch's calls were made:
   * the state and the call log are those the batch left.
   */
  lemma SubmissionRaisesCrashes<W>(service: Service<W>, decode: Decoder, user: string, w: W, run: Run, r: Run, e: string,
                                   rest: seq<Reply<Run>>)
    requires Polling(run.status) && r.status == RequiresAction && r.toolCalls.GetOr([]) != []
    ensures var b := RunBatch(service, decode, w, r.toolCalls.value, user);
      Poll(service, decode, user, w, run, [Answer(r), Raises(e)] + rest) == Polled(b.world, Crashed(e), b.issued)
  {
    var rs := [Answer(r), Raises(e)] + rest;
    assert rs[0] == Answer(r) && rs[1] == Raises(e);
  }

  /** A run seen as in progress is polled exactly like a queued one. */
  lemma InProgressLikeQueued<W>(service: Service<W>, decode: Decoder, user: string, w: W, rs: seq<Reply<Run>>)
    ensures Poll(service, decode, user, w, Run(InProgress, None), rs) == Poll(service, decode, user, w, Run(Queued, None), rs)
  {
  }

  // ---------------------------------------------------------------- the reply text

  datatype ContentPart = TextPart(value: string) | OtherPart

  datatype ThreadMessage = ThreadMessage(role: string, content: seq<ContentPart>)

  /** The text values of the text parts, in order. */
  function Texts(parts: seq<ContentPart>): (ts: seq<string>)
    ensures |ts| <= |parts|
    ensures (forall i :: 0 <= i < |parts| ==> parts[i].TextPart?) ==>
      |ts| == |parts| && forall i :: 0 <= i < |parts| ==> ts[i] == parts[i].value
    ensures (forall i :: 0 <= i < |parts| ==> !parts[i].TextPart?) ==> ts == []
    ensures forall k :: 0 <= k < |ts| ==> exists i :: 0 <= i < |parts| && parts[i] == TextPart(ts[k])
    decreases |parts|
  {
    if parts == [] then []
    else
      var rest := Texts(parts[1..]);
      var ts := (if parts[0].TextPart? then [parts[0].value] else []) + rest;
      TextsConsFromParts(parts, rest, ts);
      TextsConsAllText(parts, rest, ts);
      TextsConsNoText(parts, rest, ts);
      ts
  }

  /** Each text collected after the first part comes from a text part. */
  lemma TextsConsFromParts(parts: seq<ContentPart>, rest: seq<string>, ts: seq<string>)
    requires parts != [] && ts == (if parts[0].TextPart? then [parts[0].value] else []) + rest
    requires forall k :: 0 <= k < |rest| ==> exists i :: 0 <= i < |parts[1..]| && parts[1..][i] == TextPart(rest[k])
    ensures forall k :: 0 <= k < |ts| ==> exists i :: 0 <= i < |parts| && parts[i] == TextPart(ts[k])
  {
    forall k | 0 <= k < |ts| ensures exists i :: 0 <= i < |parts| && parts[i] == TextPart(ts[k]) {
      if parts[0].TextPart? && k == 0 {
        assert parts[0] == TextPart(ts[0]);
      } else {
        var k' := if parts[0].TextPart? then k - 1 else k;
        assert ts[k] == rest[k'];
        var i :| 0 <= i < |parts[1..]| && parts[1..][i] == TextPart(rest[k']);
        assert parts[i + 1] == TextPart(ts[k]);
      }
    }
  }

  /** When every part is text, one text per part, in order. */
  lemma TextsConsAllText(parts: seq<ContentPart>, rest: seq<string>, ts: seq<string>)
    requires parts != [] && ts == (if parts[0].TextPart? then [parts[0].value] else []) + rest
    requires (forall i :: 0 <= i < |parts[1..]| ==> parts[1..][i].TextPart?) ==>
      |rest| == |parts[1..]| && forall i :: 0 <= i < |parts[1..]| ==> rest[i] == parts[1..][i].value
    ensures (forall i :: 0 <= i < |parts| ==> parts[i].TextPart?) ==>
      |ts| == |parts| && forall i :: 0 <= i < |parts| ==> ts[i] == parts[i].value
  {
    if forall i :: 0 <= i < |parts| ==> parts[i].TextPart? {
      assert forall i :: 0 <= i < |parts[1..]| ==> parts[1..][i].TextPart? by {
        forall i | 0 <= i < |parts[1..]| ensures parts[1..][i].TextPart? {
          assert parts[1..][i] == parts[i + 1];
        }
      }
      forall i | 1 <= i < |parts| ensures ts[i] == parts[i].value {
        assert ts[i] == rest[i - 1] && parts[1..][i - 1] == parts[i];
      }
    }
  }

  /** Without text parts nothing is collected. */
  lemma TextsConsNoText(parts: seq<ContentPart>, rest: seq<string>, ts: seq<string>)
    requires parts != [] && ts == (if parts[0].TextPart? then [parts[0].value] else []) + rest
    requires (forall i :: 0 <= i < |parts[1..]| ==> !parts[1..][i].TextPart?) ==> rest == []
    ensures (forall i :: 0 <= i < |parts| ==> !parts[i].TextPart?) ==> ts == []
  {
    if forall i :: 0 <= i < |parts| ==> !parts[i].TextPart? {
      assert forall i :: 0 <= i < |parts[1..]| ==> !parts[1..][i].TextPart? by {
        forall i | 0 <= i < |parts[1..]| ensures !parts[1..][i].TextPart? {
          assert parts[1..][i] == parts[i + 1];
        }
      }
    }
  }

  /** Collecting is compositional: the texts of two runs of parts are the texts of each, in order. */
  lemma {:induction false} TextsAppend(a: seq<ContentPart>, b: seq<ContentPart>)
    ensures Texts(a + b) == Texts(a) + Texts(b)
    decreases |a|
  {
    if a != [] {
      assert (a + b)[0] == a[0] && (a + b)[1..] == a[1..] + b;
      TextsAppend(a[1..], b);
      assert Texts(a + b) == (if a[0].TextPart? then [a[0].value] else []) + Texts(a[1..] + b);
      assert Texts(a) == (if a[0].TextPart? then [a[0].value] else []) + Texts(a[1..]);
    } else {
      assert a + b == b;
    }
  }

  predicate IsAssistant(m: ThreadMessage) {
    m.role == "assistant"
  }

  /** The index of the first assistant message, or `|ms|` when there is none. */
  function FirstAssistant(ms: seq<ThreadMessage>): (k: nat)
    ensures k <= |ms|
    ensures forall j :: 0 <= j < k ==> !IsAssistant(ms[j])
    ensures k < |ms| ==> IsAssistant(ms[k])
    decreases |ms|
  {
    if ms == [] || IsAssistant(ms[0]) then 0
    else
      var k := FirstAssistant(ms[1..]);
      assert forall j :: 1 <= j < |ms| ==> ms[j] == ms[1..][j - 1];
      k + 1
  }

  /** The text parts of the first assistant message of the listing (oldest first), joined by single spaces. */
  function AssistantText(ms: seq<ThreadMessage>): (t: string)
    ensures (forall i :: 0 <= i < |ms| ==> !IsAssistant(ms[i])) ==> t == ""
    ensures forall i :: 0 <= i < |ms| && IsAssistant(ms[i]) && (forall j :: 0 <= j < i ==> !IsAssistant(ms[j])) ==>
      t == JoinSpace(Texts(ms[i].content))
  {
    var k := FirstAssistant(ms);
    if k < |ms| then JoinSpace(Texts(ms[k].content)) else ""
  }

  /** The thread as `run_agent` fills it before the run: one message per history entry, with its role and text. */
  function Posted(messages: seq<ChatMessage>): (ms: seq<ThreadMessage>)
    ensures |ms| == |messages|
    ensures forall i :: 0 <= i < |messages| ==> ms[i] == ThreadMessage(messages[i].role, [TextPart(messages[i].content)])
  {
    seq(|messages|, i requires 0 <= i < |messages| => ThreadMessage(messages[i].role, [TextPart(messages[i].content)]))
  }

  /**
   * The listing is oldest first and begins with the posted history, so when that history already
   * holds an assistant message, its first one is returned, whatever the run added after it.
   */
  lemma HistoricalReplyReturned(messages: seq<ChatMessage>, added: seq<ThreadMessage>, k: nat)
    requires k < |messages| && messages[k].role == "assistant"
    requires forall j :: 0 <= j < k ==> messages[j].role != "assistant"
    ensures AssistantText(Posted(messages) + added) == messages[k].content
  {
    var ms := Posted(messages) + added;
    assert ms[k] == ThreadMessage("assistant", [TextPart(messages[k].content)]);
    assert forall j :: 0 <= j < k ==> ms[j] == Posted(messages)[j];
    assert Texts(ms[k].content) == [messages[k].content];
  }

  /** A second turn gets the first turn's reply back instead of the new one. */
  lemma StaleReplyOnSecondTurn()
    ensures var history := [ChatMessage("user", "add milk"), ChatMessage("assistant", "Added milk."), ChatMessage("user", "list")];
      var added := [ThreadMessage("assistant", [TextPart("You have: milk.")])];
      && AssistantText(Posted(history) + added) == "Added milk."
      && AssistantText(added) == "You have: milk."
  {
    var history := [ChatMessage("user", "add milk"), ChatMessage("assistant", "Added milk."), ChatMessage("user", "list")];
    HistoricalReplyReturned(history, [ThreadMessage("assistant", [TextPart("You have: milk.")])], 1);
    assert Texts([TextPart("You have: milk.")]) == ["You have: milk."];
  }

  /** The evidently intended reply: the first assistant message the run added after the posted history. */
  function RunReply(messages: seq<ChatMessage>, ms: seq<ThreadMessage>): (t: string)
    ensures |ms| <= |messages| ==> t == ""
  {
    if |ms| <= |messages| then "" else AssistantText(ms[|messages|..])
  }

  /** Whatever the history holds, the corrected reply depends only on what the run added. */
  lemma RunReplySkipsHistory(messages: seq<ChatMessage>, added: seq<ThreadMessage>)
    ensures RunReply(messages, Posted(messages) + added) == AssistantText(added)
  {
    var ms := Posted(messages) + added;
    if added != [] {
      assert ms[|messages|..] == added;
    } else {
      assert |ms| == |messages|;
    }
  }

  // ---------------------------------------------------------------- the stand-in assistant

  const AddReply: string := "Task add requires API key. Set OPENAI_API_KEY."
  const ListReply: string := "Task list requires API key. Set OPENAI_API_KEY."
  const CompleteReply: string := "Task complete requires API key. Set OPENAI_API_KEY."
  const DeleteReply: string := "Task delete requires API key. Set OPENAI_API_KEY."
  const ReadyReply: string := "Ready to help. Set OPENAI_API_KEY."

  predicate MentionsAdd(t: string) { Contains(t, "add") || Contains(t, "create") }
  predicate MentionsList(t: string) { Contains(t, "list") || Contains(t, "show") }
  predicate MentionsComplete(t: string) { Contains(t, "complete") || Contains(t, "done") }
  predicate MentionsDelete(t: string) { Contains(t, "delete") || Contains(t, "remove") }

  /** The stand-in reply: keyed by the first keyword group, in priority order, that the lower-cased last message mentions. */
  function MockReply(messages: seq<ChatMessage>): (r: string)
    ensures var t := if messages == [] then "" else Lower(messages[|messages| - 1].content);
      && (MentionsAdd(t) ==> r == AddReply)
      && (!MentionsAdd(t) && MentionsList(t) ==> r == ListReply)
      && (!MentionsAdd(t) && !MentionsList(t) && MentionsComplete(t) ==> r == CompleteReply)
      && (!MentionsAdd(t) && !MentionsList(t) && !MentionsComplete(t) && MentionsDelete(t) ==> r == DeleteReply)
      && (r == ReadyReply <==> !MentionsAdd(t) && !MentionsList(t) && !MentionsComplete(t) && !MentionsDelete(t))
  {
    var t := if messages == [] then "" else Lower(messages[|messages| - 1].content);
    if MentionsAdd(t) then AddReply
    else if MentionsList(t) then ListReply
    else if MentionsComplete(t) then CompleteReply
    else if MentionsDelete(t) then DeleteReply
    else ReadyReply
  }

  /** Two texts that `lower()` maps alike. */
  predicate SameUpToCase(a: string, b: string) {
    |a| == |b| && forall i :: 0 <= i < |a| ==> LowerChar(a[i]) == LowerChar(b[i])
  }

  /**
   * The stand-in reply reads only the last message, and ignores the case of its ASCII letters:
   * histories whose last messages differ only in case, whatever came before, get the same reply.
   */
  lemma MockReplyIgnoresCaseAndHistory(xs: seq<ChatMessage>, ys: seq<ChatMessage>)
    requires xs != [] && ys != []
    requires SameUpToCase(xs[|xs| - 1].content, ys[|ys| - 1].content)
    ensures MockReply(xs) == MockReply(ys)
  {
    var a := xs[|xs| - 1].content;
    var b := ys[|ys| - 1].content;
    assert Lower(a) == Lower(b) by {
      assert forall i :: 0 <= i < |a| ==> Lower(a)[i] == LowerChar(a[i]) == LowerChar(b[i]) == Lower(b)[i];
    }
  }

  // ---------------------------------------------------------------- the whole run

  /** The scripted answers of the assistants API for one `run_agent` call. */
  datatype Backend = Backend(
    agentId: Reply<string>,           // `create_agent()`: the assistant's id
    setup: Reply<Run>,                // `threads.create`, one `messages.create` per message, `runs.create`
    replies: seq<Reply<Run>>,         // `runs.retrieve` and `runs.submit_tool_outputs`, in call order
    listing: Reply<seq<ThreadMessage>>) // `messages.list(order="asc")`

  /** The returned dictionary: `response`, `tool_calls`, and `error` when the run failed. */
  datatype AgentResult = AgentResult(response: string, toolCalls: seq<Value>, error: Option<string>)

  function Failure(e: string): AgentResult {
    AgentResult(FailedReply, [], Some(e))
  }

  /** `None` result: the script ran out while the run was still being polled. */
  datatype Outcome<W> = Outcome(world: W, result: Option<AgentResult>, issued: seq<ServiceCall>)

  /**
   * Whether one of the calls `run_agent` makes inside its `try` raised: `create_agent`, the setup
   * calls, a retrieve or submission while polling, or the final listing.
   */
  predicate ExceptionRaised<W>(messages: seq<ChatMessage>, user: string, backend: Backend,
                               service: Service<W>, decode: Decoder, w: W)
  {
    || backend.agentId.Raises?
    || (&& backend.agentId.value != MockAssistantId
        && (|| backend.setup.Raises?
            || var stop := Poll(service, decode, user, w, backend.setup.value, backend.replies).stop;
               stop.Crashed? || (stop.Exited? && backend.listing.Raises?)))
  }

  function RunAgent<W>(messages: seq<ChatMessage>, user: string, backend: Backend,
                       service: Service<W>, decode: Decoder, w: W): (o: Outcome<W>)
    ensures o.result.Some? ==>
      (o.result.value.error.Some? <==> ExceptionRaised(messages, user, backend, service, decode, w))
    ensures o.result.Some? ==> Normalized(o.result.value.response) && o.result.value.toolCalls == []
    ensures o.result.Some? && o.result.value.error.Some? ==> o.result.value.response == FailedReply
    ensures forall i :: 0 <= i < |o.issued| ==> o.issued[i].user == Some(user)
    ensures backend.agentId.Raises? ==> o == Outcome(w, Some(Failure(backend.agentId.error)), [])
    ensures backend.agentId == Answer(MockAssistantId) ==>
      o == Outcome(w, Some(AgentResult(CompressResponse(MockReply(messages)), [], None)), [])
    ensures backend.agentId.Answer? && backend.agentId.value != MockAssistantId && backend.setup.Raises? ==>
      o == Outcome(w, Some(Failure(backend.setup.error)), [])
    ensures backend.agentId.Answer? && backend.agentId.value != MockAssistantId && backend.setup.Answer? ==>
      var p := Poll(service, decode, user, w, backend.setup.value, backend.replies);
      && o.world == p.world && o.issued == p.issued
      && (o.result.None? <==> p.stop.Unfinished?)
      && (p.stop.Crashed? ==> o.result == Some(Failure(p.stop.error)))
      && (p.stop.Exited? && backend.listing.Raises? ==> o.result == Some(Failure(backend.listing.error)))
  {
    FailedReplyNormalized();
    match backend.agentId
    case Raises(e) => Outcome(w, Some(Failure(e)), [])
    case Answer(id) =>
      if id == MockAssistantId then
        Outcome(w, Some(AgentResult(CompressResponse(MockReply(messages)), [], None)), [])
      else match backend.setup
        case Raises(e) => Outcome(w, Some(Failure(e)), [])
        case Answer(run) =>
          var p := Poll(service, decode, user, w, run, backend.replies);
          match p.stop
          case Unfinished => Outcome(p.world, None, p.issued)
          case Crashed(e) => Outcome(p.world, Some(Failure(e)), p.issued)
          case Exited(_) =>
            match backend.listing
            case Raises(e) => Outcome(p.world, Some(Failure(e)), p.issued)
            case Answer(ms) => Outcome(p.world, Some(AgentResult(CompressResponse(AssistantText(ms)), [], None)), p.issued)
  }

  lemma FailedReplyNormalized()
    ensures Normalized(FailedReply)
  {
    PrintableNormalized(FailedReply);
  }

  /**
   * A completed run answers with the compressed first assistant message, and every tool call the
   * run asked for along the way was answered for the caller.
   */
  lemma CompletedRunReply<W>(messages: seq<ChatMessage>, user: string, backend: Backend,
                             service: Service<W>, decode: Decoder, w: W, ms: seq<ThreadMessage>)
    requires backend.agentId.Answer? && backend.agentId.value != MockAssistantId
    requires backend.setup.Answer? && backend.listing == Answer(ms)
    requires Poll(service, decode, user, w, backend.setup.value, backend.replies).stop.Exited?
    ensures var o := RunAgent(messages, user, backend, service, decode, w);
      && o.result == Some(AgentResult(CompressResponse(AssistantText(ms)), [], None))
      && o.world == Poll(service, decode, user, w, backend.setup.value, backend.replies).world
  {
  }
}
