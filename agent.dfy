/**
 * `SimpleAgent.run`: the SENSE, PLAN, ACT, OBSERVE, REFLECT loop. The two
 * language-model calls are an `Oracle` indexed by iteration number, and the
 * host's `json.loads`, `json.dumps` and `str` are a `Host`. Each phase is a
 * function whose `Err` is the exception it lets escape; `RunOutcome` is what the
 * whole run returns, `Loop` is the `while` loop itself, proved to compute
 * it, and `SimpleAgent.Run` wraps it in the memory updates of `run`.
 */
module Agent {

  import opened Wrappers
  import opened Values
  import opened Text
  import opened Response
  import opened Memory
  import opened Tools

  /** One language-model call: the message content, or the exception the
      client raised (a `None` content is one too, since `.strip()` fails). */
  datatype Reply = Says(content: string) | Raises(message: string)

  /** The model's replies: `plan(k)` is the PLAN call of iteration `k`,
      `reflect(k)` the REFLECT call. */
  datatype Oracle = Oracle(plan: nat -> Reply, reflect: nat -> Reply)

  /** `json.loads` (`None` for a `JSONDecodeError`), `json.dumps`, and
      `repr`-style rendering for `str` of non-strings. */
  datatype Host = Host(loads: string -> Option<Value>, dumps: Value -> string, show: Value -> string)

  /** Everything a run depends on besides the tool registry. `history` is the
      conversation as the SENSE phase sees it. */
  datatype Session = Session(goal: string, history: seq<Message>, maxIterations: int, host: Host, oracle: Oracle)

  /** The dictionary `run` returns, by its `status`. */
  datatype Outcome =
    | Completed(answer: Value, iterations: int)
    | MaxIterations(answer: Value, iterations: int)
    | Failed(error: Exc, iterations: int)
  {
    function Status(): string
    {
      match this
      case Completed(_, _) => "completed"
      case MaxIterations(_, _) => "max_iterations"
      case Failed(_, _) => "error"
    }
  }

  const LimitPrefix := "I wasn't able to fully complete your request within the iteration limit. Here's what I found: "

  // ---------------------------------------------------------------------
  // The phases
  // ---------------------------------------------------------------------

  /** `_sense`: asks the `get_user_context` tool for the user and gathers the
      goal, the recent conversation and the tool names. Reading
      `learning_level` from a user that is not a dictionary raises. */
  function Sense(reg: Registry, goal: string, history: seq<Message>, show: Value -> string): (r: Result<Record, Exc>)
    ensures r.Ok? ==>
      && "goal" in r.value && "user" in r.value && "recent_conversation" in r.value && "available_tools" in r.value
      && r.value.Keys == {"goal", "user", "recent_conversation", "available_tools"}
      && r.value["goal"] == JStr(goal)
      && r.value["user"] == Get(Execute(reg, JStr("get_user_context"), JObj(map[]), show).value, "user", JObj(map[]))
      && r.value["user"].JObj?
      && r.value["recent_conversation"] == JStr(RecentContext(history, 5, show))
      && r.value["available_tools"] == StrList(reg.names)
    ensures r.Err? <==> !Get(Execute(reg, JStr("get_user_context"), JObj(map[]), show).value, "user", JObj(map[])).JObj?
  {
    var userContext := Execute(reg, JStr("get_user_context"), JObj(map[]), show).value;
    var user := Get(userContext, "user", JObj(map[]));
    if !user.JObj? then Err(TypeFault("get"))
    else Ok(map["goal" := JStr(goal), "user" := user,
                "recent_conversation" := JStr(RecentContext(history, 5, show)),
                "available_tools" := StrList(reg.names)])
  }

  /** `_plan` after the model call: the stripped reply is parsed; the plan
      must be a dictionary, and its `reasoning`, if any, must support
      `[:100]` for the log line. */
  function Plan(loads: string -> Option<Value>, reply: Reply): (r: Result<Record, Exc>)
    ensures reply.Raises? ==> r == Err(Raised(reply.message))
    ensures reply.Says? && ParseJsonResponse(loads, Strip(reply.content)).Err? ==>
      r == Err(ParseJsonResponse(loads, Strip(reply.content)).error)
    ensures r.Ok? <==>
      && reply.Says? && ParseJsonResponse(loads, Strip(reply.content)).Ok?
      && ParseJsonResponse(loads, Strip(reply.content)).value.JObj?
      && Sliceable(Get(ParseJsonResponse(loads, Strip(reply.content)).value.fields, "reasoning", JStr("")))
    ensures r.Ok? ==> JObj(r.value) == ParseJsonResponse(loads, Strip(reply.content)).value
  {
    match reply
    case Raises(m) => Err(Raised(m))
    case Says(t) =>
      match ParseJsonResponse(loads, Strip(t))
      case Err(e) => Err(e)
      case Ok(v) =>
        if !v.JObj? then Err(TypeFault("get"))
        else if !Sliceable(Get(v.fields, "reasoning", JStr(""))) then Err(TypeFault("subscript"))
        else Ok(v.fields)
  }

  /** The values `v[:k]` is defined on. */
  predicate Sliceable(v: Value)
  {
    v.JStr? || v.JList?
  }

  predicate IsComplete(plan: Record)
  {
    Get(plan, "action_type", JNull) == JStr("COMPLETE")
  }

  /** `plan.get("answer", plan.get("reasoning", ""))`. */
  function Answer(plan: Record): (a: Value)
    ensures "answer" in plan ==> a == plan["answer"]
    ensures "answer" !in plan && "reasoning" in plan ==> a == plan["reasoning"]
    ensures "answer" !in plan && "reasoning" !in plan ==> a == JStr("")
  {
    Get(plan, "answer", Get(plan, "reasoning", JStr("")))
  }

  /** `_act`: only a `TOOL_CALL` plan runs a tool; any other plan is skipped. */
  function Act(reg: Registry, plan: Record, show: Value -> string): (r: Result<Record, Exc>)
    ensures Get(plan, "action_type", JNull) != JStr("TOOL_CALL") ==>
      r == Ok(map["skipped" := JBool(true),
                  "reason" := JStr("Action type is " + Str(show, Get(plan, "action_type", JNull)))])
    ensures Get(plan, "action_type", JNull) == JStr("TOOL_CALL") ==>
      r == Execute(reg, Get(plan, "tool", JNull), Get(plan, "args", JObj(map[])), show)
  {
    var actionType := Get(plan, "action_type", JNull);
    if actionType != JStr("TOOL_CALL") then
      Ok(map["skipped" := JBool(true), "reason" := JStr("Action type is " + Str(show, actionType))])
    else
      Execute(reg, Get(plan, "tool", JNull), Get(plan, "args", JObj(map[])), show)
  }

  /** `result["..."][:100]` on a string or a list. */
  function Preview(v: Value): Option<Value>
  {
    match v
    case JStr(s) => Some(JStr(SliceTo(s, 100)))
    case JList(xs) => Some(JList(SliceTo(xs, 100)))
    case _ => None
  }

  /** The `first_result` entry for a `results` value that has a length:
      `None` when it is empty. Indexing a dictionary with `0` raises
      `KeyError`; calling `.get` on a character or a non-dictionary item
      raises `AttributeError`. */
  function FirstResult(results: Value): (r: Result<Option<Value>, Exc>)
    ensures r.Ok? <==> SummarizableResults(results)
    ensures r.Ok? ==> (r.value.None? <==> PyLen(results) == Some(0))
    ensures r.Ok? && r.value.Some? ==>
      && results.JList? && r.value.value.JObj?
      && r.value.value.fields.Keys == {"title", "preview"}
      && r.value.value.fields["title"] == Get(results.items[0].fields, "title", JStr("N/A"))
      && Some(r.value.value.fields["preview"]) == Preview(Get(results.items[0].fields, "content", JStr("")))
  {
    match results
    case JList(xs) =>
      if xs == [] then Ok(None)
      else if !xs[0].JObj? then Err(TypeFault("get"))
      else
        var item := xs[0].fields;
        (match Preview(Get(item, "content", JStr("")))
         case Some(p) => Ok(Some(JObj(map["title" := Get(item, "title", JStr("N/A")), "preview" := p])))
         case None => Err(TypeFault("subscript")))
    case JStr(s) => if s == [] then Ok(None) else Err(TypeFault("get"))
    case JObj(m) => if m == map[] then Ok(None) else Err(TypeFault("subscript"))
    case _ => Err(TypeFault("len"))
  }

  /** A `results` value `_summarize_result` accepts: an empty container, or a
      list whose first item is a dictionary with a string or list `content`
      (or none). */
  predicate SummarizableResults(v: Value)
  {
    v == JStr([]) || v == JObj(map[])
    || (v.JList? && (v.items == [] ||
         (v.items[0].JObj? && Sliceable(Get(v.items[0].fields, "content", JStr(""))))))
  }

  function Count(v: Value): Value
  {
    match PyLen(v)
    case Some(n) => JNum(n as real)
    case None => JNull
  }

  /** `_summarize_result`: each summary key is present exactly when the key
      it summarizes is present in the result. */
  function Summarize(result: Record): (r: Result<Record, Exc>)
    ensures r.Ok? <==>
      ("results" in result ==> SummarizableResults(result["results"]))
      && ("memories" in result ==> PyLen(result["memories"]).Some?)
    ensures r.Ok? ==> r.value.Keys <= {"success", "results_count", "first_result", "error", "memories_found"}
    ensures r.Ok? ==> "success" in r.value && r.value["success"] == Get(result, "success", JStr("unknown"))
    ensures r.Ok? ==> ("results_count" in r.value <==> "results" in result)
    ensures r.Ok? && "results" in result ==>
      r.value["results_count"] == JNum(PyLen(result["results"]).value as real)
    ensures r.Ok? ==> ("first_result" in r.value <==>
      "results" in result && PyLen(result["results"]).value > 0)
    ensures r.Ok? && "first_result" in r.value ==> FirstResult(result["results"]) == Ok(Some(r.value["first_result"]))
    ensures r.Ok? ==> ("error" in r.value <==> "error" in result)
    ensures r.Ok? && "error" in result ==> r.value["error"] == result["error"]
    ensures r.Ok? ==> ("memories_found" in r.value <==> "memories" in result)
    ensures r.Ok? && "memories" in result ==>
      r.value["memories_found"] == JNum(PyLen(result["memories"]).value as real)
  {
    var first := if "results" in result then FirstResult(result["results"]) else Ok(None);
    if first.Err? then Err(first.error)
    else if "memories" in result && PyLen(result["memories"]).None? then Err(TypeFault("len"))
    else
      var s0 := map["success" := Get(result, "success", JStr("unknown"))];
      var s1 := if "results" in result then s0["results_count" := Count(result["results"])] else s0;
      var s2 := if first.value.Some? then s1["first_result" := first.value.value] else s1;
      var s3 := if "error" in result then s2["error" := result["error"]] else s2;
      Ok(if "memories" in result then s3["memories_found" := Count(result["memories"])] else s3)
  }

  /** `_reflect` after the model call. */
  function Reflect(reply: Reply): (r: Result<string, Exc>)
    ensures r.Ok? <==> reply.Says?
    ensures r.Ok? ==> r.value == Strip(reply.content)
    ensures r.Err? ==> r.error == Raised(reply.message)
  {
    match reply
    case Says(t) => Ok(Strip(t))
    case Raises(m) => Err(Raised(m))
  }

  /** What one iteration after SENSE does. */
  datatype Step =
    | Finish(answer: Value)
    | Stop(error: Exc)
    | Next(plan: Record, result: Record, reflection: string)

  /** PLAN, then either COMPLETE, or ACT, OBSERVE and REFLECT, given the
      two replies of the iteration. */
  function Iteration(reg: Registry, host: Host, planReply: Reply, reflectReply: Reply): (r: Step)
    ensures var plan := Plan(host.loads, planReply);
      // a plan that fails to parse stops the iteration with the parser's error
      && (plan.Err? ==> r == Stop(plan.error))
      // a COMPLETE plan finishes with the plan's answer, before ACT and REFLECT
      && (r.Finish? <==> plan.Ok? && IsComplete(plan.value))
      && (r.Finish? ==> r.answer == Answer(plan.value))
      // the iteration carries on exactly when ACT, OBSERVE and REFLECT all return
      // otherwise the first of ACT, OBSERVE and REFLECT to raise stops it with its own error
      && (plan.Ok? && !IsComplete(plan.value) && Act(reg, plan.value, host.show).Err? ==>
           r == Stop(Act(reg, plan.value, host.show).error))
      && (plan.Ok? && !IsComplete(plan.value) && Act(reg, plan.value, host.show).Ok?
          && Summarize(Act(reg, plan.value, host.show).value).Err? ==>
           r == Stop(Summarize(Act(reg, plan.value, host.show).value).error))
      && (plan.Ok? && !IsComplete(plan.value) && Act(reg, plan.value, host.show).Ok?
          && Summarize(Act(reg, plan.value, host.show).value).Ok? && reflectReply.Raises? ==>
           r == Stop(Raised(reflectReply.message)))
      && (r.Next? <==>
           && plan.Ok? && !IsComplete(plan.value)
           && Act(reg, plan.value, host.show).Ok?
           && Summarize(Act(reg, plan.value, host.show).value).Ok?
           && reflectReply.Says?)
      && (r.Next? ==>
           && r.plan == plan.value
           && Act(reg, r.plan, host.show) == Ok(r.result)
           && r.reflection == Strip(reflectReply.content))
  {
    match Plan(host.loads, planReply)
    case Err(e) => Stop(e)
    case Ok(plan) =>
      if IsComplete(plan) then Finish(Answer(plan))
      else
        match Act(reg, plan, host.show)
        case Err(e) => Stop(e)
        case Ok(result) =>
          match Summarize(result)
          case Err(e) => Stop(e)
          case Ok(_) =>
            match Reflect(reflectReply)
            case Err(e) => Stop(e)
            case Ok(reflection) => Next(plan, result, reflection)
  }

  /** Iteration `k` of a session. */
  function Turn(reg: Registry, s: Session, k: nat): Step
  {
    Iteration(reg, s.host, s.oracle.plan(k), s.oracle.reflect(k))
  }

  // ---------------------------------------------------------------------
  // The loop
  // ---------------------------------------------------------------------

  /** ACT and OBSERVE done: the plan and its result overwrite whatever the
      previous iteration left. */
  function Acted(ctx: Record, plan: Record, result: Record): (r: Record)
    ensures "last_action" in r && "last_result" in r
    ensures r["last_action"] == JObj(plan) && r["last_result"] == JObj(result)
  {
    ctx["last_action" := JObj(plan)]["last_result" := JObj(result)]
  }

  /** The context for the next iteration, once REFLECT has returned too. */
  function Observed(ctx: Record, plan: Record, result: Record, reflection: string): (r: Record)
    ensures "last_action" in r && "last_result" in r && "last_reflection" in r
    ensures r["last_action"] == JObj(plan) && r["last_result"] == JObj(result)
    ensures r["last_reflection"] == JStr(reflection)
  {
    Acted(ctx, plan, result)["last_reflection" := JStr(reflection)]
  }

  /** An iteration adds exactly its three keys to the context, and every key
      it does not write keeps its value. */
  lemma ObservedKeepsOthers(ctx: Record, plan: Record, result: Record, reflection: string)
    ensures Acted(ctx, plan, result).Keys == ctx.Keys + {"last_action", "last_result"}
    ensures Observed(ctx, plan, result, reflection).Keys == ctx.Keys + {"last_action", "last_result", "last_reflection"}
    ensures forall k :: k in ctx && k != "last_action" && k != "last_result" ==> Acted(ctx, plan, result)[k] == ctx[k]
    ensures forall k :: k in ctx && k != "last_action" && k != "last_result" && k != "last_reflection" ==>
      Observed(ctx, plan, result, reflection)[k] == ctx[k]
  {
  }

  /** The answer when the iteration limit is reached. */
  function LimitAnswer(dumps: Value -> string, ctx: Record): (r: Value)
    ensures r.JStr? && LimitPrefix <= r.s
    // the last result, or `{}` before any iteration has acted
    ensures "last_result" in ctx ==> r.s[|LimitPrefix|..] == dumps(ctx["last_result"])
    ensures "last_result" !in ctx ==> r.s[|LimitPrefix|..] == dumps(JObj(map[]))
  {
    JStr(LimitPrefix + dumps(Get(ctx, "last_result", JObj(map[]))))
  }

  /** What `run` returns once `i` iterations are done with context `ctx`.
      `turns(k)` is what iteration `k` does after SENSE, and `sensed` is the
      result of SENSE, which only iteration 1 runs. An exception ends the run
      at the iteration it happened in. */
  function Drive(turns: nat -> Step, sensed: Result<Record, Exc>, maxIter: int, dumps: Value -> string,
                 i: nat, ctx: Record): (r: Outcome)
    // the limit is reported once it is reached, never earlier
    ensures r.MaxIterations? ==> r.iterations == Max(i, maxIter)
    // any other ending is one of the iterations started from `i` on
    ensures !r.MaxIterations? ==> i < r.iterations <= maxIter
    decreases maxIter - i
  {
    if i >= maxIter then MaxIterations(LimitAnswer(dumps, ctx), i)
    else if i == 0 && sensed.Err? then Failed(sensed.error, 1)
    else
      var c := if i == 0 then sensed.value else ctx;
      match turns(i + 1)
      case Finish(a) => Completed(a, i + 1)
      case Stop(e) => Failed(e, i + 1)
      case Next(plan, result, reflection) =>
        Drive(turns, sensed, maxIter, dumps, i + 1, Observed(c, plan, result, reflection))
  }

  /** The iterations of a session, one `Turn` each. */
  function Turns(reg: Registry, s: Session): nat -> Step
  {
    (k: nat) => Turn(reg, s, k)
  }

  /** The whole run, from iteration 0 and an empty context. */
  function RunOutcome(reg: Registry, s: Session): (r: Outcome)
    ensures 0 <= r.iterations <= Max(0, s.maxIterations)
    ensures !r.MaxIterations? ==> 1 <= r.iterations
    ensures s.maxIterations <= 0 ==> r == MaxIterations(JStr(LimitPrefix + s.host.dumps(JObj(map[]))), 0)
  {
    Drive(Turns(reg, s), Sense(reg, s.goal, s.history, s.host.show), s.maxIterations, s.host.dumps, 0, map[])
  }

  /** SENSE succeeds and iterations `1 .. k-1` all carry on. */
  predicate Reaches(turns: nat -> Step, sensed: Result<Record, Exc>, k: nat)
  {
    sensed.Ok? && forall j: nat :: 1 <= j < k ==> turns(j).Next?
  }

  /** The outcome of an iteration that does not carry on. */
  function Ending(step: Step, k: nat): Outcome
    requires !step.Next?
  {
    match step
    case Finish(a) => Completed(a, k)
    case Stop(e) => Failed(e, k)
  }

  /** One iteration of `Drive`, for a run that has not stopped. */
  lemma DriveStep(turns: nat -> Step, sensed: Result<Record, Exc>, maxIter: int, dumps: Value -> string,
                  i: nat, ctx: Record)
    requires i < maxIter && !(i == 0 && sensed.Err?)
    ensures var c := if i == 0 then sensed.value else ctx;
      && (!turns(i + 1).Next? ==> Drive(turns, sensed, maxIter, dumps, i, ctx) == Ending(turns(i + 1), i + 1))
      && (turns(i + 1).Next? ==>
            Drive(turns, sensed, maxIter, dumps, i, ctx) ==
            Drive(turns, sensed, maxIter, dumps, i + 1,
                  Observed(c, turns(i + 1).plan, turns(i + 1).result, turns(i + 1).reflection)))
  {
  }

  // ---------------------------------------------------------------------
  // What the loop promises, for any sequence of iterations
  // ---------------------------------------------------------------------

  /** The first iteration that does not carry on decides the run. */
  lemma {:induction false} EndsAtFirstStop(turns: nat -> Step, sensed: Result<Record, Exc>, maxIter: int,
                                           dumps: Value -> string, i: nat, ctx: Record, k: nat)
    requires i < k <= maxIter
    requires Reaches(turns, sensed, k) && !turns(k).Next?
    ensures Drive(turns, sensed, maxIter, dumps, i, ctx) == Ending(turns(k), k)
    decreases k - i
  {
    if i + 1 < k {
      var c := if i == 0 then sensed.value else ctx;
      var step := turns(i + 1);
      assert step.Next?;
      EndsAtFirstStop(turns, sensed, maxIter, dumps, i + 1, Observed(c, step.plan, step.result, step.reflection), k);
    }
  }

  /** When every iteration up to the limit carries on, the run reports the
      limit and quotes the result of the last iteration. */
  lemma {:induction false} RunsToLimit(turns: nat -> Step, sensed: Result<Record, Exc>, maxIter: int,
                                       dumps: Value -> string, i: nat, ctx: Record)
    requires i < maxIter
    requires Reaches(turns, sensed, maxIter + 1)
    ensures Drive(turns, sensed, maxIter, dumps, i, ctx) ==
      MaxIterations(LimitAnswer(dumps, map["last_result" := JObj(turns(maxIter).result)]), maxIter)
    decreases maxIter - i
  {
    var c := if i == 0 then sensed.value else ctx;
    var step := turns(i + 1);
    assert step.Next?;
    var next := Observed(c, step.plan, step.result, step.reflection);
    if i + 1 < maxIter {
      RunsToLimit(turns, sensed, maxIter, dumps, i + 1, next);
    } else {
      assert Get(next, "last_result", JObj(map[])) == JObj(step.result);
    }
  }

  /** The converse: whatever the run returns is explained by the first
      iteration that does not carry on, and the count stays within its
      bounds. */
  lemma {:induction false} OutcomeExplained(turns: nat -> Step, sensed: Result<Record, Exc>, maxIter: int,
                                            dumps: Value -> string, i: nat, ctx: Record)
    requires i >= 1 ==> Reaches(turns, sensed, i + 1)
    ensures var o := Drive(turns, sensed, maxIter, dumps, i, ctx);
      && (o.Completed? ==>
           && i < o.iterations <= maxIter
           && Reaches(turns, sensed, o.iterations) && turns(o.iterations) == Finish(o.answer))
      && (o.Failed? ==>
           && i < o.iterations <= maxIter
           && ((i == 0 && o.iterations == 1 && sensed == Err(o.error))
               || (Reaches(turns, sensed, o.iterations) && turns(o.iterations) == Stop(o.error))))
      && (o.MaxIterations? ==>
           && o.iterations == Max(i, maxIter)
           && (i < maxIter ==> Reaches(turns, sensed, maxIter + 1)))
    decreases maxIter - i
  {
    if i < maxIter && !(i == 0 && sensed.Err?) {
      var c := if i == 0 then sensed.value else ctx;
      var step := turns(i + 1);
      if step.Next? {
        assert Reaches(turns, sensed, i + 2) by {
          forall j: nat | 1 <= j < i + 2
            ensures turns(j).Next?
          {
          }
        }
        OutcomeExplained(turns, sensed, maxIter, dumps, i + 1, Observed(c, step.plan, step.result, step.reflection));
      }
    }
  }

  /** Only the iterations the run reports are looked at: step sequences that
      agree on them give the same outcome. */
  lemma {:induction false} OnlyReportedIterationsMatter(turns: nat -> Step, other: nat -> Step,
                                                        sensed: Result<Record, Exc>, maxIter: int,
                                                        dumps: Value -> string, i: nat, ctx: Record)
    requires forall k: nat :: i < k <= Drive(turns, sensed, maxIter, dumps, i, ctx).iterations ==> turns(k) == other(k)
    ensures Drive(turns, sensed, maxIter, dumps, i, ctx) == Drive(other, sensed, maxIter, dumps, i, ctx)
    decreases maxIter - i
  {
    if i < maxIter && !(i == 0 && sensed.Err?) {
      var c := if i == 0 then sensed.value else ctx;
      assert turns(i + 1) == other(i + 1);
      var step := turns(i + 1);
      if step.Next? {
        OnlyReportedIterationsMatter(turns, other, sensed, maxIter, dumps, i + 1,
                                     Observed(c, step.plan, step.result, step.reflection));
      }
    }
  }

  // ---------------------------------------------------------------------
  // What `run` promises
  // ---------------------------------------------------------------------

  /** SENSE succeeds and iterations `1 .. k-1` of the run all carry on. */
  predicate Proceeds(reg: Registry, s: Session, k: nat)
  {
    Sense(reg, s.goal, s.history, s.host.show).Ok? && forall j: nat :: 1 <= j < k ==> Turn(reg, s, j).Next?
  }

  lemma ProceedsReaches(reg: Registry, s: Session, k: nat)
    ensures Proceeds(reg, s, k) <==> Reaches(Turns(reg, s), Sense(reg, s.goal, s.history, s.host.show), k)
  {
    var turns := Turns(reg, s);
    assert forall j: nat :: turns(j) == Turn(reg, s, j);
  }

  /** The first `COMPLETE` plan, at iteration `k`, ends the run as
      `completed` after `k` iterations with that plan's answer; nothing of
      iteration `k` beyond PLAN matters. */
  lemma CompletesAtFirstComplete(reg: Registry, s: Session, k: nat)
    requires 1 <= k <= s.maxIterations && Proceeds(reg, s, k)
    requires Plan(s.host.loads, s.oracle.plan(k)).Ok? && IsComplete(Plan(s.host.loads, s.oracle.plan(k)).value)
    ensures RunOutcome(reg, s) == Completed(Answer(Plan(s.host.loads, s.oracle.plan(k)).value), k)
  {
    var turns := Turns(reg, s);
    assert turns(k) == Turn(reg, s, k);
    ProceedsReaches(reg, s, k);
    EndsAtFirstStop(turns, Sense(reg, s.goal, s.history, s.host.show), s.maxIterations, s.host.dumps, 0, map[], k);
  }

  /** An exception in iteration `k` (a reply that does not parse, a model
      call or tool lookup that raises, a result `_summarize_result` cannot
      read) ends the run as `error` after `k` iterations. */
  lemma FailsAtFirstException(reg: Registry, s: Session, k: nat)
    requires 1 <= k <= s.maxIterations && Proceeds(reg, s, k)
    requires Turn(reg, s, k).Stop?
    ensures RunOutcome(reg, s) == Failed(Turn(reg, s, k).error, k)
  {
    var turns := Turns(reg, s);
    assert turns(k) == Turn(reg, s, k);
    ProceedsReaches(reg, s, k);
    EndsAtFirstStop(turns, Sense(reg, s.goal, s.history, s.host.show), s.maxIterations, s.host.dumps, 0, map[], k);
  }

  /** A plan reply that cannot be parsed ends the run with the parser's
      error; it does not lead to another iteration. */
  lemma MalformedPlanEndsRun(reg: Registry, s: Session, k: nat)
    requires 1 <= k <= s.maxIterations && Proceeds(reg, s, k)
    requires s.oracle.plan(k).Says? && ParseJsonResponse(s.host.loads, Strip(s.oracle.plan(k).content)).Err?
    ensures RunOutcome(reg, s) == Failed(ParseJsonResponse(s.host.loads, Strip(s.oracle.plan(k).content)).error, k)
  {
    FailsAtFirstException(reg, s, k);
  }

  /** A SENSE that raises ends the run on iteration 1. */
  lemma SenseFailureEndsRun(reg: Registry, s: Session)
    requires 1 <= s.maxIterations && Sense(reg, s.goal, s.history, s.host.show).Err?
    ensures RunOutcome(reg, s) == Failed(Sense(reg, s.goal, s.history, s.host.show).error, 1)
  {
  }

  /** If no iteration stops, the run reports `max_iterations` after
      `max(0, max_iterations)` iterations, quoting the last result (an empty
      dictionary when no iteration ran). */
  lemma RunsOutOfIterations(reg: Registry, s: Session)
    requires 1 <= s.maxIterations ==> Proceeds(reg, s, s.maxIterations + 1)
    ensures RunOutcome(reg, s) == MaxIterations(
      JStr(LimitPrefix + s.host.dumps(if 1 <= s.maxIterations then JObj(Turn(reg, s, s.maxIterations).result)
                                      else JObj(map[]))),
      Max(0, s.maxIterations))
  {
    if 1 <= s.maxIterations {
      var turns := Turns(reg, s);
      assert turns(s.maxIterations) == Turn(reg, s, s.maxIterations);
      ProceedsReaches(reg, s, s.maxIterations + 1);
      RunsToLimit(turns, Sense(reg, s.goal, s.history, s.host.show), s.maxIterations, s.host.dumps, 0, map[]);
    }
  }

  /** Every outcome of `run` is one of the above: the count is within
      `0 .. max(0, max_iterations)`, `max_iterations` reports exactly the
      limit, and `completed` and `error` come from the first iteration that
      does not carry on. */
  lemma RunExplained(reg: Registry, s: Session)
    ensures var o := RunOutcome(reg, s);
      && 0 <= o.iterations <= Max(0, s.maxIterations)
      && (o.MaxIterations? ==>
           && o.iterations == Max(0, s.maxIterations)
           && (1 <= s.maxIterations ==> Proceeds(reg, s, s.maxIterations + 1)))
      && (o.Completed? ==>
           && 1 <= o.iterations && Proceeds(reg, s, o.iterations)
           && Turn(reg, s, o.iterations) == Finish(o.answer))
      && (o.Failed? ==>
           && 1 <= o.iterations
           && ((o.iterations == 1 && Sense(reg, s.goal, s.history, s.host.show) == Err(o.error))
               || (Proceeds(reg, s, o.iterations) && Turn(reg, s, o.iterations) == Stop(o.error))))
  {
    var turns := Turns(reg, s);
    var o := RunOutcome(reg, s);
    OutcomeExplained(turns, Sense(reg, s.goal, s.history, s.host.show), s.maxIterations, s.host.dumps, 0, map[]);
    if o.Completed? || o.Failed? {
      assert turns(o.iterations) == Turn(reg, s, o.iterations);
      ProceedsReaches(reg, s, o.iterations);
    }
    if 1 <= s.maxIterations {
      ProceedsReaches(reg, s, s.maxIterations + 1);
    }
  }

  /** Replies the oracles `a` and `b` give agree on iterations `1 .. n`. */
  predicate SameReplies(a: Oracle, b: Oracle, n: int)
  {
    forall k: nat :: 1 <= k <= n ==> a.plan(k) == b.plan(k) && a.reflect(k) == b.reflect(k)
  }

  /** The run consults the model only on the iterations it reports, at most
      `max(0, max_iterations)` of them: oracles that agree there give the
      same outcome. */
  lemma ModelConsultedOnlyOnReportedIterations(reg: Registry, s: Session, b: Oracle)
    requires SameReplies(s.oracle, b, RunOutcome(reg, s).iterations)
    ensures RunOutcome(reg, s) == RunOutcome(reg, s.(oracle := b))
    ensures RunOutcome(reg, s).iterations <= Max(0, s.maxIterations)
  {
    var t := s.(oracle := b);
    var sensed := Sense(reg, s.goal, s.history, s.host.show);
    forall k: nat | 0 < k <= RunOutcome(reg, s).iterations
      ensures Turns(reg, s)(k) == Turns(reg, t)(k)
    {
      assert Turns(reg, s)(k) == Turn(reg, s, k) && Turns(reg, t)(k) == Turn(reg, t, k);
      assert s.oracle.plan(k) == b.plan(k) && s.oracle.reflect(k) == b.reflect(k);
    }
    OnlyReportedIterationsMatter(Turns(reg, s), Turns(reg, t), sensed, s.maxIterations, s.host.dumps, 0, map[]);
    RunExplained(reg, s);
  }

  /** The loop of `run`: until a `COMPLETE` plan, an exception, or the
      iteration limit. The `try` around the loop is the `Err` side of each
      phase: an exception ends the run as `error`. */
  method Loop(reg: Registry, s: Session) returns (r: Outcome)
    ensures r == RunOutcome(reg, s)
  {
    ghost var turns := Turns(reg, s);
    ghost var sensed := Sense(reg, s.goal, s.history, s.host.show);
    var iteration := 0;
    var context: Record := map[];
    while iteration < s.maxIterations
      invariant 0 <= iteration
      invariant Drive(turns, sensed, s.maxIterations, s.host.dumps, iteration, context) == RunOutcome(reg, s)
      decreases s.maxIterations - iteration
    {
      ghost var before := context;
      iteration := iteration + 1;
      // SENSE
      if iteration == 1 {
        var senseResult := Sense(reg, s.goal, s.history, s.host.show);
        if senseResult.Err? {
          return Failed(senseResult.error, iteration);
        }
        context := senseResult.value;
      }
      // PLAN, then ACT, OBSERVE and REFLECT unless the plan is COMPLETE
      var step := Iteration(reg, s.host, s.oracle.plan(iteration), s.oracle.reflect(iteration));
      assert turns(iteration) == step;
      DriveStep(turns, sensed, s.maxIterations, s.host.dumps, iteration - 1, before);
      match step
      case Finish(answer) =>
        return Completed(answer, iteration);
      case Stop(e) =>
        return Failed(e, iteration);
      case Next(plan, result, reflection) =>
        context := Observed(context, plan, result, reflection);
    }
    r := MaxIterations(LimitAnswer(s.host.dumps, context), iteration);
  }

  // ---------------------------------------------------------------------
  // The agent
  // ---------------------------------------------------------------------

  class SimpleAgent {
    const maxIterations: int
    const memory: MemoryStore
    const tools: ToolRegistry

    /** The client and logger are not modelled; the four default tools' bodies
        are given. */
    constructor (maxIterations: int, searchKnowledge: Tool, getUserContext: Tool, storeMemory: Tool, recallMemories: Tool)
      ensures this.maxIterations == maxIterations
      ensures fresh(memory) && fresh(tools)
      ensures memory.Valid() && memory.context == map[] && memory.facts == [] && memory.conversation == []
      ensures tools.Valid()
      ensures memory.userPreferences == DefaultPreferences
      ensures tools.names == DefaultNames
      ensures tools.tools == DefaultTools(searchKnowledge, getUserContext, storeMemory, recallMemories)
    {
      this.maxIterations := maxIterations;
      memory := new MemoryStore();
      tools := new ToolRegistry(searchKnowledge, getUserContext, storeMemory, recallMemories);
    }

    /** `run(goal)`: records the goal, runs the loop, and records a
        `completed` answer in the conversation. */
    method Run(goal: string, host: Host, oracle: Oracle) returns (r: Outcome)
      modifies memory
      ensures r == RunOutcome(tools.State(), Session(goal, old(memory.conversation) + [Message("user", JStr(goal))],
                                                     maxIterations, host, oracle))
      ensures memory.context == old(memory.context)["current_goal" := JStr(goal)]
      ensures memory.conversation == old(memory.conversation) + [Message("user", JStr(goal))]
        + (if r.Completed? then [Message("assistant", r.answer)] else [])
      ensures memory.facts == old(memory.facts) && memory.userPreferences == old(memory.userPreferences)
    {
      memory.UpdateContext("current_goal", JStr(goal));
      memory.AddToConversation("user", JStr(goal));
      r := Loop(tools.State(), Session(goal, memory.conversation, maxIterations, host, oracle));
      if r.Completed? {
        memory.AddToConversation("assistant", r.answer);
      }
    }
  }
}
