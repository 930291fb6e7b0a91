# A verified model of `simple_agent.py`

`simple_agent.py` is a teaching agent. Given a goal, `SimpleAgent.run` loops through five phases:

- **SENSE**: gather the user, the recent conversation and the tool names.
- **PLAN**: ask a language model for a JSON plan.
- **ACT**: run the planned tool when the plan is a `TOOL_CALL`; any other action is skipped. A `COMPLETE` plan ends the loop before ACT.
- **OBSERVE**: summarise the result for the log.
- **REFLECT**: ask the model for a short reflection.

The loop stops at the first `COMPLETE` plan, at the first exception, or at the iteration cap. Around it sit:

- a `MemoryStore` (session context, numbered facts, conversation history);
- a `ToolRegistry` (named tools, `execute`);
- `search_knowledge`, a keyword retrieval;
- `_parse_json_response`, which digs a JSON object out of a model reply.

The Dafny project has one module per concern:

| file | module | models |
|---|---|---|
| `wrappers.dfy` | `Wrappers` | `Option`, `Result` |
| `values.dfy` | `Values` | JSON-like values, dictionaries, the exceptions the code can raise, `len` and `str` |
| `text.dfy` | `Text` | the `str` methods and slices the code uses: `strip`, `lower`, `find`/`in`, `split(sep)`, `split()`, `join`, `s[:k]`, `s[k:]` |
| `response.dfy` | `Response` | `_parse_json_response` |
| `memory.dfy` | `Memory` | `MemoryStore`, as a class |
| `knowledge.dfy` | `Knowledge` | `search_knowledge` |
| `tools.dfy` | `Tools` | `ToolRegistry`, as a class, and `execute` |
| `agent.dfy` | `Agent` | the phases, the loop as a function (`RunOutcome`), the `while` loop (`Loop`) proved to compute it, and `SimpleAgent` |

## How the model is built

**Outside inputs.** The language model is an `Oracle`:
- `plan(k)` is the reply to the PLAN call of iteration `k`;
- `reflect(k)` is the reply to the REFLECT call of iteration `k`;
- each reply is `Says(text)` or `Raises(message)`.

`json.loads`, `json.dumps` and `str` of a non-string are parameters bundled in a `Host`:
- `loads` is a partial function, with `None` standing for `JSONDecodeError`.

A tool is an uninterpreted function from its `args` value to `Returns(record)` or `Throws(message)`.

**Exceptions.** An exception that can escape a phase is the `Err` side of that phase's `Result`:
- `Raised`: the model client raised;
- `DecodeFailed`: the fallback parse failed;
- `NoJson`: the `ValueError` for text with no braces;
- `TypeFault`: a Python `TypeError`, `AttributeError` or `KeyError`.

`run`'s `except Exception` turns any of these into the `Failed` outcome (`status: "error"`).

**Behaviour of the code worth stating.**
- `max_iterations` is not validated. A cap of 0 or less runs no iteration and reports `max_iterations` with `iterations` 0.
- `_parse_json_response` raises. It does not return an error value.
- A malformed plan, or a model call that raises, ends the run with `status: "error"`. It does not degrade into another iteration.
- REFLECT can raise; an exception from the model client ends the run.
- A run is one loop. No orchestrator threads a context through several loops.

## Model

| member | source | states |
|---|---|---|
| `Values.PyLen` | simple_agent.py:817-828 | `len(v)` is defined exactly on strings, lists and dictionaries |
| `Values.Str` | simple_agent.py:127 | `str(v)` of a string is the string itself |
| `Text.SliceTo` | simple_agent.py:226 | `s[:k]` has length `min(k, len(s))` for `k >= 0`, counts from the end for `k < 0`, and is a prefix of `s` |
| `Text.SliceFrom` | simple_agent.py:126 | `s[k:]` has the length Python gives it for positive and negative `k`, and is a suffix of `s` |
| `Text.TrimStart` | simple_agent.py:689 | drops exactly the leading whitespace |
| `Text.TrimEnd` | simple_agent.py:689 | drops exactly the trailing whitespace |
| `Text.Strip` | simple_agent.py:689 | the result is a slice of `s` with only whitespace cut from either side, and neither starts nor ends with whitespace; text without whitespace is unchanged |
| `Text.Lower` | simple_agent.py:109 | lowercases each character and keeps the length |
| `Text.Find` | simple_agent.py:797 | the first occurrence of the pattern, or `None` when there is none |
| `Text.ContainsIff` | simple_agent.py:797 | `pat in s` holds exactly when the pattern occurs at some index |
| `Text.Before` | simple_agent.py:798 | a prefix of `s` with no separator starting anywhere inside it, followed by one, so the cut is at the first separator even when separators overlap; all of `s` when it has no separator |
| `Text.BeforeHasNoSep` | simple_agent.py:798 | a string cut before the first separator does not contain it |
| `Text.Split` | simple_agent.py:798 | `s.split(sep)` has at least one piece, and two or more exactly when `sep in s` |
| `Text.SplitFirst` | simple_agent.py:798 | the first piece of a split is the text before the first separator |
| `Text.SplitSecond` | simple_agent.py:798 | the second piece is the text between the first and the second separator |
| `Text.JoinSplit` | simple_agent.py:127 | `sep.join(s.split(sep)) == s` |
| `Text.Join` | simple_agent.py:127 | `sep.join(parts)`: empty for no parts, the part itself for one, starts with the first part, and is the concatenation when `sep` is empty |
| `Text.SplitPiecesAreFree` | simple_agent.py:798-800 | no piece of a split contains the separator |
| `Response.Candidate` | simple_agent.py:796-800 | the candidate holds no "```"; text without a fence is the candidate itself |
| `Text.Words` | simple_agent.py:205 | `s.split()`: each word is non-empty and holds no whitespace |
| `Text.WordsCover` | simple_agent.py:205 | the words of `s.split()`, concatenated, are the non-space characters of `s` in order |
| `Text.WordsAreMaximal` | simple_agent.py:205 | each word of `s.split()` occurs in `s` with whitespace or the edge of `s` on both sides |
| `Text.WordsComplete` | simple_agent.py:205 | the converse: every non-empty run of non-space characters with whitespace or an edge on both sides is a word |
| `Text.WordSetIff` | simple_agent.py:205 | `set(s.split())` is exactly the set of maximal runs of non-space characters of `s` |
| `Response.CandidateAfterJsonFence` | simple_agent.py:797-798 | with a "```json" fence and no "````json" after it, the candidate is the text after the first "```json" up to the next "```" or the end |
| `Response.CandidateWithJsonFence` | simple_agent.py:797-798 | with a "```json" fence in general, the candidate is the text after the first "```json", cut at the next "```json" and then at the next "```" |
| `Response.FourTicksKeepBacktick` | simple_agent.py:797-798 | for "```json abc````json x" the candidate is " abc`", not " abc": the second "```json" cut keeps a backtick |
| `Response.CandidateAfterFence` | simple_agent.py:799-800 | without "```json" but with "```", the candidate is the text between the first and second fence, or from the first fence to the end |
| `Response.FirstIndexOf` | simple_agent.py:807 | the first index of a character, or `None` when it does not occur |
| `Response.LastIndexOf` | simple_agent.py:807 | the last index of a character, or `None` when it does not occur |
| `Response.BraceSpan` | simple_agent.py:807 | the match of `\{.*\}` with DOTALL: leftmost, then longest, and `None` exactly when no `{` is followed by a `}` |
| `Response.ParseJsonResponse` | simple_agent.py:794-810 | a strict parse of the stripped candidate wins; otherwise, with a brace span, the result is the parse of exactly `BraceSpan`'s slice of the candidate, or the decoder's error on that slice; it succeeds only by one of these two parses; no span raises `ValueError` quoting at most 200 characters |
| `Response.JsonFenceHasFence` | simple_agent.py:797-799 | text containing "```json" contains "```" |
| `Response.BraceSpanOfWrapped` | simple_agent.py:807 | prose without `{` before and without `}` after a braced body makes the regex match exactly the body |
| `Response.ProseWrappedRecord` | simple_agent.py:802-809 | a record wrapped in such prose is recovered by the fallback once the strict parse fails |
| `Memory.Window` | simple_agent.py:126 | `history[-n:]` for a non-empty history: the last `min(n, len)` turns for `n >= 1`, everything for `n == 0`, and drops `-n` turns for `n < 0` |
| `Memory.Line` | simple_agent.py:127 | the line is the role, `": "`, then the content, a string content as itself |
| `Memory.RecentContext` | simple_agent.py:124-127 | the joined context is empty exactly when the window is empty |
| `Memory.MemoryStore.constructor` | simple_agent.py:74-89 | empty context, facts and conversation, and the default preferences |
| `Memory.MemoryStore.StoreFact` | simple_agent.py:91-100 | appends one fact with id `len(facts) + 1` and returns it, keeping the ids `1..n`; nothing else changes |
| `Memory.MemoryStore.SearchFacts` | simple_agent.py:102-114 | a fact is returned exactly when it is stored and its lowercased content contains the lowercased query, in increasing id order, which is insertion order |
| `Memory.Mentions` | simple_agent.py:109-113 | a fact matches exactly when the lowercased query occurs in its lowercased content; an empty query matches every fact |
| `Memory.MemoryStore.AddToConversation` | simple_agent.py:116-122 | appends one message; nothing else changes |
| `Memory.MemoryStore.UpdateContext` | simple_agent.py:129-131 | sets one context key; nothing else changes |
| `Memory.MemoryStore.GetContext` | simple_agent.py:133-139 | exactly three keys, holding the context and preferences; `facts_count` is the id of the last fact, or 0 with no facts |
| `Knowledge.ScorePositiveIff` | simple_agent.py:205-221 | an item scores above zero exactly when the query shares a word with its title or content, or a tag |
| `Knowledge.Terms` | simple_agent.py:205-211 | `set(s.lower().split())`: every term is a non-empty run without whitespace |
| `Knowledge.TermsAreRuns` | simple_agent.py:205-211 | a term is exactly a maximal run of non-space characters of the lowercased text |
| `Knowledge.TagTerms` | simple_agent.py:212 | every lowercased tag is a tag term, whole, and every tag term is a lowercased tag |
| `Knowledge.Score` | simple_agent.py:205-219 | a query without words scores 0; a score is at most six per query word |
| `Knowledge.ScoredMembers` | simple_agent.py:207-222 | a kept item is a knowledge-base item with a positive score, carrying that score |
| `Knowledge.Positive` | simple_agent.py:207-222 | at most as many hits as articles; each hit is a knowledge-base article carrying its own positive score |
| `Knowledge.Scored` | simple_agent.py:207-222 | the same for the query's score: no more hits than articles, each an article of the knowledge base with its positive score |
| `Knowledge.InsertPermutes` | simple_agent.py:225 | one insertion step of the sort keeps the multiset |
| `Knowledge.InsertKeepsOrder` | simple_agent.py:225 | one insertion step keeps the scores non-increasing |
| `Knowledge.InsertIsStable` | simple_agent.py:225 | one insertion step keeps the order among equal scores |
| `Knowledge.SortByScore` | simple_agent.py:225 | the sort keeps the number of hits |
| `Knowledge.SortByScoreSpec` | simple_agent.py:225 | the descending sort is sorted, a permutation, and stable |
| `Knowledge.SearchKnowledge` | simple_agent.py:194-226 | the loop keeps the positively scored items in order; the result is their stable descending sort cut to `top_k` |
| `Knowledge.SearchResultsSpec` | simple_agent.py:205-226 | every result is a scored knowledge-base item with its score; scores do not increase; for `top_k >= 0` there are `min(top_k, kept)` results, at most `min(top_k, len(kb))`; ties keep knowledge-base order |
| `Tools.DefaultsConsistent` | simple_agent.py:254-302 | the four default tools have distinct names, listed in registration order, each entry filed under its own name |
| `Tools.ToolRegistry.constructor` | simple_agent.py:249-302 | the registry starts with the four default tools, in registration order, and is consistent |
| `Tools.ToolRegistry.RegisterTool` | simple_agent.py:304-317 | a later registration under a name replaces the earlier one and keeps its place in the key order; the registry stays consistent |
| `Tools.Execute` | simple_agent.py:355-378 | an unhashable name raises; an unknown name gives the unknown-tool record; a registered tool's result is returned unchanged; a raising tool gives `success: False` with the message and the tool name |
| `Tools.UnknownTool` | simple_agent.py:361-366 | exactly `success: False`, the `Unknown tool:` message and the registered names in order |
| `Tools.ToolFailed` | simple_agent.py:373-378 | exactly `success: False`, the exception message and the tool name |
| `Tools.UnknownToolReported` | simple_agent.py:361-366 | the unknown-tool record has exactly the keys `success`, `error` and `available_tools`, and lists exactly the registered names |
| `Agent.Sense` | simple_agent.py:615-636 | the sensed context has exactly the keys goal, user, recent conversation and tool names; the user is the tool's `user` value (default `{}`), the conversation the last five turns; it raises exactly when that user is not a dictionary |
| `Agent.Plan` | simple_agent.py:689-700 | a raising client or an unparsable reply raises; otherwise the plan is the parsed dictionary, and it raises when the reply is not a dictionary or its `reasoning` cannot be sliced |
| `Agent.Answer` | simple_agent.py:573 | `plan["answer"]`, else `plan["reasoning"]`, else `""` |
| `Agent.Act` | simple_agent.py:702-726 | a plan that is not `TOOL_CALL` is skipped with its action type as the reason; a `TOOL_CALL` plan is `execute(plan["tool"], plan.get("args", {}))` |
| `Agent.FirstResult` | simple_agent.py:816-822 | succeeds exactly on results `_summarize_result` can read; gives no entry exactly when the results are empty; an entry has exactly `title` and `preview`, taken from the first item |
| `Agent.Summarize` | simple_agent.py:812-830 | each summary key is present exactly when the key it summarises is; `first_result` holds `FirstResult`'s entry for the results; it succeeds exactly when `results` and `memories` can be measured and previewed |
| `Agent.Reflect` | simple_agent.py:786-792 | returns exactly when the model call does, with the stripped reply; a raising client raises its error |
| `Agent.Iteration` | simple_agent.py:566-595 | a plan that raises stops the iteration with that error; a `COMPLETE` plan finishes it with its answer before ACT and REFLECT; otherwise the first of ACT, OBSERVE and REFLECT to raise stops it with its own error, and it carries on exactly when all three return, keeping the plan, the result and the stripped reflection |
| `Agent.Acted` | simple_agent.py:589-590 | the context after ACT holds the plan as `last_action` and the result as `last_result` |
| `Agent.Observed` | simple_agent.py:589-595 | the context after REFLECT also holds the reflection as `last_reflection` |
| `Agent.ObservedKeepsOthers` | simple_agent.py:589-595 | an iteration adds exactly those keys to the context, and every other key keeps its value |
| `Agent.LimitAnswer` | simple_agent.py:597-602 | the limit message followed by `json.dumps` of the last result, or of `{}` when no iteration acted |
| `Agent.DriveStep` | simple_agent.py:557-595 | one iteration of the loop, unfolded |
| `Agent.Drive` | simple_agent.py:557-604 | the limit is reported with the count equal to the limit (or the starting count past it); any other outcome is an iteration after the start and within the limit |
| `Agent.EndsAtFirstStop` | simple_agent.py:557-595 | the first iteration that does not carry on decides the outcome |
| `Agent.RunsToLimit` | simple_agent.py:597-604 | when every iteration carries on, the outcome is the limit and quotes the last result |
| `Agent.OutcomeExplained` | simple_agent.py:557-613 | every outcome of the loop is explained by its first stopping iteration, within the count bounds |
| `Agent.OnlyReportedIterationsMatter` | simple_agent.py:557-613 | iterations after the reported count do not affect the outcome |
| `Agent.ProceedsReaches` | simple_agent.py:557-595 | the run-level and loop-level statements of "iterations `1..k-1` carry on" agree |
| `Agent.RunOutcome` | simple_agent.py:553-613 | `0 <= iterations <= max(0, max_iterations)`; `completed` and `error` report at least one iteration; a cap of 0 or less gives `max_iterations` after 0 iterations, quoting `{}` |
| `Agent.CompletesAtFirstComplete` | simple_agent.py:570-578 | the first `COMPLETE` plan, at iteration `k`, gives `completed` after `k` iterations with that plan's answer |
| `Agent.FailsAtFirstException` | simple_agent.py:606-613 | an exception in iteration `k` gives `error` after `k` iterations |
| `Agent.MalformedPlanEndsRun` | simple_agent.py:692 | a plan reply that cannot be parsed gives `error` with the parser's exception; it does not lead to another iteration |
| `Agent.SenseFailureEndsRun` | simple_agent.py:562-563 | a SENSE that raises gives `error` on iteration 1 |
| `Agent.RunsOutOfIterations` | simple_agent.py:597-604 | if no iteration stops, `max_iterations` after `max(0, max_iterations)` iterations, quoting the last result, or `{}` when none ran |
| `Agent.RunExplained` | simple_agent.py:553-613 | every outcome is one of the three above, with `0 <= iterations <= max(0, max_iterations)` |
| `Agent.ModelConsultedOnlyOnReportedIterations` | simple_agent.py:557-595 | the run consults the model only on the iterations it reports, at most `max(0, max_iterations)` of them; oracles that agree there give the same outcome |
| `Agent.Loop` | simple_agent.py:553-613 | the `while` loop returns `RunOutcome` for its session |
| `Agent.SimpleAgent.constructor` | simple_agent.py:500-507 | a fresh empty memory with the default preferences, and a registry holding exactly the four default tools, with their descriptions, parameters and bodies, in registration order |
| `Agent.SimpleAgent.Run` | simple_agent.py:537-613 | returns `RunOutcome` for the session it starts; it records the goal and, on completion, the answer in the conversation; the memory is otherwise unchanged |

## Left out

- The OpenAI client, its construction, the API-key check and all prompt text: the two model calls are the `Oracle`.
- `json.loads`, `json.dumps` and `str` of non-strings are host functions. Their internals, including recursion limits, are not modelled.
- `AgentLogger` and all logging: console output and clock time. The log lines' computations that can raise are kept: `plan.get`, `reasoning[:100]` and the user's `.get`.
- `get_tools_for_prompt`, `load_knowledge_base`, `load_dotenv` and `main`: prompt text, file I/O and entry points.
- Timestamps in `store_fact` and `add_to_conversation` come from the clock. `AgentConfig`'s `model` and `temperature` only reach the client.
- `Text.Lower`: lowercases ASCII letters only, because Unicode case mapping is not modelled.
- `Tools.Execute`: the default tools' bodies are parameters, so a tool's reading and writing of memory is not modelled. A tool is assumed to return a dictionary.
- `Agent.SimpleAgent.Run`: its ensures that facts and preferences are unchanged holds only because tools are pure here. In the source, `store_memory` appends a fact.
- `Agent.SimpleAgent.Run`: the answer of a `completed` run is added to the conversation after `Loop` returns, not inside the loop. Nothing reads the memory in between, so the outcome and the final memory are the same.
- `Agent.Loop`: the context the loop keeps is only observable at iteration boundaries. The partial update before REFLECT is folded into `Observed`; an exception discards it.
- `Agent.Sense`: the `get_user_context` tool's result is taken as given. The tool is assumed to return a dictionary, as all records here are.
- Exception message texts: `run` reports `str(e)`, and the model keeps the exception value instead.
- `Knowledge.SearchKnowledge`: `list.sort` in place is modelled by a functional stable insertion sort on the sequence. `SortByScoreSpec` proves it sorted, a permutation and stable.
- `Knowledge.SearchKnowledge`: an item without `title` or `content` would raise `KeyError`. Articles always carry both here, and tags are strings.
- `Response.CandidateAfterJsonFence`: holds only when no "````json" follows the first "```json". With one, the second "```json" cut leaves a backtick in the candidate; `CandidateWithJsonFence` states the general case, and `FourTicksKeepBacktick` shows the difference.
- `Knowledge.Article` keeps only `id`, `title`, `content` and `tags`. The source's `{**item, "relevance_score": score}` (line 222) copies every key of the item into the hit, so keys beyond those four are not carried.
- `Values.Value`: JSON numbers are exact reals, so Python's `int`/`float` distinction is lost. `json.dumps` writes `1` for an `int` and `1.0` for a `float`, for instance in the limit answer; the host's `dumps` sees only the real.
- Dictionary key order is not modelled, except for the registry's names, which the `available_tools` lists expose.
- OBSERVE's output only goes to the log. It is modelled by `Summarize`, whose exceptions end the run; the reflection prompt's second call of `_summarize_result` cannot fail once the first has succeeded.
