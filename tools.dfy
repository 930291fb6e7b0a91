/**
 * `ToolRegistry`: the tools the agent may call, by name, in registration
 * order. A tool is a function of its keyword arguments that either returns a
 * result dictionary or raises; `execute` turns both an unknown name and a
 * raising tool into an error record instead of an exception.
 */
module Tools {

  import opened Wrappers
  import opened Values

  /** What calling `tool["function"](**args)` does. */
  datatype ToolOutcome = Returns(result: Record) | Throws(message: string)

  /** A tool's function, applied to the `args` value of a plan. Whether the
      arguments fit the tool's signature is the tool's own business: a
      mismatch is a `Throws`. */
  type Tool = Value -> ToolOutcome

  datatype ToolEntry = ToolEntry(name: string, description: string, parameters: Value, run: Tool)

  /** The error record for a name that is not registered. */
  function UnknownTool(show: Value -> string, toolName: Value, names: seq<string>): (r: Record)
    ensures r.Keys == {"success", "error", "available_tools"}
    ensures r["success"] == JBool(false)
    ensures r["error"] == JStr("Unknown tool: " + Str(show, toolName))
    // the names are listed in order, one string per name
    ensures r["available_tools"].JList? && |r["available_tools"].items| == |names|
    ensures forall i :: 0 <= i < |names| ==> r["available_tools"].items[i] == JStr(names[i])
  {
    map["success" := JBool(false),
        "error" := JStr("Unknown tool: " + Str(show, toolName)),
        "available_tools" := StrList(names)]
  }

  /** The error record for a tool that raised. */
  function ToolFailed(message: string, toolName: Value): (r: Record)
    ensures r.Keys == {"success", "error", "tool"}
    ensures r["success"] == JBool(false) && r["error"] == JStr(message) && r["tool"] == toolName
  {
    map["success" := JBool(false), "error" := JStr(message), "tool" := toolName]
  }

  /** A parameter description `{"type": "string", "description": d}`. */
  function StringParameter(description: string): Value
  {
    JObj(map["type" := JStr("string"), "description" := JStr(description)])
  }

  /** The default tools' names, in the order `_register_default_tools`
      registers them. */
  const DefaultNames: seq<string> := ["search_knowledge", "get_user_context", "store_memory", "recall_memories"]

  lemma DefaultNamesDistinct()
    ensures forall i, j :: 0 <= i < j < |DefaultNames| ==> DefaultNames[i] != DefaultNames[j]
  {
    assert DefaultNames[0][0] == 's' && DefaultNames[0][1] == 'e';
    assert DefaultNames[1][0] == 'g';
    assert DefaultNames[2][0] == 's' && DefaultNames[2][1] == 't';
    assert DefaultNames[3][0] == 'r';
  }

  // The default tools' descriptions and parameter schemas, as shown to the model.
  const SearchKnowledgeDescription := "Search the knowledge base for information about a topic. Use this to find relevant content before answering questions."
  const SearchKnowledgeParameters := JObj(map["query" := StringParameter("The search query to find relevant information")])
  const GetUserContextDescription := "Get information about the current user including their preferences, learning level, and interests."
  const StoreMemoryDescription := "Store an important fact or piece of information for future reference."
  const StoreMemoryParameters := JObj(map["fact" := StringParameter("The fact or information to remember")])
  const RecallMemoriesDescription := "Search through stored memories and facts to find relevant information."
  const RecallMemoriesParameters := JObj(map["query" := StringParameter("What to search for in memories")])

  /** The default tools, each under its name. */
  function DefaultTools(searchKnowledge: Tool, getUserContext: Tool, storeMemory: Tool, recallMemories: Tool)
    : map<string, ToolEntry>
  {
    map[DefaultNames[0] := ToolEntry(DefaultNames[0], SearchKnowledgeDescription, SearchKnowledgeParameters, searchKnowledge),
        DefaultNames[1] := ToolEntry(DefaultNames[1], GetUserContextDescription, JObj(map[]), getUserContext),
        DefaultNames[2] := ToolEntry(DefaultNames[2], StoreMemoryDescription, StoreMemoryParameters, storeMemory),
        DefaultNames[3] := ToolEntry(DefaultNames[3], RecallMemoriesDescription, RecallMemoriesParameters, recallMemories)]
  }

  /** The registry's invariant: the names are distinct, they are exactly the
      keys of the map, and every entry is filed under its own name. */
  ghost predicate Consistent(names: seq<string>, tools: map<string, ToolEntry>)
  {
    (forall i, j :: 0 <= i < j < |names| ==> names[i] != names[j])
    && (forall n :: n in tools <==> n in names)
    && (forall n :: n in tools ==> tools[n].name == n)
  }

  lemma DefaultsConsistent(searchKnowledge: Tool, getUserContext: Tool, storeMemory: Tool, recallMemories: Tool)
    ensures Consistent(DefaultNames, DefaultTools(searchKnowledge, getUserContext, storeMemory, recallMemories))
  {
    DefaultNamesDistinct();
  }

  /** The state of a `ToolRegistry`: the keys of `self.tools` in insertion
      order, and the map itself. */
  datatype Registry = Registry(names: seq<string>, tools: map<string, ToolEntry>)

  class ToolRegistry {
    var names: seq<string>
    var tools: map<string, ToolEntry>

    function State(): Registry
      reads this
    {
      Registry(names, tools)
    }

    ghost predicate Valid()
      reads this
    {
      Consistent(names, tools)
    }

    /** `_register_default_tools`: the four default tools, in registration
        order. Their bodies read and write the agent's memory and knowledge
        base; here they are given. */
    constructor (searchKnowledge: Tool, getUserContext: Tool, storeMemory: Tool, recallMemories: Tool)
      ensures Valid()
      ensures names == DefaultNames
      ensures tools == DefaultTools(searchKnowledge, getUserContext, storeMemory, recallMemories)
    {
      names := DefaultNames;
      tools := DefaultTools(searchKnowledge, getUserContext, storeMemory, recallMemories);
      DefaultsConsistent(searchKnowledge, getUserContext, storeMemory, recallMemories);
    }

    /** `register_tool`: a later registration under the same name replaces
        the earlier one and keeps its place in the order. */
    method RegisterTool(name: string, description: string, parameters: Value, run: Tool)
      requires Valid()
      modifies this
      ensures Valid()
      ensures tools == old(tools)[name := ToolEntry(name, description, parameters, run)]
      ensures names == if name in old(tools) then old(names) else old(names) + [name]
    {
      if name !in tools {
        names := names + [name];
      }
      tools := tools[name := ToolEntry(name, description, parameters, run)];
    }
  }

  /** `execute(tool_name, args)` on the registry's current state. Looking a
      list or a dictionary up in `self.tools` raises `TypeError`
      (unhashable), outside the `try`. */
  function Execute(reg: Registry, toolName: Value, args: Value, show: Value -> string): (r: Result<Record, Exc>)
    ensures r.Err? <==> toolName.JList? || toolName.JObj?
    ensures r.Err? ==> r.error == TypeFault("hash")
    ensures r.Ok? && !(toolName.JStr? && toolName.s in reg.tools) ==>
      r.value == UnknownTool(show, toolName, reg.names)
    ensures toolName.JStr? && toolName.s in reg.tools ==>
      r == Ok(match reg.tools[toolName.s].run(args)
              case Returns(result) => result
              case Throws(m) => ToolFailed(m, toolName))
  {
    match toolName
    case JList(_) => Err(TypeFault("hash"))
    case JObj(_) => Err(TypeFault("hash"))
    case JStr(name) =>
      if name in reg.tools then
        match reg.tools[name].run(args)
        case Returns(result) => Ok(result)
        case Throws(m) => Ok(ToolFailed(m, toolName))
      else Ok(UnknownTool(show, toolName, reg.names))
    case _ => Ok(UnknownTool(show, toolName, reg.names))
  }

  /** An unregistered name yields `success: False`, an error naming the tool,
      and exactly the registered names, in order, as `available_tools`. */
  lemma UnknownToolReported(reg: ToolRegistry, toolName: Value, args: Value, show: Value -> string)
    requires reg.Valid()
    requires !toolName.JList? && !toolName.JObj?
    requires !(toolName.JStr? && toolName.s in reg.tools)
    ensures var r := Execute(reg.State(), toolName, args, show);
      r.Ok? && r.value.Keys == {"success", "error", "available_tools"}
      && r.value["success"] == JBool(false)
      && r.value["error"] == JStr("Unknown tool: " + Str(show, toolName))
      && r.value["available_tools"].JList?
      && |r.value["available_tools"].items| == |reg.names|
      && (forall n :: JStr(n) in r.value["available_tools"].items <==> n in reg.tools)
  {
    var items := StrList(reg.names).items;
    forall n
      ensures JStr(n) in items <==> n in reg.tools
    {
      if JStr(n) in items {
        var i :| 0 <= i < |items| && items[i] == JStr(n);
        assert reg.names[i] == n;
      }
      if n in reg.tools {
        var i :| 0 <= i < |reg.names| && reg.names[i] == n;
        assert items[i] == JStr(n);
      }
    }
  }
}
