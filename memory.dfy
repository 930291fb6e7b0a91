/**
 * `MemoryStore`: the agent's in-memory session context, long-term facts and
 * conversation history. Timestamps are not part of the model.
 */
module Memory {

  import opened Values
  import opened Text

  /** A stored fact; `id` is its 1-based position in the store. */
  datatype Fact = Fact(id: nat, content: string, source: string)

  /** One turn of the conversation. */
  datatype Message = Message(role: string, content: Value)

  const DefaultPreferences: Record := map[
    "name" := JStr("Student"),
    "learning_level" := JStr("intermediate"),
    "interests" := StrList(["AI", "Machine Learning", "Python"])
  ]

  /** The case-insensitive substring test of `search_facts`. */
  predicate Mentions(f: Fact, query: string)
    // the lowercased query occurs somewhere in the lowercased content
    ensures Mentions(f, query) <==> exists i :: OccursAt(Lower(f.content), Lower(query), i)
    // an empty query matches every fact
    ensures query == "" ==> Mentions(f, query)
  {
    ContainsIff(Lower(f.content), Lower(query));
    assert query == "" ==> OccursAt(Lower(f.content), Lower(query), 0) by {
      if query == "" {
        assert Lower(f.content)[0..0] == Lower(query);
      }
    }
    Contains(Lower(f.content), Lower(query))
  }

  /** The turns `get_recent_context(n)` shows: `history[-n:]`. */
  function Window(history: seq<Message>, n: int): (w: seq<Message>)
    ensures |w| <= |history| && w == history[|history| - |w|..]
    ensures 1 <= n ==> |w| == Min(n, |history|)
    ensures n == 0 ==> w == history
    ensures n < 0 ==> |w| == Max(0, |history| + n)
  {
    if history == [] then [] else SliceFrom(history, -n)
  }

  function Line(m: Message, show: Value -> string): (r: string)
    ensures |r| >= |m.role| + 2 && r[..|m.role| + 2] == m.role + ": "
    // string content is quoted as is
    ensures m.content.JStr? ==> r[|m.role| + 2..] == m.content.s
  {
    m.role + ": " + Str(show, m.content)
  }

  /** `get_recent_context(n)`: one "role: content" line per turn of the window,
      joined with newlines. */
  function RecentContext(history: seq<Message>, n: int, show: Value -> string): (r: string)
    ensures r == "" <==> Window(history, n) == []
  {
    var w := Window(history, n);
    var lines := seq(|w|, i requires 0 <= i < |w| => Line(w[i], show));
    JoinNonEmpty(lines);
    Join(lines, "\n")
  }

  lemma {:induction false} JoinNonEmpty(lines: seq<string>)
    requires forall i :: 0 <= i < |lines| ==> lines[i] != ""
    ensures Join(lines, "\n") == "" <==> lines == []
  {
    if |lines| > 1 {
      assert |Join(lines, "\n")| >= |lines[0]|;
    }
  }

  class MemoryStore {
    var context: Record
    var facts: seq<Fact>
    var conversation: seq<Message>
    var userPreferences: Record

    /** Fact ids are their 1-based positions. */
    ghost predicate Valid()
      reads this
    {
      forall i :: 0 <= i < |facts| ==> facts[i].id == i + 1
    }

    constructor ()
      ensures Valid()
      ensures context == map[] && facts == [] && conversation == []
      ensures userPreferences == DefaultPreferences
    {
      context := map[];
      facts := [];
      conversation := [];
      userPreferences := DefaultPreferences;
    }

    /** `store_fact`: appends one fact numbered after the ones already there. */
    method StoreFact(fact: string, source: string) returns (entry: Fact)
      requires Valid()
      modifies this
      ensures Valid()
      ensures entry == Fact(|old(facts)| + 1, fact, source)
      ensures facts == old(facts) + [entry]
      ensures context == old(context) && conversation == old(conversation)
      ensures userPreferences == old(userPreferences)
    {
      entry := Fact(|facts| + 1, fact, source);
      facts := facts + [entry];
    }

    /** `search_facts`: the facts whose content contains the query, ignoring
        case, in the order they were stored. */
    method SearchFacts(query: string) returns (results: seq<Fact>)
      requires Valid()
      ensures forall f :: f in results <==> f in facts && Mentions(f, query)
      ensures forall i, j :: 0 <= i < j < |results| ==> results[i].id < results[j].id
    {
      var q := Lower(query);
      results := [];
      for k := 0 to |facts|
        invariant forall f :: f in results <==> f in facts[..k] && Mentions(f, query)
        invariant forall i, j :: 0 <= i < j < |results| ==> results[i].id < results[j].id
        invariant forall i :: 0 <= i < |results| ==> results[i].id <= k
      {
        assert facts[..k + 1] == facts[..k] + [facts[k]];
        if Contains(Lower(facts[k].content), q) {
          results := results + [facts[k]];
        }
      }
      assert facts[..|facts|] == facts;
    }

    /** `add_to_conversation`. */
    method AddToConversation(role: string, content: Value)
      modifies this
      ensures conversation == old(conversation) + [Message(role, content)]
      ensures context == old(context) && facts == old(facts)
      ensures userPreferences == old(userPreferences)
    {
      conversation := conversation + [Message(role, content)];
    }

    /** `get_context`: the session context, the preferences and the number
        of stored facts, which is also the id of the last one. */
    function GetContext(): (r: Record)
      requires Valid()
      reads this
      ensures r.Keys == {"session_context", "user_preferences", "facts_count"}
      ensures r["session_context"] == JObj(context) && r["user_preferences"] == JObj(userPreferences)
      ensures r["facts_count"].JNum? && r["facts_count"].n >= 0.0
      ensures facts != [] ==> r["facts_count"] == JNum(facts[|facts| - 1].id as real)
      ensures facts == [] ==> r["facts_count"] == JNum(0.0)
    {
      map["session_context" := JObj(context), "user_preferences" := JObj(userPreferences),
          "facts_count" := JNum(|facts| as real)]
    }

    /** `update_context`. */
    method UpdateContext(key: string, value: Value)
      modifies this
      ensures context == old(context)[key := value]
      ensures facts == old(facts) && conversation == old(conversation)
      ensures userPreferences == old(userPreferences)
    {
      context := context[key := value];
    }
  }
}
