/**
 * `SimpleAgent._parse_json_response`: pull a JSON object out of a model reply.
 * The reply is first cut down to the inside of a Markdown code fence, parsed
 * strictly, and on failure the span from the first `{` to the last `}` is
 * parsed instead. `json.loads` itself is a parameter: a partial function from
 * text to a value.
 */
module Response {

  import opened Wrappers
  import opened Values
  import opened Text

  const JsonFence := "```json"
  const Fence := "```"
  const FourTicksJson := "````json"
  const NoJsonPrefix := "Could not parse JSON from: "

  /** The text the strict parse is tried on (before stripping). */
  function Candidate(text: string): (r: string)
    ensures !Contains(r, Fence)
    ensures !Contains(text, Fence) ==> r == text
  {
    if Contains(text, JsonFence) then
      var piece := Split(text, JsonFence)[1];
      SplitPiecesAreFree(piece, Fence, 0);
      JsonFenceHasFence(text);
      Split(piece, Fence)[0]
    else if Contains(text, Fence) then
      var piece := Split(text, Fence)[1];
      SplitPiecesAreFree(piece, Fence, 0);
      Split(piece, Fence)[0]
    else
      text
  }

  /** Every "```json" starts with a "```". */
  lemma JsonFenceStartsWithFence(s: string, p: int)
    requires OccursAt(s, JsonFence, p)
    ensures OccursAt(s, Fence, p)
  {
    assert s[p..p + 3] == s[p..p + 7][..3];
  }

  /** The first fence of a prefix that is long enough to hold it. */
  lemma FirstFenceInPrefix(s: string, n: nat, pf: nat)
    requires n <= |s| && Find(s, Fence) == Some(pf) && pf + 3 <= n
    ensures Before(s[..n], Fence) == s[..pf]
  {
    OccursInPrefix(s, n, Fence, pf);
    var q := Find(s[..n], Fence).value;
    OccursInPrefix(s, n, Fence, q);
  }

  /** A prefix that ends where the first fence starts holds no fence. */
  lemma NoFenceBeforeFirst(s: string, pf: nat)
    requires Find(s, Fence) == Some(pf)
    ensures Before(s[..pf], Fence) == s[..pf]
  {
    forall i | OccursAt(s[..pf], Fence, i)
      ensures false
    {
      OccursInPrefix(s, pf, Fence, i);
    }
  }

  /** A fence that overlaps the start of a "```json" makes four backticks
      followed by "json". */
  lemma OverlappingFences(s: string, pf: nat, pj: nat)
    requires OccursAt(s, Fence, pf) && OccursAt(s, JsonFence, pj) && pf < pj < pf + 3
    ensures OccursAt(s, FourTicksJson, pj - 1)
  {
    assert s[pj - 1] == s[pf..pf + 3][pj - 1 - pf];
    assert s[pj - 1..pj + 7] == [s[pj - 1]] + s[pj..pj + 7];
  }

  /** Cutting at the next "```json" and then at the next "```" is cutting at the
      next "```", unless a run of four backticks runs into "json". */
  lemma BeforeJsonFenceThenFence(rest: string)
    requires !Contains(rest, FourTicksJson)
    ensures Before(Before(rest, JsonFence), Fence) == Before(rest, Fence)
  {
    var fj := Find(rest, JsonFence);
    if fj.Some? {
      var pj := fj.value;
      JsonFenceStartsWithFence(rest, pj);
      var pf := Find(rest, Fence).value;
      if pf + 3 <= pj {
        FirstFenceInPrefix(rest, pj, pf);
      } else if pf == pj {
        NoFenceBeforeFirst(rest, pf);
      } else {
        OverlappingFences(rest, pf, pj);
        ContainsIff(rest, FourTicksJson);
      }
    }
  }

  /** With a "```json" fence, the candidate is the text after the first
      "```json" up to the next "```", or to the end. */
  lemma CandidateAfterJsonFence(text: string)
    requires Contains(text, JsonFence)
    requires !Contains(After(text, JsonFence), FourTicksJson)
    ensures Candidate(text) == Before(After(text, JsonFence), Fence)
  {
    var rest := After(text, JsonFence);
    SplitSecond(text, JsonFence);
    SplitFirst(Split(text, JsonFence)[1], Fence);
    BeforeJsonFenceThenFence(rest);
  }

  /** With a "```json" fence in general: the text after the first "```json",
      cut at the next "```json" and then at the next "```". */
  lemma CandidateWithJsonFence(text: string)
    requires Contains(text, JsonFence)
    ensures Candidate(text) == Before(Before(After(text, JsonFence), JsonFence), Fence)
  {
    SplitSecond(text, JsonFence);
    SplitFirst(Split(text, JsonFence)[1], Fence);
  }

  /** Four backticks and "json" after the first fence: the second "```json"
      cut leaves its first backtick in the candidate, so the candidate is not
      the text up to the next "```". */
  lemma FourTicksKeepBacktick()
    ensures Candidate("```json abc````json x") == " abc`"
    ensures Before(After("```json abc````json x", JsonFence), Fence) == " abc"
  {
    var text := "```json abc````json x";
    assert OccursAt(text, JsonFence, 0);
    assert After(text, JsonFence) == " abc````json x";
    SecondJsonFenceCut();
    TailHasNoFence();
    FirstFenceCut();
    CandidateWithJsonFence(text);
  }

  lemma SecondJsonFenceCut()
    ensures Before(" abc````json x", JsonFence) == " abc`"
  {
    var rest := " abc````json x";
    assert rest == " abc`" + JsonFence + " x";
    assert rest[5..12] == JsonFence;
    assert OccursAt(rest, JsonFence, 5);
    forall i | 0 <= i < 5
      ensures !OccursAt(rest, JsonFence, i)
    {
      assert rest[i..i + 7][0] == rest[i] && rest[i..i + 7][3] == rest[i + 3];
      assert rest[i] != '`' || rest[i + 3] != 'j';
    }
  }

  lemma TailHasNoFence()
    ensures Before(" abc`", Fence) == " abc`"
  {
    forall i | 0 <= i
      ensures !OccursAt(" abc`", Fence, i)
    {
      if i + 3 <= 5 {
        assert " abc`"[i..i + 3][0] == " abc`"[i] != '`';
      }
    }
  }

  lemma FirstFenceCut()
    ensures Before(" abc````json x", Fence) == " abc"
  {
    var rest := " abc````json x";
    assert rest[4..7] == Fence;
    assert OccursAt(rest, Fence, 4);
    forall i | 0 <= i < 4
      ensures !OccursAt(rest, Fence, i)
    {
      assert rest[i..i + 3][0] == rest[i] != '`';
    }
  }

  /** Without "```json" but with "```", the candidate is the text between
      the first and the second fence, or from the first fence to the end. */
  lemma CandidateAfterFence(text: string)
    requires !Contains(text, JsonFence) && Contains(text, Fence)
    ensures Candidate(text) == Before(After(text, Fence), Fence)
  {
    var rest := After(text, Fence);
    var b := Before(rest, Fence);
    SplitSecond(text, Fence);
    SplitFirst(b, Fence);
    BeforeHasNoSep(rest, Fence);
    assert Find(b, Fence).None?;
  }

  /** A match of the regular expression `\{.*\}` (with DOTALL) at `s[i..j]`. */
  predicate SpanMatches(s: string, i: int, j: int)
  {
    0 <= i && i + 2 <= j <= |s| && s[i] == '{' && s[j - 1] == '}'
  }

  function FirstIndexOf(s: string, c: char): (r: Option<nat>)
    ensures r.Some? ==> r.value < |s| && s[r.value] == c
    ensures r.Some? ==> forall k :: 0 <= k < r.value ==> s[k] != c
    ensures r.None? ==> forall k :: 0 <= k < |s| ==> s[k] != c
    decreases |s|
  {
    if s == [] then None
    else if s[0] == c then Some(0)
    else match FirstIndexOf(s[1..], c)
      case None => None
      case Some(k) => Some(k + 1)
  }

  function LastIndexOf(s: string, c: char): (r: Option<nat>)
    ensures r.Some? ==> r.value < |s| && s[r.value] == c
    ensures r.Some? ==> forall k :: r.value < k < |s| ==> s[k] != c
    ensures r.None? ==> forall k :: 0 <= k < |s| ==> s[k] != c
    decreases |s|
  {
    if s == [] then None
    else if s[|s| - 1] == c then Some(|s| - 1)
    else LastIndexOf(s[..|s| - 1], c)
  }

  /** What `re.search(r'\{.*\}', s, re.DOTALL)` matches: the leftmost match,
      and of the matches starting there the longest (the star is greedy). */
  function BraceSpan(s: string): (r: Option<(nat, nat)>)
    ensures r.Some? ==> SpanMatches(s, r.value.0, r.value.1)
    ensures r.Some? ==> forall i, j :: SpanMatches(s, i, j) ==> r.value.0 <= i
    ensures r.Some? ==> forall j :: SpanMatches(s, r.value.0, j) ==> j <= r.value.1
    ensures r.None? ==> forall i, j :: !SpanMatches(s, i, j)
  {
    match FirstIndexOf(s, '{')
    case None => None
    case Some(i) =>
      match LastIndexOf(s, '}')
      case None => None
      case Some(k) => if i < k then Some((i, k + 1)) else None
  }

  /** `_parse_json_response` on an already stripped reply. */
  function ParseJsonResponse(loads: string -> Option<Value>, text: string): (r: Result<Value, Exc>)
    // the strict parse of the stripped candidate wins
    ensures loads(Strip(Candidate(text))).Some? ==> r == Ok(loads(Strip(Candidate(text))).value)
    // otherwise the regular-expression match of the candidate is parsed
    ensures loads(Strip(Candidate(text))).None? && BraceSpan(Candidate(text)).Some? ==>
      var c := Candidate(text);
      var d := c[BraceSpan(c).value.0..BraceSpan(c).value.1];
      r == if loads(d).Some? then Ok(loads(d).value) else Err(DecodeFailed(d))
    ensures r.Err? ==> loads(Strip(Candidate(text))).None?
    // a span that does not parse raises the decoder's own error
    ensures r.Err? && r.error.DecodeFailed? ==>
      BraceSpan(Candidate(text)).Some? && loads(r.error.document).None?
      && r.error.document == Candidate(text)[BraceSpan(Candidate(text)).value.0..BraceSpan(Candidate(text)).value.1]
    // no span at all raises a ValueError quoting at most 200 characters
    ensures r.Err? && r.error.NoJson? <==>
      loads(Strip(Candidate(text))).None? && forall i, j :: !SpanMatches(Candidate(text), i, j)
    ensures r.Err? && r.error.NoJson? ==>
      r.error.message == NoJsonPrefix + SliceTo(Candidate(text), 200)
      && |r.error.message| <= |NoJsonPrefix| + 200
    ensures r.Err? ==> r.error.NoJson? || r.error.DecodeFailed?
  {
    var c := Candidate(text);
    match loads(Strip(c))
    case Some(v) => Ok(v)
    case None =>
      match BraceSpan(c)
      case Some(span) =>
        var doc := c[span.0..span.1];
        (match loads(doc)
         case Some(v) => Ok(v)
         case None => Err(DecodeFailed(doc)))
      case None => Err(NoJson(NoJsonPrefix + SliceTo(c, 200)))
  }

  /** Any text that contains "```json" contains "```". */
  lemma JsonFenceHasFence(s: string)
    requires Contains(s, JsonFence)
    ensures Contains(s, Fence)
  {
    JsonFenceStartsWithFence(s, Find(s, JsonFence).value);
    ContainsIff(s, Fence);
  }

  /** The regular expression matches exactly the braced body between prose
      that has no `{` before it and no `}` after it. */
  lemma BraceSpanOfWrapped(pre: string, body: string, post: string)
    requires |body| >= 2 && body[0] == '{' && body[|body| - 1] == '}'
    requires forall k :: 0 <= k < |pre| ==> pre[k] != '{'
    requires forall k :: 0 <= k < |post| ==> post[k] != '}'
    ensures BraceSpan(pre + body + post) == Some((|pre|, |pre| + |body|))
  {
    var s := pre + body + post;
    var i, j := |pre|, |pre| + |body|;
    assert s[i] == '{' && s[j - 1] == '}';
    assert forall k :: 0 <= k < i ==> s[k] == pre[k];
    assert forall k :: j <= k < |s| ==> s[k] == post[k - j];
    assert SpanMatches(s, i, j);
  }

  /** A record wrapped in prose without braces or fences is recovered by the
      fallback, once the strict parse of the whole reply has failed. */
  lemma ProseWrappedRecord(loads: string -> Option<Value>, pre: string, body: string, post: string, v: Value)
    requires |body| >= 2 && body[0] == '{' && body[|body| - 1] == '}'
    requires forall k :: 0 <= k < |pre| ==> pre[k] != '{'
    requires forall k :: 0 <= k < |post| ==> post[k] != '}'
    requires !Contains(pre + body + post, Fence)
    requires loads(Strip(pre + body + post)).None? && loads(body) == Some(v)
    ensures ParseJsonResponse(loads, pre + body + post) == Ok(v)
  {
    var s := pre + body + post;
    if Contains(s, JsonFence) {
      JsonFenceHasFence(s);
    }
    assert Candidate(s) == s;
    BraceSpanOfWrapped(pre, body, post);
    assert s[|pre|..|pre| + |body|] == body;
  }
}
