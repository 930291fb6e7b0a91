/**
 * `search_knowledge`: keyword retrieval over the knowledge base. Each article
 * is scored by how many query words it shares with its title (weight 3), its
 * content (weight 1) and its tags (weight 2); articles scoring zero are
 * dropped, the rest are sorted by score, highest first, keeping the
 * knowledge-base order among equal scores, and the first `top_k` returned.
 */
module Knowledge {

  import opened Text

  /** A knowledge-base entry; an entry without tags has `tags == []`. */
  datatype Article = Article(id: int, title: string, content: string, tags: seq<string>)

  /** An article returned with its `relevance_score`. */
  datatype Hit = Hit(article: Article, relevanceScore: nat)

  /** `set(s.lower().split())`. */
  function Terms(s: string): (r: set<string>)
    ensures forall w :: w in r ==> w != [] && NoSpace(w)
  {
    WordSet(Lower(s))
  }

  /** A term of `s` is exactly a maximal run of non-space characters of the
      lowercased text. */
  lemma TermsAreRuns(s: string, w: string)
    ensures w in Terms(s) <==> w != [] && NoSpace(w) && exists p :: MaximalAt(Lower(s), w, p)
  {
    WordSetIff(Lower(s), w);
  }

  /** `set(tag.lower() for tag in tags)`: tags are not split into words. */
  function TagTerms(tags: seq<string>): (r: set<string>)
    // a tag counts whole, spaces and all
    ensures forall i :: 0 <= i < |tags| ==> Lower(tags[i]) in r
    ensures forall w :: w in r ==> exists i :: 0 <= i < |tags| && w == Lower(tags[i])
    ensures tags == [] ==> r == {}
  {
    set t | t in tags :: Lower(t)
  }

  /** Three per shared title word, one per shared content word, two per
      shared tag; a query without words scores nothing. */
  function Score(query: string, a: Article): (r: nat)
    ensures r <= 6 * |Terms(query)|
    ensures Terms(query) == {} ==> r == 0
  {
    var q := Terms(query);
    SharedAtMost(q, Terms(a.title));
    SharedAtMost(q, Terms(a.content));
    SharedAtMost(q, TagTerms(a.tags));
    3 * |q * Terms(a.title)| + |q * Terms(a.content)| + 2 * |q * TagTerms(a.tags)|
  }

  lemma SharedAtMost(q: set<string>, t: set<string>)
    ensures |q * t| <= |q|
  {
    assert q == (q * t) + (q - t);
  }

  /** An article is kept exactly when it shares a word with the query. */
  lemma ScorePositiveIff(query: string, a: Article)
    ensures Score(query, a) > 0 <==>
      (Terms(query) * Terms(a.title) != {}
       || Terms(query) * Terms(a.content) != {}
       || Terms(query) * TagTerms(a.tags) != {})
  {
    var q := Terms(query);
    if q * Terms(a.title) != {} {
      var w :| w in q * Terms(a.title);
      assert |q * Terms(a.title)| >= |{w}|;
    }
    if q * Terms(a.content) != {} {
      var w :| w in q * Terms(a.content);
      assert |q * Terms(a.content)| >= |{w}|;
    }
    if q * TagTerms(a.tags) != {} {
      var w :| w in q * TagTerms(a.tags);
      assert |q * TagTerms(a.tags)| >= |{w}|;
    }
  }

  /** The articles `score` rates above zero, each with its score, in
      knowledge-base order. */
  function Positive(score: Article -> nat, kb: seq<Article>): (r: seq<Hit>)
    ensures |r| <= |kb|
    ensures forall i :: 0 <= i < |r| ==>
      r[i].article in kb && r[i].relevanceScore == score(r[i].article) > 0
    decreases |kb|
  {
    if kb == [] then []
    else
      var a := kb[|kb| - 1];
      Positive(score, kb[..|kb| - 1]) + (if score(a) > 0 then [Hit(a, score(a))] else [])
  }

  /** The articles with a positive score for the query. */
  function Scored(query: string, kb: seq<Article>): (r: seq<Hit>)
    ensures |r| <= |kb|
    ensures forall i :: 0 <= i < |r| ==>
      r[i].article in kb && r[i].relevanceScore == Score(query, r[i].article) > 0
  {
    Positive((a: Article) => Score(query, a), kb)
  }

  lemma {:induction false} PositiveMembers(score: Article -> nat, kb: seq<Article>, h: Hit)
    ensures h in Positive(score, kb) <==>
      h.article in kb && h.relevanceScore == score(h.article) && h.relevanceScore > 0
    decreases |kb|
  {
    if kb != [] {
      var init := kb[..|kb| - 1];
      var a := kb[|kb| - 1];
      PositiveMembers(score, init, h);
      assert kb == init + [a];
    }
  }

  /** A hit is among the scored ones exactly when its article is in the
      knowledge base and it carries that article's positive score. */
  lemma ScoredMembers(query: string, kb: seq<Article>, h: Hit)
    ensures h in Scored(query, kb) <==>
      h.article in kb && h.relevanceScore == Score(query, h.article) && h.relevanceScore > 0
  {
    PositiveMembers((a: Article) => Score(query, a), kb, h);
  }

  // ---------------------------------------------------------------------
  // The stable descending sort
  // ---------------------------------------------------------------------

  predicate NonIncreasing(s: seq<Hit>)
  {
    forall i, j :: 0 <= i < j < |s| ==> s[i].relevanceScore >= s[j].relevanceScore
  }

  /** Puts `h` after every element whose score is at least its own. */
  function Insert(sorted: seq<Hit>, h: Hit): (r: seq<Hit>)
    ensures |r| == |sorted| + 1
    decreases |sorted|
  {
    if sorted == [] then [h]
    else if sorted[|sorted| - 1].relevanceScore >= h.relevanceScore then sorted + [h]
    else Insert(sorted[..|sorted| - 1], h) + [sorted[|sorted| - 1]]
  }

  /** `s.sort(key=score, reverse=True)` as an insertion sort. */
  function SortByScore(s: seq<Hit>): (r: seq<Hit>)
    ensures |r| == |s|
    decreases |s|
  {
    if s == [] then [] else Insert(SortByScore(s[..|s| - 1]), s[|s| - 1])
  }

  /** The hits of score `v`, in order. */
  function WithScore(s: seq<Hit>, v: nat): seq<Hit>
    decreases |s|
  {
    if s == [] then []
    else WithScore(s[..|s| - 1], v) + (if s[|s| - 1].relevanceScore == v then [s[|s| - 1]] else [])
  }

  lemma {:induction false} InsertPermutes(s: seq<Hit>, h: Hit)
    ensures multiset(Insert(s, h)) == multiset(s) + multiset{h}
    decreases |s|
  {
    if s != [] && s[|s| - 1].relevanceScore < h.relevanceScore {
      var init := s[..|s| - 1];
      InsertPermutes(init, h);
      assert s == init + [s[|s| - 1]];
    }
  }

  lemma {:induction false} InsertKeepsOrder(s: seq<Hit>, h: Hit)
    requires NonIncreasing(s)
    ensures NonIncreasing(Insert(s, h))
    decreases |s|
  {
    if s != [] && s[|s| - 1].relevanceScore < h.relevanceScore {
      var init := s[..|s| - 1];
      var last := s[|s| - 1];
      InsertKeepsOrder(init, h);
      InsertPermutes(init, h);
      var r := Insert(init, h);
      InsertAboveLast(s, h);
      forall i, j | 0 <= i < j < |r + [last]|
        ensures (r + [last])[i].relevanceScore >= (r + [last])[j].relevanceScore
      {
        if j == |r| {
          assert (r + [last])[i] == r[i];
          assert r[i] in multiset(r);
        }
      }
    }
  }

  /** Inserting into all but the last of a sorted sequence a hit that
      outscores the last keeps everything at or above the last. */
  lemma InsertAboveLast(s: seq<Hit>, h: Hit)
    requires NonIncreasing(s) && s != [] && s[|s| - 1].relevanceScore < h.relevanceScore
    ensures forall x :: x in multiset(Insert(s[..|s| - 1], h)) ==> x.relevanceScore >= s[|s| - 1].relevanceScore
  {
    var init := s[..|s| - 1];
    InsertPermutes(init, h);
    forall x: Hit | x in multiset(Insert(init, h))
      ensures x.relevanceScore >= s[|s| - 1].relevanceScore
    {
      if x != h {
        assert x in multiset(init);
        var k :| 0 <= k < |init| && init[k] == x;
        assert s[k] == x;
      }
    }
  }

  lemma {:induction false} InsertIsStable(s: seq<Hit>, h: Hit, v: nat)
    ensures WithScore(Insert(s, h), v) == WithScore(s, v) + (if h.relevanceScore == v then [h] else [])
    decreases |s|
  {
    if s == [] {
      assert WithScore([h], v) == WithScore([], v) + (if h.relevanceScore == v then [h] else []);
    } else if s[|s| - 1].relevanceScore >= h.relevanceScore {
      assert (s + [h])[..|s|] == s;
    } else {
      var init := s[..|s| - 1];
      var last := s[|s| - 1];
      InsertIsStable(init, h, v);
      assert (Insert(init, h) + [last])[..|Insert(init, h)|] == Insert(init, h);
    }
  }

  /** The sort orders by score, permutes its input and keeps the input order
      among equal scores. */
  lemma {:induction false} SortByScoreSpec(s: seq<Hit>)
    ensures NonIncreasing(SortByScore(s))
    ensures multiset(SortByScore(s)) == multiset(s)
    ensures forall v: nat :: WithScore(SortByScore(s), v) == WithScore(s, v)
    decreases |s|
  {
    if s != [] {
      var init := s[..|s| - 1];
      SortByScoreSpec(init);
      InsertKeepsOrder(SortByScore(init), s[|s| - 1]);
      InsertPermutes(SortByScore(init), s[|s| - 1]);
      assert s == init + [s[|s| - 1]];
      forall v: nat
        ensures WithScore(SortByScore(s), v) == WithScore(s, v)
      {
        InsertIsStable(SortByScore(init), s[|s| - 1], v);
      }
    }
  }

  /** `search_knowledge(query, knowledge_base, top_k)`. */
  method SearchKnowledge(query: string, kb: seq<Article>, topK: int) returns (results: seq<Hit>)
    ensures results == SliceTo(SortByScore(Scored(query, kb)), topK)
  {
    var scored: seq<Hit> := [];
    for i := 0 to |kb|
      invariant scored == Scored(query, kb[..i])
    {
      assert kb[..i + 1][..i] == kb[..i];
      var score := Score(query, kb[i]);
      if score > 0 {
        scored := scored + [Hit(kb[i], score)];
      }
    }
    assert kb[..|kb|] == kb;

    // `list.sort` is Python's stable sort; SortByScore is proved stable below
    scored := SortByScore(scored);
    results := SliceTo(scored, topK);
  }

  /** What `search_knowledge` promises its caller: every result is a scored
      article, the results run from the highest score down, they are the
      first `top_k` of all scored articles in that order, and ties keep
      knowledge-base order. */
  lemma SearchResultsSpec(query: string, kb: seq<Article>, topK: int, results: seq<Hit>)
    requires results == SliceTo(SortByScore(Scored(query, kb)), topK)
    ensures forall h :: h in results ==>
      h.article in kb && h.relevanceScore == Score(query, h.article) && h.relevanceScore > 0
    ensures NonIncreasing(results)
    ensures 0 <= topK ==> |results| == Min(topK, |Scored(query, kb)|) && |results| <= Min(topK, |kb|)
    ensures forall v: nat :: WithScore(SortByScore(Scored(query, kb)), v) == WithScore(Scored(query, kb), v)
  {
    SortByScoreSpec(Scored(query, kb));
    SortedAreScored(query, kb, topK);
  }

  /** Every hit of the cut sort is one of the scored hits. */
  lemma SortedAreScored(query: string, kb: seq<Article>, topK: int)
    ensures forall h :: h in SliceTo(SortByScore(Scored(query, kb)), topK) ==>
      h.article in kb && h.relevanceScore == Score(query, h.article) && h.relevanceScore > 0
  {
    var all := Scored(query, kb);
    SortByScoreSpec(all);
    forall h | h in SliceTo(SortByScore(all), topK)
      ensures h.article in kb && h.relevanceScore == Score(query, h.article) && h.relevanceScore > 0
    {
      assert h in multiset(SortByScore(all));
      ScoredMembers(query, kb, h);
    }
  }
}
