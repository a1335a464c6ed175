/**
 * Keyword search over the index: `getSearchScore` widens a normalised query
 * through the synonym table and adds tiered bonuses per widened query;
 * `searchDocuments` keeps the documents with a positive score, sorts them
 * by descending score with a stable sort (ties keep index order, as
 * section 22.1.3.27 of ECMA-262 10th edition requires of `Array.prototype.sort`)
 * and returns the first `maxResults`.
 */
module SearchEngine {
  import opened Wrappers
  import opened Strings
  import opened SearchData

  /** The query as scored: lower-cased, then trimmed. */
  function Normalize(query: string): string {
    Trim(ToLower(query))
  }

  /** What one synonym pair adds: the key replaced by the value, then the value replaced by the key. */
  function PairExpansions(q: string, key: string, val: string): seq<string> {
    (if Contains(q, key) then [ReplaceFirst(q, key, val)] else [])
    + (if Contains(q, val) then [ReplaceFirst(q, val, key)] else [])
  }

  function Expansions(q: string, syn: seq<(string, string)>): seq<string>
    decreases |syn|
  {
    if syn == [] then []
    else Expansions(q, syn[..|syn| - 1]) + PairExpansions(q, syn[|syn| - 1].0, syn[|syn| - 1].1)
  }

  /** The list of widened queries: the query itself, then the expansions in table order. */
  function Expand(q: string, syn: seq<(string, string)>): seq<string> {
    [q] + Expansions(q, syn)
  }

  /** Some keyword, lower-cased, contains `eq`. */
  predicate KeywordsContain(keywords: seq<string>, eq: string) {
    exists k :: k in keywords && Contains(ToLower(k), eq)
  }

  /**
   * The one tiered bonus a widened query earns against the lower-cased
   * title `t` and description `d`: exact title, title prefix, title
   * substring, keyword, description, checked in that order.
   */
  function TierBonus(t: string, d: string, keywords: seq<string>, eq: string): nat {
    if t == eq then 100
    else if StartsWith(t, eq) then 50
    else if Contains(t, eq) then 30
    else if KeywordsContain(keywords, eq) then 20
    else if Contains(d, eq) then 10
    else 0
  }

  predicate TokenFound(t: string, d: string, keywords: seq<string>, tk: string) {
    Contains(t, tk) || Contains(d, tk) || KeywordsContain(keywords, tk)
  }

  /** +15 when a multi-word widened query has every word somewhere in the document. */
  function TokenBonus(t: string, d: string, keywords: seq<string>, eq: string): nat {
    var tokens := Split(eq, ' ');
    if |tokens| > 1 && forall tk :: tk in tokens ==> TokenFound(t, d, keywords, tk) then 15 else 0
  }

  function RawScore(t: string, d: string, keywords: seq<string>, eqs: seq<string>): nat
    decreases |eqs|
  {
    if eqs == [] then 0
    else
      var eq := eqs[|eqs| - 1];
      RawScore(t, d, keywords, eqs[..|eqs| - 1]) + TierBonus(t, d, keywords, eq) + TokenBonus(t, d, keywords, eq)
  }

  function TypeBoost(ty: DocType): nat {
    match ty
    case Calculator => 5
    case Service => 4
    case Knowledge => 2
    case Blog => 0
    case Page => 0
  }

  /** The score `getSearchScore` computes. */
  function Score(doc: SearchDocument, query: string, syn: seq<(string, string)>): nat {
    var q := Normalize(query);
    if q == [] then 0
    else
      var raw := RawScore(ToLower(doc.title), ToLower(doc.description), doc.keywords, Expand(q, syn));
      if raw == 0 then 0 else raw + TypeBoost(doc.docType)
  }

  /** The first loop of `getSearchScore`: the widened query list. */
  method ExpandQuery(q: string, syn: seq<(string, string)>) returns (expanded: seq<string>)
    ensures expanded == Expand(q, syn)
  {
    expanded := [q];
    var i := 0;
    while i < |syn|
      invariant 0 <= i <= |syn|
      invariant expanded == [q] + Expansions(q, syn[..i])
    {
      var key := syn[i].0;
      var val := syn[i].1;
      ghost var before := expanded;
      if Contains(q, key) {
        expanded := expanded + [ReplaceFirst(q, key, val)];
      }
      if Contains(q, val) {
        expanded := expanded + [ReplaceFirst(q, val, key)];
      }
      assert expanded == before + PairExpansions(q, key, val);
      assert syn[..i + 1][..i] == syn[..i];
      assert Expansions(q, syn[..i + 1]) == Expansions(q, syn[..i]) + PairExpansions(q, key, val);
      i := i + 1;
    }
    assert syn[..|syn|] == syn;
  }

  /** The body of the second loop: the tier bonus and the token bonus of one widened query. */
  method QueryBonus(t: string, d: string, keywords: seq<string>, eq: string) returns (tier: nat, token: nat)
    ensures tier == TierBonus(t, d, keywords, eq)
    ensures token == TokenBonus(t, d, keywords, eq)
  {
    tier := 0;
    if t == eq {
      tier := 100;
    } else if StartsWith(t, eq) {
      tier := 50;
    } else if Contains(t, eq) {
      tier := 30;
    } else if KeywordsContain(keywords, eq) {
      tier := 20;
    } else if Contains(d, eq) {
      tier := 10;
    }
    token := 0;
    var tokens := Split(eq, ' ');
    if |tokens| > 1 {
      var allTokensMatch := forall tk :: tk in tokens ==> TokenFound(t, d, keywords, tk);
      if allTokensMatch {
        token := 15;
      }
    }
  }

  lemma RawScoreSnoc(t: string, d: string, keywords: seq<string>, eqs: seq<string>, j: nat)
    requires j < |eqs|
    ensures RawScore(t, d, keywords, eqs[..j + 1])
      == RawScore(t, d, keywords, eqs[..j]) + TierBonus(t, d, keywords, eqs[j]) + TokenBonus(t, d, keywords, eqs[j])
  {
    assert eqs[..j + 1][..j] == eqs[..j];
  }

  /** `getSearchScore`, proved to compute `Score`. */
  method GetSearchScore(doc: SearchDocument, query: string, syn: seq<(string, string)>) returns (score: nat)
    ensures score == Score(doc, query, syn)
  {
    score := 0;
    var q := Trim(ToLower(query));
    if q == [] {
      return 0;
    }
    var t := ToLower(doc.title);
    var d := ToLower(doc.description);
    var expanded := ExpandQuery(q, syn);

    var matched := false;
    var j := 0;
    while j < |expanded|
      invariant 0 <= j <= |expanded|
      invariant score == RawScore(t, d, doc.keywords, expanded[..j])
      invariant matched <==> score > 0
    {
      var tier, token := QueryBonus(t, d, doc.keywords, expanded[j]);
      RawScoreSnoc(t, d, doc.keywords, expanded, j);
      score := score + tier + token;
      if tier > 0 || token > 0 {
        matched := true;
      }
      j := j + 1;
    }
    assert expanded[..|expanded|] == expanded;

    if !matched {
      return 0;
    }
    if doc.docType == Calculator { score := score + 5; }
    if doc.docType == DocType.Service { score := score + 4; }
    if doc.docType == Knowledge { score := score + 2; }
  }

  // ---------------------------------------------------------------------
  // Properties of the score

  /** A blank or white-space-only query scores 0 against every document. */
  lemma BlankQueryScoresZero(doc: SearchDocument, query: string, syn: seq<(string, string)>)
    requires forall i :: 0 <= i < |query| ==> IsJsSpace(query[i])
    ensures Score(doc, query, syn) == 0
  {
    TrimEmptyIff(query);
    TrimToLowerEmpty(query);
  }

  /**
   * Matching ignores case: queries that agree once lower-cased, against
   * documents whose title, description and keywords agree once lower-cased,
   * score the same.
   */
  lemma ScoreIgnoresCase(doc1: SearchDocument, doc2: SearchDocument, q1: string, q2: string,
                         syn: seq<(string, string)>)
    requires ToLower(q1) == ToLower(q2)
    requires ToLower(doc1.title) == ToLower(doc2.title)
    requires ToLower(doc1.description) == ToLower(doc2.description)
    requires |doc1.keywords| == |doc2.keywords|
    requires forall i :: 0 <= i < |doc1.keywords| ==> ToLower(doc1.keywords[i]) == ToLower(doc2.keywords[i])
    requires doc1.docType == doc2.docType
    ensures Score(doc1, q1, syn) == Score(doc2, q2, syn)
  {
    var t := ToLower(doc1.title);
    var d := ToLower(doc1.description);
    forall eq ensures KeywordsContain(doc1.keywords, eq) == KeywordsContain(doc2.keywords, eq) {
      if KeywordsContain(doc1.keywords, eq) {
        var k :| k in doc1.keywords && Contains(ToLower(k), eq);
        var i :| 0 <= i < |doc1.keywords| && doc1.keywords[i] == k;
        assert doc2.keywords[i] in doc2.keywords;
      }
      if KeywordsContain(doc2.keywords, eq) {
        var k :| k in doc2.keywords && Contains(ToLower(k), eq);
        var i :| 0 <= i < |doc2.keywords| && doc2.keywords[i] == k;
        assert doc1.keywords[i] in doc1.keywords;
      }
    }
    var q := Normalize(q1);
    if q != [] {
      RawScoreKeywords(t, d, doc1.keywords, doc2.keywords, Expand(q, syn));
    }
  }

  lemma {:induction false} RawScoreKeywords(t: string, d: string, k1: seq<string>, k2: seq<string>, eqs: seq<string>)
    requires forall eq :: KeywordsContain(k1, eq) == KeywordsContain(k2, eq)
    ensures RawScore(t, d, k1, eqs) == RawScore(t, d, k2, eqs)
    decreases |eqs|
  {
    if eqs != [] {
      RawScoreKeywords(t, d, k1, k2, eqs[..|eqs| - 1]);
      var eq := eqs[|eqs| - 1];
      assert forall tk :: TokenFound(t, d, k1, tk) == TokenFound(t, d, k2, tk);
      assert TokenBonus(t, d, k1, eq) == TokenBonus(t, d, k2, eq);
    }
  }

  /** `e` is `q` with the first occurrence of one side of pair `p` replaced by the other side. */
  predicate Widens(q: string, p: (string, string), e: string) {
    (Contains(q, p.0) && e == ReplaceFirst(q, p.0, p.1)) || (Contains(q, p.1) && e == ReplaceFirst(q, p.1, p.0))
  }

  /**
   * The widened list starts with the query and gains at most two entries per
   * synonym pair; every other entry replaces the first occurrence of a key by
   * its value, or of a value by its key.
   */
  lemma {:induction false} ExpandShape(q: string, syn: seq<(string, string)>)
    ensures Expand(q, syn)[0] == q
    ensures |Expand(q, syn)| <= 1 + 2 * |syn|
    ensures forall e :: e in Expand(q, syn)[1..] ==> exists p :: p in syn && Widens(q, p, e)
    decreases |syn|
  {
    if syn != [] {
      var init := syn[..|syn| - 1];
      var last := syn[|syn| - 1];
      ExpandShape(q, init);
      assert Expand(q, syn)[1..] == Expansions(q, init) + PairExpansions(q, last.0, last.1);
      assert Expand(q, init)[1..] == Expansions(q, init);
      forall e | e in Expand(q, syn)[1..] ensures exists p :: p in syn && Widens(q, p, e)
      {
        if e in Expansions(q, init) {
          var p :| p in init && Widens(q, p, e);
          assert p in syn;
        } else {
          assert last in syn && Widens(q, last, e);
        }
      }
    }
  }

  /**
   * The tiers of one widened query exclude one another: exactly one of
   * 0, 10, 20, 30, 50, 100 is earned, the one of the first tier that holds,
   * and a better title match never earns less.
   */
  lemma TierPriority(t: string, d: string, keywords: seq<string>, eq: string)
    ensures TierBonus(t, d, keywords, eq) in {0, 10, 20, 30, 50, 100}
    ensures t == eq ==> TierBonus(t, d, keywords, eq) == 100
    ensures t != eq && StartsWith(t, eq) ==> TierBonus(t, d, keywords, eq) == 50
    ensures !StartsWith(t, eq) && Contains(t, eq) ==> TierBonus(t, d, keywords, eq) == 30
    ensures !Contains(t, eq) && KeywordsContain(keywords, eq) ==> TierBonus(t, d, keywords, eq) == 20
    ensures !Contains(t, eq) && !KeywordsContain(keywords, eq) && Contains(d, eq) ==>
      TierBonus(t, d, keywords, eq) == 10
    ensures StartsWith(t, eq) ==> TierBonus(t, d, keywords, eq) >= 50
    ensures Contains(t, eq) ==> TierBonus(t, d, keywords, eq) >= 30
    ensures KeywordsContain(keywords, eq) ==> TierBonus(t, d, keywords, eq) >= 20
    ensures Contains(d, eq) ==> TierBonus(t, d, keywords, eq) >= 10
    ensures TierBonus(t, d, keywords, eq) == 0 <==>
      !Contains(t, eq) && !KeywordsContain(keywords, eq) && !Contains(d, eq)
  {
    if StartsWith(t, eq) {
      StartsWithContains(t, eq);
    }
    if t == eq {
      assert StartsWith(t, eq);
    }
  }

  /**
   * The token bonus is earned exactly when the widened query holds a space
   * (so splits into more than one token) and every token is found.
   */
  lemma TokenBonusIff(t: string, d: string, keywords: seq<string>, eq: string)
    ensures TokenBonus(t, d, keywords, eq) == 15 <==>
      ' ' in eq && forall tk :: tk in Split(eq, ' ') ==> TokenFound(t, d, keywords, tk)
    ensures TokenBonus(t, d, keywords, eq) in {0, 15}
  {
    SplitMany(eq, ' ');
  }

  lemma {:induction false} RawScoreZeroOrTen(t: string, d: string, keywords: seq<string>, eqs: seq<string>)
    ensures RawScore(t, d, keywords, eqs) == 0 || RawScore(t, d, keywords, eqs) >= 10
    decreases |eqs|
  {
    if eqs != [] {
      RawScoreZeroOrTen(t, d, keywords, eqs[..|eqs| - 1]);
    }
  }

  /**
   * A document where nothing fired scores 0 whatever its type; otherwise its
   * type boost is added once, so every positive score is at least 10.
   */
  lemma ScoreZeroOrBoosted(doc: SearchDocument, query: string, syn: seq<(string, string)>)
    ensures var s := Score(doc, query, syn);
      s == 0 || (s >= 10 + TypeBoost(doc.docType) &&
        s == RawScore(ToLower(doc.title), ToLower(doc.description), doc.keywords, Expand(Normalize(query), syn))
             + TypeBoost(doc.docType))
  {
    RawScoreZeroOrTen(ToLower(doc.title), ToLower(doc.description), doc.keywords, Expand(Normalize(query), syn));
  }

  /**
   * Of two documents that differ only in type, the calculator scores at least
   * as much as the service, the service as the knowledge item, the knowledge
   * item as the blog post, and blog posts and pages score the same.
   */
  lemma TypeBoostOrder(doc: SearchDocument, query: string, syn: seq<(string, string)>)
    ensures Score(doc.(docType := Calculator), query, syn) >= Score(doc.(docType := DocType.Service), query, syn)
    ensures Score(doc.(docType := DocType.Service), query, syn) >= Score(doc.(docType := Knowledge), query, syn)
    ensures Score(doc.(docType := Knowledge), query, syn) >= Score(doc.(docType := Blog), query, syn)
    ensures Score(doc.(docType := Blog), query, syn) == Score(doc.(docType := Page), query, syn)
    ensures Score(doc.(docType := Calculator), query, syn) > 0 ==>
      Score(doc.(docType := Calculator), query, syn) == Score(doc.(docType := Page), query, syn) + 5
  {
  }

  // ---------------------------------------------------------------------
  // Ranking

  /** A document with its score and its position in the index. */
  datatype Scored = Scored(doc: SearchDocument, score: nat, pos: nat)

  /** `a` is ranked before `b`: higher score, or equal score and earlier in the index. */
  predicate Before(a: Scored, b: Scored) {
    a.score > b.score || (a.score == b.score && a.pos < b.pos)
  }

  predicate Ranked(s: seq<Scored>) {
    forall i, j :: 0 <= i < j < |s| ==> Before(s[i], s[j])
  }

  predicate IncreasingPos(s: seq<Scored>) {
    forall i, j :: 0 <= i < j < |s| ==> s[i].pos < s[j].pos
  }

  function ScoreAll(index: seq<SearchDocument>, query: string, syn: seq<(string, string)>): (r: seq<Scored>)
    ensures |r| == |index|
    ensures forall i :: 0 <= i < |index| ==> r[i] == Scored(index[i], Score(index[i], query, syn), i)
  {
    seq(|index|, i requires 0 <= i < |index| => Scored(index[i], Score(index[i], query, syn), i))
  }

  /** `filter(item => item.score > 0)`. */
  function Positive(s: seq<Scored>): (r: seq<Scored>)
    ensures forall x :: x in r <==> x in s && x.score > 0
    ensures IncreasingPos(s) ==> IncreasingPos(r)
    decreases |s|
  {
    if s == [] then []
    else (if s[0].score > 0 then [s[0]] else []) + Positive(s[1..])
  }

  /**
   * Places `x` after every element whose score is at least its own: the
   * step of a stable sort by descending score.
   */
  function Insert(x: Scored, sorted: seq<Scored>): (r: seq<Scored>)
    requires Ranked(sorted)
    requires forall y :: y in sorted ==> y.pos < x.pos
    ensures Ranked(r)
    ensures forall y :: y in r <==> y in sorted || y == x
    ensures multiset(r) == multiset(sorted) + multiset{x}
    decreases |sorted|
  {
    if sorted == [] then [x]
    else if x.score > sorted[0].score then [x] + sorted
    else
      var head, tail := sorted[0], sorted[1..];
      assert sorted == [head] + tail;
      var rest := Insert(x, tail);
      assert forall y :: y in rest ==> Before(head, y);
      assert Ranked([head] + rest) by {
        forall i, j | 0 <= i < j < |rest| + 1
          ensures Before(([head] + rest)[i], ([head] + rest)[j])
        {
          if i == 0 {
            assert rest[j - 1] in rest;
          }
        }
      }
      assert multiset([head] + rest) == multiset{head} + multiset(rest);
      [head] + rest
  }

  /** A stable sort by descending score, inserting the elements in index order. */
  function StableSort(s: seq<Scored>): (r: seq<Scored>)
    requires IncreasingPos(s)
    ensures Ranked(r)
    ensures forall y :: y in r <==> y in s
    ensures multiset(r) == multiset(s)
    decreases |s|
  {
    if s == [] then []
    else
      var init, last := s[..|s| - 1], s[|s| - 1];
      InitIncreasing(s);
      var sorted := StableSort(init);
      assert s == init + [last];
      assert multiset(s) == multiset(init) + multiset{last};
      assert forall y :: y in s <==> y in init || y == last;
      Insert(last, sorted)
  }

  /** Dropping the last element keeps positions increasing, all of them below the last one's. */
  lemma InitIncreasing(s: seq<Scored>)
    requires IncreasingPos(s) && s != []
    ensures IncreasingPos(s[..|s| - 1])
    ensures forall y :: y in s[..|s| - 1] ==> y.pos < s[|s| - 1].pos
  {
    var init := s[..|s| - 1];
    forall y | y in init ensures y.pos < s[|s| - 1].pos {
      var i :| 0 <= i < |init| && init[i] == y;
      assert s[i] == y;
    }
  }

  lemma ScoreAllIncreasing(index: seq<SearchDocument>, query: string, syn: seq<(string, string)>)
    ensures IncreasingPos(ScoreAll(index, query, syn))
  {
  }

  /** Every document with a positive score, ranked. */
  function Ranking(index: seq<SearchDocument>, query: string, syn: seq<(string, string)>): seq<Scored> {
    ScoreAllIncreasing(index, query, syn);
    StableSort(Positive(ScoreAll(index, query, syn)))
  }

  function Docs(s: seq<Scored>): (r: seq<SearchDocument>)
    ensures |r| == |s| && forall i :: 0 <= i < |s| ==> r[i] == s[i].doc
  {
    seq(|s|, i requires 0 <= i < |s| => s[i].doc)
  }

  /** `slice(0, n)`. */
  function Take<T>(s: seq<T>, n: nat): seq<T> {
    if n <= |s| then s[..n] else s
  }

  /** `searchDocuments(query, maxResults)` over a given index. */
  function SearchDocuments(index: seq<SearchDocument>, query: string, syn: seq<(string, string)>,
                           maxResults: nat): seq<SearchDocument> {
    if Trim(query) == [] then []
    else Docs(Take(Ranking(index, query, syn), maxResults))
  }

  // ---------------------------------------------------------------------
  // Properties of the results

  /**
   * The ranking holds exactly the documents of the index with a positive
   * score, each once with its own score and position, ordered by
   * non-increasing score with ties in index order.
   */
  lemma RankingSpec(index: seq<SearchDocument>, query: string, syn: seq<(string, string)>)
    ensures var r := Ranking(index, query, syn);
      && Ranked(r)
      && (forall x :: x in r ==>
            x.pos < |index| && x.doc == index[x.pos] && x.score == Score(index[x.pos], query, syn) && x.score > 0)
      && (forall i :: 0 <= i < |index| && Score(index[i], query, syn) > 0 ==>
            Scored(index[i], Score(index[i], query, syn), i) in r)
      && (forall i, j :: 0 <= i < j < |r| ==> r[i].score >= r[j].score)
      && (forall i, j :: 0 <= i < j < |r| && r[i].score == r[j].score ==> r[i].pos < r[j].pos)
  {
    var all := ScoreAll(index, query, syn);
    ScoreAllIncreasing(index, query, syn);
    RankingMembers(index, query, syn);
    forall i | 0 <= i < |index| && Score(index[i], query, syn) > 0
      ensures Scored(index[i], Score(index[i], query, syn), i) in Ranking(index, query, syn)
    {
      assert all[i] in all;
    }
  }

  /** Every ranked entry is a document of the index with its own position and its positive score. */
  lemma RankingMembers(index: seq<SearchDocument>, query: string, syn: seq<(string, string)>)
    ensures forall x :: x in Ranking(index, query, syn) ==>
      x.pos < |index| && x.doc == index[x.pos] && x.score == Score(index[x.pos], query, syn) && x.score > 0
  {
    var all := ScoreAll(index, query, syn);
    ScoreAllIncreasing(index, query, syn);
    forall x | x in Ranking(index, query, syn)
      ensures x.pos < |index| && x.doc == index[x.pos] && x.score == Score(index[x.pos], query, syn) && x.score > 0
    {
      assert x in all;
    }
  }

  /** A blank query returns no results, without consulting the index. */
  lemma BlankQueryNoResults(index: seq<SearchDocument>, query: string, syn: seq<(string, string)>, maxResults: nat)
    requires forall i :: 0 <= i < |query| ==> IsJsSpace(query[i])
    ensures SearchDocuments(index, query, syn, maxResults) == []
  {
    TrimEmptyIff(query);
  }

  /**
   * The results are the first `maxResults` of the ranking (or all of it),
   * so they number at most `maxResults` and come from the index.
   */
  lemma ResultsBound(index: seq<SearchDocument>, query: string, syn: seq<(string, string)>, maxResults: nat)
    ensures var res := SearchDocuments(index, query, syn, maxResults);
      && |res| <= maxResults
      && (forall d :: d in res ==> d in index && Score(d, query, syn) > 0)
  {
    var res := SearchDocuments(index, query, syn, maxResults);
    if Trim(query) != [] {
      RankingMembers(index, query, syn);
      var r := Ranking(index, query, syn);
      forall d | d in res ensures d in index && Score(d, query, syn) > 0 {
        var i :| 0 <= i < |res| && res[i] == d;
        var x := Take(r, maxResults)[i];
        assert x in r;
        assert index[x.pos] in index;
      }
    }
  }

  /** A shorter slice of a list is a prefix of a longer one. */
  lemma TakePrefix<T>(r: seq<T>, m1: nat, m2: nat)
    requires m1 <= m2
    ensures |Take(r, m1)| <= |Take(r, m2)| && Take(r, m1) == Take(r, m2)[..|Take(r, m1)|]
  {
  }

  /** Mapping to the documents keeps a prefix a prefix. */
  lemma DocsPrefix(a: seq<Scored>, b: seq<Scored>)
    requires |a| <= |b| && a == b[..|a|]
    ensures |Docs(a)| <= |Docs(b)| && Docs(a) == Docs(b)[..|Docs(a)|]
  {
  }

  /** Raising `maxResults` only extends the result list. */
  lemma ResultsPrefix(index: seq<SearchDocument>, query: string, syn: seq<(string, string)>, m1: nat, m2: nat)
    requires m1 <= m2
    ensures var a := SearchDocuments(index, query, syn, m1);
      var b := SearchDocuments(index, query, syn, m2);
      |a| <= |b| && a == b[..|a|]
  {
    if Trim(query) != [] {
      var r := Ranking(index, query, syn);
      TakePrefix(r, m1, m2);
      DocsPrefix(Take(r, m1), Take(r, m2));
    }
  }
}
