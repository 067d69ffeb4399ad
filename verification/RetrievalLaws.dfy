/** What retrieval promises about a built index: candidates are the artifacts with a positive BM25
    score, none is dropped, and the answer is the first `k` of a brute-force scan. */
module RetrievalLaws {
  import opened StringSets
  import opened SymbolicIndex
  import opened Tokenizer
  import opened Retrieval
  import Sorting
  import Text

  /** Every feature counts its tokens at least once, as a counter does. */
  predicate Counted(items: seq<Artifact>) {
    forall a | a in items :: forall token | token in a.tokenFreq :: a.tokenFreq[token] > 0
  }

  /** A built index can be searched: its posting lists name only artifacts that are there. */
  lemma {:induction false} BuiltSearchable(ix: Contents, items: seq<Artifact>)
    requires BuiltFrom(ix, items)
    ensures Searchable(ix)
  {
    LatestLaws(items);
    forall token, id | id in PostingsOf(ix, token) ensures id in ix.artifacts {
      PostedIff(ix, items, token, id);
      var a :| a in items && token in a.tokenFreq && a.id == id;
    }
  }

  lemma SearchableAverage(ix: Contents)
    requires Searchable(ix)
    ensures ix.averageLength >= 0.0
  {
  }

  lemma {:induction false} IdfPositive(ix: Contents, items: seq<Artifact>, token: string, ln: LogFn)
    requires BuiltFrom(ix, items) && token in ix.inverted
    ensures Idf(ix, token, ln) > 0.0
  {
    FrequencyCounts(ix, items, token);
    var df := Df(ix, token) as real;
    var top := TotalDocs(ix) as real - df + 0.5;
    NonNegativeQuotient(top, df + 0.5);
    var x := 1.0 + top / (df + 0.5);
    assert 0.0 < 1.0 < x;
    assert ln(1.0) < ln(x);
  }

  lemma {:induction false} TermSign(ix: Contents, items: seq<Artifact>, a: Artifact, token: string, ln: LogFn)
    requires BuiltFrom(ix, items) && Counted(items) && a in items
    ensures Term(ix, a, token, Total(a.tokenFreq), ln) >= 0.0
    ensures Term(ix, a, token, Total(a.tokenFreq), ln) > 0.0 <==> token in a.tokenFreq
  {
    hide BuiltFrom, Idf, Denominator;
    BuiltSearchable(ix, items);
    if token in a.tokenFreq {
      assert token in ix.inverted by { InVocabulary(ix, items, a, token); }
      IdfPositive(ix, items, token, ln);
      var tf := Tf(a, token);
      var num, den := tf as real * (K1 + 1.0), Denominator(ix, tf, Total(a.tokenFreq));
      NonNegativeQuotient(num, den);
      PositiveProduct(Idf(ix, token, ln), num / den);
    }
  }

  lemma InVocabulary(ix: Contents, items: seq<Artifact>, a: Artifact, token: string)
    requires BuiltFrom(ix, items) && a in items && token in a.tokenFreq
    ensures token in ix.inverted
  {
    assert token in Vocabulary(items);
  }

  predicate Mentions(a: Artifact, query: seq<string>) {
    exists i | 0 <= i < |query| :: query[i] in a.tokenFreq
  }

  lemma {:induction false} TermsSign(ix: Contents, items: seq<Artifact>, a: Artifact, query: seq<string>, ln: LogFn)
    requires BuiltFrom(ix, items) && Counted(items) && a in items
    ensures Terms(ix, a, query, Total(a.tokenFreq), ln) >= 0.0
    ensures Terms(ix, a, query, Total(a.tokenFreq), ln) > 0.0 <==> Mentions(a, query)
  {
    hide BuiltFrom, Term, Counted;
    BuiltSearchable(ix, items);
    if query != [] {
      TermSign(ix, items, a, query[0], ln);
      TermsSign(ix, items, a, query[1..], ln);
      MentionsCons(a, query);
    }
  }

  lemma {:induction false} MentionsCons(a: Artifact, query: seq<string>)
    requires query != []
    ensures Mentions(a, query) <==> query[0] in a.tokenFreq || Mentions(a, query[1..])
  {
    if i :| 0 <= i < |query| && query[i] in a.tokenFreq && i > 0 {
      assert query[1..][i - 1] == query[i];
    }
    if j :| 0 <= j < |query[1..]| && query[1..][j] in a.tokenFreq {
      assert query[j + 1] == query[1..][j];
    }
  }

  /** A BM25 score is positive exactly for the artifacts that have a query token, and never negative. */
  lemma {:induction false} Bm25PositiveIff(
      ix: Contents, items: seq<Artifact>, id: string, query: seq<string>, ln: LogFn)
    requires BuiltFrom(ix, items) && Counted(items) && id in ix.artifacts
    ensures Bm25(ix, query, ix.artifacts[id], ln) >= 0.0
    ensures Bm25(ix, query, ix.artifacts[id], ln) > 0.0 <==> Mentions(ix.artifacts[id], query)
  {
    hide Terms, Counted, BuiltFrom, Latest, Total;
    BuiltSearchable(ix, items);
    var a := ix.artifacts[id];
    assert a in items by {
      LatestLaws(items);
      BuiltArtifacts(ix, items);
    }
    TermsSign(ix, items, a, query, ln);
    if i :| 0 <= i < |query| && query[i] in a.tokenFreq {
      TotalAtLeast(a.tokenFreq, query[i]);
      assert a.tokenFreq[query[i]] > 0 by { CountedAt(items, a, query[i]); }
    }
  }

  lemma CountedAt(items: seq<Artifact>, a: Artifact, token: string)
    requires Counted(items) && a in items && token in a.tokenFreq
    ensures a.tokenFreq[token] > 0
  {
  }

  /** With exact postings, the candidates are the artifacts with a positive BM25 score. */
  lemma {:induction false} CandidatesIff(ix: Contents, items: seq<Artifact>, query: seq<string>, ln: LogFn)
    requires BuiltFrom(ix, items) && Counted(items) && NothingForgotten(items)
    ensures forall id :: id in Candidates(ix, query) <==>
      id in ix.artifacts && Bm25(ix, query, ix.artifacts[id], ln) > 0.0
  {
    hide BuiltFrom, Counted, Bm25, PostingsOf, NothingForgotten;
    BuiltSearchable(ix, items);
    ExactPostingsIff(ix, items);
    forall id
      ensures id in Candidates(ix, query) <==> id in ix.artifacts && Bm25(ix, query, ix.artifacts[id], ln) > 0.0
    {
      if id in ix.artifacts {
        Bm25PositiveIff(ix, items, id, query, ln);
        if i :| 0 <= i < |query| && query[i] in ix.artifacts[id].tokenFreq {
          assert Has(ix, id, query[i]);
          assert id in PostingsOf(ix, query[i]);
        }
      }
      if id in Candidates(ix, query) {
        var token :| token in query && id in PostingsOf(ix, token);
        assert Has(ix, id, token);
        var i :| 0 <= i < |query| && query[i] == token;
      }
    }
  }

  /** The composite score of every artifact is positive, so the `score > 0` filter drops no candidate. */
  lemma {:induction false} NoCandidateDropped(
      ix: Contents, items: seq<Artifact>, id: string, query: seq<string>, normalized: seq<string>, hints: set<string>,
      ln: LogFn)
    requires BuiltFrom(ix, items) && Counted(items) && id in ix.artifacts && query != []
    ensures FullScore(ix, ix.artifacts[id], query, normalized, hints, ln) > 0.0
    ensures Kept(ix, id, query, normalized, hints, ln) ==
      [Candidate(id, FullScore(ix, ix.artifacts[id], query, normalized, hints, ln))]
  {
    hide BuiltFrom, Counted, Bm25, OverlapBonus, TypeWeight;
    BuiltSearchable(ix, items);
    var a := ix.artifacts[id];
    Bm25PositiveIff(ix, items, id, query, ln);
    var bm25 := Bm25(ix, query, a, ln);
    NonNegativeQuotient(1.0, AtLeastOne(a.priority) as real);
    var exact, norm := OverlapBonus(SetOf(query), a, 0.4), OverlapBonus(SetOf(normalized), a, 0.2);
    var relationBonus := if hints != {} && SetOf(a.relations) * hints != {} then 0.25 else 0.0;
    PositiveProduct(bm25 + exact + norm + relationBonus + 1.0 / AtLeastOne(a.priority) as real, TypeWeight(a.kind));
  }

  // ---- The brute-force scan ----

  /** Score every artifact in id order, keeping those with a positive BM25 score. */
  ghost function Scan(
      ix: Contents, ids: seq<string>, query: seq<string>, normalized: seq<string>,
      hints: set<string>, ln: LogFn): seq<Candidate>
    requires ix.averageLength >= 0.0
    requires forall i | 0 <= i < |ids| :: ids[i] in ix.artifacts
  {
    if ids == [] then []
    else
      (if Bm25(ix, query, ix.artifacts[ids[0]], ln) > 0.0
       then [Candidate(ids[0], FullScore(ix, ix.artifacts[ids[0]], query, normalized, hints, ln))] else [])
      + Scan(ix, ids[1..], query, normalized, hints, ln)
  }

  /** Scoring a sorted subset is scanning the sorted whole. */
  lemma {:induction false} ScanIsScoredList(ix: Contents, items: seq<Artifact>, all: set<string>, chosen: set<string>,
                                            query: seq<string>, normalized: seq<string>, hints: set<string>, ln: LogFn)
    requires BuiltFrom(ix, items) && Counted(items) && query != []
    requires all <= ix.artifacts.Keys
    requires forall id | id in all :: id in chosen <==> Bm25(ix, query, ix.artifacts[id], ln) > 0.0
    requires chosen <= all
    ensures (forall i | 0 <= i < |SortedIds(all)| :: SortedIds(all)[i] in ix.artifacts)
    ensures (forall i | 0 <= i < |SortedIds(chosen)| :: SortedIds(chosen)[i] in ix.artifacts)
    ensures Scan(ix, SortedIds(all), query, normalized, hints, ln) ==
      ScoredList(ix, SortedIds(chosen), query, normalized, hints, ln)
    decreases |all|
  {
    hide BuiltFrom, Counted, Bm25, FullScore, Kept, Searchable, IsMin;
    BuiltSearchable(ix, items);
    SearchableAverage(ix);
    if all != {} {
      SortedCons(all);
      var m := Least(all);
      var rest := all - {m};
      if m in chosen {
        LeastOfSubset(all, chosen);
        ScanIsScoredList(ix, items, rest, chosen - {m}, query, normalized, hints, ln);
        NoCandidateDropped(ix, items, m, query, normalized, hints, ln);
        SortedCons(chosen);
      } else {
        ScanIsScoredList(ix, items, rest, chosen, query, normalized, hints, ln);
      }
    }
  }

  lemma {:induction false} SortedCons(s: set<string>)
    requires s != {}
    ensures Least(s) in s
    ensures SortedIds(s) != [] && SortedIds(s)[0] == Least(s) && SortedIds(s)[1..] == SortedIds(s - {Least(s)})
  {
  }

  lemma {:induction false} LeastOfSubset(all: set<string>, chosen: set<string>)
    requires chosen <= all && all != {} && Least(all) in chosen
    ensures Least(chosen) == Least(all)
  {
    assert IsMin(Least(all), chosen);
    MinExistsUnique(chosen);
  }

  /** Retrieval on a built index returns the first `k` ids of the brute-force scan of all artifacts,
      ordered by descending score and then by id. */
  lemma {:induction false} RetrieveIsBruteForce(
      ix: Contents, items: seq<Artifact>, query: string, hints: set<string>, topRules: int, topPacks: int, ln: LogFn)
    requires BuiltFrom(ix, items) && Counted(items) && NothingForgotten(items)
    ensures Searchable(ix)
    ensures var tokens := NormalizedTokens(query);
      && (forall i | 0 <= i < |SortedIds(ix.artifacts.Keys)| :: SortedIds(ix.artifacts.Keys)[i] in ix.artifacts)
      && var scan := Scan(ix, SortedIds(ix.artifacts.Keys), tokens, tokens, hints, ln);
      && Uncached(ix, query, hints, topRules, topPacks, ln).selectedArtifacts ==
        IdsOf(Take(Sorting.Sort(scan, RankLe), topRules))
      && Uncached(ix, query, hints, topRules, topPacks, ln).candidateCount == |scan|
  {
    hide BuiltFrom, Counted, NothingForgotten, NormalizedTokens, NormalizeText, Candidates, ScoredList, Scan,
      SelectPacks, FullScore, PostingsOf;
    BuiltSearchable(ix, items);
    var tokens := NormalizedTokens(query);
    var all := ix.artifacts.Keys;
    NormalizeIdempotent(query);
    assert NormalizedTokens(NormalizeText(query)) == tokens;
    SortedIdsLaws(all);
    assert forall i | 0 <= i < |SortedIds(all)| :: SortedIds(all)[i] in SortedIds(all);
    CandidatesIff(ix, items, tokens, ln);
    if tokens == [] {
      EmptyQuery(ix, all, hints, ln);
    } else {
      ScanIsScoredList(ix, items, all, Candidates(ix, tokens), tokens, tokens, hints, ln);
      ScanLength(ix, items, Candidates(ix, tokens), tokens, tokens, hints, ln);
    }
    if Candidates(ix, tokens) == {} {
      NothingScored(ix, tokens, tokens, hints, ln);
      assert Scan(ix, SortedIds(all), tokens, tokens, hints, ln) == [];
    }
  }

  lemma {:induction false} NothingScored(
      ix: Contents, query: seq<string>, normalized: seq<string>, hints: set<string>, ln: LogFn)
    requires Searchable(ix)
    ensures SortedIds({}) == [] && ScoredList(ix, [], query, normalized, hints, ln) == []
  {
  }

  lemma {:induction false} EmptyQuery(ix: Contents, all: set<string>, hints: set<string>, ln: LogFn)
    requires Searchable(ix) && all <= ix.artifacts.Keys
    ensures forall i | 0 <= i < |SortedIds(all)| :: SortedIds(all)[i] in ix.artifacts
    ensures Scan(ix, SortedIds(all), [], [], hints, ln) == []
    ensures Candidates(ix, []) == {}
    decreases |all|
  {
    if all != {} {
      EmptyQuery(ix, all - {Least(all)}, hints, ln);
      SortedCons(all);
    }
  }

  lemma {:induction false} ScanLength(
      ix: Contents, items: seq<Artifact>, chosen: set<string>, query: seq<string>, normalized: seq<string>,
      hints: set<string>, ln: LogFn)
    requires BuiltFrom(ix, items) && Counted(items) && query != []
    requires chosen <= ix.artifacts.Keys
    ensures forall i | 0 <= i < |SortedIds(chosen)| :: SortedIds(chosen)[i] in ix.artifacts
    ensures |ScoredList(ix, SortedIds(chosen), query, normalized, hints, ln)| == |chosen|
    decreases |chosen|
  {
    hide BuiltFrom, Counted, Searchable, FullScore, IsMin;
    BuiltSearchable(ix, items);
    SearchableAverage(ix);
    if chosen != {} {
      SortedCons(chosen);
      ScanLength(ix, items, chosen - {Least(chosen)}, query, normalized, hints, ln);
      NoCandidateDropped(ix, items, Least(chosen), query, normalized, hints, ln);
    }
  }

  // ---- What the ranking means ----

  lemma {:induction false} RankPreorder()
    ensures Sorting.TotalPreorder(RankLe)
  {
    forall x, y: Candidate ensures RankLe(x, y) || RankLe(y, x) {
      Text.StrLeTotal(x.id, y.id);
    }
    forall x, y, z: Candidate | RankLe(x, y) && RankLe(y, z) ensures RankLe(x, z) {
      if x.score == y.score == z.score {
        Text.StrLeTransitive(x.id, y.id, z.id);
      }
    }
  }

  lemma {:induction false} ScoredIds(
      ix: Contents, items: seq<Artifact>, ids: seq<string>, query: seq<string>, normalized: seq<string>,
      hints: set<string>, ln: LogFn)
    requires BuiltFrom(ix, items) && Counted(items) && query != []
    requires forall i | 0 <= i < |ids| :: ids[i] in ix.artifacts
    ensures IdsOf(ScoredList(ix, ids, query, normalized, hints, ln)) == ids
  {
    hide BuiltFrom, Counted, FullScore, Kept;
    if ids != [] {
      BuiltSearchable(ix, items);
      ScoredIds(ix, items, ids[1..], query, normalized, hints, ln);
      NoCandidateDropped(ix, items, ids[0], query, normalized, hints, ln);
      assert ids == [ids[0]] + ids[1..];
    }
  }

  /** The list holds every candidate once, each before those it outranks. */
  ghost predicate BestFirst(ranked: seq<Candidate>, candidates: set<string>) {
    && |ranked| == |candidates|
    && (forall id :: id in IdsOf(ranked) <==> id in candidates)
    && Sorting.SortedBy(ranked, RankLe)
  }

  lemma {:induction false} RankedIds(
      ix: Contents, items: seq<Artifact>, query: seq<string>, normalized: seq<string>, hints: set<string>, ln: LogFn)
    requires BuiltFrom(ix, items) && Counted(items)
    ensures Searchable(ix)
    ensures BestFirst(Ranked(ix, query, normalized, hints, ln), Candidates(ix, query))
  {
    hide BuiltFrom, Counted, Searchable, ScoredList, Candidates;
    BuiltSearchable(ix, items);
    CandidatesKnown(ix, query);
    var ids := SortedIds(Candidates(ix, query));
    SortedIdsLaws(Candidates(ix, query));
    var scored, ranked := ScoredList(ix, ids, query, normalized, hints, ln), Ranked(ix, query, normalized, hints, ln);
    RankPreorder();
    Sorting.SortSorted(scored, RankLe);
    Sorting.SameElements(scored, ranked);
    if query == [] {
      EmptyQuery(ix, {}, hints, ln);
      NothingScored(ix, query, normalized, hints, ln);
    } else {
      ScoredIds(ix, items, ids, query, normalized, hints, ln);
    }
    forall id ensures id in IdsOf(ranked) <==> id in Candidates(ix, query) {
      IdsOfMember(ranked, id);
      IdsOfMember(scored, id);
    }
  }

  lemma IdsOfMember(cs: seq<Candidate>, id: string)
    ensures id in IdsOf(cs) <==> exists c | c in cs :: c.id == id
  {
    if c :| c in cs && c.id == id {
      var i :| 0 <= i < |cs| && cs[i] == c;
      assert IdsOf(cs)[i] == id;
    }
    if id in IdsOf(cs) {
      var i :| 0 <= i < |cs| && IdsOf(cs)[i] == id;
      assert cs[i] in cs;
    }
  }

  function Limit(k: int, available: nat): (n: nat)
    ensures n <= available
  {
    if k >= 0 then (if k < available then k else available) else if available + k >= 0 then available + k else 0
  }

  lemma TakeLimit<X>(xs: seq<X>, k: int)
    ensures Take(xs, k) == xs[..Limit(k, |xs|)]
  {
  }

  lemma SelectedRanked(ix: Contents, tokens: seq<string>, hints: set<string>, topRules: int, topPacks: int, ln: LogFn)
    requires Searchable(ix) && |Ranked(ix, tokens, tokens, hints, ln)| == |Candidates(ix, tokens)|
    ensures Outcome(ix, tokens, tokens, hints, topRules, topPacks, ln).selectedArtifacts
         == IdsOf(Take(Ranked(ix, tokens, tokens, hints, ln), topRules))
  {
    hide Ranked, Candidates, Searchable, SelectPacks;
  }

  /** What retrieval returns and what it leaves out are together exactly the candidates, each once; the
      results come best first, nothing left out outranks one of them, and a negative limit counts from the end. */
  lemma {:induction false} TopKIsBest(
      ix: Contents, items: seq<Artifact>, query: string, hints: set<string>, topRules: int, topPacks: int, ln: LogFn)
    requires BuiltFrom(ix, items) && Counted(items)
    ensures Searchable(ix)
    ensures var tokens := NormalizedTokens(query);
      var ranked := Ranked(ix, tokens, tokens, hints, ln);
      && BestFirst(ranked, Candidates(ix, tokens))
      && Uncached(ix, query, hints, topRules, topPacks, ln).selectedArtifacts ==
        IdsOf(ranked[..Limit(topRules, |ranked|)])
  {
    hide BuiltFrom, Counted, Ranked, Candidates, NormalizedTokens, NormalizeText, Outcome, RankLe, Searchable, Take,
      Limit;
    BuiltSearchable(ix, items);
    var tokens := NormalizedTokens(query);
    NormalizeIdempotent(query);
    assert NormalizedTokens(NormalizeText(query)) == tokens;
    RankedIds(ix, items, tokens, tokens, hints, ln);
    SelectedRanked(ix, tokens, hints, topRules, topPacks, ln);
    TakeLimit(Ranked(ix, tokens, tokens, hints, ln), topRules);
  }
}
