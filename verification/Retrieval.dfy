/** BM25 and composite scoring, and memoised top-k retrieval (src/vcse/index/bm25.py, scoring.py,
    pack_selector.py, retrieval.py), over exact reals. */
module Retrieval {
  import opened StringSets
  import opened SymbolicIndex
  import opened Tokenizer
  import Sorting
  import Text

  // ---- BM25 ----

  ghost predicate LogLike(f: real -> real) {
    f(1.0) == 0.0 && forall x, y | 0.0 < x < y :: f(x) < f(y)
  }

  /** What the natural logarithm is used for: zero at one, strictly increasing. */
  type LogFn = f: real -> real | LogLike(f) ghost witness (x: real) => x - 1.0

  const K1 := 1.2
  const B := 0.75

  function Tf(a: Artifact, token: string): nat {
    if token in a.tokenFreq then a.tokenFreq[token] else 0
  }

  function Df(ix: Contents, token: string): nat {
    if token in ix.frequency then ix.frequency[token] else 0
  }

  function TotalDocs(ix: Contents): nat {
    if |ix.artifacts| > 1 then |ix.artifacts| else 1
  }

  function AverageOrOne(ix: Contents): real {
    if ix.averageLength == 0.0 then 1.0 else ix.averageLength
  }

  function Idf(ix: Contents, token: string, ln: LogFn): real {
    var df := Df(ix, token) as real;
    ln(1.0 + (TotalDocs(ix) as real - df + 0.5) / (df + 0.5))
  }

  function Denominator(ix: Contents, tf: nat, length: nat): (d: real)
    requires ix.averageLength >= 0.0
    ensures d > tf as real
  {
    var ratio := length as real / AverageOrOne(ix);
    NonNegativeQuotient(length as real, AverageOrOne(ix));
    tf as real + K1 * (1.0 - B + B * ratio)
  }

  lemma NonNegativeQuotient(a: real, b: real)
    requires a >= 0.0 && b > 0.0
    ensures a / b >= 0.0
    ensures a > 0.0 ==> a / b > 0.0
  {
  }

  lemma PositiveProduct(a: real, b: real)
    requires a > 0.0 && b > 0.0
    ensures a * b > 0.0
  {
  }

  /** What one query token adds to the score. */
  function Term(ix: Contents, a: Artifact, token: string, length: nat, ln: LogFn): real
    requires ix.averageLength >= 0.0
  {
    var tf := Tf(a, token);
    if tf == 0 then 0.0
    else Idf(ix, token, ln) * ((tf as real * (K1 + 1.0)) / Denominator(ix, tf, length))
  }

  function Terms(ix: Contents, a: Artifact, query: seq<string>, length: nat, ln: LogFn): real
    requires ix.averageLength >= 0.0
  {
    if query == [] then 0.0 else Term(ix, a, query[0], length, ln) + Terms(ix, a, query[1..], length, ln)
  }

  ghost function Bm25(ix: Contents, query: seq<string>, a: Artifact, ln: LogFn): real
    requires ix.averageLength >= 0.0
  {
    if query == [] || Total(a.tokenFreq) == 0 then 0.0 else Terms(ix, a, query, Total(a.tokenFreq), ln)
  }

  /** `BM25Scorer.score` */
  method Score(ix: Contents, query: seq<string>, a: Artifact, ln: LogFn) returns (score: real)
    requires ix.averageLength >= 0.0
    ensures score == Bm25(ix, query, a, ln)
  {
    var length := Length(a.tokenFreq);
    if query == [] || length == 0 {
      return 0.0;
    }
    score := 0.0;
    for i := 0 to |query|
      invariant score + Terms(ix, a, query[i..], length, ln) == Terms(ix, a, query, length, ln)
    {
      hide Term;
      assert query[i..][0] == query[i] && query[i..][1..] == query[i + 1..];
      score := score + Term(ix, a, query[i], length, ln);
    }
  }

  // ---- Composite score ----

  const TYPE_WEIGHTS := map[
    "synonym" := 1.2,
    "parser_pattern" := 1.2,
    "relation_schema" := 1.0,
    "ingestion_template" := 1.0,
    "generation_template" := 1.1,
    "proposer_rule" := 1.1,
    "clarification_rule" := 1.0,
    "renderer_template" := 1.0,
    "verifier_rule_stub" := 0.8]

  function AtLeastOne(n: int): (m: nat)
    ensures m >= 1
  {
    if n > 1 then n else 1
  }

  function SetOf(xs: seq<string>): set<string> {
    set x | x in xs
  }

  function TypeWeight(kind: string): (w: real)
    ensures w > 0.0
  {
    if kind in TYPE_WEIGHTS then TYPE_WEIGHTS[kind] else 1.0
  }

  function OverlapBonus(tokens: set<string>, a: Artifact, weight: real): (r: real)
    requires weight > 0.0
    ensures r >= 0.0
  {
    var share := |tokens * a.tokenFreq.Keys| as real / AtLeastOne(|tokens|) as real;
    NonNegativeQuotient(|tokens * a.tokenFreq.Keys| as real, AtLeastOne(|tokens|) as real);
    assert share * weight >= 0.0 by {
      if share > 0.0 { PositiveProduct(share, weight); }
    }
    share * weight
  }

  /** `score_artifact`, given the BM25 score. */
  function Composite(bm25: real, a: Artifact, query: seq<string>, normalized: seq<string>, hints: set<string>): real {
    if bm25 <= 0.0 && query == [] then 0.0
    else
      var relationBonus := if hints != {} && SetOf(a.relations) * hints != {} then 0.25 else 0.0;
      (bm25 + OverlapBonus(SetOf(query), a, 0.4) + OverlapBonus(SetOf(normalized), a, 0.2) + relationBonus
       + 1.0 / AtLeastOne(a.priority) as real) * TypeWeight(a.kind)
  }

  ghost function FullScore(
      ix: Contents, a: Artifact, query: seq<string>, normalized: seq<string>, hints: set<string>, ln: LogFn): real
    requires ix.averageLength >= 0.0
  {
    Composite(Bm25(ix, query, a, ln), a, query, normalized, hints)
  }

  // ---- Candidates and ranking ----

  datatype Candidate = Candidate(id: string, score: real)

  /** Order by `(-score, id)`. */
  predicate RankLe(a: Candidate, b: Candidate) {
    a.score > b.score || (a.score == b.score && Text.StrLe(a.id, b.id))
  }

  function Candidates(ix: Contents, query: seq<string>): set<string> {
    set token, id | token in query && id in PostingsOf(ix, token) :: id
  }

  /** The score of one candidate, kept when it is positive. */
  ghost function Kept(
      ix: Contents, id: string, query: seq<string>, normalized: seq<string>, hints: set<string>,
      ln: LogFn): seq<Candidate>
    requires ix.averageLength >= 0.0 && id in ix.artifacts
  {
    var score := FullScore(ix, ix.artifacts[id], query, normalized, hints, ln);
    if score > 0.0 then [Candidate(id, score)] else []
  }

  ghost function ScoredList(
      ix: Contents, ids: seq<string>, query: seq<string>, normalized: seq<string>,
      hints: set<string>, ln: LogFn): seq<Candidate>
    requires ix.averageLength >= 0.0
    requires forall i | 0 <= i < |ids| :: ids[i] in ix.artifacts
  {
    if ids == [] then []
    else Kept(ix, ids[0], query, normalized, hints, ln) + ScoredList(ix, ids[1..], query, normalized, hints, ln)
  }

  /** `xs[:k]`, counting from the end when `k` is negative. */
  function Take<T>(xs: seq<T>, k: int): seq<T> {
    if k >= 0 then (if k < |xs| then xs[..k] else xs)
    else if |xs| + k >= 0 then xs[..|xs| + k] else []
  }

  function IdsOf(cs: seq<Candidate>): (ids: seq<string>)
    ensures |ids| == |cs| && forall i | 0 <= i < |cs| :: ids[i] == cs[i].id
  {
    seq(|cs|, i requires 0 <= i < |cs| => cs[i].id)
  }

  // ---- Pack selection ----

  function MinReal(a: real, b: real): real {
    if a < b then a else b
  }

  function PackScores(
      packs: map<string, Pack>, ids: seq<string>, tokens: set<string>, hints: set<string>): seq<Candidate>
    requires forall id | id in ids :: id in packs
  {
    if ids == [] then []
    else
      assert ids[0] in ids;
      var pack := packs[ids[0]];
      var tokenOverlap, relationOverlap := |tokens * SetOf(pack.tokens)|, |hints * SetOf(pack.relations)|;
      var score := tokenOverlap as real + relationOverlap as real * 2.0
                   + MinReal(1.0, |pack.artifactTypes| as real / 4.0) + 1.0 / AtLeastOne(pack.priority) as real;
      (if tokenOverlap == 0 && relationOverlap == 0 then [] else [Candidate(pack.id, score)])
      + PackScores(packs, ids[1..], tokens, hints)
  }

  /** `PackSelector.select` over the packs in id order. */
  function SelectPacks(packs: map<string, Pack>, query: seq<string>, hints: set<string>, topK: int): seq<string> {
    if topK < 1 then []
    else
      SortedIdsLaws(packs.Keys);
      IdsOf(Take(Sorting.Sort(PackScores(packs, SortedIds(packs.Keys), SetOf(query), hints), RankLe), topK))
  }

  // ---- Retrieval ----

  datatype RetrievalResult = RetrievalResult(
    selectedArtifacts: seq<string>,
    selectedPacks: seq<string>,
    topScores: seq<Candidate>,
    filteredOut: nat,
    candidateCount: nat)

  /** Posting lists name only artifacts that are there: true of every built index. */
  ghost predicate Searchable(ix: Contents) {
    && ix.averageLength >= 0.0
    && forall token, id | id in PostingsOf(ix, token) :: id in ix.artifacts
  }

  lemma {:induction false} CandidatesKnown(ix: Contents, query: seq<string>)
    requires Searchable(ix)
    ensures ix.averageLength >= 0.0
    ensures forall i | 0 <= i < |SortedIds(Candidates(ix, query))| ::
      SortedIds(Candidates(ix, query))[i] in ix.artifacts
  {
    var ids := SortedIds(Candidates(ix, query));
    SortedIdsLaws(Candidates(ix, query));
    assert forall i | 0 <= i < |ids| :: ids[i] in ids;
  }

  /** The scored candidates, best first. */
  ghost function Ranked(
      ix: Contents, tokens: seq<string>, normalized: seq<string>, hints: set<string>, ln: LogFn): seq<Candidate>
    requires Searchable(ix)
  {
    CandidatesKnown(ix, tokens);
    Sorting.Sort(ScoredList(ix, SortedIds(Candidates(ix, tokens)), tokens, normalized, hints, ln), RankLe)
  }

  function Packaged(
      ix: Contents, top: seq<Candidate>, candidates: nat, tokens: seq<string>, hints: set<string>,
      topPacks: int): RetrievalResult
  {
    RetrievalResult(
      IdsOf(top),
      SelectPacks(ix.packs, tokens, hints, topPacks),
      Take(top, 5),
      if |ix.artifacts| > |top| then |ix.artifacts| - |top| else 0,
      candidates)
  }

  ghost function Outcome(
      ix: Contents, tokens: seq<string>, normalized: seq<string>, hints: set<string>, topRules: int, topPacks: int,
      ln: LogFn): RetrievalResult
    requires Searchable(ix)
  {
    if Candidates(ix, tokens) == {} then RetrievalResult([], [], [], 0, 0)
    else Packaged(ix, Take(Ranked(ix, tokens, normalized, hints, ln), topRules), |Candidates(ix, tokens)|, tokens,
      hints, topPacks)
  }

  /** What `retrieve` computes when nothing is cached. */
  ghost function Uncached(
      ix: Contents, query: string, hints: set<string>, topRules: int, topPacks: int, ln: LogFn): RetrievalResult
    requires Searchable(ix)
  {
    Outcome(ix, NormalizedTokens(query), NormalizedTokens(NormalizeText(query)), hints, topRules, topPacks, ln)
  }

  datatype CacheKey = CacheKey(normalized: string, hints: seq<string>, topRules: int, topPacks: int)

  function KeyOf(query: string, hints: set<string>, topRules: int, topPacks: int): CacheKey {
    CacheKey(NormalizeText(query), SortedIds(hints), topRules, topPacks)
  }

  /** Every cached entry is what any query with that key would compute now. */
  ghost predicate CacheAgrees(cache: map<CacheKey, RetrievalResult>, ix: Contents, ln: LogFn)
    requires Searchable(ix)
  {
    forall query, hints, topRules, topPacks | KeyOf(query, hints, topRules, topPacks) in cache ::
      cache[KeyOf(query, hints, topRules, topPacks)] == Uncached(ix, query, hints, topRules, topPacks, ln)
  }

  /** The uncached result depends only on what the key records. */
  lemma {:induction false} KeyDetermines(
      ix: Contents, q1: string, h1: set<string>, q2: string, h2: set<string>, topRules: int, topPacks: int, ln: LogFn)
    requires Searchable(ix)
    ensures KeyOf(q1, h1, topRules, topPacks) == KeyOf(q2, h2, topRules, topPacks) ==>
      Uncached(ix, q1, h1, topRules, topPacks, ln) == Uncached(ix, q2, h2, topRules, topPacks, ln)
  {
    hide Outcome, Tokenize, NormalizeText;
    if KeyOf(q1, h1, topRules, topPacks) == KeyOf(q2, h2, topRules, topPacks) {
      SortedIdsInjective(h1, h2);
    }
  }

  lemma {:induction false} CacheExtended(
      cache: map<CacheKey, RetrievalResult>, ix: Contents, query: string, hints: set<string>, topRules: int,
      topPacks: int, ln: LogFn)
    requires Searchable(ix) && CacheAgrees(cache, ix, ln)
    ensures CacheAgrees(cache[KeyOf(query, hints, topRules, topPacks) :=
      Uncached(ix, query, hints, topRules, topPacks, ln)], ix, ln)
  {
    hide Uncached, KeyOf;
    var key := KeyOf(query, hints, topRules, topPacks);
    forall q, h, r, p | KeyOf(q, h, r, p) == key
      ensures Uncached(ix, q, h, r, p, ln) == Uncached(ix, query, hints, topRules, topPacks, ln)
    {
      assert r == topRules && p == topPacks by { KeyFields(q, h, r, p); KeyFields(query, hints, topRules, topPacks); }
      KeyDetermines(ix, q, h, query, hints, topRules, topPacks, ln);
    }
  }

  lemma KeyFields(query: string, hints: set<string>, topRules: int, topPacks: int)
    ensures KeyOf(query, hints, topRules, topPacks).topRules == topRules
    ensures KeyOf(query, hints, topRules, topPacks).topPacks == topPacks
  {
  }

  class Retriever {
    const index: Index
    const ln: LogFn
    var cache: map<CacheKey, RetrievalResult>

    /** The index has not changed under the cache. */
    ghost predicate Valid()
      reads this, index
    {
      Searchable(index.View()) && CacheAgrees(cache, index.View(), ln)
    }

    constructor (index: Index, ln: LogFn)
      requires Searchable(index.View())
      ensures Valid() && this.index == index && this.ln == ln && cache == map[]
    {
      this.index := index;
      this.ln := ln;
      cache := map[];
    }

    /** `retrieve`: whatever was asked before, the answer is the uncached one. */
    method Retrieve(query: string, hints: set<string>, topRules: int, topPacks: int) returns (result: RetrievalResult)
      requires Valid()
      modifies this`cache
      ensures Valid()
      ensures result == Uncached(index.View(), query, hints, topRules, topPacks, ln)
      ensures cache == old(cache)[KeyOf(query, hints, topRules, topPacks) := result]
    {
      hide KeyOf, Uncached, NormalizedTokens;
      var key := KeyOf(query, hints, topRules, topPacks);
      if key in cache {
        result := cache[key];
        return;
      }
      result := Compute(index.View(), query, hints, topRules, topPacks, ln);
      CacheExtended(cache, index.View(), query, hints, topRules, topPacks, ln);
      cache := cache[key := result];
    }
  }

  // ---- The steps of an uncached retrieval, over the index's contents ----

  method Compute(
      ix: Contents, query: string, hints: set<string>, topRules: int, topPacks: int, ln: LogFn)
    returns (result: RetrievalResult)
    requires Searchable(ix)
    ensures result == Uncached(ix, query, hints, topRules, topPacks, ln)
  {
    hide NormalizedTokens, Packaged, Sorting.Sort, ScoredList, Candidates, Take, Searchable;
    var qtokens := NormalizedTokens(query);
    var normalizedTokens := NormalizedTokens(NormalizeText(query));
    var candidateIds := CandidateIds(ix, qtokens);
    if candidateIds == {} {
      return RetrievalResult([], [], [], 0, 0);
    }
    CandidatesKnown(ix, qtokens);
    var scored := ScoreAll(ix, SortedIds(candidateIds), qtokens, normalizedTokens, hints, ln);
    scored := Sorting.Sort(scored, RankLe);
    result := Packaged(ix, Take(scored, topRules), |candidateIds|, qtokens, hints, topPacks);
  }

  method ScoreAll(
      ix: Contents, ids: seq<string>, qtokens: seq<string>, normalizedTokens: seq<string>, hints: set<string>,
      ln: LogFn)
    returns (scored: seq<Candidate>)
    requires ix.averageLength >= 0.0 && forall i | 0 <= i < |ids| :: ids[i] in ix.artifacts
    ensures scored == ScoredList(ix, ids, qtokens, normalizedTokens, hints, ln)
  {
    hide Composite, Bm25, ScoredList;
    scored := [];
    assert ids[0..] == ids;
    for i := 0 to |ids|
      invariant scored + ScoredList(ix, ids[i..], qtokens, normalizedTokens, hints, ln)
             == ScoredList(ix, ids, qtokens, normalizedTokens, hints, ln)
    {
      var artifact := ix.artifacts[ids[i]];
      var bm25 := Score(ix, qtokens, artifact, ln);
      var score := Composite(bm25, artifact, qtokens, normalizedTokens, hints);
      assert score == FullScore(ix, artifact, qtokens, normalizedTokens, hints, ln);
      KeptNext(ix, scored, ids, i, qtokens, normalizedTokens, hints, ln);
      if score > 0.0 {
        scored := scored + [Candidate(ids[i], score)];
      }
    }
    NoneLeft(ix, ids, qtokens, normalizedTokens, hints, ln);
  }

  lemma NoneLeft(
      ix: Contents, ids: seq<string>, query: seq<string>, normalized: seq<string>, hints: set<string>, ln: LogFn)
    requires ix.averageLength >= 0.0
    ensures ScoredList(ix, ids[|ids|..], query, normalized, hints, ln) == []
  {
  }

  lemma {:induction false} KeptNext(
      ix: Contents, scored: seq<Candidate>, ids: seq<string>, i: nat, query: seq<string>, normalized: seq<string>,
      hints: set<string>, ln: LogFn)
    requires ix.averageLength >= 0.0 && i < |ids| && forall i | 0 <= i < |ids| :: ids[i] in ix.artifacts
    ensures var score := FullScore(ix, ix.artifacts[ids[i]], query, normalized, hints, ln);
      scored + ScoredList(ix, ids[i..], query, normalized, hints, ln) ==
      (if score > 0.0 then scored + [Candidate(ids[i], score)] else scored) +
        ScoredList(ix, ids[i + 1..], query, normalized, hints, ln)
  {
    hide FullScore;
    var rest := ids[i..];
    assert rest[0] == ids[i] && rest[1..] == ids[i + 1..];
    var kept, after :=
      Kept(ix, ids[i], query, normalized, hints, ln), ScoredList(ix, ids[i + 1..], query, normalized, hints, ln);
    assert ScoredList(ix, rest, query, normalized, hints, ln) == kept + after;
    assert scored + (kept + after) == (scored + kept) + after;
  }

  /** `_candidate_ids` */
  method CandidateIds(ix: Contents, qtokens: seq<string>) returns (ids: set<string>)
    ensures ids == Candidates(ix, qtokens)
  {
    ids := {};
    for i := 0 to |qtokens|
      invariant ids == Candidates(ix, qtokens[..i])
    {
      CandidatesSnoc(ix, qtokens[..i], qtokens[i]);
      assert qtokens[..i + 1] == qtokens[..i] + [qtokens[i]];
      ids := ids + SetOf(PostingsOf(ix, qtokens[i]));
    }
    assert qtokens[..|qtokens|] == qtokens;
  }

  lemma {:induction false} CandidatesSnoc(ix: Contents, query: seq<string>, token: string)
    ensures Candidates(ix, query + [token]) == Candidates(ix, query) + SetOf(PostingsOf(ix, token))
  {
    assert forall t :: t in query + [token] <==> t in query || t == token;
  }
}
