/** What a retrieval score is (src/vcse/index/bm25.py, scoring.py, pack_selector.py): the weight of a
    token, how a score moves with each of its ingredients, and what that means for the ranking. */
module ScoringLaws {
  import opened StringSets
  import opened SymbolicIndex
  import opened Tokenizer
  import opened Retrieval
  import opened RetrievalLaws
  import Sorting
  import Text

  // ---- One token ----

  /** The document frequency the index records for a token. */
  function Documents(ix: Contents, token: string): nat {
    if token in ix.frequency then ix.frequency[token] else 0
  }

  function Corpus(ix: Contents): nat {
    if |ix.artifacts| == 0 then 1 else |ix.artifacts|
  }

  ghost function TokenScore(ix: Contents, a: Artifact, token: string, ln: LogFn): real
    requires ix.averageLength >= 0.0
  {
    Bm25(ix, [token], a, ln)
  }

  lemma Quotient(a: real, b: real)
    requires b != 0.0
    ensures (a / b) * b == a
  {
  }

  lemma Times(a: real, b: real, c: real)
    ensures a * (b * c) == (a * b) * c && a * b == b * a && a * (b + c) == a * b + a * c
  {
  }

  lemma FactorLess(x: real, y: real, k: real)
    requires k > 0.0 && x * k < y * k
    ensures x < y
  {
  }

  lemma QuotientLess(a: real, b: real, c: real, d: real)
    requires b > 0.0 && d > 0.0 && a * d < c * b
    ensures a / b < c / d
  {
    Quotient(a, b);
    Quotient(c, d);
    var x, y := a / b, c / d;
    Times(x, b, d);
    Times(y, d, b);
    Times(b, d, 0.0);
    FactorLess(x, y, b * d);
  }

  lemma ProductKeeps(x: real, y: real, k: real)
    requires x <= y && k >= 0.0
    ensures x * k <= y * k
  {
  }

  lemma ProductLess(x: real, y: real, k: real)
    requires x < y && k > 0.0
    ensures x * k < y * k && k * x < k * y
  {
  }

  /** The argument of a token's logarithm, by its double against the corpus. */
  lemma {:induction false} IdfArgument(ix: Contents, token: string, ln: LogFn) returns (x: real)
    ensures x * (2.0 * Documents(ix, token) as real + 1.0) == 2.0 * (Corpus(ix) as real + 1.0)
    ensures x > 0.0 && Idf(ix, token, ln) == ln(x)
  {
    var df, n := Df(ix, token) as real, TotalDocs(ix) as real;
    var y := (n - df + 0.5) / (df + 0.5);
    x := 1.0 + y;
    Quotient(n - df + 0.5, df + 0.5);
    assert y * (df + 0.5) == n - df + 0.5;
    Times(df + 0.5, 1.0, y);
    assert x * (df + 0.5) == n + 1.0;
    PositiveFactor(x, df + 0.5, n + 1.0);
  }

  lemma PositiveFactor(x: real, k: real, p: real)
    requires k > 0.0 && p > 0.0 && x * k == p
    ensures x > 0.0
  {
    if x <= 0.0 { ProductKeeps(x, 0.0, k); }
  }

  /** Rarer tokens weigh more. */
  lemma {:induction false} IdfDecreases(ix: Contents, t: string, u: string, ln: LogFn)
    requires Documents(ix, t) < Documents(ix, u)
    ensures Idf(ix, t, ln) > Idf(ix, u, ln)
  {
    var x := IdfArgument(ix, t, ln);
    var y := IdfArgument(ix, u, ln);
    var k, l := 2.0 * Documents(ix, t) as real + 1.0, 2.0 * Documents(ix, u) as real + 1.0;
    SmallerFactor(x, k, y, l);
  }

  lemma SmallerFactor(x: real, k: real, y: real, l: real)
    requires 0.0 < k < l && x > 0.0 && x * k == y * l
    ensures x > y > 0.0
  {
    ProductLess(k, l, x);
    FactorLess(y, x, l);
    PositiveFactor(y, l, x * k);
  }

  /** What length adds to the denominator. */
  function LengthPart(ix: Contents, length: nat): (c: real)
    requires ix.averageLength >= 0.0
    ensures c > 0.0
  {
    NonNegativeQuotient(length as real, AverageOrOne(ix));
    1.2 * (0.25 + 0.75 * (length as real / AverageOrOne(ix)))
  }

  /** A weight, saturated by the count. */
  function Weighed(w: real, tf: real, c: real): real
    requires tf > 0.0 && c > 0.0
  {
    w * ((tf * 2.2) / (tf + c))
  }

  lemma {:induction false} SingleToken(ix: Contents, a: Artifact, token: string, ln: LogFn)
    requires ix.averageLength >= 0.0 && token in a.tokenFreq && a.tokenFreq[token] > 0
    ensures var tf, c := a.tokenFreq[token] as real, LengthPart(ix, Total(a.tokenFreq));
      TokenScore(ix, a, token, ln) == Weighed(Idf(ix, token, ln), tf, c)
  {
    hide Idf;
    TotalAtLeast(a.tokenFreq, token);
    var length := Total(a.tokenFreq);
    assert [token][1..] == [];
    assert Terms(ix, a, [], length, ln) == 0.0;
    assert Terms(ix, a, [token], length, ln) == Term(ix, a, token, length, ln);
    assert K1 + 1.0 == 2.2;
  }

  /** Of two tokens an artifact has equally often, the rarer scores more. */
  lemma {:induction false} RarerScoresMore(ix: Contents, a: Artifact, t: string, u: string, ln: LogFn)
    requires ix.averageLength >= 0.0
    requires t in a.tokenFreq && u in a.tokenFreq && a.tokenFreq[t] == a.tokenFreq[u] > 0
    requires Documents(ix, t) < Documents(ix, u)
    ensures TokenScore(ix, a, t, ln) > TokenScore(ix, a, u, ln)
  {
    hide Idf, Bm25, LengthPart, TokenScore, Weighed, Documents;
    SingleToken(ix, a, t, ln);
    SingleToken(ix, a, u, ln);
    IdfDecreases(ix, t, u, ln);
    var c := LengthPart(ix, Total(a.tokenFreq));
    WeighedGrows(Idf(ix, u, ln), Idf(ix, t, ln), a.tokenFreq[t] as real, c);
  }

  lemma WeighedGrows(w: real, v: real, tf: real, c: real)
    requires w < v && tf > 0.0 && c > 0.0
    ensures Weighed(w, tf, c) < Weighed(v, tf, c)
  {
    NonNegativeQuotient(tf * 2.2, tf + c);
    ProductLess(w, v, (tf * 2.2) / (tf + c));
  }

  /** A token no commoner than the corpus has a positive weight. */
  lemma {:induction false} WeightPositive(ix: Contents, token: string, ln: LogFn)
    requires Documents(ix, token) <= Corpus(ix)
    ensures Idf(ix, token, ln) > 0.0
  {
    var x := IdfArgument(ix, token, ln);
    var k := 2.0 * Documents(ix, token) as real + 1.0;
    if x <= 1.0 {
      ProductKeeps(x, 1.0, k);
    }
    assert ln(1.0) < ln(x);
  }

  /** Between artifacts of one length, the one with the token more often scores more. */
  lemma {:induction false} MoreOftenScoresMore(ix: Contents, a: Artifact, b: Artifact, token: string, ln: LogFn)
    requires ix.averageLength >= 0.0 && Documents(ix, token) <= Corpus(ix)
    requires token in a.tokenFreq && token in b.tokenFreq && a.tokenFreq[token] > b.tokenFreq[token] > 0
    requires Total(a.tokenFreq) == Total(b.tokenFreq)
    ensures TokenScore(ix, a, token, ln) > TokenScore(ix, b, token, ln)
  {
    hide Idf, Bm25, LengthPart, TokenScore, Weighed, Documents, Corpus;
    SingleToken(ix, a, token, ln);
    SingleToken(ix, b, token, ln);
    WeightPositive(ix, token, ln);
    var w, c := Idf(ix, token, ln), LengthPart(ix, Total(a.tokenFreq));
    SaturationGrows(w, a.tokenFreq[token] as real, b.tokenFreq[token] as real, c);
  }

  lemma SaturationGrows(w: real, x: real, y: real, c: real)
    requires w > 0.0 && x > y > 0.0 && c > 0.0
    ensures Weighed(w, y, c) < Weighed(w, x, c)
  {
    ProductLess(y, x, c);
    assert (y * 2.2) * (x + c) == 2.2 * (y * x + y * c);
    assert (x * 2.2) * (y + c) == 2.2 * (y * x + x * c);
    QuotientLess(y * 2.2, y + c, x * 2.2, x + c);
    ProductLess((y * 2.2) / (y + c), (x * 2.2) / (x + c), w);
  }

  /** Between artifacts with the token equally often, the shorter scores more. */
  lemma {:induction false} ShorterScoresMore(ix: Contents, a: Artifact, b: Artifact, token: string, ln: LogFn)
    requires ix.averageLength >= 0.0 && Documents(ix, token) <= Corpus(ix)
    requires token in a.tokenFreq && token in b.tokenFreq && a.tokenFreq[token] == b.tokenFreq[token] > 0
    requires Total(a.tokenFreq) < Total(b.tokenFreq)
    ensures TokenScore(ix, a, token, ln) > TokenScore(ix, b, token, ln)
  {
    hide Idf, Bm25, LengthPart, TokenScore, Weighed, Documents, Corpus;
    SingleToken(ix, a, token, ln);
    SingleToken(ix, b, token, ln);
    WeightPositive(ix, token, ln);
    LengthPartGrows(ix, Total(a.tokenFreq), Total(b.tokenFreq));
    var c, d := LengthPart(ix, Total(a.tokenFreq)), LengthPart(ix, Total(b.tokenFreq));
    SaturationFalls(Idf(ix, token, ln), a.tokenFreq[token] as real, c, d);
  }

  lemma LargerDivisor(n: real, p: real, q: real)
    requires n > 0.0 && 0.0 < p < q
    ensures n / q < n / p
  {
    ProductLess(p, q, n);
    QuotientLess(n, q, n, p);
  }

  lemma SaturationFalls(w: real, tf: real, c: real, d: real)
    requires w > 0.0 && tf > 0.0 && 0.0 < c < d
    ensures Weighed(w, tf, d) < Weighed(w, tf, c)
  {
    LargerDivisor(tf * 2.2, tf + c, tf + d);
    ProductLess((tf * 2.2) / (tf + d), (tf * 2.2) / (tf + c), w);
  }

  lemma LengthPartGrows(ix: Contents, shorter: nat, longer: nat)
    requires ix.averageLength >= 0.0 && shorter < longer
    ensures LengthPart(ix, shorter) < LengthPart(ix, longer)
  {
    var v := AverageOrOne(ix);
    ProductLess(shorter as real, longer as real, v);
    QuotientLess(shorter as real, v, longer as real, v);
  }

  /** The weight of a token is `ln(x)` for the `x` with x (2 df + 1) = 2 (N + 1), and its score is less than
      2.2 weights: exactly score (tf avg + 0.3 avg + 0.9 length) = weight 2.2 tf avg. */
  lemma {:induction false} TokenScoreIs(ix: Contents, a: Artifact, token: string, ln: LogFn) returns (x: real)
    requires ix.averageLength > 0.0 && Documents(ix, token) <= Corpus(ix)
    requires token in a.tokenFreq && a.tokenFreq[token] > 0
    ensures x * (2.0 * Documents(ix, token) as real + 1.0) == 2.0 * (Corpus(ix) as real + 1.0)
    ensures x > 0.0 && 0.0 < TokenScore(ix, a, token, ln) < 2.2 * ln(x)
    ensures var tf, avg, length := a.tokenFreq[token] as real, ix.averageLength, Total(a.tokenFreq) as real;
      TokenScore(ix, a, token, ln) * (tf * avg + 0.3 * avg + 0.9 * length) == (ln(x) * 2.2) * (tf * avg)
  {
    hide Idf, Bm25, LengthPart, TokenScore, Weighed, Documents, Corpus;
    x := IdfArgument(ix, token, ln);
    SingleToken(ix, a, token, ln);
    WeightPositive(ix, token, ln);
    var tf, avg, length := a.tokenFreq[token] as real, ix.averageLength, Total(a.tokenFreq);
    var c := LengthPart(ix, length);
    LengthPartIs(ix, length);
    ScoreEquation(TokenScore(ix, a, token, ln), ln(x), tf, c, avg, length as real);
  }

  lemma LengthPartIs(ix: Contents, length: nat)
    requires ix.averageLength > 0.0
    ensures LengthPart(ix, length) * ix.averageLength == 0.3 * ix.averageLength + 0.9 * length as real
  {
    var r := length as real / ix.averageLength;
    Quotient(length as real, ix.averageLength);
    assert r * ix.averageLength == length as real;
    assert LengthPart(ix, length) == 0.3 + 0.9 * r;
    Times(ix.averageLength, 0.3, 0.9 * r);
    Times(0.9, r, ix.averageLength);
  }

  lemma ScoreEquation(score: real, weight: real, tf: real, c: real, avg: real, length: real)
    requires tf > 0.0 && c > 0.0 && weight > 0.0 && avg > 0.0
    requires score == Weighed(weight, tf, c) && c * avg == 0.3 * avg + 0.9 * length
    ensures 0.0 < score < 2.2 * weight
    ensures score * (tf * avg + 0.3 * avg + 0.9 * length) == (weight * 2.2) * (tf * avg)
  {
    var s := (tf * 2.2) / (tf + c);
    Quotient(tf * 2.2, tf + c);
    NonNegativeQuotient(tf * 2.2, tf + c);
    if s >= 2.2 { ProductKeeps(2.2, s, tf + c); }
    ProductLess(0.0, s, weight);
    ProductLess(s, 2.2, weight);
    assert s * (tf + c) == tf * 2.2;
    var d := tf + c;
    calc {
      score * (tf * avg + 0.3 * avg + 0.9 * length);
      { Times(avg, tf, c); }
      (weight * s) * (avg * d);
      { Times(weight, s, avg * d); }
      weight * (s * (avg * d));
      { Times(avg, d, s); Times(s, avg, d); Times(s, d, avg); }
      weight * ((s * d) * avg);
      weight * ((tf * 2.2) * avg);
      { Times(weight, tf * 2.2, avg); Times(tf, 2.2, avg); Times(2.2, tf, avg); Times(weight, 2.2, tf * avg); }
      (weight * 2.2) * (tf * avg);
    }
  }

  lemma {:induction false} TermsConcat(
      ix: Contents, a: Artifact, q: seq<string>, r: seq<string>, length: nat, ln: LogFn)
    requires ix.averageLength >= 0.0
    ensures Terms(ix, a, q + r, length, ln) == Terms(ix, a, q, length, ln) + Terms(ix, a, r, length, ln)
  {
    hide Term;
    if q == [] {
      assert q + r == r;
    } else {
      TermsConcat(ix, a, q[1..], r, length, ln);
      assert (q + r)[1..] == q[1..] + r;
    }
  }

  /** The score of a query is the sum of the scores of its tokens, each as often as it is asked for. */
  lemma {:induction false} QueryIsSum(ix: Contents, a: Artifact, q: seq<string>, r: seq<string>, ln: LogFn)
    requires ix.averageLength >= 0.0
    ensures Bm25(ix, q + r, a, ln) == Bm25(ix, q, a, ln) + Bm25(ix, r, a, ln)
    ensures Bm25(ix, [], a, ln) == 0.0
  {
    hide Term;
    TermsConcat(ix, a, q, r, Total(a.tokenFreq), ln);
  }

  /** A token the artifact does not have adds nothing. */
  lemma {:induction false} AbsentScoresNothing(ix: Contents, a: Artifact, token: string, ln: LogFn)
    requires ix.averageLength >= 0.0 && token !in a.tokenFreq
    ensures TokenScore(ix, a, token, ln) == 0.0
  {
    assert [token][1..] == [];
    assert Terms(ix, a, [], Total(a.tokenFreq), ln) == 0.0;
    assert Term(ix, a, token, Total(a.tokenFreq), ln) == 0.0;
    assert Terms(ix, a, [token], Total(a.tokenFreq), ln) == 0.0;
  }

  // ---- The composite score ----

  /** The kind weights, written out. */
  lemma KindWeights(kind: string)
    ensures kind in {"synonym", "parser_pattern"} ==> TypeWeight(kind) == 1.2
    ensures kind in {"generation_template", "proposer_rule"} ==> TypeWeight(kind) == 1.1
    ensures kind == "verifier_rule_stub" ==> TypeWeight(kind) == 0.8
    ensures kind !in {"synonym", "parser_pattern", "generation_template", "proposer_rule", "verifier_rule_stub"} ==>
      TypeWeight(kind) == 1.0
  {
  }

  /** The distinct tokens of the query the artifact has. */
  function Matched(query: seq<string>, a: Artifact): set<string> {
    set t | t in query && t in a.tokenFreq
  }

  predicate HintShared(a: Artifact, hints: set<string>) {
    exists r :: r in a.relations && r in hints
  }

  /** On a query with a token, the composite is the kind's weight times the sum of five parts: BM25, 0.4 of the
      share of the query's tokens the artifact has, 0.2 of the normalised query's, 0.25 for a shared relation
      hint, and the inverse of the priority. */
  lemma {:induction false} CompositeIs(
      ix: Contents, a: Artifact, query: seq<string>, normalized: seq<string>, hints: set<string>, ln: LogFn)
    returns (exact: real, loose: real, urgency: real)
    requires ix.averageLength >= 0.0 && query != [] && normalized != []
    ensures exact * (|set t | t in query| as real) == 0.4 * |Matched(query, a)| as real
    ensures loose * (|set t | t in normalized| as real) == 0.2 * |Matched(normalized, a)| as real
    ensures urgency * (if a.priority > 1 then a.priority else 1) as real == 1.0
    ensures FullScore(ix, a, query, normalized, hints, ln) ==
      (Bm25(ix, query, a, ln) + exact + loose + (if HintShared(a, hints) then 0.25 else 0.0) + urgency)
      * TypeWeight(a.kind)
  {
    hide Bm25, TypeWeight, OverlapBonus;
    exact, loose := OverlapBonus(SetOf(query), a, 0.4), OverlapBonus(SetOf(normalized), a, 0.2);
    urgency := 1.0 / AtLeastOne(a.priority) as real;
    OverlapIs(query, a, 0.4);
    OverlapIs(normalized, a, 0.2);
    Quotient(1.0, AtLeastOne(a.priority) as real);
    SharedHint(a, hints);
  }

  lemma {:induction false} OverlapIs(query: seq<string>, a: Artifact, weight: real)
    requires weight > 0.0 && query != []
    ensures OverlapBonus(SetOf(query), a, weight) * |set t | t in query| as real == weight * |Matched(query, a)| as real
  {
    hide OverlapBonus;
    SomeToken(query);
    assert SetOf(query) == set t | t in query;
    assert SetOf(query) * a.tokenFreq.Keys == Matched(query, a);
    BonusIs(SetOf(query), a, weight, |set t | t in query|, |Matched(query, a)|);
  }

  lemma {:induction false} BonusIs(tokens: set<string>, a: Artifact, weight: real, n: nat, m: nat)
    requires weight > 0.0 && n == |tokens| > 0 && m == |tokens * a.tokenFreq.Keys|
    ensures OverlapBonus(tokens, a, weight) * n as real == weight * m as real
  {
    ShareIs(m as real, n as real, weight);
  }

  lemma ShareIs(m: real, n: real, weight: real)
    requires n > 0.0
    ensures ((m / n) * weight) * n == weight * m
  {
    Quotient(m, n);
    Times(m / n, weight, n);
    Times(weight, m / n, n);
    Times(n, m / n, 0.0);
  }

  lemma SharedHint(a: Artifact, hints: set<string>)
    ensures HintShared(a, hints) <==> hints != {} && SetOf(a.relations) * hints != {}
  {
    if r :| r in a.relations && r in hints {
      assert r in SetOf(a.relations) * hints;
    }
    if SetOf(a.relations) * hints != {} {
      var r :| r in SetOf(a.relations) * hints;
      assert r in a.relations && r in hints;
    }
  }

  // ---- What scores mean for the ranking ----

  lemma {:induction false} ScoredListScores(
      ix: Contents, ids: seq<string>, query: seq<string>, normalized: seq<string>, hints: set<string>, ln: LogFn)
    requires ix.averageLength >= 0.0 && forall i | 0 <= i < |ids| :: ids[i] in ix.artifacts
    ensures forall c | c in ScoredList(ix, ids, query, normalized, hints, ln) ::
      c.id in ix.artifacts && c.score == FullScore(ix, ix.artifacts[c.id], query, normalized, hints, ln)
  {
    hide FullScore;
    if ids != [] {
      ScoredListScores(ix, ids[1..], query, normalized, hints, ln);
    }
  }

  lemma {:induction false} RankedScores(
      ix: Contents, query: seq<string>, normalized: seq<string>, hints: set<string>, ln: LogFn)
    requires Searchable(ix)
    ensures forall c | c in Ranked(ix, query, normalized, hints, ln) ::
      c.id in ix.artifacts && c.score == FullScore(ix, ix.artifacts[c.id], query, normalized, hints, ln)
  {
    hide FullScore, Candidates, ScoredList;
    CandidatesKnown(ix, query);
    var ids := SortedIds(Candidates(ix, query));
    ScoredListScores(ix, ids, query, normalized, hints, ln);
    Sorting.SameElements(ScoredList(ix, ids, query, normalized, hints, ln), Ranked(ix, query, normalized, hints, ln));
  }

  /** Wherever the second id is, the first is before it. */
  predicate Precedes(ids: seq<string>, first: string, second: string) {
    forall j | 0 <= j < |ids| && ids[j] == second :: first in ids[..j]
  }

  lemma {:induction false} RankPrecedes(ranked: seq<Candidate>, k: nat, first: string, second: string)
    requires k <= |ranked| && Sorting.SortedBy(ranked, RankLe) && first in IdsOf(ranked)
    requires forall c, d | c in ranked && d in ranked && c.id == first && d.id == second :: c.score > d.score
    ensures Precedes(IdsOf(ranked[..k]), first, second)
  {
    var i :| 0 <= i < |ranked| && ranked[i].id == first;
    var ids := IdsOf(ranked[..k]);
    forall j | 0 <= j < |ids| && ids[j] == second ensures first in ids[..j] {
      assert ranked[i] in ranked && ranked[j] in ranked;
      assert !(j <= i);
      assert ids[..j][i] == first;
    }
  }

  ghost predicate HasHigherScore(
      ix: Contents, tokens: seq<string>, hints: set<string>, ln: LogFn, first: string, second: string)
    requires ix.averageLength >= 0.0 && first in ix.artifacts && second in ix.artifacts
  {
    FullScore(ix, ix.artifacts[first], tokens, tokens, hints, ln)
      > FullScore(ix, ix.artifacts[second], tokens, tokens, hints, ln)
  }

  /** Of two artifacts, a candidate with the higher score is returned before the other, whatever the limit. */
  lemma {:induction false} HigherFirst(
      ix: Contents, items: seq<Artifact>, query: string, hints: set<string>, topRules: int, topPacks: int, ln: LogFn,
      first: string, second: string)
    requires BuiltFrom(ix, items) && Counted(items) && first in ix.artifacts && second in ix.artifacts
    requires Mentions(ix.artifacts[first], NormalizedTokens(query))
    requires ix.averageLength >= 0.0 && HasHigherScore(ix, NormalizedTokens(query), hints, ln, first, second)
    ensures Searchable(ix)
    ensures Precedes(Uncached(ix, query, hints, topRules, topPacks, ln).selectedArtifacts, first, second)
  {
    hide BuiltFrom, Counted, Ranked, Candidates, NormalizedTokens, Uncached, RankLe, FullScore, Mentions, Searchable,
      Limit, Precedes;
    TopKIsBest(ix, items, query, hints, topRules, topPacks, ln);
    var tokens := NormalizedTokens(query);
    RankedScores(ix, tokens, tokens, hints, ln);
    MentionedIsCandidate(ix, items, first, tokens);
    var ranked := Ranked(ix, tokens, tokens, hints, ln);
    RankPrecedes(ranked, Limit(topRules, |ranked|), first, second);
  }

  lemma {:induction false} MentionedIsCandidate(ix: Contents, items: seq<Artifact>, id: string, query: seq<string>)
    requires BuiltFrom(ix, items) && id in ix.artifacts && Mentions(ix.artifacts[id], query)
    ensures id in Candidates(ix, query)
  {
    LatestLaws(items);
    var i :| 0 <= i < |query| && query[i] in ix.artifacts[id].tokenFreq;
    assert id in Posted(items, query[i]);
    PostedIff(ix, items, query[i], id);
  }

  // ---- Rarer tokens first ----

  /** The two artifacts differ only in that one has `t` where the other has `u`. */
  predicate AlikeBut(a: Artifact, b: Artifact, t: string, u: string) {
    && a.kind == b.kind && a.priority == b.priority && a.relations == b.relations
    && t in a.tokenFreq && u in b.tokenFreq && t !in b.tokenFreq && u !in a.tokenFreq
    && a.tokenFreq[t] == b.tokenFreq[u] > 0
    && a.tokenFreq - {t} == b.tokenFreq - {u}
  }

  function Occurrences(query: seq<string>, token: string): nat {
    if query == [] then 0 else (if query[0] == token then 1 else 0) + Occurrences(query[1..], token)
  }

  lemma {:induction false} OccursIff(query: seq<string>, token: string)
    ensures Occurrences(query, token) > 0 <==> exists i :: 0 <= i < |query| && query[i] == token
  {
    if query != [] {
      OccursIff(query[1..], token);
      if i :| 0 <= i < |query| && query[i] == token && i > 0 {
        assert query[1..][i - 1] == token;
      }
      if j :| 0 <= j < |query[1..]| && query[1..][j] == token {
        assert query[j + 1] == token;
      }
    }
  }

  lemma {:induction false} SameLength(a: Artifact, b: Artifact, t: string, u: string)
    requires AlikeBut(a, b, t, u)
    ensures Total(a.tokenFreq) == Total(b.tokenFreq) > 0
  {
    TotalSplit(a.tokenFreq, t);
    TotalSplit(b.tokenFreq, u);
  }

  lemma {:induction false} SameCount(a: Artifact, b: Artifact, t: string, u: string, token: string)
    requires AlikeBut(a, b, t, u) && token != t && token != u
    ensures Tf(a, token) == Tf(b, token)
  {
    assert token in a.tokenFreq <==> token in a.tokenFreq - {t};
    assert token in b.tokenFreq <==> token in b.tokenFreq - {u};
    assert token in a.tokenFreq ==> a.tokenFreq[token] == (a.tokenFreq - {t})[token];
    assert token in b.tokenFreq ==> b.tokenFreq[token] == (b.tokenFreq - {u})[token];
  }

  lemma {:induction false} TermDiffers(
      ix: Contents, a: Artifact, b: Artifact, t: string, u: string, token: string, length: nat, ln: LogFn)
    requires ix.averageLength >= 0.0 && AlikeBut(a, b, t, u)
    ensures Term(ix, a, token, length, ln) + (if token == u then Term(ix, b, u, length, ln) else 0.0)
         == Term(ix, b, token, length, ln) + (if token == t then Term(ix, a, t, length, ln) else 0.0)
  {
    hide Idf, Denominator;
    if token != t && token != u {
      SameCount(a, b, t, u, token);
    }
  }

  lemma {:induction false} TermsDiffer(
      ix: Contents, a: Artifact, b: Artifact, t: string, u: string, query: seq<string>, length: nat, ln: LogFn)
    requires ix.averageLength >= 0.0 && AlikeBut(a, b, t, u)
    ensures Terms(ix, a, query, length, ln) + Repeated(Occurrences(query, u), Term(ix, b, u, length, ln))
         == Terms(ix, b, query, length, ln) + Repeated(Occurrences(query, t), Term(ix, a, t, length, ln))
  {
    hide Term, AlikeBut, Repeated;
    NoneRepeated(Term(ix, b, u, length, ln));
    NoneRepeated(Term(ix, a, t, length, ln));
    if query != [] {
      TermsDiffer(ix, a, b, t, u, query[1..], length, ln);
      TermDiffers(ix, a, b, t, u, query[0], length, ln);
      OneMore(Occurrences(query[1..], u), Term(ix, b, u, length, ln));
      OneMore(Occurrences(query[1..], t), Term(ix, a, t, length, ln));
    }
  }

  function Repeated(n: nat, w: real): real {
    n as real * w
  }

  lemma NoneRepeated(w: real)
    ensures Repeated(0, w) == 0.0
  {
  }

  lemma OneMore(n: nat, w: real)
    ensures Repeated(n + 1, w) == Repeated(n, w) + w
  {
  }

  lemma {:induction false} MatchedDiffer(a: Artifact, b: Artifact, t: string, u: string, query: seq<string>)
    requires AlikeBut(a, b, t, u) && t in query && u in query
    ensures |Matched(query, a)| == |Matched(query, b)|
  {
    var common := Matched(query, a) - {t};
    forall token ensures token in common <==> token in Matched(query, b) - {u} {
      if token != t && token != u {
        assert token in a.tokenFreq <==> token in a.tokenFreq - {t};
        assert token in b.tokenFreq <==> token in b.tokenFreq - {u};
      }
    }
    assert Matched(query, b) - {u} == common;
    assert Matched(query, a) == common + {t} && Matched(query, b) == common + {u};
  }

  lemma {:induction false} RarerBm25(
      ix: Contents, a: Artifact, b: Artifact, t: string, u: string, query: seq<string>, ln: LogFn)
    requires ix.averageLength >= 0.0 && AlikeBut(a, b, t, u) && Documents(ix, t) < Documents(ix, u)
    requires Occurrences(query, t) == Occurrences(query, u) > 0
    ensures Bm25(ix, query, a, ln) > Bm25(ix, query, b, ln)
  {
    hide Idf, Terms, Term, Weighed, LengthPart, Documents, Repeated;
    SameLength(a, b, t, u);
    var length := Total(a.tokenFreq);
    TermsDiffer(ix, a, b, t, u, query, length, ln);
    TermIs(ix, a, t, length, ln);
    TermIs(ix, b, u, length, ln);
    IdfDecreases(ix, t, u, ln);
    WeighedGrows(Idf(ix, u, ln), Idf(ix, t, ln), a.tokenFreq[t] as real, LengthPart(ix, length));
    Balance(Terms(ix, a, query, length, ln), Terms(ix, b, query, length, ln), Occurrences(query, t),
      Term(ix, a, t, length, ln), Term(ix, b, u, length, ln));
  }

  lemma Balance(x: real, y: real, n: nat, p: real, q: real)
    requires x + Repeated(n, q) == y + Repeated(n, p) && p > q && n > 0
    ensures x > y
  {
    ProductLess(q, p, n as real);
  }

  lemma {:induction false} TermIs(ix: Contents, a: Artifact, token: string, length: nat, ln: LogFn)
    requires ix.averageLength >= 0.0 && token in a.tokenFreq && a.tokenFreq[token] > 0
    ensures Term(ix, a, token, length, ln)
         == Weighed(Idf(ix, token, ln), a.tokenFreq[token] as real, LengthPart(ix, length))
  {
    hide Idf;
    assert K1 + 1.0 == 2.2;
  }

  lemma {:induction false} RarerComposite(
      ix: Contents, a: Artifact, b: Artifact, t: string, u: string, query: seq<string>, hints: set<string>, ln: LogFn)
    requires ix.averageLength >= 0.0 && AlikeBut(a, b, t, u) && Documents(ix, t) < Documents(ix, u)
    requires Occurrences(query, t) == Occurrences(query, u) > 0
    ensures FullScore(ix, a, query, query, hints, ln) > FullScore(ix, b, query, query, hints, ln)
  {
    hide Bm25, TypeWeight, Documents, OverlapBonus;
    OccursIff(query, t);
    OccursIff(query, u);
    RarerBm25(ix, a, b, t, u, query, ln);
    MatchedDiffer(a, b, t, u, query);
    SameBonus(query, a, b, 0.4);
    SameBonus(query, a, b, 0.2);
    Heavier(Bm25(ix, query, a, ln), Bm25(ix, query, b, ln), OverlapBonus(SetOf(query), a, 0.4),
      OverlapBonus(SetOf(query), a, 0.2), if HintShared(a, hints) then 0.25 else 0.0,
      1.0 / AtLeastOne(a.priority) as real, TypeWeight(a.kind));
    SharedHint(a, hints);
    SharedHint(b, hints);
  }

  lemma {:induction false} SameBonus(query: seq<string>, a: Artifact, b: Artifact, weight: real)
    requires weight > 0.0 && query != [] && |Matched(query, a)| == |Matched(query, b)|
    ensures OverlapBonus(SetOf(query), a, weight) == OverlapBonus(SetOf(query), b, weight)
  {
    hide OverlapBonus, Matched;
    OverlapIs(query, a, weight);
    OverlapIs(query, b, weight);
    SomeToken(query);
    Cancel(OverlapBonus(SetOf(query), a, weight), OverlapBonus(SetOf(query), b, weight),
      |set t | t in query| as real);
  }

  lemma SomeToken(query: seq<string>)
    requires query != []
    ensures |set t | t in query| > 0
  {
    var distinct := set t | t in query;
    assert query[0] in distinct;
  }

  lemma Cancel(x: real, y: real, n: real)
    requires n != 0.0 && x * n == y * n
    ensures x == y
  {
  }

  lemma Heavier(x: real, y: real, exact: real, loose: real, hint: real, urgency: real, w: real)
    requires x > y && w > 0.0
    ensures (x + exact + loose + hint + urgency) * w > (y + exact + loose + hint + urgency) * w
  {
    ProductLess(y + exact + loose + hint + urgency, x + exact + loose + hint + urgency, w);
  }

  /** Of two artifacts alike but for one token each, both tokens equally often in the query, the artifact with
      the rarer token is returned before the other. */
  lemma {:induction false} RarerFirst(
      ix: Contents, items: seq<Artifact>, query: string, hints: set<string>, topRules: int, topPacks: int, ln: LogFn,
      first: string, second: string, t: string, u: string)
    requires BuiltFrom(ix, items) && Counted(items) && first in ix.artifacts && second in ix.artifacts
    requires AlikeBut(ix.artifacts[first], ix.artifacts[second], t, u)
    requires Occurrences(NormalizedTokens(query), t) == Occurrences(NormalizedTokens(query), u) > 0
    requires |Posted(items, t)| < |Posted(items, u)|
    ensures Searchable(ix)
    ensures Precedes(Uncached(ix, query, hints, topRules, topPacks, ln).selectedArtifacts, first, second)
  {
    hide BuiltFrom, Counted, NormalizedTokens, Uncached, FullScore, Searchable, AlikeBut, Precedes, Posted, Documents,
      Idf;
    BuiltSearchable(ix, items);
    SearchableAverage(ix);
    var tokens := NormalizedTokens(query);
    PostedDocuments(ix, items, t);
    PostedDocuments(ix, items, u);
    RarerComposite(ix, ix.artifacts[first], ix.artifacts[second], t, u, tokens, hints, ln);
    OccursIff(tokens, t);
    AlikeHas(ix.artifacts[first], ix.artifacts[second], t, u);
    HigherFirst(ix, items, query, hints, topRules, topPacks, ln, first, second);
  }

  lemma AlikeHas(a: Artifact, b: Artifact, t: string, u: string)
    requires AlikeBut(a, b, t, u)
    ensures t in a.tokenFreq && u in b.tokenFreq
  {
  }

  /** The recorded document frequency is the number of ids some feature of which has the token. */
  lemma {:induction false} PostedDocuments(ix: Contents, items: seq<Artifact>, token: string)
    requires BuiltFrom(ix, items)
    ensures Documents(ix, token) == |Posted(items, token)|
  {
    if token in ix.inverted {
      FrequencyCounts(ix, items, token);
    } else {
      assert Posted(items, token) == {};
    }
  }

  // ---- Packs ----

  /** The pack shares a token with the query or a relation with the hints. */
  predicate PackShares(pack: Pack, query: seq<string>, hints: set<string>) {
    (exists t :: t in query && t in pack.tokens) || (exists r :: r in pack.relations && r in hints)
  }

  /** A pack scores one for each distinct token shared with the query, two for each relation shared with the hints,
      a quarter for each artifact type up to four, and the inverse of its priority. */
  ghost predicate PackScoreIs(pack: Pack, query: seq<string>, hints: set<string>, score: real) {
    var tokens, relations := |set t | t in query && t in pack.tokens|, |set r | r in pack.relations && r in hints|;
    var types := if |pack.artifactTypes| >= 4 then 4 else |pack.artifactTypes|;
    (score - tokens as real - 2.0 * relations as real - 0.25 * types as real)
      * (if pack.priority > 1 then pack.priority else 1) as real == 1.0
  }

  ghost predicate ScoresPack(
      packs: map<string, Pack>, query: seq<string>, hints: set<string>, c: Candidate, k: string)
  {
    && k in packs && c.id == packs[k].id
    && PackShares(packs[k], query, hints) && PackScoreIs(packs[k], query, hints, c.score)
  }

  lemma {:induction false} OnePack(pack: Pack, query: seq<string>, hints: set<string>)
    ensures var shared, related := |SetOf(query) * SetOf(pack.tokens)|, |hints * SetOf(pack.relations)|;
      && (PackShares(pack, query, hints) <==> !(shared == 0 && related == 0))
      && PackScoreIs(pack, query, hints, shared as real + related as real * 2.0
           + MinReal(1.0, |pack.artifactTypes| as real / 4.0) + 1.0 / AtLeastOne(pack.priority) as real)
  {
    hide MinReal, SetOf, AtLeastOne;
    var n := AtLeastOne(pack.priority);
    SharedCount(query, pack.tokens);
    SharedHints(pack.relations, hints);
    Quotient(1.0, n as real);
    QuarterEach(|pack.artifactTypes|);
    PackSum(|SetOf(query) * SetOf(pack.tokens)| as real, |hints * SetOf(pack.relations)| as real,
      MinReal(1.0, |pack.artifactTypes| as real / 4.0), 1.0 / n as real, n as real);
    assert n == if pack.priority > 1 then pack.priority else 1 by { AtLeastOneIs(pack.priority); }
  }

  lemma AtLeastOneIs(n: int)
    ensures AtLeastOne(n) == if n > 1 then n else 1
  {
  }

  lemma PackSum(shared: real, related: real, types: real, urgency: real, priority: real)
    requires urgency * priority == 1.0
    ensures (shared + related * 2.0 + types + urgency - shared - 2.0 * related - types) * priority == 1.0
  {
    assert shared + related * 2.0 + types + urgency - shared - 2.0 * related - types == urgency;
  }

  lemma {:induction false} SharedHints(relations: seq<string>, hints: set<string>)
    ensures |hints * SetOf(relations)| == |set r | r in relations && r in hints|
    ensures |hints * SetOf(relations)| > 0 <==> exists r :: r in relations && r in hints
  {
    var both := hints * SetOf(relations);
    assert both == set r | r in relations && r in hints;
    if r :| r in relations && r in hints { assert r in both; }
    if both != {} { var r :| r in both; assert r in relations && r in hints; }
  }

  lemma {:induction false} SharedCount(a: seq<string>, b: seq<string>)
    ensures |SetOf(a) * SetOf(b)| == |set x | x in a && x in b|
    ensures |SetOf(a) * SetOf(b)| > 0 <==> exists x :: x in a && x in b
  {
    var both := SetOf(a) * SetOf(b);
    assert both == set x | x in a && x in b;
    if x :| x in a && x in b { assert x in both; }
    if both != {} { var x :| x in both; assert x in a && x in b; }
  }

  lemma QuarterEach(n: nat)
    ensures MinReal(1.0, n as real / 4.0) == 0.25 * (if n >= 4 then 4 else n) as real
  {
  }

  ghost predicate ScoresExactly(
      packs: map<string, Pack>, ids: seq<string>, query: seq<string>, hints: set<string>, scored: seq<Candidate>)
    requires forall id | id in ids :: id in packs
  {
    && (forall c | c in scored :: exists k :: k in ids && ScoresPack(packs, query, hints, c, k))
    && (forall k | k in ids && PackShares(packs[k], query, hints) ::
          exists c :: c in scored && ScoresPack(packs, query, hints, c, k))
    && |scored| == |set k | k in ids && PackShares(packs[k], query, hints)|
  }

  lemma {:induction false} OneMorePack(
      packs: map<string, Pack>, ids: seq<string>, query: seq<string>, hints: set<string>, scored: seq<Candidate>,
      c: Candidate)
    requires ids != [] && (forall id | id in ids :: id in packs) && StrictlySorted(ids)
    requires ScoresExactly(packs, ids[1..], query, hints, scored)
    requires PackShares(packs[ids[0]], query, hints) ==> ScoresPack(packs, query, hints, c, ids[0])
    ensures ScoresExactly(packs, ids, query, hints,
      (if PackShares(packs[ids[0]], query, hints) then [c] else []) + scored)
  {
    hide PackShares, ScoresPack, StrictlySorted;
    TailSorted(ids);
    OneMoreShares(packs, ids, query, hints);
  }

  lemma {:induction false} OneMoreShares(
      packs: map<string, Pack>, ids: seq<string>, query: seq<string>, hints: set<string>)
    requires ids != [] && (forall id | id in ids :: id in packs) && StrictlySorted(ids)
    ensures |set k | k in ids && PackShares(packs[k], query, hints)| ==
      |set k | k in ids[1..] && PackShares(packs[k], query, hints)| +
      if PackShares(packs[ids[0]], query, hints) then 1 else 0
  {
    hide PackShares, StrictlySorted;
    TailSorted(ids);
    var rest := set k | k in ids[1..] && PackShares(packs[k], query, hints);
    var all := set k | k in ids && PackShares(packs[k], query, hints);
    assert ids[0] !in rest;
    assert all == if PackShares(packs[ids[0]], query, hints) then rest + {ids[0]} else rest;
  }

  lemma {:induction false} PackScoresLaws(
      packs: map<string, Pack>, ids: seq<string>, query: seq<string>, hints: set<string>)
    requires (forall id | id in ids :: id in packs) && StrictlySorted(ids)
    ensures ScoresExactly(packs, ids, query, hints, PackScores(packs, ids, SetOf(query), hints))
  {
    hide PackShares, PackScoreIs, MinReal, StrictlySorted, SetOf, ScoresExactly;
    if ids == [] {
      NoPackScored(packs, query, hints);
    } else {
      TailSorted(ids);
      PackScoresLaws(packs, ids[1..], query, hints);
      assert ids[0] in ids;
      var pack := packs[ids[0]];
      OnePack(pack, query, hints);
      var shared, related := |SetOf(query) * SetOf(pack.tokens)|, |hints * SetOf(pack.relations)|;
      var c := Candidate(pack.id, shared as real + related as real * 2.0
        + MinReal(1.0, |pack.artifactTypes| as real / 4.0) + 1.0 / AtLeastOne(pack.priority) as real);
      OneMorePack(packs, ids, query, hints, PackScores(packs, ids[1..], SetOf(query), hints), c);
    }
  }

  lemma NoPackScored(packs: map<string, Pack>, query: seq<string>, hints: set<string>)
    ensures ScoresExactly(packs, [], query, hints, [])
  {
    var none := set k | k in [] && k in packs && PackShares(packs[k], query, hints);
    assert none == {};
  }

  lemma TailSorted(ids: seq<string>)
    requires ids != [] && StrictlySorted(ids)
    ensures StrictlySorted(ids[1..]) && ids[0] !in ids[1..]
    ensures forall k :: k in ids <==> k == ids[0] || k in ids[1..]
  {
  }

  /** The list scores each pack that shares something, and nothing else. */
  ghost predicate ScoresAll(packs: map<string, Pack>, query: seq<string>, hints: set<string>, scored: seq<Candidate>) {
    && (forall c | c in scored :: exists k :: ScoresPack(packs, query, hints, c, k))
    && (forall k | k in packs && PackShares(packs[k], query, hints) ::
          exists c :: c in scored && ScoresPack(packs, query, hints, c, k))
    && |scored| == |set k | k in packs && PackShares(packs[k], query, hints)|
  }

  lemma {:induction false} AllScored(packs: map<string, Pack>, query: seq<string>, hints: set<string>)
    ensures ScoresAll(packs, query, hints, PackScores(packs, SortedPackIds(packs), SetOf(query), hints))
  {
    hide PackScores, PackShares, ScoresPack, SortedIds, StrictlySorted, SetOf;
    var ids := SortedPackIds(packs);
    PackScoresLaws(packs, ids, query, hints);
    assert (set k | k in ids && PackShares(packs[k], query, hints))
        == (set k | k in packs && PackShares(packs[k], query, hints));
  }

  function SortedPackIds(packs: map<string, Pack>): (ids: seq<string>)
    ensures StrictlySorted(ids) && forall id :: id in ids <==> id in packs
  {
    SortedIdsLaws(packs.Keys);
    SortedIds(packs.Keys)
  }

  lemma {:induction false} ScoresRearranged(
      packs: map<string, Pack>, query: seq<string>, hints: set<string>, scored: seq<Candidate>, ranked: seq<Candidate>)
    requires ScoresAll(packs, query, hints, scored) && multiset(scored) == multiset(ranked)
    ensures ScoresAll(packs, query, hints, ranked)
  {
    hide PackShares, ScoresPack;
    Sorting.SameElements(scored, ranked);
  }

  /** The packs selected are the first of those that share something, by descending score and then id. */
  lemma {:induction false} SelectPacksIs(packs: map<string, Pack>, query: seq<string>, hints: set<string>, topK: int)
    returns (ranked: seq<Candidate>)
    ensures Sorting.SortedBy(ranked, RankLe) && ScoresAll(packs, query, hints, ranked)
    ensures SelectPacks(packs, query, hints, topK)
         == if topK < 1 then [] else IdsOf(ranked[..if topK < |ranked| then topK else |ranked|])
  {
    hide PackScores, RankLe, ScoresAll, StrictlySorted;
    var scored := PackScores(packs, SortedPackIds(packs), SetOf(query), hints);
    AllScored(packs, query, hints);
    ranked := Sorting.Sort(scored, RankLe);
    RankPreorder();
    Sorting.SortSorted(scored, RankLe);
    ScoresRearranged(packs, query, hints, scored, ranked);
  }

  // ---- The whole result ----

  /** Beside the ids: the first five scores are those of the first five ids, every candidate is counted, every
      artifact not returned is counted as filtered out, and packs are selected only when there is a candidate. */
  lemma {:induction false} ResultIs(
      ix: Contents, items: seq<Artifact>, query: string, hints: set<string>, topRules: int, topPacks: int, ln: LogFn)
    requires BuiltFrom(ix, items) && Counted(items)
    ensures Searchable(ix)
    ensures var result := Uncached(ix, query, hints, topRules, topPacks, ln);
      var tokens := NormalizedTokens(query);
      var chosen := result.selectedArtifacts;
      && result.candidateCount == |Candidates(ix, tokens)|
      && IdsOf(result.topScores) == chosen[..if |chosen| < 5 then |chosen| else 5]
      && (forall c | c in result.topScores ::
            c.id in ix.artifacts && c.score == FullScore(ix, ix.artifacts[c.id], tokens, tokens, hints, ln))
      && (Candidates(ix, tokens) == {} ==> result.filteredOut == 0 && result.selectedPacks == [])
      && (Candidates(ix, tokens) != {} ==>
            result.filteredOut + |chosen| == |ix.artifacts|
            && result.selectedPacks == SelectPacks(ix.packs, tokens, hints, topPacks))
  {
    hide BuiltFrom, Counted, NormalizedTokens, NormalizeText, SelectPacks, FullScore, RankLe, Candidates, Ranked;
    BuiltSearchable(ix, items);
    var tokens := NormalizedTokens(query);
    NormalizeIdempotent(query);
    assert NormalizedTokens(NormalizeText(query)) == tokens;
    RankedIds(ix, items, tokens, tokens, hints, ln);
    RankedScores(ix, tokens, tokens, hints, ln);
    CandidatesAreArtifacts(ix, tokens);
  }

  lemma CandidatesAreArtifacts(ix: Contents, query: seq<string>)
    requires Searchable(ix)
    ensures |Candidates(ix, query)| <= |ix.artifacts|
  {
    assert Candidates(ix, query) <= ix.artifacts.Keys;
    SubsetSize(Candidates(ix, query), ix.artifacts.Keys);
    assert |ix.artifacts.Keys| == |ix.artifacts|;
  }
}
