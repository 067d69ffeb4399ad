/** The symbolic index (src/vcse/index/index.py): artifacts, inverted posting lists, document
    frequencies and the average length, built in one pass over the features. */
module SymbolicIndex {
  import opened StringSets
  import Sorting
  import Text

  /** The features of one artifact; `tokenFreq` counts its tokens. */
  datatype Artifact = Artifact(
    id: string,
    kind: string,
    sourceBundle: string,
    priority: int,
    tokenFreq: map<string, nat>,
    relations: seq<string>)

  datatype Pack = Pack(id: string, tokens: seq<string>, relations: seq<string>, artifactTypes: seq<string>,
    priority: int)

  /** The fields of the index as one value. */
  datatype Contents = Contents(
    artifacts: map<string, Artifact>,
    inverted: map<string, seq<string>>,
    frequency: map<string, nat>,
    packs: map<string, Pack>,
    averageLength: real)

  // ---- Lengths ----

  ghost function Total(freq: map<string, nat>): nat {
    if freq == map[] then 0
    else
      var k :| k in freq;
      freq[k] + Total(freq - {k})
  }

  lemma {:induction false} TotalSplit(freq: map<string, nat>, k: string)
    requires k in freq
    ensures Total(freq) == freq[k] + Total(freq - {k})
    decreases |freq|
  {
    var p :| p in freq && Total(freq) == freq[p] + Total(freq - {p});
    if p != k {
      TotalSplit(freq - {p}, k);
      TotalSplit(freq - {k}, p);
      assert freq - {p} - {k} == freq - {k} - {p};
    }
  }

  /** `IndexedArtifact.length` */
  method Length(freq: map<string, nat>) returns (n: nat)
    ensures n == Total(freq)
  {
    n := 0;
    var rest := freq;
    while rest != map[]
      invariant n + Total(rest) == Total(freq)
      decreases |rest|
    {
      var k :| k in rest;
      TotalSplit(rest, k);
      n := n + rest[k];
      rest := rest - {k};
    }
  }

  lemma {:induction false} TotalAtLeast(freq: map<string, nat>, k: string)
    requires k in freq
    ensures Total(freq) >= freq[k]
  {
    TotalSplit(freq, k);
  }

  // ---- What the index should hold ----

  /** The last feature of each id. */
  function Latest(items: seq<Artifact>): map<string, Artifact> {
    if items == [] then map[]
    else Latest(items[..|items| - 1])[items[|items| - 1].id := items[|items| - 1]]
  }

  /** The ids some feature of which has the token. */
  function Posted(items: seq<Artifact>, token: string): set<string> {
    set a | a in items && token in a.tokenFreq :: a.id
  }

  function Vocabulary(items: seq<Artifact>): set<string> {
    set a, token | a in items && token in a.tokenFreq :: token
  }

  ghost function TotalLength(items: seq<Artifact>): nat {
    if items == [] then 0 else TotalLength(items[..|items| - 1]) + Total(items[|items| - 1].tokenFreq)
  }

  function Lists(items: seq<Artifact>): map<string, seq<string>> {
    map token | token in Vocabulary(items) :: SortedIds(Posted(items, token))
  }

  ghost function Average(items: seq<Artifact>): (r: real)
    ensures r >= 0.0
  {
    var count := |Latest(items)|;
    if count > 0 then Quotient(TotalLength(items), count) else 0.0
  }

  function Quotient(a: nat, b: nat): (r: real)
    requires b > 0
    ensures r >= 0.0
    ensures a > 0 ==> r > 0.0
  {
    a as real / b as real
  }

  ghost predicate BuiltFrom(ix: Contents, items: seq<Artifact>) {
    && ix.artifacts == Latest(items)
    && ix.inverted == Lists(items)
    && ix.frequency == (map token | token in ix.inverted :: |ix.inverted[token]|)
    && ix.averageLength == Average(items)
  }

  lemma {:induction false} LatestSnoc(items: seq<Artifact>, a: Artifact)
    ensures Latest(items + [a]) == Latest(items)[a.id := a]
    ensures TotalLength(items + [a]) == TotalLength(items) + Total(a.tokenFreq)
  {
    var all := items + [a];
    assert all[..|all| - 1] == items;
  }

  ghost predicate PostingsFor(postings: map<string, set<string>>, items: seq<Artifact>) {
    postings == map token | token in Vocabulary(items) :: Posted(items, token)
  }

  /** The index object. */
  class Index {
    var artifacts: map<string, Artifact>
    var inverted: map<string, seq<string>>
    var frequency: map<string, nat>
    var packs: map<string, Pack>
    var averageLength: real

    constructor ()
      ensures View() == Contents(map[], map[], map[], map[], 0.0)
    {
      artifacts, inverted, frequency, packs, averageLength := map[], map[], map[], map[], 0.0;
    }

    function View(): Contents
      reads this
    {
      Contents(artifacts, inverted, frequency, packs, averageLength)
    }

    /** `build` */
    method Build(items: seq<Artifact>)
      modifies this`artifacts, this`inverted, this`frequency, this`averageLength
      ensures BuiltFrom(View(), items)
      ensures packs == old(packs)
    {
      hide PostingsFor, Lists, Latest, TotalLength, Quotient, SortedIds, Vocabulary, Posted;
      var collected, postings, totalLength := Collect(items);
      ListsFromPostings(postings, items);
      artifacts := collected;
      inverted := map token | token in postings :: SortedIds(postings[token]);
      frequency := map token | token in inverted :: |inverted[token]|;
      var count := |artifacts|;
      averageLength := if count > 0 then Quotient(totalLength, count) else 0.0;
    }

    /** The loop of `build` over the features. */
    method Collect(items: seq<Artifact>)
      returns (collected: map<string, Artifact>, postings: map<string, set<string>>, totalLength: nat)
      ensures collected == Latest(items) && PostingsFor(postings, items) && totalLength == TotalLength(items)
    {
      hide PostingsFor, WithPostings, Latest, Total, TotalLength;
      NothingBuilt();
      collected, postings, totalLength := map[], map[], 0;
      for i := 0 to |items|
        invariant collected == Latest(items[..i])
        invariant totalLength == TotalLength(items[..i])
        invariant PostingsFor(postings, items[..i])
      {
        var item := items[i];
        LatestSnoc(items[..i], item);
        PostingsStep(postings, items[..i], item);
        assert items[..i + 1] == items[..i] + [item];
        collected := collected[item.id := item];
        var length := Length(item.tokenFreq);
        totalLength := totalLength + length;
        postings := AddPostings(postings, item);
      }
      assert items[..|items|] == items;
    }

    /** The inner loop of `build`: one feature's tokens. */
    method AddPostings(postings: map<string, set<string>>, item: Artifact) returns (extended: map<string, set<string>>)
      ensures extended == WithPostings(postings, item)
    {
      extended := postings;
      var rest := item.tokenFreq.Keys;
      while rest != {}
        invariant rest <= item.tokenFreq.Keys
        invariant extended.Keys == postings.Keys + (item.tokenFreq.Keys - rest)
        invariant forall t | t in extended ::
            extended[t] ==
              (if t in postings then postings[t] else {}) + (if t in item.tokenFreq.Keys - rest then {item.id} else {})
        decreases rest
      {
        var token :| token in rest;
        extended := extended[token := (if token in extended then extended[token] else {}) + {item.id}];
        rest := rest - {token};
      }
    }

    /** `set_packs`: sorting is stable, so the last pack given for an id is the one kept. */
    method SetPacks(given: seq<Pack>)
      modifies this`packs
      ensures packs.Keys == PackIds(given)
      ensures forall id | id in packs :: packs[id].id == id && IsLast(given, packs[id])
    {
      hide IsLast, PackIds, Sorting.Sort;
      var ordered := Sorting.Sort(given, PackLe);
      PackMapLaws(given);
      packs := map[];
      for i := 0 to |ordered|
        invariant packs == PackMap(ordered[..i])
      {
        assert ordered[..i + 1][..i] == ordered[..i];
        packs := packs[ordered[i].id := ordered[i]];
      }
      assert ordered[..|ordered|] == ordered;
    }
  }

  predicate PackLe(a: Pack, b: Pack) {
    Text.StrLe(a.id, b.id)
  }

  function PackIds(given: seq<Pack>): set<string> {
    set p | p in given :: p.id
  }

  /** No later pack has the id of this one. */
  ghost predicate IsLast(given: seq<Pack>, p: Pack) {
    exists i | 0 <= i < |given| :: given[i] == p && forall j | i < j < |given| :: given[j].id != p.id
  }

  function PackIs(id: string): Pack -> bool {
    (p: Pack) => p.id == id
  }

  lemma {:induction false} LastOfFilter(given: seq<Pack>, id: string)
    ensures var same := Sorting.Filter(given, PackIs(id));
      if same == [] then forall p | p in given :: p.id != id
      else same[|same| - 1].id == id && same[|same| - 1] in given && IsLast(given, same[|same| - 1])
  {
    if given != [] {
      LastOfFilter(given[1..], id);
      var later := Sorting.Filter(given[1..], PackIs(id));
      assert given == [given[0]] + given[1..];
      if later != [] {
        LastOfTail(given, later[|later| - 1]);
      } else if given[0].id == id {
        assert forall j | 0 < j < |given| :: given[j] in given[1..];
        assert given[0] == given[0] && IsLast(given, given[0]);
      }
    }
  }

  lemma LastOfTail(given: seq<Pack>, p: Pack)
    requires given != [] && IsLast(given[1..], p)
    ensures IsLast(given, p)
  {
    var i :| 0 <= i < |given[1..]| && given[1..][i] == p && forall j | i < j < |given[1..]| :: given[1..][j].id != p.id;
    assert given[i + 1] == p;
    forall j | i + 1 < j < |given| ensures given[j].id != p.id {
      assert given[j] == given[1..][j - 1];
    }
  }

  lemma {:induction false} PackMapIsFilter(packs: seq<Pack>, id: string)
    ensures var same := Sorting.Filter(packs, PackIs(id));
      (id in PackMap(packs) <==> same != []) && (same != [] ==> PackMap(packs)[id] == same[|same| - 1])
  {
    if packs != [] {
      var init, last := packs[..|packs| - 1], packs[|packs| - 1];
      PackMapIsFilter(init, id);
      Sorting.FilterConcat(init, [last], PackIs(id));
      assert packs == init + [last];
      assert Sorting.Filter([last], PackIs(id)) == if last.id == id then [last] else [];
    }
  }

  /** The pack kept for an id after sorting by id is the last one given. */
  lemma {:induction false} PackMapLaws(given: seq<Pack>)
    ensures var packs := PackMap(Sorting.Sort(given, PackLe));
      && packs.Keys == PackIds(given)
      && forall id | id in packs :: packs[id].id == id && IsLast(given, packs[id])
  {
    hide Sorting.Sort, Sorting.Filter, PackMap, IsLast;
    var ordered := Sorting.Sort(given, PackLe);
    forall id
      ensures id in PackMap(ordered) <==> id in PackIds(given)
      ensures id in PackMap(ordered) ==> PackMap(ordered)[id].id == id && IsLast(given, PackMap(ordered)[id])
    {
      Text.StrLeTotal(id, id);
      Sorting.SortStable(given, PackLe, PackIs(id));
      PackMapIsFilter(ordered, id);
      LastOfFilter(given, id);
    }
  }

  function PackMap(given: seq<Pack>): map<string, Pack> {
    if given == [] then map[] else PackMap(given[..|given| - 1])[given[|given| - 1].id := given[|given| - 1]]
  }

  function WithPostings(postings: map<string, set<string>>, item: Artifact): map<string, set<string>> {
    map t | t in postings.Keys + item.tokenFreq.Keys ::
      (if t in postings then postings[t] else {}) + (if t in item.tokenFreq then {item.id} else {})
  }

  lemma {:induction false} PostingsStep(postings: map<string, set<string>>, items: seq<Artifact>, item: Artifact)
    requires PostingsFor(postings, items)
    ensures PostingsFor(WithPostings(postings, item), items + [item])
  {
    var all, extended := items + [item], WithPostings(postings, item);
    assert forall x :: x in all <==> x in items || x == item;
    assert extended.Keys == Vocabulary(all);
    forall t | t in extended ensures extended[t] == Posted(all, t) {
      if t !in postings {
        assert Posted(items, t) == {};
      }
    }
  }

  lemma {:induction false} NothingBuilt()
    ensures PostingsFor(map[], []) && Latest([]) == map[] && TotalLength([]) == 0
  {
  }

  lemma {:induction false} ListsFromPostings(postings: map<string, set<string>>, items: seq<Artifact>)
    requires PostingsFor(postings, items)
    ensures (map token | token in postings :: SortedIds(postings[token])) == Lists(items)
  {
  }

  // ---- What a built index means ----

  function PostingsOf(ix: Contents, token: string): seq<string> {
    if token in ix.inverted then ix.inverted[token] else []
  }

  /** The posting list of a token names exactly the artifacts that have it. */
  ghost predicate ExactPostings(ix: Contents) {
    forall token, id :: id in PostingsOf(ix, token) <==> Has(ix, id, token)
  }

  predicate Has(ix: Contents, id: string, token: string) {
    id in ix.artifacts && token in ix.artifacts[id].tokenFreq
  }

  /** No feature has a token that the last feature of the same id lacks. */
  predicate NothingForgotten(items: seq<Artifact>) {
    forall a | a in items :: a.id in Latest(items) && a.tokenFreq.Keys <= Latest(items)[a.id].tokenFreq.Keys
  }

  predicate DistinctArtifacts(items: seq<Artifact>) {
    forall i, j | 0 <= i < j < |items| :: items[i].id != items[j].id
  }

  lemma {:induction false} LatestLaws(items: seq<Artifact>)
    ensures forall id | id in Latest(items) :: Latest(items)[id] in items && Latest(items)[id].id == id
    ensures forall a | a in items :: a.id in Latest(items)
    ensures DistinctArtifacts(items) ==> forall a | a in items :: Latest(items)[a.id] == a
  {
    if items != [] {
      var rest, last := items[..|items| - 1], items[|items| - 1];
      LatestLaws(rest);
      assert forall a :: a in items <==> a in rest || a == last;
      if DistinctArtifacts(items) {
        assert forall a | a in rest :: a.id != last.id;
      }
    }
  }

  /** The feature kept for an id is the last one given, and an id is known when some feature has it. */
  lemma {:induction false} LatestIsLast(items: seq<Artifact>, i: nat)
    requires i < |items| && forall j | i < j < |items| :: items[j].id != items[i].id
    ensures items[i].id in Latest(items) && Latest(items)[items[i].id] == items[i]
    ensures forall id | id in Latest(items) :: exists k :: 0 <= k < |items| && items[k].id == id
  {
    LatestLaws(items);
    var rest := items[..|items| - 1];
    if i < |items| - 1 {
      LatestIsLast(rest, i);
    }
  }

  /** The length of all features is counted one by one. */
  lemma {:induction false} TotalLengthIs(items: seq<Artifact>, a: Artifact)
    ensures TotalLength([]) == 0 && TotalLength(items + [a]) == TotalLength(items) + Total(a.tokenFreq)
  {
    hide Latest, Total;
    NothingBuilt();
    LatestSnoc(items, a);
  }

  /** The average length times the number of ids is the length of all features. */
  lemma {:induction false} AverageIs(items: seq<Artifact>)
    requires items != []
    ensures Average(items) * |set a | a in items :: a.id| as real == TotalLength(items) as real
  {
    hide Latest, TotalLength, Quotient;
    LatestLaws(items);
    assert items[0] in items;
    assert Latest(items).Keys == set a | a in items :: a.id;
    assert |Latest(items).Keys| == |Latest(items)|;
    QuotientTimes(TotalLength(items), |Latest(items)|);
  }

  lemma QuotientTimes(a: nat, b: nat)
    requires b > 0
    ensures Quotient(a, b) * b as real == a as real
  {
  }

  lemma {:induction false} PostedIff(ix: Contents, items: seq<Artifact>, token: string, id: string)
    requires BuiltFrom(ix, items)
    ensures id in PostingsOf(ix, token) <==> id in Posted(items, token)
  {
    SortedIdsLaws(Posted(items, token));
    assert token !in Vocabulary(items) ==> Posted(items, token) == {};
  }

  /** `build` overwrites an artifact of a repeated id but keeps its old postings; the posting lists
      are exact exactly when that forgets no token. Distinct ids are one way to meet this. */
  lemma {:induction false} ExactPostingsIff(ix: Contents, items: seq<Artifact>)
    requires BuiltFrom(ix, items)
    ensures ExactPostings(ix) <==> NothingForgotten(items)
    ensures DistinctArtifacts(items) ==> ExactPostings(ix)
  {
    hide PostingsOf, BuiltFrom, Latest;
    LatestLaws(items);
    assert ix.artifacts == Latest(items) by { BuiltArtifacts(ix, items); }
    forall token, id ensures id in PostingsOf(ix, token) <==> id in Posted(items, token) {
      PostedIff(ix, items, token, id);
    }
    if NothingForgotten(items) {
      forall token, id ensures id in PostingsOf(ix, token) <==> Has(ix, id, token) {
        if id in Posted(items, token) {
          var a :| a in items && token in a.tokenFreq && a.id == id;
        }
      }
    }
    if ExactPostings(ix) {
      forall a | a in items ensures a.tokenFreq.Keys <= Latest(items)[a.id].tokenFreq.Keys {
        forall token | token in a.tokenFreq ensures token in Latest(items)[a.id].tokenFreq {
          assert a.id in Posted(items, token);
          assert a.id in PostingsOf(ix, token);
          assert Has(ix, a.id, token);
        }
      }
    }
  }

  lemma BuiltArtifacts(ix: Contents, items: seq<Artifact>)
    requires BuiltFrom(ix, items)
    ensures ix.artifacts == Latest(items)
  {
  }

  /** A posting list has no repeats, so a document frequency counts artifacts: never more than there are. */
  lemma {:induction false} FrequencyCounts(ix: Contents, items: seq<Artifact>, token: string)
    requires BuiltFrom(ix, items) && token in ix.inverted
    ensures token in ix.frequency
    ensures ix.frequency[token] == |Posted(items, token)|
    ensures 0 < ix.frequency[token] <= |ix.artifacts|
  {
    LatestLaws(items);
    SortedIdsLaws(Posted(items, token));
    assert token in Vocabulary(items);
    var a :| a in items && token in a.tokenFreq;
    assert a.id in Posted(items, token);
    assert Posted(items, token) <= ix.artifacts.Keys;
    SubsetSize(Posted(items, token), ix.artifacts.Keys);
    assert |ix.artifacts.Keys| == |ix.artifacts|;
  }

  lemma SubsetSize<T>(a: set<T>, b: set<T>)
    requires a <= b
    ensures |a| <= |b|
  {
    assert b == a + (b - a);
    assert |b| == |a| + |b - a|;
  }

  /** The average length is positive as soon as some artifact has a counted token. */
  lemma {:induction false} AveragePositive(items: seq<Artifact>, a: Artifact, token: string)
    requires a in items && token in a.tokenFreq && a.tokenFreq[token] > 0
    ensures Average(items) > 0.0
  {
    hide Latest, TotalLength;
    LatestLaws(items);
    TotalLengthPositive(items, a, token);
    assert a.id in Latest(items);
  }

  lemma {:induction false} TotalLengthPositive(items: seq<Artifact>, a: Artifact, token: string)
    requires a in items && token in a.tokenFreq && a.tokenFreq[token] > 0
    ensures TotalLength(items) > 0
  {
    var rest, last := items[..|items| - 1], items[|items| - 1];
    if a == last {
      TotalAtLeast(a.tokenFreq, token);
    } else {
      assert a in rest;
      TotalLengthPositive(rest, a, token);
    }
  }
}
