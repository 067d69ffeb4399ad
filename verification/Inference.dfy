/** Inverse and two-hop inference and the classification built on them (src/vcse/inference/inverse.py,
    transitive.py, benchmark_inference_classification.py). */
module Inference {
  import opened Text

  datatype Claim = Claim(subject: string, relation: string, obj: string)

  /** `KnowledgeClaim.key` */
  function Key(c: Claim): string {
    c.subject + "|" + c.relation + "|" + c.obj
  }

  function KeySet(claims: seq<Claim>): set<string> {
    set c | c in claims :: Key(c)
  }

  /** An inferred claim and the keys of the claims it was derived from. */
  datatype Inferred = Inferred(claim: Claim, derivedFrom: seq<string>)

  function ClaimsOf(xs: seq<Inferred>): (cs: seq<Claim>)
    ensures |cs| == |xs| && forall i | 0 <= i < |xs| :: cs[i] == xs[i].claim
  {
    seq(|xs|, i requires 0 <= i < |xs| => xs[i].claim)
  }

  // ---- Keys ----

  predicate PipeFree(c: Claim) {
    '|' !in c.subject && '|' !in c.relation && '|' !in c.obj
  }

  predicate AllPipeFree(claims: seq<Claim>) {
    forall c | c in claims :: PipeFree(c)
  }

  /** Subject and object hold no pipe; the relation may. */
  predicate OuterPipeFree(c: Claim) {
    '|' !in c.subject && '|' !in c.obj
  }

  predicate AllOuterPipeFree(claims: seq<Claim>) {
    forall c | c in claims :: OuterPipeFree(c)
  }

  /** The key of a claim without pipes is no other claim's, whatever fields that has; and keys tell
      claims apart whose subjects and objects hold no pipe. */
  lemma {:induction false} KeyInjective(a: Claim, b: Claim)
    requires Key(a) == Key(b)
    requires PipeFree(a) || PipeFree(b) || (OuterPipeFree(a) && OuterPipeFree(b))
    ensures a == b
  {
    if PipeFree(a) || PipeFree(b) {
      PipeFreeShared(a, b);
    }
    SplitKey(a.subject, a.relation, a.obj, b.subject, b.relation, b.obj);
  }

  /** Claims with the same key hold the same number of pipes. */
  lemma {:induction false} PipeFreeShared(a: Claim, b: Claim)
    requires Key(a) == Key(b)
    ensures PipeFree(a) <==> PipeFree(b)
  {
    hide Pipes;
    KeyPipes(a.subject, a.relation, a.obj);
    KeyPipes(b.subject, b.relation, b.obj);
    NoPipesIff(a.subject);
    NoPipesIff(a.relation);
    NoPipesIff(a.obj);
    NoPipesIff(b.subject);
    NoPipesIff(b.relation);
    NoPipesIff(b.obj);
  }

  // ---- First occurrences of new keys ----

  /** The candidates whose keys are new, in order: neither seen before nor produced already. */
  function Novel(candidates: seq<Inferred>, seen: set<string>): seq<Inferred>
    decreases |candidates|
  {
    if candidates == [] then []
    else
      var key := Key(candidates[0].claim);
      if key in seen then Novel(candidates[1..], seen)
      else [candidates[0]] + Novel(candidates[1..], seen + {key})
  }

  lemma {:induction false} NovelMembers(candidates: seq<Inferred>, seen: set<string>)
    ensures forall x | x in Novel(candidates, seen) :: x in candidates && Key(x.claim) !in seen
    decreases |candidates|
  {
    hide Key;
    if candidates != [] {
      var key := Key(candidates[0].claim);
      assert candidates == [candidates[0]] + candidates[1..];
      NovelMembers(candidates[1..], if key in seen then seen else seen + {key});
    }
  }

  predicate DistinctKeys(xs: seq<Inferred>) {
    forall i, j | 0 <= i < j < |xs| :: Key(xs[i].claim) != Key(xs[j].claim)
  }

  lemma {:induction false} NovelDistinct(candidates: seq<Inferred>, seen: set<string>)
    ensures DistinctKeys(Novel(candidates, seen))
    decreases |candidates|
  {
    hide Key;
    if candidates != [] {
      var head, tail := candidates[0], candidates[1..];
      var key := Key(head.claim);
      if key in seen {
        NovelDistinct(tail, seen);
      } else {
        NovelDistinct(tail, seen + {key});
        NovelMembers(tail, seen + {key});
        var rest := Novel(tail, seen + {key});
        assert forall i | 0 <= i < |rest| :: rest[i] in rest;
      }
    }
  }

  lemma {:induction false} HasKeyCons(x: Inferred, xs: seq<Inferred>, key: string)
    ensures HasKey([x] + xs, key) <==> Key(x.claim) == key || HasKey(xs, key)
  {
    hide Key;
    var all := [x] + xs;
    assert all[0] == x && forall i | 0 <= i < |xs| :: all[i + 1] == xs[i];
  }

  lemma {:induction false} NovelCovers(candidates: seq<Inferred>, seen: set<string>, x: Inferred)
    requires x in candidates
    ensures Key(x.claim) in seen || HasKey(Novel(candidates, seen), Key(x.claim))
    decreases |candidates|
  {
    hide Key, HasKey;
    var head, tail := candidates[0], candidates[1..];
    var key := Key(head.claim);
    assert candidates == [head] + tail;
    if key !in seen {
      HasKeyCons(head, Novel(tail, seen + {key}), Key(x.claim));
    }
    if x in tail {
      NovelCovers(tail, if key in seen then seen else seen + {key}, x);
    }
  }

  lemma {:induction false} NovelLaws(candidates: seq<Inferred>, seen: set<string>)
    ensures forall x | x in Novel(candidates, seen) :: x in candidates && Key(x.claim) !in seen
    ensures DistinctKeys(Novel(candidates, seen))
    ensures forall x | x in candidates :: Key(x.claim) in seen || HasKey(Novel(candidates, seen), Key(x.claim))
  {
    hide Key, HasKey, Novel, DistinctKeys;
    NovelMembers(candidates, seen);
    NovelDistinct(candidates, seen);
    forall x | x in candidates ensures Key(x.claim) in seen || HasKey(Novel(candidates, seen), Key(x.claim)) {
      NovelCovers(candidates, seen, x);
    }
  }

  predicate HasKey(xs: seq<Inferred>, key: string) {
    exists i | 0 <= i < |xs| :: Key(xs[i].claim) == key
  }

  // ---- Inverse ----

  /** The inverse of a relation, where the ontology names one. */
  type InverseMap = map<string, string>

  function InverseOf(c: Claim, inverses: InverseMap): seq<Inferred> {
    if c.relation in inverses && inverses[c.relation] != c.relation then
      [Inferred(Claim(c.obj, inverses[c.relation], c.subject), [Key(c)])]
    else []
  }

  function InverseCandidates(claims: seq<Claim>, inverses: InverseMap): seq<Inferred> {
    if claims == [] then [] else InverseOf(claims[0], inverses) + InverseCandidates(claims[1..], inverses)
  }

  /** `infer_inverse_claims` */
  method InferInverse(claims: seq<Claim>, inverses: InverseMap) returns (inferred: seq<Inferred>)
    ensures inferred == Novel(InverseCandidates(claims, inverses), KeySet(claims))
  {
    hide Key;
    var explicitKeys := KeySet(claims);
    var inferredKeys: set<string> := {};
    inferred := [];
    assert explicitKeys + inferredKeys == explicitKeys && claims[0..] == claims;
    for i := 0 to |claims|
      invariant inferred + Novel(InverseCandidates(claims[i..], inverses), explicitKeys + inferredKeys)
             == Novel(InverseCandidates(claims, inverses), explicitKeys)
    {
      var c := claims[i];
      InverseStep(claims, i, inverses, inferred, explicitKeys + inferredKeys);
      if c.relation !in inverses { continue; }
      if inverses[c.relation] == c.relation { continue; }
      var x := Inferred(Claim(c.obj, inverses[c.relation], c.subject), [Key(c)]);
      if Key(x.claim) in explicitKeys || Key(x.claim) in inferredKeys { continue; }
      inferred := inferred + [x];
      inferredKeys := inferredKeys + {Key(x.claim)};
      assert explicitKeys + inferredKeys == explicitKeys + (inferredKeys - {Key(x.claim)}) + {Key(x.claim)};
    }
  }

  lemma {:induction false} InverseStep(
      claims: seq<Claim>, i: nat, inverses: InverseMap, done: seq<Inferred>, seen: set<string>)
    requires i < |claims|
    ensures var next := InverseCandidates(claims[i + 1..], inverses);
      var here := InverseOf(claims[i], inverses);
      done + Novel(InverseCandidates(claims[i..], inverses), seen) ==
      (if here == [] || Key(here[0].claim) in seen then done + Novel(next, seen)
       else (done + here) + Novel(next, seen + {Key(here[0].claim)}))
  {
    hide Key;
    var rest := claims[i..];
    assert rest[0] == claims[i] && rest[1..] == claims[i + 1..];
    var here, next := InverseOf(claims[i], inverses), InverseCandidates(claims[i + 1..], inverses);
    assert InverseCandidates(rest, inverses) == here + next;
    if here == [] {
      assert here + next == next;
    } else {
      assert (here + next)[0] == here[0] && (here + next)[1..] == next;
    }
  }

  // ---- Two hops ----

  predicate CanFollow(first: Claim, second: Claim, relation: string) {
    Lower(first.obj) == Lower(second.subject) && Lower(second.relation) == relation
  }

  function FiledHere(c: Claim, subject: string, relation: string): seq<Claim> {
    if Lower(c.subject) == subject && Lower(c.relation) == relation then [c] else []
  }

  /** The claims filed under a subject and a relation, ignoring case, in order. */
  function Filed(claims: seq<Claim>, subject: string, relation: string): seq<Claim> {
    if claims == [] then []
    else Filed(claims[..|claims| - 1], subject, relation) +
         FiledHere(claims[|claims| - 1], subject, relation)
  }

  function Seconds(claims: seq<Claim>, first: Claim): seq<Claim> {
    Filed(claims, Lower(first.obj), "part_of") + Filed(claims, Lower(first.obj), "located_in_region")
  }

  function Joined(first: Claim, second: Claim): Inferred {
    Inferred(Claim(first.subject, "located_in_region", second.obj), [Key(first), Key(second)])
  }

  function JoinedAll(first: Claim, seconds: seq<Claim>): (xs: seq<Inferred>)
    ensures |xs| == |seconds| && forall i | 0 <= i < |xs| :: xs[i] == Joined(first, seconds[i])
  {
    seq(|seconds|, i requires 0 <= i < |seconds| => Joined(first, seconds[i]))
  }

  function HopsFrom(first: Claim, claims: seq<Claim>): seq<Inferred> {
    if first.relation == "located_in_country" then JoinedAll(first, Seconds(claims, first)) else []
  }

  function TwoHops(firsts: seq<Claim>, claims: seq<Claim>): seq<Inferred> {
    if firsts == [] then [] else HopsFrom(firsts[0], claims) + TwoHops(firsts[1..], claims)
  }

  function InferredHops(claims: seq<Claim>): seq<Inferred> {
    Novel(TwoHops(claims, claims), KeySet(claims))
  }

  type HopIndex = map<(string, string), seq<Claim>>

  function FiledIn(index: HopIndex, subject: string, relation: string): seq<Claim> {
    if (subject, relation) in index then index[(subject, relation)] else []
  }

  ghost predicate Indexes(index: HopIndex, claims: seq<Claim>) {
    forall s, r :: FiledIn(index, s, r) == Filed(claims, s, r)
  }

  method BuildIndex(claims: seq<Claim>) returns (index: HopIndex)
    ensures Indexes(index, claims)
  {
    hide Lower, Indexes, Filed, FiledIn;
    index := map[];
    NothingFiled();
    for i := 0 to |claims|
      invariant Indexes(index, claims[..i])
    {
      var c := claims[i];
      var slot := (Lower(c.subject), Lower(c.relation));
      IndexNext(index, claims[..i], c);
      index := index[slot := FiledIn(index, slot.0, slot.1) + [c]];
      assert claims[..i + 1] == claims[..i] + [c];
    }
    assert claims[..|claims|] == claims;
  }

  lemma NothingFiled()
    ensures Indexes(map[], [])
  {
  }

  lemma {:induction false} IndexNext(index: HopIndex, claims: seq<Claim>, c: Claim)
    requires Indexes(index, claims)
    ensures var slot := (Lower(c.subject), Lower(c.relation));
      Indexes(index[slot := FiledIn(index, slot.0, slot.1) + [c]], claims + [c])
  {
    hide Lower;
    var all := claims + [c];
    assert all[..|all| - 1] == claims;
    var slot := (Lower(c.subject), Lower(c.relation));
    var next := index[slot := FiledIn(index, slot.0, slot.1) + [c]];
    forall s, r ensures FiledIn(next, s, r) == Filed(all, s, r) {
      assert FiledIn(index, s, r) == Filed(claims, s, r);
    }
  }

  /** `infer_transitive_claims` */
  method InferTransitive(claims: seq<Claim>) returns (inferred: seq<Inferred>)
    ensures inferred == InferredHops(claims)
  {
    hide Key, Filed, Novel, Joined, Seconds;
    var explicitKeys := KeySet(claims);
    var inferredKeys: set<string> := {};
    var index := BuildIndex(claims);
    inferred := [];
    assert explicitKeys + inferredKeys == explicitKeys && claims[0..] == claims;
    for i := 0 to |claims|
      invariant inferred + Novel(TwoHops(claims[i..], claims), explicitKeys + inferredKeys) == InferredHops(claims)
    {
      var first := claims[i];
      ghost var later := TwoHops(claims[i + 1..], claims);
      TwoHopsFirst(claims, i);
      if first.relation != "located_in_country" {
        continue;
      }
      var seconds :=
        FiledIn(index, Lower(first.obj), "part_of") + FiledIn(index, Lower(first.obj), "located_in_region");
      IndexedSeconds(index, claims, first);
      inferred, inferredKeys := JoinWith(first, seconds, explicitKeys, inferred, inferredKeys, later);
    }
    NovelNothing(explicitKeys + inferredKeys);
  }

  /** The inner loop: one first claim against its second candidates. */
  method JoinWith(
      first: Claim, seconds: seq<Claim>, explicitKeys: set<string>, before: seq<Inferred>, keysBefore: set<string>,
      ghost later: seq<Inferred>)
    returns (inferred: seq<Inferred>, inferredKeys: set<string>)
    ensures inferred + Novel(later, explicitKeys + inferredKeys)
         == before + Novel(JoinedAll(first, seconds) + later, explicitKeys + keysBefore)
  {
    hide Key, Novel, Joined;
    inferred, inferredKeys := before, keysBefore;
    assert seconds[0..] == seconds;
    for k := 0 to |seconds|
      invariant inferred + Novel(JoinedAll(first, seconds[k..]) + later, explicitKeys + inferredKeys)
             == before + Novel(JoinedAll(first, seconds) + later, explicitKeys + keysBefore)
    {
      var x := Joined(first, seconds[k]);
      var key := Key(x.claim);
      HopStep(first, seconds, k, later, inferred, explicitKeys + inferredKeys);
      if key in explicitKeys || key in inferredKeys { continue; }
      inferred := inferred + [x];
      assert explicitKeys + (inferredKeys + {key}) == explicitKeys + inferredKeys + {key};
      inferredKeys := inferredKeys + {key};
    }
    assert JoinedAll(first, seconds[|seconds|..]) + later == later;
  }

  lemma {:induction false} TwoHopsFirst(claims: seq<Claim>, i: nat)
    requires i < |claims|
    ensures TwoHops(claims[i..], claims) == HopsFrom(claims[i], claims) + TwoHops(claims[i + 1..], claims)
    ensures claims[i].relation != "located_in_country" ==>
      TwoHops(claims[i..], claims) == TwoHops(claims[i + 1..], claims)
  {
    hide Seconds, Joined;
    assert claims[i..][0] == claims[i] && claims[i..][1..] == claims[i + 1..];
    assert [] + TwoHops(claims[i + 1..], claims) == TwoHops(claims[i + 1..], claims);
  }

  lemma IndexedSeconds(index: HopIndex, claims: seq<Claim>, first: Claim)
    requires Indexes(index, claims)
    ensures FiledIn(index, Lower(first.obj), "part_of") + FiledIn(index, Lower(first.obj), "located_in_region") ==
      Seconds(claims, first)
  {
  }

  lemma NovelNothing(seen: set<string>)
    ensures Novel([], seen) == []
  {
  }

  lemma {:induction false} HopStep(
      first: Claim, seconds: seq<Claim>, k: nat, later: seq<Inferred>, done: seq<Inferred>, seen: set<string>)
    requires k < |seconds|
    ensures var x := Joined(first, seconds[k]);
      done + Novel(JoinedAll(first, seconds[k..]) + later, seen) ==
      (if Key(x.claim) in seen then done + Novel(JoinedAll(first, seconds[k + 1..]) + later, seen)
       else (done + [x]) + Novel(JoinedAll(first, seconds[k + 1..]) + later, seen + {Key(x.claim)}))
  {
    hide Key, Joined;
    var all := JoinedAll(first, seconds[k..]) + later;
    assert seconds[k..][0] == seconds[k];
    assert all[0] == Joined(first, seconds[k]);
    assert all[1..] == JoinedAll(first, seconds[k + 1..]) + later;
  }

  // ---- What the join returns ----

  /** The two approved chains. */
  predicate Chain(first: Claim, second: Claim) {
    first.relation == "located_in_country"
    && (CanFollow(first, second, "part_of") || CanFollow(first, second, "located_in_region"))
  }

  lemma {:induction false} FiledIff(claims: seq<Claim>, subject: string, relation: string, c: Claim)
    ensures c in Filed(claims, subject, relation) <==>
      c in claims && Lower(c.subject) == subject && Lower(c.relation) == relation
  {
    hide Lower;
    if claims != [] {
      var init := claims[..|claims| - 1];
      FiledIff(init, subject, relation, c);
      assert claims == init + [claims[|claims| - 1]];
    }
  }

  lemma {:induction false} HopsFromIff(first: Claim, claims: seq<Claim>, x: Inferred)
    ensures x in HopsFrom(first, claims) <==>
      exists second | second in claims :: Chain(first, second) && x == Joined(first, second)
  {
    hide Lower, Filed, Joined;
    var seconds := Seconds(claims, first);
    forall c ensures c in seconds <==>
      c in claims && (CanFollow(first, c, "part_of") || CanFollow(first, c, "located_in_region")) {
      FiledIff(claims, Lower(first.obj), "part_of", c);
      FiledIff(claims, Lower(first.obj), "located_in_region", c);
    }
    if x in HopsFrom(first, claims) {
      var i :| 0 <= i < |seconds| && HopsFrom(first, claims)[i] == x;
      assert seconds[i] in seconds;
    }
    if second :| second in claims && Chain(first, second) && x == Joined(first, second) {
      assert second in seconds;
      var i :| 0 <= i < |seconds| && seconds[i] == second;
      assert HopsFrom(first, claims)[i] == x;
    }
  }

  lemma {:induction false} TwoHopsIff(firsts: seq<Claim>, claims: seq<Claim>, x: Inferred)
    ensures x in TwoHops(firsts, claims) <==>
      exists first, second | first in firsts && second in claims :: Chain(first, second) && x == Joined(first, second)
  {
    hide Chain, Joined, HopsFrom;
    if firsts != [] {
      TwoHopsIff(firsts[1..], claims, x);
      HopsFromIff(firsts[0], claims, x);
      assert firsts == [firsts[0]] + firsts[1..];
    }
  }

  /** The keys the join returns are exactly those of all two-claim chains, less the explicit ones;
      no key comes twice, and each claim carries the keys of two explicit witnesses. */
  lemma {:induction false} JoinIsBruteForce(claims: seq<Claim>)
    ensures var out := InferredHops(claims);
      && (forall key :: HasKey(out, key) <==>
           key !in KeySet(claims) &&
           exists first, second | first in claims && second in claims ::
             Chain(first, second) && key == Key(Joined(first, second).claim))
      && DistinctKeys(out)
      && (forall x | x in out :: exists first, second | first in claims && second in claims ::
           Chain(first, second) && x == Joined(first, second))
  {
    hide Key, Joined, Chain, Novel;
    var out := InferredHops(claims);
    NovelLaws(TwoHops(claims, claims), KeySet(claims));
    forall x | x in out
      ensures exists first, second | first in claims && second in claims ::
        Chain(first, second) && x == Joined(first, second)
    {
      TwoHopsIff(claims, claims, x);
    }
    forall key
      ensures HasKey(out, key) <==>
        key !in KeySet(claims) &&
        exists first, second | first in claims && second in claims ::
          Chain(first, second) && key == Key(Joined(first, second).claim)
    {
      if HasKey(out, key) {
        var i :| 0 <= i < |out| && Key(out[i].claim) == key;
        assert out[i] in out;
      }
      if first, second :|
        first in claims && second in claims && Chain(first, second) && key == Key(Joined(first, second).claim) {
        TwoHopsIff(claims, claims, Joined(first, second));
      }
    }
  }

  /** With pipe-free fields the same holds of the claims themselves. */
  lemma {:induction false} JoinIsBruteForceOnTriples(claims: seq<Claim>, c: Claim)
    requires AllPipeFree(claims)
    ensures c in ClaimsOf(InferredHops(claims)) <==>
      c !in claims && exists first, second | first in claims && second in claims ::
        Chain(first, second) && c == Joined(first, second).claim
  {
    hide Key, Chain, InferredHops;
    JoinIsBruteForce(claims);
    var out := InferredHops(claims);
    if c in ClaimsOf(out) {
      var i :| 0 <= i < |out| && out[i].claim == c;
      assert out[i] in out && HasKey(out, Key(c));
    }
    if first, second :|
      first in claims && second in claims && Chain(first, second) && c == Joined(first, second).claim {
      assert PipeFree(c);
      if c !in claims {
        if Key(c) in KeySet(claims) {
          var d :| d in claims && Key(d) == Key(c);
          KeyInjective(c, d);
        }
        assert HasKey(out, Key(c));
        var i :| 0 <= i < |out| && Key(out[i].claim) == Key(c);
        assert out[i] in out;
        var f, s :| f in claims && s in claims && Chain(f, s) && out[i] == Joined(f, s);
        KeyInjective(c, out[i].claim);
        assert ClaimsOf(out)[i] == c;
      }
    }
  }

  /** `second` carries `first` on: from a country to what holds it, the names compared without case. */
  predicate Continues(first: Claim, second: Claim) {
    && first.relation == "located_in_country" && Lower(first.obj) == Lower(second.subject)
    && Lower(second.relation) in {"part_of", "located_in_region"}
  }

  /** The first claim's subject is in the second claim's region, and both keys are the witnesses. */
  predicate ConcludesFrom(x: Inferred, first: Claim, second: Claim) {
    && x.claim.subject == first.subject && x.claim.relation == "located_in_region" && x.claim.obj == second.obj
    && x.derivedFrom == [first.subject + "|" + first.relation + "|" + first.obj,
                         second.subject + "|" + second.relation + "|" + second.obj]
  }

  predicate ConcludedBy(claims: seq<Claim>, x: Inferred) {
    exists first, second | first in claims && second in claims ::
      Continues(first, second) && ConcludesFrom(x, first, second)
  }

  lemma {:induction false} HopIs(first: Claim, second: Claim)
    ensures Chain(first, second) <==> Continues(first, second)
    ensures ConcludesFrom(Joined(first, second), first, second)
    ensures Key(Joined(first, second).claim) == first.subject + "|" + "located_in_region" + "|" + second.obj
  {
    hide Lower;
  }

  /** The inferred hops in the claims' own fields: each concludes from two claims, none repeats a claim or another
      hop, and every conclusion is there or known, up to its key. */
  lemma {:induction false} HopsAre(claims: seq<Claim>)
    ensures var out := InferredHops(claims);
      && (forall x | x in out :: ConcludedBy(claims, x) && x.claim !in claims)
      && (forall i, j | 0 <= i < j < |out| :: out[i].claim != out[j].claim)
      && forall first, second | first in claims && second in claims && Continues(first, second) ::
           var key := first.subject + "|" + "located_in_region" + "|" + second.obj;
           key in KeySet(claims) || key in KeySet(ClaimsOf(out))
  {
    hide Key, Chain, Continues, ConcludesFrom, InferredHops, Joined;
    JoinIsBruteForce(claims);
    var out := InferredHops(claims);
    forall x | x in out ensures ConcludedBy(claims, x) && x.claim !in claims {
      var first, second :| first in claims && second in claims && Chain(first, second) && x == Joined(first, second);
      HopIs(first, second);
      assert HasKey(out, Key(x.claim)) by { SomePlace(out, x); }
      assert Key(x.claim) !in KeySet(claims);
    }
    forall first, second | first in claims && second in claims && Continues(first, second)
      ensures var key := first.subject + "|" + "located_in_region" + "|" + second.obj;
        key in KeySet(claims) || key in KeySet(ClaimsOf(out))
    {
      HopIs(first, second);
      var key := Key(Joined(first, second).claim);
      if HasKey(out, key) {
        var i :| 0 <= i < |out| && Key(out[i].claim) == key;
        assert ClaimsOf(out)[i] in ClaimsOf(out);
      }
    }
  }

  lemma SomePlace(xs: seq<Inferred>, x: Inferred)
    requires x in xs
    ensures exists i | 0 <= i < |xs| :: Key(xs[i].claim) == Key(x.claim)
  {
    hide Key;
    var i :| 0 <= i < |xs| && xs[i] == x;
    assert Key(xs[i].claim) == Key(x.claim);
  }

  /** `x` is the claim turned round under the relation's inverse, witnessed by the claim. */
  predicate Turned(x: Inferred, c: Claim, inverses: InverseMap) {
    && c.relation in inverses && inverses[c.relation] != c.relation
    && x.claim.subject == c.obj && x.claim.relation == inverses[c.relation] && x.claim.obj == c.subject
    && x.derivedFrom == [c.subject + "|" + c.relation + "|" + c.obj]
  }

  lemma {:induction false} TurnedIff(x: Inferred, c: Claim, inverses: InverseMap)
    ensures Turned(x, c, inverses) <==> InverseOf(c, inverses) == [x]
  {
  }

  /** The inferred inverses in the claims' own fields. */
  lemma {:induction false} InversesAre(claims: seq<Claim>, inverses: InverseMap)
    ensures var out := Novel(InverseCandidates(claims, inverses), KeySet(claims));
      && (forall x | x in out :: x.claim !in claims && exists c | c in claims :: Turned(x, c, inverses))
      && (forall i, j | 0 <= i < j < |out| :: out[i].claim != out[j].claim)
      && forall c, x | c in claims && Turned(x, c, inverses) ::
           Key(x.claim) in KeySet(claims) || Key(x.claim) in KeySet(ClaimsOf(out))
  {
    hide Key, InverseOf, Turned, Novel;
    var candidates := InverseCandidates(claims, inverses);
    NovelLaws(candidates, KeySet(claims));
    var out := Novel(candidates, KeySet(claims));
    forall x | x in out ensures x.claim !in claims && exists c | c in claims :: Turned(x, c, inverses) {
      InverseCandidatesIff(claims, inverses, x);
      var c :| c in claims && InverseOf(c, inverses) == [x];
      TurnedIff(x, c, inverses);
    }
    forall c, x | c in claims && Turned(x, c, inverses)
      ensures Key(x.claim) in KeySet(claims) || Key(x.claim) in KeySet(ClaimsOf(out))
    {
      TurnedIff(x, c, inverses);
      InverseCandidatesIff(claims, inverses, x);
      if HasKey(out, Key(x.claim)) {
        var i :| 0 <= i < |out| && Key(out[i].claim) == Key(x.claim);
        assert ClaimsOf(out)[i] in ClaimsOf(out);
      }
    }
  }

  // ---- Feeding the output back ----

  /** Every claim reached by one more hop from an inferred claim is already there. */
  predicate OutputClosed(claims: seq<Claim>) {
    forall first, x | first in claims && x in InferredHops(claims) ::
      first.relation == "located_in_country" && Lower(first.obj) == Lower(x.claim.subject) ==>
      Key(Claim(first.subject, "located_in_region", x.claim.obj)) in KeySet(claims + ClaimsOf(InferredHops(claims)))
  }

  /** No located_in_country object is, ignoring case, itself a located_in_country subject. */
  predicate NoCountryInCountry(claims: seq<Claim>) {
    forall a, b | a in claims && b in claims :: a.relation == b.relation == "located_in_country" ==>
      Lower(a.obj) != Lower(b.subject)
  }

  lemma {:induction false} OutputRelations(claims: seq<Claim>)
    ensures forall c | c in ClaimsOf(InferredHops(claims)) :: c.relation == "located_in_region"
  {
    hide InferredHops, Chain, Key;
    JoinIsBruteForce(claims);
    var out := InferredHops(claims);
    forall c | c in ClaimsOf(out) ensures c.relation == "located_in_region" {
      var i :| 0 <= i < |out| && out[i].claim == c;
      assert out[i] in out;
    }
  }

  lemma {:induction false} SecondRoundChain(claims: seq<Claim>, first: Claim, second: Claim)
    requires first in claims + ClaimsOf(InferredHops(claims)) && second in claims + ClaimsOf(InferredHops(claims))
    requires Chain(first, second)
    ensures first in claims
    ensures second in claims ==> Key(Joined(first, second).claim) in KeySet(claims + ClaimsOf(InferredHops(claims)))
    ensures second !in claims ==>
      exists x | x in InferredHops(claims) :: second == x.claim && Lower(first.obj) == Lower(x.claim.subject)
  {
    hide Key, InferredHops, Lower;
    var out := InferredHops(claims);
    JoinIsBruteForce(claims);
    OutputRelations(claims);
    if second in claims {
      var key := Key(Joined(first, second).claim);
      if key !in KeySet(claims) {
        assert HasKey(out, key);
        var i :| 0 <= i < |out| && Key(out[i].claim) == key;
        assert ClaimsOf(out)[i] in claims + ClaimsOf(out);
      } else {
        var d :| d in claims && Key(d) == key;
        assert d in claims + ClaimsOf(out);
      }
    } else {
      var i :| 0 <= i < |out| && out[i].claim == second;
      assert out[i] in out;
    }
  }

  lemma {:induction false} SecondRoundFromOutput(claims: seq<Claim>)
    ensures InferredHops(claims + ClaimsOf(InferredHops(claims))) == [] <==> OutputClosed(claims)
    ensures NoCountryInCountry(claims) ==> OutputClosed(claims)
  {
    hide Key, InferredHops, Lower;
    var out := InferredHops(claims);
    var all := claims + ClaimsOf(out);
    JoinIsBruteForce(claims);
    JoinIsBruteForce(all);
    if InferredHops(all) != [] {
      var x := InferredHops(all)[0];
      assert x in InferredHops(all) && HasKey(InferredHops(all), Key(x.claim));
      var first, second :| first in all && second in all && Chain(first, second) && x == Joined(first, second);
      SecondRoundChain(claims, first, second);
      assert !OutputClosed(claims);
    } else {
      forall first, x | first in claims && x in out && first.relation == "located_in_country" &&
        Lower(first.obj) == Lower(x.claim.subject)
        ensures Key(Claim(first.subject, "located_in_region", x.claim.obj)) in KeySet(all)
      {
        ThirdHop(claims, first, x);
        var i :| 0 <= i < |out| && out[i] == x;
        assert ClaimsOf(out)[i] in all;
        assert Chain(first, x.claim);
        assert !HasKey(InferredHops(all), Key(Joined(first, x.claim).claim));
      }
    }
    if NoCountryInCountry(claims) {
      forall first, x | first in claims && x in out && first.relation == "located_in_country"
        ensures Lower(first.obj) != Lower(x.claim.subject)
      {
        var f, s :| f in claims && s in claims && Chain(f, s) && x == Joined(f, s);
      }
    }
  }

  lemma {:induction false} ThirdHop(claims: seq<Claim>, first: Claim, x: Inferred)
    requires x in InferredHops(claims) && first.relation == "located_in_country" &&
      Lower(first.obj) == Lower(x.claim.subject)
    ensures Chain(first, x.claim)
  {
    JoinIsBruteForce(claims);
    assert x.claim.relation == "located_in_region" && Lower("located_in_region") == "located_in_region";
  }

  /** The claim is explicit, or two explicit claims chain to it. */
  predicate WithinTwoHops(claims: seq<Claim>, c: Claim) {
    c in claims || exists first, second | first in claims && second in claims ::
      Chain(first, second) && c == Joined(first, second).claim
  }

  /** Three explicit claims, two of them located_in_country, lead nowhere that two do not. */
  predicate ThirdHopsReached(claims: seq<Claim>) {
    forall a, b, c | a in claims && b in claims && c in claims ::
      a.relation == "located_in_country" && Lower(a.obj) == Lower(b.subject) && Chain(b, c) ==>
      WithinTwoHops(claims, Claim(a.subject, "located_in_region", c.obj))
  }

  lemma {:induction false} KnownKeyIff(claims: seq<Claim>, c: Claim)
    requires AllOuterPipeFree(claims) && OuterPipeFree(c)
    ensures Key(c) in KeySet(claims + ClaimsOf(InferredHops(claims))) <==> WithinTwoHops(claims, c)
  {
    hide Key, Chain, InferredHops;
    JoinIsBruteForce(claims);
    var out := InferredHops(claims);
    var all := claims + ClaimsOf(out);
    if Key(c) in KeySet(all) {
      var d :| d in all && Key(d) == Key(c);
      OutputMember(claims, d);
      KeyInjective(c, d);
    }
    if c in claims {
      assert c in all;
    } else if WithinTwoHops(claims, c) && Key(c) !in KeySet(claims) {
      assert HasKey(out, Key(c));
      var i :| 0 <= i < |out| && Key(out[i].claim) == Key(c);
      assert ClaimsOf(out)[i] in all;
    } else if Key(c) in KeySet(claims) {
      var d :| d in claims && Key(d) == Key(c);
      assert d in all;
    }
  }

  lemma {:induction false} OutputMember(claims: seq<Claim>, d: Claim)
    requires d in claims + ClaimsOf(InferredHops(claims))
    ensures WithinTwoHops(claims, d)
    ensures AllOuterPipeFree(claims) ==> OuterPipeFree(d)
  {
    hide Key, Chain, InferredHops;
    if d !in claims {
      JoinIsBruteForce(claims);
      var out := InferredHops(claims);
      var i :| 0 <= i < |out| && out[i].claim == d;
      assert out[i] in out;
    }
  }

  /** A chain of explicit claims is inferred, unless its claim is explicit itself. */
  lemma {:induction false} ChainInferred(claims: seq<Claim>, b: Claim, c: Claim)
    requires AllOuterPipeFree(claims) && b in claims && c in claims && Chain(b, c)
    ensures Joined(b, c).claim in claims || exists x | x in InferredHops(claims) :: x.claim == Joined(b, c).claim
  {
    hide Key, Chain, InferredHops;
    var d := Joined(b, c).claim;
    assert WithinTwoHops(claims, d);
    KnownKeyIff(claims, d);
    var out := InferredHops(claims);
    var e :| e in claims + ClaimsOf(out) && Key(e) == Key(d);
    OutputMember(claims, e);
    KeyInjective(e, d);
    if e !in claims {
      var i :| 0 <= i < |out| && out[i].claim == e;
      assert out[i] in out;
    }
  }

  lemma {:induction false} OutputClosedIff(claims: seq<Claim>)
    requires AllOuterPipeFree(claims)
    ensures OutputClosed(claims) <==> ThirdHopsReached(claims)
  {
    hide Key, Chain, InferredHops, Lower, WithinTwoHops;
    var out := InferredHops(claims);
    JoinIsBruteForce(claims);
    if ThirdHopsReached(claims) {
      forall first, x | first in claims && x in out && first.relation == "located_in_country" &&
        Lower(first.obj) == Lower(x.claim.subject)
        ensures Key(Claim(first.subject, "located_in_region", x.claim.obj)) in KeySet(claims + ClaimsOf(out))
      {
        var b, c :| b in claims && c in claims && Chain(b, c) && x == Joined(b, c);
        KnownKeyIff(claims, Claim(first.subject, "located_in_region", x.claim.obj));
      }
    }
    if OutputClosed(claims) {
      forall a, b, c | a in claims && b in claims && c in claims && a.relation == "located_in_country" &&
        Lower(a.obj) == Lower(b.subject) && Chain(b, c)
        ensures WithinTwoHops(claims, Claim(a.subject, "located_in_region", c.obj))
      {
        ChainInferred(claims, b, c);
        if Joined(b, c).claim in claims {
          ExplicitThirdHop(claims, a, b, c);
        } else {
          KnownKeyIff(claims, Claim(a.subject, "located_in_region", c.obj));
        }
      }
    }
  }

  lemma ExplicitThirdHop(claims: seq<Claim>, a: Claim, b: Claim, c: Claim)
    requires a in claims && a.relation == "located_in_country" && Lower(a.obj) == Lower(b.subject) &&
      Joined(b, c).claim in claims
    ensures WithinTwoHops(claims, Claim(a.subject, "located_in_region", c.obj))
  {
    hide Key;
    var d := Joined(b, c).claim;
    LowerFixed("located_in_region");
    assert Chain(a, d) && Claim(a.subject, "located_in_region", c.obj) == Joined(a, d).claim;
  }

  /** A second round over the claims and the output infers nothing when no country lies in a country,
      whatever the fields; and, without pipes in subjects and objects, exactly when third hops lead
      nowhere that two do not. */
  lemma {:induction false} SecondRoundEmptyIff(claims: seq<Claim>)
    ensures NoCountryInCountry(claims) ==> InferredHops(claims + ClaimsOf(InferredHops(claims))) == []
    ensures AllOuterPipeFree(claims) ==>
      (InferredHops(claims + ClaimsOf(InferredHops(claims))) == [] <==> ThirdHopsReached(claims))
  {
    hide InferredHops, OutputClosed, ThirdHopsReached, NoCountryInCountry;
    SecondRoundFromOutput(claims);
    if AllOuterPipeFree(claims) {
      OutputClosedIff(claims);
    }
  }

  // ---- Classification ----

  datatype InferenceType = Explicit | Inverse | Transitive | Unknown

  /** The claim is the target, ignoring case. */
  predicate Hits(c: Claim, target: Claim) {
    Lower(c.subject) == Lower(target.subject) && Lower(c.relation) == Lower(target.relation) &&
      Lower(c.obj) == Lower(target.obj)
  }

  predicate AnyHits(claims: seq<Claim>, target: Claim) {
    exists c | c in claims :: Hits(c, target)
  }

  method FindHit(claims: seq<Claim>, target: Claim) returns (found: bool)
    ensures found <==> AnyHits(claims, target)
  {
    hide Hits;
    for i := 0 to |claims|
      invariant forall j | 0 <= j < i :: !Hits(claims[j], target)
    {
      if Hits(claims[i], target) {
        return true;
      }
    }
    found := false;
  }

  function Classification(claims: seq<Claim>, inverses: InverseMap, target: Claim): InferenceType {
    if AnyHits(claims, target) then Explicit
    else if AnyHits(ClaimsOf(Novel(InverseCandidates(claims, inverses), KeySet(claims))), target) then Inverse
    else if AnyHits(ClaimsOf(InferredHops(claims)), target) then Transitive
    else Unknown
  }

  /** `classify_resolution_for_claim` */
  method Classify(claims: seq<Claim>, inverses: InverseMap, target: Claim) returns (t: InferenceType)
    ensures t == Classification(claims, inverses, target)
  {
    hide AnyHits, InverseCandidates, Novel, InferredHops;
    var found := FindHit(claims, target);
    if found { return Explicit; }
    var inverse := InferInverse(claims, inverses);
    found := FindHit(ClaimsOf(inverse), target);
    if found { return Inverse; }
    var transitive := InferTransitive(claims);
    found := FindHit(ClaimsOf(transitive), target);
    if found { return Transitive; }
    t := Unknown;
  }

  /** Some explicit claim has the target as its inverse. */
  predicate ByInverse(claims: seq<Claim>, inverses: InverseMap, target: Claim) {
    exists c | c in claims ::
      c.relation in inverses && inverses[c.relation] != c.relation &&
        Hits(Claim(c.obj, inverses[c.relation], c.subject), target)
  }

  /** Two explicit claims chain to the target. */
  predicate ByChain(claims: seq<Claim>, target: Claim) {
    exists first, second | first in claims && second in claims ::
      Chain(first, second) && Hits(Claim(first.subject, "located_in_region", second.obj), target)
  }

  /** Keys cannot confuse a claim that answers the target with another: the target holds no pipe, or
      no subject or object of the claims does. */
  predicate Unambiguous(claims: seq<Claim>, target: Claim) {
    PipeFree(target) || AllOuterPipeFree(claims)
  }

  lemma {:induction false} LowerPipe(s: string)
    ensures '|' in Lower(s) <==> '|' in s
  {
    if '|' in s {
      var i :| 0 <= i < |s| && s[i] == '|';
      assert Lower(s)[i] == '|';
    }
    if '|' in Lower(s) {
      var i :| 0 <= i < |s| && Lower(s)[i] == '|';
      assert s[i] == '|';
    }
  }

  lemma {:induction false} HitPipeFree(c: Claim, target: Claim)
    requires Hits(c, target)
    ensures PipeFree(c) <==> PipeFree(target)
  {
    hide Lower;
    LowerPipe(c.subject);
    LowerPipe(c.relation);
    LowerPipe(c.obj);
    LowerPipe(target.subject);
    LowerPipe(target.relation);
    LowerPipe(target.obj);
  }

  lemma {:induction false} InverseCandidatesIff(claims: seq<Claim>, inverses: InverseMap, x: Inferred)
    ensures x in InverseCandidates(claims, inverses) <==> exists c | c in claims :: InverseOf(c, inverses) == [x]
  {
    if claims != [] {
      InverseCandidatesIff(claims[1..], inverses, x);
      assert claims == [claims[0]] + claims[1..];
      assert x in InverseOf(claims[0], inverses) <==> InverseOf(claims[0], inverses) == [x];
    }
  }

  predicate SomeHits(xs: seq<Inferred>, target: Claim) {
    exists x | x in xs :: Hits(x.claim, target)
  }

  lemma {:induction false} ClaimsHit(xs: seq<Inferred>, target: Claim)
    ensures AnyHits(ClaimsOf(xs), target) <==> SomeHits(xs, target)
  {
    hide Hits;
    if x :| x in xs && Hits(x.claim, target) {
      var i :| 0 <= i < |xs| && xs[i] == x;
      assert ClaimsOf(xs)[i] == x.claim;
    }
    if c :| c in ClaimsOf(xs) && Hits(c, target) {
      var i :| 0 <= i < |xs| && ClaimsOf(xs)[i] == c;
      assert xs[i] in xs;
    }
  }

  /** Suppressing known and repeated keys loses no hit that the explicit claims do not already give. */
  lemma {:induction false} NovelHits(claims: seq<Claim>, candidates: seq<Inferred>, target: Claim)
    requires Unambiguous(claims, target) && !AnyHits(claims, target)
    requires AllOuterPipeFree(claims) ==> forall x | x in candidates :: OuterPipeFree(x.claim)
    ensures AnyHits(ClaimsOf(Novel(candidates, KeySet(claims))), target) <==> SomeHits(candidates, target)
  {
    hide Key, Novel, Hits, PipeFree, OuterPipeFree;
    var out := Novel(candidates, KeySet(claims));
    NovelLaws(candidates, KeySet(claims));
    ClaimsHit(out, target);
    if x :| x in candidates && Hits(x.claim, target) {
      HitPipeFree(x.claim, target);
      assert Key(x.claim) !in KeySet(claims) by {
        if d :| d in claims && Key(d) == Key(x.claim) {
          KeyInjective(d, x.claim);
        }
      }
      var j :| 0 <= j < |out| && Key(out[j].claim) == Key(x.claim);
      assert out[j] in out;
      KeyInjective(out[j].claim, x.claim);
    }
  }

  /** The classification is the declarative one, although keys are compared with case and targets
      without: for every inverse map, as long as keys are unambiguous. */
  lemma {:induction false} ClassificationIff(claims: seq<Claim>, inverses: InverseMap, target: Claim)
    requires Unambiguous(claims, target)
    ensures Classification(claims, inverses, target) ==
      if AnyHits(claims, target) then Explicit
      else if ByInverse(claims, inverses, target) then Inverse
      else if ByChain(claims, target) then Transitive
      else Unknown
  {
    hide Novel, Hits, Key;
    if !AnyHits(claims, target) {
      InverseHits(claims, inverses, target);
      ChainHits(claims, target);
    }
  }

  lemma {:induction false} InverseHits(claims: seq<Claim>, inverses: InverseMap, target: Claim)
    requires Unambiguous(claims, target) && !AnyHits(claims, target)
    ensures AnyHits(ClaimsOf(Novel(InverseCandidates(claims, inverses), KeySet(claims))), target) <==>
      ByInverse(claims, inverses, target)
  {
    hide Novel, Hits, Key;
    var candidates := InverseCandidates(claims, inverses);
    forall x | x in candidates ensures AllOuterPipeFree(claims) ==> OuterPipeFree(x.claim) {
      InverseCandidatesIff(claims, inverses, x);
    }
    NovelHits(claims, candidates, target);
    if ByInverse(claims, inverses, target) {
      var c :| c in claims && c.relation in inverses && inverses[c.relation] != c.relation &&
        Hits(Claim(c.obj, inverses[c.relation], c.subject), target);
      InverseCandidatesIff(claims, inverses, InverseOf(c, inverses)[0]);
    }
    if x :| x in candidates && Hits(x.claim, target) {
      InverseCandidatesIff(claims, inverses, x);
    }
  }

  lemma {:induction false} ChainHits(claims: seq<Claim>, target: Claim)
    requires Unambiguous(claims, target) && !AnyHits(claims, target)
    ensures AnyHits(ClaimsOf(InferredHops(claims)), target) <==> ByChain(claims, target)
  {
    hide Novel, Hits, Key, Chain, TwoHops;
    var candidates := TwoHops(claims, claims);
    forall x | x in candidates ensures AllOuterPipeFree(claims) ==> OuterPipeFree(x.claim) {
      TwoHopsIff(claims, claims, x);
    }
    NovelHits(claims, candidates, target);
    if first, second :|
      first in claims && second in claims && Chain(first, second) && Hits(Joined(first, second).claim, target) {
      TwoHopsIff(claims, claims, Joined(first, second));
    }
    if x :| x in candidates && Hits(x.claim, target) {
      TwoHopsIff(claims, claims, x);
    }
  }

  /** Adding claims never turns an answer into unknown, for every inverse map. */
  lemma {:induction false} ResolutionMonotone(claims: seq<Claim>, more: seq<Claim>, inverses: InverseMap, target: Claim)
    requires Unambiguous(more, target) && (forall c | c in claims :: c in more)
    ensures Classification(claims, inverses, target) != Unknown ==> Classification(more, inverses, target) != Unknown
  {
    hide Hits, Chain, Classification;
    ClassificationIff(claims, inverses, target);
    ClassificationIff(more, inverses, target);
  }

  // ---- When answers can be lost ----

  /** The inverses the relation ontology names. */
  const ONTOLOGY: InverseMap := map["has_capital" := "capital_of", "capital_of" := "capital_of"]

  /** No claims added to any others turn an answer to the target into unknown. */
  ghost predicate AnswersKept(target: Claim) {
    forall claims: seq<Claim>, more: seq<Claim> | (forall c | c in claims :: c in more) ::
      Classification(claims, ONTOLOGY, target) != Unknown ==> Classification(more, ONTOLOGY, target) != Unknown
  }

  /** A different claim with the same key: a pipe of the subject or the object moves into the relation. */
  lemma {:induction false} Twin(c: Claim) returns (twin: Claim)
    requires !OuterPipeFree(c)
    ensures Key(twin) == Key(c) && '|' in twin.relation
  {
    hide Key;
    if '|' in c.subject {
      var p, q := CutAtPipe(c.subject);
      twin := Claim(p, q + "|" + c.relation, c.obj);
      SubjectPipe(p, q, c.relation, c.obj);
      assert twin.relation[|q|] == '|';
    } else {
      var p, q := CutAtPipe(c.obj);
      twin := Claim(c.subject, c.relation + "|" + p, q);
      ObjectPipe(c.subject, c.relation, p, q);
      assert twin.relation[|c.relation|] == '|';
    }
  }

  lemma CutAtPipe(s: string) returns (p: string, q: string)
    requires '|' in s
    ensures s == p + "|" + q
  {
    var i :| 0 <= i < |s| && s[i] == '|';
    p, q := s[..i], s[i + 1..];
  }

  lemma SubjectPipe(p: string, q: string, r: string, o: string)
    ensures Key(Claim(p, q + "|" + r, o)) == Key(Claim(p + "|" + q, r, o))
  {
    assert p + "|" + (q + "|" + r) + "|" + o == (p + "|" + q) + "|" + r + "|" + o;
  }

  lemma ObjectPipe(s: string, r: string, p: string, q: string)
    ensures Key(Claim(s, r + "|" + p, q)) == Key(Claim(s, r, p + "|" + q))
  {
    assert s + "|" + (r + "|" + p) + "|" + q == s + "|" + r + "|" + (p + "|" + q);
  }

  lemma OntologyFacts()
    ensures forall r: string | r in ONTOLOGY && ONTOLOGY[r] != r :: r == "has_capital"
    ensures "has_capital" in ONTOLOGY && ONTOLOGY["has_capital"] == "capital_of" && "capital_of" != "has_capital"
    ensures forall r | r in {"has_capital", "capital_of", "located_in_region", "located_in_country", "part_of"} ::
      Lower(r) == r && '|' !in r
  {
    hide Lower;
    assert |"has_capital"| != |"capital_of"|;
    RelationName("has_capital");
    RelationName("capital_of");
    RelationName("located_in_region");
    RelationName("located_in_country");
    RelationName("part_of");
  }

  predicate IsRelationName(r: string) {
    forall i | 0 <= i < |r| :: r[i] == '_' || 'a' <= r[i] <= 'z'
  }

  lemma RelationName(r: string)
    requires IsRelationName(r)
    ensures Lower(r) == r && '|' !in r
  {
  }

  /** The claim neither answers the target nor takes part in an inference. */
  predicate Inert(c: Claim, target: Claim) {
    && !Hits(c, target) && c.relation !in ONTOLOGY && c.relation != "located_in_country"
    && Lower(c.relation) !in {"part_of", "located_in_region"}
  }

  lemma {:induction false} PipedRelation(c: Claim, target: Claim)
    requires '|' in c.relation && Lower(target.relation) in {"capital_of", "located_in_region"}
    ensures Inert(c, target)
  {
    hide Lower;
    OntologyFacts();
    LowerPipe(c.relation);
  }

  lemma {:induction false} OtherRelation(c: Claim, target: Claim)
    requires c.relation in {"has_capital", "located_in_country", "part_of"}
    requires Lower(target.relation) in {"capital_of", "located_in_region"}
    ensures !Hits(c, target)
  {
    hide Lower;
    OntologyFacts();
    assert |"has_capital"| == 11 && |"capital_of"| == 10 && |"located_in_region"| == 17 &&
      |"located_in_country"| == 18 && |"part_of"| == 7;
  }

  lemma {:induction false} NoFirstHop(claims: seq<Claim>)
    requires forall c | c in claims :: c.relation != "located_in_country"
    ensures InferredHops(claims) == []
  {
    hide Key, Novel, InferredHops;
    JoinIsBruteForce(claims);
    SomeMember(InferredHops(claims));
  }

  lemma SomeMember<T>(xs: seq<T>)
    ensures xs == [] || exists x :: x in xs
  {
    if xs != [] {
      assert xs[0] in xs;
    }
  }

  lemma {:induction false} OnlyInverse(claims: seq<Claim>, c: Claim)
    requires c in claims && c.relation == "has_capital" && forall d | d in claims :: d == c || d.relation !in ONTOLOGY
    ensures forall y :: y in InverseCandidates(claims, ONTOLOGY) <==>
      y == Inferred(Claim(c.obj, "capital_of", c.subject), [Key(c)])
  {
    hide Key, InverseCandidates, ONTOLOGY;
    OntologyFacts();
    assert InverseOf(c, ONTOLOGY) == [Inferred(Claim(c.obj, "capital_of", c.subject), [Key(c)])];
    forall y ensures y in InverseCandidates(claims, ONTOLOGY) <==>
      y == Inferred(Claim(c.obj, "capital_of", c.subject), [Key(c)]) {
      InverseCandidatesIff(claims, ONTOLOGY, y);
    }
  }

  /** An inferred inverse is lost once a claim with its key is explicit. */
  lemma {:induction false} InverseLost(c: Claim, twin: Claim, target: Claim)
    requires c.relation == "has_capital" && Hits(Claim(c.obj, "capital_of", c.subject), target)
    requires Inert(twin, target) && Key(twin) == Key(Claim(c.obj, "capital_of", c.subject))
    ensures Classification([c], ONTOLOGY, target) == Inverse
    ensures Classification([c, twin], ONTOLOGY, target) == Unknown
  {
    hide Key, Novel, Lower, InferredHops, InverseCandidates, ONTOLOGY, Hits;
    InverseTarget(c, target);
    OtherRelation(c, target);
    var x := Inferred(Claim(c.obj, "capital_of", c.subject), [Key(c)]);
    OnlyInverse([c], c);
    NovelLaws(InverseCandidates([c], ONTOLOGY), KeySet([c]));
    KeyLengths(c);
    var kept := Novel(InverseCandidates([c], ONTOLOGY), KeySet([c]));
    var j :| 0 <= j < |kept| && Key(kept[j].claim) == Key(x.claim);
    assert kept[j] in kept;
    ClaimsHit(kept, target);
    InverseHidden(c, twin, target);
  }

  lemma InverseTarget(c: Claim, target: Claim)
    requires Hits(Claim(c.obj, "capital_of", c.subject), target)
    ensures Lower(target.relation) == "capital_of"
  {
    hide Lower;
    OntologyFacts();
  }

  lemma {:induction false} InverseHidden(c: Claim, twin: Claim, target: Claim)
    requires c.relation == "has_capital" && !Hits(c, target)
    requires Inert(twin, target) && Key(twin) == Key(Claim(c.obj, "capital_of", c.subject))
    ensures Classification([c, twin], ONTOLOGY, target) == Unknown
  {
    hide Key, Novel, Lower, InferredHops, InverseCandidates, ONTOLOGY, Hits;
    var both := [c, twin];
    OnlyInverse(both, c);
    NovelLaws(InverseCandidates(both, ONTOLOGY), KeySet(both));
    assert twin in both;
    ClaimsHit(Novel(InverseCandidates(both, ONTOLOGY), KeySet(both)), target);
    NoFirstHop(both);
  }

  lemma KeyLengths(c: Claim)
    requires c.relation == "has_capital"
    ensures Key(Claim(c.obj, "capital_of", c.subject)) !in KeySet([c])
  {
    assert |Key(Claim(c.obj, "capital_of", c.subject))| == |Key(c)| - 1;
  }

  lemma {:induction false} OnlyChain(claims: seq<Claim>, first: Claim, second: Claim)
    requires first in claims && second in claims && Chain(first, second)
    requires forall f, s | f in claims && s in claims && Chain(f, s) :: f == first && s == second
    ensures var key := Key(Joined(first, second).claim);
      && (forall x | x in InferredHops(claims) :: x == Joined(first, second))
      && (key !in KeySet(claims) ==> Joined(first, second) in InferredHops(claims))
      && (key in KeySet(claims) ==> InferredHops(claims) == [])
  {
    hide Key, Chain, InferredHops, Joined;
    JoinIsBruteForce(claims);
    var out := InferredHops(claims);
    var key := Key(Joined(first, second).claim);
    if key !in KeySet(claims) {
      assert HasKey(out, key);
      var j :| 0 <= j < |out| && Key(out[j].claim) == key;
      assert out[j] in out;
    }
    HopsNew(claims);
    SomeMember(out);
  }

  /** So is an inferred containment. */
  lemma {:induction false} ChainLost(first: Claim, second: Claim, twin: Claim, target: Claim)
    requires first.relation == "located_in_country" && second.relation == "part_of" && first.obj == second.subject
    requires Hits(Joined(first, second).claim, target)
    requires Inert(twin, target) && Key(twin) == Key(Joined(first, second).claim)
    requires Key(twin) != Key(first) && Key(twin) != Key(second)
    ensures Classification([first, second], ONTOLOGY, target) == Transitive
    ensures Classification([first, second, twin], ONTOLOGY, target) == Unknown
  {
    hide Key, Lower, InferredHops, Novel, InverseCandidates, ONTOLOGY, Hits, Joined, Chain;
    ChainTarget(first, second, target);
    OtherRelation(first, target);
    OtherRelation(second, target);
    var two, three := [first, second], [first, second, twin];
    assert forall c :: c in two <==> c == first || c == second;
    assert forall c :: c in three <==> c == first || c == second || c == twin;
    SingleChain(first, second, twin, target);
    NotCapital(first, second, twin, target);
    NoInverses(two);
    NoInverses(three);
    OnlyChain(two, first, second);
    OnlyChain(three, first, second);
    ClaimsHit(InferredHops(two), target);
    ClaimsHit(InferredHops(three), target);
  }

  lemma ChainTarget(first: Claim, second: Claim, target: Claim)
    requires Hits(Joined(first, second).claim, target)
    ensures Lower(target.relation) == "located_in_region"
  {
    hide Lower;
    OntologyFacts();
  }

  lemma NotCapital(first: Claim, second: Claim, twin: Claim, target: Claim)
    requires first.relation == "located_in_country" && second.relation == "part_of" && Inert(twin, target)
    ensures first.relation != "has_capital" && second.relation != "has_capital" && twin.relation != "has_capital"
  {
    assert |"located_in_country"| != |"has_capital"| && |"part_of"| != |"has_capital"|;
  }

  lemma SingleChain(first: Claim, second: Claim, twin: Claim, target: Claim)
    requires first.relation == "located_in_country" && second.relation == "part_of" && first.obj == second.subject
    requires Inert(twin, target)
    ensures Chain(first, second)
    ensures forall f, s | f in {first, second, twin} && s in {first, second, twin} && Chain(f, s) ::
      f == first && s == second
  {
    hide Lower;
    OntologyFacts();
    assert |"located_in_country"| == 18 && |"located_in_region"| == 17 && |"part_of"| == 7;
  }

  lemma HopsNew(claims: seq<Claim>)
    ensures forall x | x in InferredHops(claims) :: Key(x.claim) !in KeySet(claims)
  {
    hide Key, Novel;
    NovelLaws(TwoHops(claims, claims), KeySet(claims));
  }

  lemma {:induction false} NoInverses(claims: seq<Claim>)
    requires forall c | c in claims :: c.relation != "has_capital"
    ensures Novel(InverseCandidates(claims, ONTOLOGY), KeySet(claims)) == []
  {
    hide Key, Novel, InverseCandidates, ONTOLOGY;
    OntologyFacts();
    var candidates := InverseCandidates(claims, ONTOLOGY);
    forall x ensures x !in candidates {
      InverseCandidatesIff(claims, ONTOLOGY, x);
    }
    SomeMember(candidates);
    NovelNothing(KeySet(claims));
  }

  lemma {:induction false} LosesInverse(target: Claim)
    requires !PipeFree(target) && Lower(target.relation) == "capital_of"
    ensures !AnswersKept(target)
  {
    hide Key, Classification, Lower;
    OntologyFacts();
    LowerPipe(target.relation);
    var c := Claim(target.obj, "has_capital", target.subject);
    var twin := Twin(Claim(target.subject, "capital_of", target.obj));
    PipedRelation(twin, target);
    InverseLost(c, twin, target);
    assert forall d | d in [c] :: d in [c, twin];
  }

  lemma {:induction false} LosesChain(target: Claim)
    requires !PipeFree(target) && Lower(target.relation) == "located_in_region"
    ensures !AnswersKept(target)
  {
    hide Key, Classification, Lower;
    OntologyFacts();
    LowerPipe(target.relation);
    var middle := target.subject + target.obj + "twenty extra letters";
    var first, second := Claim(target.subject, "located_in_country", middle), Claim(middle, "part_of", target.obj);
    var twin := Twin(Claim(target.subject, "located_in_region", target.obj));
    ChainKeyLengths(first, second);
    PipedRelation(twin, target);
    ChainLost(first, second, twin, target);
    assert forall d | d in [first, second] :: d in [first, second, twin];
  }

  lemma ChainKeyLengths(first: Claim, second: Claim)
    requires first.relation == "located_in_country" && second.relation == "part_of" && first.obj == second.subject
    requires |first.obj| == |first.subject| + |second.obj| + 20
    ensures Key(Joined(first, second).claim) != Key(first) && Key(Joined(first, second).claim) != Key(second)
  {
    assert |"located_in_region"| == 17 && |"located_in_country"| == 18 && |"part_of"| == 7;
  }

  /** With the ontology's inverses, added claims can never take the answer to a target away exactly when
      it holds no pipe or its relation is never inferred. */
  lemma {:induction false} AnswersKeptIff(target: Claim)
    ensures AnswersKept(target) <==> PipeFree(target) || Lower(target.relation) !in {"capital_of", "located_in_region"}
  {
    hide Classification, Lower, PipeFree;
    if PipeFree(target) {
      forall claims: seq<Claim>, more: seq<Claim> | (forall c | c in claims :: c in more)
        ensures Classification(claims, ONTOLOGY, target) != Unknown ==>
          Classification(more, ONTOLOGY, target) != Unknown
      {
        ResolutionMonotone(claims, more, ONTOLOGY, target);
      }
    } else if Lower(target.relation) == "capital_of" {
      LosesInverse(target);
    } else if Lower(target.relation) == "located_in_region" {
      LosesChain(target);
    } else {
      forall claims: seq<Claim>, more: seq<Claim> | (forall c | c in claims :: c in more)
        ensures Classification(claims, ONTOLOGY, target) != Unknown ==>
          Classification(more, ONTOLOGY, target) != Unknown
      {
        OnlyExplicit(claims, target);
        OnlyExplicit(more, target);
      }
    }
  }

  lemma {:induction false} OnlyExplicit(claims: seq<Claim>, target: Claim)
    requires Lower(target.relation) !in {"capital_of", "located_in_region"}
    ensures Classification(claims, ONTOLOGY, target) != Unknown <==> AnyHits(claims, target)
  {
    hide Key, Novel, InferredHops, InverseCandidates, Lower, ONTOLOGY;
    OntologyFacts();
    var candidates := InverseCandidates(claims, ONTOLOGY);
    var inverse, hops := Novel(candidates, KeySet(claims)), InferredHops(claims);
    NovelLaws(candidates, KeySet(claims));
    forall x | x in inverse ensures !Hits(x.claim, target) {
      InverseCandidatesIff(claims, ONTOLOGY, x);
    }
    JoinIsBruteForce(claims);
    ClaimsHit(inverse, target);
    ClaimsHit(hops, target);
  }

  const CAPITAL := Claim("b|c", "has_capital", "a")
  const CLASHING := Claim("a|capital_of", "b", "c")

  /** A concrete loss: an added claim's key hides the inverse of another claim. */
  lemma {:induction false} PipeBreaksMonotonicity()
    ensures Classification([CAPITAL], ONTOLOGY, Claim("a", "capital_of", "b|c")) == Inverse
    ensures Classification([CAPITAL, CLASHING], ONTOLOGY, Claim("a", "capital_of", "b|c")) == Unknown
  {
    hide Key, Classification;
    var target := Claim("a", "capital_of", "b|c");
    assert Key(CLASHING) == "a|capital_of|b|c" && Key(target) == "a|capital_of|b|c" by { ClashingKeys(); }
    assert |CLASHING.relation| == 1 && |target.relation| == 10;
    assert forall r | r in ONTOLOGY :: |r| > 1;
    assert Inert(CLASHING, target);
    InverseLost(CAPITAL, CLASHING, target);
  }

  lemma ClashingKeys()
    ensures Key(CLASHING) == "a|capital_of|b|c" && Key(Claim("a", "capital_of", "b|c")) == "a|capital_of|b|c"
  {
  }
}
