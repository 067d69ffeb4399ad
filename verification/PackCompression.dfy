/** Pack compression (src/vcse/compression/dictionary.py, pack_optimizer.py, decompressor.py,
    runtime_index.py): encode every canonical claim through one interner, check the stored form, and
    look claims up by id without decompressing. */
module PackCompression {
  import opened Json
  import opened Canonicalizer
  import opened Interning
  import Sorting
  import Text

  // ---- Encoding one claim ----

  datatype EncodedClaim = EncodedClaim(subjectId: int, relationId: int, objectId: int, qualifierIds: seq<(int, int)>)

  /** The stored dictionary: qualifier ids as two-element lists. */
  datatype EncodedRow = EncodedRow(subjectId: int, relationId: int, objectId: int, qualifierIds: seq<seq<int>>)

  function PairStrings(pairs: seq<Pair>): seq<string> {
    if pairs == [] then [] else [pairs[0].0, pairs[0].1] + PairStrings(pairs[1..])
  }

  /** The strings of a claim, in the order they are interned. */
  function StringsOf(c: CanonicalClaim): seq<string> {
    [c.subject, c.relation, c.obj] + PairStrings(c.qualifiers)
  }

  predicate KnownPairs(names: seq<string>, pairs: seq<Pair>) {
    forall i | 0 <= i < |pairs| :: pairs[i].0 in names && pairs[i].1 in names
  }

  predicate Known(names: seq<string>, c: CanonicalClaim) {
    c.subject in names && c.relation in names && c.obj in names && KnownPairs(names, c.qualifiers)
  }

  function PairIds(names: seq<string>, pairs: seq<Pair>): (ids: seq<(int, int)>)
    requires KnownPairs(names, pairs)
  {
    seq(|pairs|, i requires 0 <= i < |pairs| => (IndexOf(names, pairs[i].0), IndexOf(names, pairs[i].1)))
  }

  function Encode(names: seq<string>, c: CanonicalClaim): EncodedClaim
    requires Known(names, c)
  {
    EncodedClaim(IndexOf(names, c.subject), IndexOf(names, c.relation), IndexOf(names, c.obj),
      PairIds(names, c.qualifiers))
  }

  lemma {:induction false} KnownIff(names: seq<string>, c: CanonicalClaim)
    ensures Known(names, c) <==> forall s | s in StringsOf(c) :: s in names
  {
    PairsKnownIff(names, c.qualifiers);
    var all := StringsOf(c);
    assert forall s :: s in all <==> s in [c.subject, c.relation, c.obj] || s in PairStrings(c.qualifiers);
    assert c.subject in all && c.relation in all && c.obj in all by {
      assert all[0] == c.subject && all[1] == c.relation && all[2] == c.obj;
    }
  }

  lemma {:induction false} PairsKnownIff(names: seq<string>, pairs: seq<Pair>)
    ensures KnownPairs(names, pairs) <==> forall s | s in PairStrings(pairs) :: s in names
  {
    if pairs != [] {
      var rest := pairs[1..];
      PairsKnownIff(names, rest);
      assert PairStrings(pairs) == [pairs[0].0, pairs[0].1] + PairStrings(rest);
      assert pairs[0].0 in PairStrings(pairs) && pairs[0].1 in PairStrings(pairs);
      assert forall s | s in PairStrings(rest) :: s in PairStrings(pairs);
      assert pairs == [pairs[0]] + rest;
    }
  }

  lemma {:induction false} PairIdsStable(names: seq<string>, more: seq<string>, pairs: seq<Pair>)
    requires names <= more && KnownPairs(names, pairs)
    ensures KnownPairs(more, pairs) && PairIds(more, pairs) == PairIds(names, pairs)
  {
    forall i | 0 <= i < |pairs|
      ensures pairs[i].0 in more && IndexOf(more, pairs[i].0) == IndexOf(names, pairs[i].0)
      ensures pairs[i].1 in more && IndexOf(more, pairs[i].1) == IndexOf(names, pairs[i].1)
    {
      IndexStable(names, more, pairs[i].0);
      IndexStable(names, more, pairs[i].1);
    }
  }

  /** The loop over the qualifiers, in both encoders. */
  method EncodePairs(pairs: seq<Pair>, interner: Interner) returns (ids: seq<(int, int)>)
    requires interner.Valid()
    modifies interner
    ensures interner.Valid()
    ensures interner.names == ExtendAll(old(interner.names), PairStrings(pairs))
    ensures KnownPairs(interner.names, pairs) && ids == PairIds(interner.names, pairs)
  {
    ids := [];
    for i := 0 to |pairs|
      invariant interner.Valid()
      invariant ExtendAll(interner.names, PairStrings(pairs[i..])) == ExtendAll(old(interner.names), PairStrings(pairs))
      invariant KnownPairs(interner.names, pairs[..i]) && ids == PairIds(interner.names, pairs[..i])
    {
      ghost var before := interner.names;
      var keyId := interner.Intern(pairs[i].0);
      ghost var middle := interner.names;
      var valueId := interner.Intern(pairs[i].1);
      PairStep(before, middle, interner.names, pairs, i);
      ids := ids + [(keyId, valueId)];
    }
    assert pairs[|pairs|..] == [] && pairs[..|pairs|] == pairs;
  }

  lemma {:induction false} PairStep(
      before: seq<string>, middle: seq<string>, after: seq<string>, pairs: seq<Pair>, i: nat)
    requires i < |pairs| && NoRepeats(before) && KnownPairs(before, pairs[..i])
    requires middle == Extend(before, pairs[i].0) && after == Extend(middle, pairs[i].1)
    ensures ExtendAll(after, PairStrings(pairs[i + 1..])) == ExtendAll(before, PairStrings(pairs[i..]))
    ensures pairs[i].0 in middle && pairs[i].0 in after && pairs[i].1 in after
    ensures IndexOf(after, pairs[i].0) == IndexOf(middle, pairs[i].0)
    ensures KnownPairs(after, pairs[..i + 1])
    ensures PairIds(after, pairs[..i + 1])
         == PairIds(before, pairs[..i]) + [(IndexOf(after, pairs[i].0), IndexOf(after, pairs[i].1))]
  {
    hide NoRepeats, IndexOf, ExtendAll, PairStrings, PairIds, KnownPairs, Extend;
    ExtendLaws(before, pairs[i].0);
    ExtendLaws(middle, pairs[i].1);
    PairInterned(before, pairs, i);
    PrefixKeeps(middle, after, pairs[i].0);
    IndexStable(middle, after, pairs[i].0);
    PairIdsStable(before, after, pairs[..i]);
    PairIdsNext(after, pairs, i);
  }

  lemma {:induction false} PairInterned(names: seq<string>, pairs: seq<Pair>, i: nat)
    requires i < |pairs|
    ensures ExtendAll(names, PairStrings(pairs[i..])) ==
      ExtendAll(Extend(Extend(names, pairs[i].0), pairs[i].1), PairStrings(pairs[i + 1..]))
  {
    hide Extend, ExtendAll;
    var rest, later := pairs[i..], PairStrings(pairs[i + 1..]);
    assert rest[0] == pairs[i] && rest[1..] == pairs[i + 1..];
    assert PairStrings(rest) == [pairs[i].0] + ([pairs[i].1] + later);
    ExtendCons(names, pairs[i].0, [pairs[i].1] + later);
    ExtendCons(Extend(names, pairs[i].0), pairs[i].1, later);
  }

  lemma {:induction false} PairIdsNext(names: seq<string>, pairs: seq<Pair>, i: nat)
    requires i < |pairs| && KnownPairs(names, pairs[..i]) && pairs[i].0 in names && pairs[i].1 in names
    ensures KnownPairs(names, pairs[..i + 1])
    ensures PairIds(names, pairs[..i + 1]) ==
      PairIds(names, pairs[..i]) + [(IndexOf(names, pairs[i].0), IndexOf(names, pairs[i].1))]
  {
    hide IndexOf;
    assert pairs[..i + 1] == pairs[..i] + [pairs[i]];
  }

  lemma {:induction false} ExtendCons(names: seq<string>, s: string, more: seq<string>)
    ensures ExtendAll(names, [s] + more) == ExtendAll(Extend(names, s), more)
  {
    assert ([s] + more)[1..] == more;
  }

  /** `encode_claim_from_canonical` */
  method EncodeClaim(c: CanonicalClaim, interner: Interner) returns (e: EncodedClaim)
    requires interner.Valid()
    modifies interner
    ensures interner.Valid()
    ensures interner.names == ExtendAll(old(interner.names), StringsOf(c))
    ensures Known(interner.names, c) && e == Encode(interner.names, c)
  {
    hide IndexOf, PairIds, KnownPairs;
    ghost var n0 := interner.names;
    var subjectId := interner.Intern(c.subject);
    ghost var n1 := interner.names;
    var relationId := interner.Intern(c.relation);
    ghost var n2 := interner.names;
    var objectId := interner.Intern(c.obj);
    ghost var n3 := interner.names;
    var qualifierIds := EncodePairs(c.qualifiers, interner);
    EncodeChain(n0, n1, n2, n3, interner.names, c);
    e := EncodedClaim(subjectId, relationId, objectId, qualifierIds);
  }

  lemma {:induction false} EncodeChain(
      n0: seq<string>, n1: seq<string>, n2: seq<string>, n3: seq<string>, n4: seq<string>, c: CanonicalClaim)
    requires NoRepeats(n0) && n1 == Extend(n0, c.subject) && n2 == Extend(n1, c.relation) && n3 == Extend(n2, c.obj)
    requires n4 == ExtendAll(n3, PairStrings(c.qualifiers))
    ensures n4 == ExtendAll(n0, StringsOf(c))
    ensures c.subject in n1 && c.subject in n4 && IndexOf(n4, c.subject) == IndexOf(n1, c.subject)
    ensures c.relation in n2 && c.relation in n4 && IndexOf(n4, c.relation) == IndexOf(n2, c.relation)
    ensures c.obj in n3 && c.obj in n4 && IndexOf(n4, c.obj) == IndexOf(n3, c.obj)
  {
    hide NoRepeats, IndexOf, Extend, ExtendAll, PairStrings;
    ExtendLaws(n0, c.subject);
    ExtendLaws(n1, c.relation);
    ExtendLaws(n2, c.obj);
    ExtendAllLaws(n3, PairStrings(c.qualifiers));
    var q := PairStrings(c.qualifiers);
    assert StringsOf(c) == [c.subject] + ([c.relation] + ([c.obj] + q));
    ExtendCons(n0, c.subject, [c.relation] + ([c.obj] + q));
    ExtendCons(n1, c.relation, [c.obj] + q);
    ExtendCons(n2, c.obj, q);
    IndexStable(n1, n4, c.subject);
    IndexStable(n2, n4, c.relation);
    IndexStable(n3, n4, c.obj);
  }

  // ---- Decoding ----

  function DecodePairs(ids: seq<(int, int)>, i2s: map<int, string>): Option<seq<Pair>> {
    if ids == [] then Some([])
    else
      var rest := DecodePairs(ids[1..], i2s);
      if ids[0].0 in i2s && ids[0].1 in i2s && rest.Some? then Some([(i2s[ids[0].0], i2s[ids[0].1])] + rest.value)
      else None
  }

  /** `None` when some id has no string. */
  function Decode(e: EncodedClaim, i2s: map<int, string>): Option<CanonicalClaim> {
    var pairs := DecodePairs(e.qualifierIds, i2s);
    if e.subjectId in i2s && e.relationId in i2s && e.objectId in i2s && pairs.Some? then
      Some(CanonicalClaim(i2s[e.subjectId], i2s[e.relationId], i2s[e.objectId], pairs.value))
    else None
  }

  function Onto(done: seq<Pair>, rest: Option<seq<Pair>>): Option<seq<Pair>> {
    if rest.Some? then Some(done + rest.value) else None
  }

  lemma OntoNothing(rest: Option<seq<Pair>>)
    ensures Onto([], rest) == rest
  {
    if rest.Some? {
      assert [] + rest.value == rest.value;
    }
  }

  lemma {:induction false} DecodeStep(done: seq<Pair>, ids: seq<(int, int)>, k: nat, i2s: map<int, string>)
    requires k < |ids|
    ensures Onto(done, DecodePairs(ids[k..], i2s)) ==
      if ids[k].0 in i2s && ids[k].1 in i2s then
        Onto(done + [(i2s[ids[k].0], i2s[ids[k].1])], DecodePairs(ids[k + 1..], i2s))
      else None
  {
    var rest := ids[k..];
    assert rest[0] == ids[k] && rest[1..] == ids[k + 1..];
    var after := DecodePairs(ids[k + 1..], i2s);
    if ids[k].0 in i2s && ids[k].1 in i2s && after.Some? {
      var pair := (i2s[ids[k].0], i2s[ids[k].1]);
      assert done + ([pair] + after.value) == (done + [pair]) + after.value;
    }
  }

  /** `decode_claim` */
  method DecodeClaim(e: EncodedClaim, i2s: map<int, string>) returns (c: Option<CanonicalClaim>)
    ensures c == Decode(e, i2s)
  {
    if e.subjectId !in i2s || e.relationId !in i2s || e.objectId !in i2s {
      return None;
    }
    var ids := e.qualifierIds;
    var pairs: seq<Pair> := [];
    assert ids[0..] == ids;
    OntoNothing(DecodePairs(ids, i2s));
    for k := 0 to |ids|
      invariant DecodePairs(ids, i2s) == Onto(pairs, DecodePairs(ids[k..], i2s))
    {
      var id := ids[k];
      DecodeStep(pairs, ids, k, i2s);
      if id.0 !in i2s || id.1 !in i2s {
        return None;
      }
      pairs := pairs + [(i2s[id.0], i2s[id.1])];
    }
    assert DecodePairs(ids[|ids|..], i2s) == Some([]) && pairs + [] == pairs;
    c := Some(CanonicalClaim(i2s[e.subjectId], i2s[e.relationId], i2s[e.objectId], pairs));
  }

  lemma {:induction false} DecodePairsOfIds(names: seq<string>, pairs: seq<Pair>)
    requires KnownPairs(names, pairs)
    ensures DecodePairs(PairIds(names, pairs), NameTable(names)) == Some(pairs)
  {
    if pairs != [] {
      DecodePairsOfIds(names, pairs[1..]);
      assert PairIds(names, pairs)[1..] == PairIds(names, pairs[1..]);
      assert pairs == [pairs[0]] + pairs[1..];
    }
  }

  lemma {:induction false} DecodeOfEncode(names: seq<string>, c: CanonicalClaim)
    requires Known(names, c)
    ensures Decode(Encode(names, c), NameTable(names)) == Some(c)
  {
    hide PairIds, DecodePairs;
    DecodePairsOfIds(names, c.qualifiers);
  }

  // ---- Rows ----

  /** `encoded_to_dict` */
  function ToRow(e: EncodedClaim): EncodedRow {
    EncodedRow(e.subjectId, e.relationId, e.objectId,
               seq(|e.qualifierIds|,
                 i requires 0 <= i < |e.qualifierIds| => [e.qualifierIds[i].0, e.qualifierIds[i].1]))
  }

  /** `dict_to_encoded`; `None` when a qualifier entry is no pair. */
  function FromRow(row: EncodedRow): Option<EncodedClaim> {
    if forall i | 0 <= i < |row.qualifierIds| :: |row.qualifierIds[i]| == 2 then
      Some(EncodedClaim(row.subjectId, row.relationId, row.objectId,
        seq(|row.qualifierIds|,
          i requires 0 <= i < |row.qualifierIds| => (row.qualifierIds[i][0], row.qualifierIds[i][1]))))
    else None
  }

  lemma {:induction false} RowRoundTrip(e: EncodedClaim)
    ensures FromRow(ToRow(e)) == Some(e)
  {
    assert FromRow(ToRow(e)).value.qualifierIds == e.qualifierIds;
  }

  // ---- Optimising a pack ----

  datatype CompressedPack = CompressedPack(table: Stored, rows: seq<EncodedRow>, originals: seq<RawClaim>)

  /** The canonical forms of the claims that have one, in order. */
  function Canonicals(raw: seq<RawClaim>): seq<CanonicalClaim> {
    if raw == [] then []
    else (if Canonicalize(raw[0]).Ok? then [Canonicalize(raw[0]).value] else []) + Canonicals(raw[1..])
  }

  function AllStrings(claims: seq<CanonicalClaim>): seq<string> {
    if claims == [] then [] else StringsOf(claims[0]) + AllStrings(claims[1..])
  }

  function NamesOf(claims: seq<CanonicalClaim>): seq<string> {
    ExtendAll([], AllStrings(claims))
  }

  lemma {:induction false} NamesKnown(claims: seq<CanonicalClaim>)
    ensures NoRepeats(NamesOf(claims))
    ensures forall j | 0 <= j < |claims| :: Known(NamesOf(claims), claims[j])
  {
    hide Known, StringsOf, ExtendAll, NoRepeats;
    assert NoRepeats([]) by { EmptyNoRepeats(); }
    ExtendAllLaws([], AllStrings(claims));
    forall j | 0 <= j < |claims| ensures Known(NamesOf(claims), claims[j]) {
      AllStringsHas(claims, j);
      KnownIff(NamesOf(claims), claims[j]);
    }
  }

  lemma EmptyNoRepeats()
    ensures NoRepeats([])
  {
  }

  lemma {:induction false} AllStringsHas(claims: seq<CanonicalClaim>, j: nat)
    requires j < |claims|
    ensures forall s | s in StringsOf(claims[j]) :: s in AllStrings(claims)
  {
    hide StringsOf;
    if j > 0 {
      AllStringsHas(claims[1..], j - 1);
    }
  }

  function Rows(names: seq<string>, claims: seq<CanonicalClaim>): seq<EncodedRow>
    requires forall j | 0 <= j < |claims| :: Known(names, claims[j])
  {
    seq(|claims|, j requires 0 <= j < |claims| => ToRow(Encode(names, claims[j])))
  }

  function PackOf(raw: seq<RawClaim>): CompressedPack {
    var claims := Canonicals(raw);
    NamesKnown(claims);
    CompressedPack(StoredOf(NamesOf(claims)), Rows(NamesOf(claims), claims), raw)
  }

  /** The claim passes of `optimize_pack`: canonicalise, intern, encode. */
  method OptimizePack(raw: seq<RawClaim>) returns (pack: CompressedPack)
    ensures pack == PackOf(raw)
  {
    hide NamesOf, Rows, StoredOf, Known;
    var claims := CanonicalPass(raw);
    NamesKnown(claims);
    CanonicalCount(raw);
    var interner := new Interner();
    InternPass(claims, interner);
    var rows := EncodePass(raw, claims, interner);
    var table := interner.ToDict();
    pack := CompressedPack(table, rows, raw);
  }

  /** As many canonical forms as claims, exactly when no claim is skipped. */
  lemma {:induction false} CanonicalCount(raw: seq<RawClaim>)
    ensures |Canonicals(raw)| <= |raw|
    ensures |Canonicals(raw)| == |raw| <==> forall i | 0 <= i < |raw| :: Canonicalize(raw[i]).Ok?
    ensures |Canonicals(raw)| == |raw| ==> forall i | 0 <= i < |raw| :: Canonicals(raw)[i] == Canonicalize(raw[i]).value
  {
    hide Canonicalize;
    if raw != [] {
      var rest := raw[1..];
      CanonicalCount(rest);
      assert forall i | 0 <= i < |rest| :: rest[i] == raw[i + 1];
      if |Canonicals(raw)| == |raw| {
        assert |Canonicals(rest)| == |rest|;
        assert Canonicals(raw) == [Canonicalize(raw[0]).value] + Canonicals(rest);
        forall i | 0 <= i < |raw| ensures Canonicalize(raw[i]).Ok? && Canonicals(raw)[i] == Canonicalize(raw[i]).value {
          if i > 0 { assert raw[i] == rest[i - 1]; }
        }
      }
    }
  }

  function CanonicalOf(raw: RawClaim): seq<CanonicalClaim> {
    var canonical := Canonicalize(raw);
    if canonical.Ok? then [canonical.value] else []
  }

  lemma {:induction false} CanonicalsNext(raw: seq<RawClaim>, i: nat, done: seq<CanonicalClaim>)
    requires i < |raw|
    ensures done + Canonicals(raw[i..]) == (done + CanonicalOf(raw[i])) + Canonicals(raw[i + 1..])
  {
    hide Canonicalize;
    assert raw[i..][0] == raw[i] && raw[i..][1..] == raw[i + 1..];
    Sorting.ConcatAssociative(done, CanonicalOf(raw[i]), Canonicals(raw[i + 1..]));
    assert CanonicalOf(raw[i]) == [] ==> [] + Canonicals(raw[i + 1..]) == Canonicals(raw[i + 1..]);
  }

  /** A claim that does not canonicalise is skipped. */
  method CanonicalPass(raw: seq<RawClaim>) returns (claims: seq<CanonicalClaim>)
    ensures claims == Canonicals(raw)
  {
    hide Canonicalize, Canonicals;
    claims := [];
    assert raw[0..] == raw && [] + Canonicals(raw) == Canonicals(raw);
    for i := 0 to |raw|
      invariant claims + Canonicals(raw[i..]) == Canonicals(raw)
    {
      CanonicalsNext(raw, i, claims);
      var canonical := CanonicalizeClaim(raw[i]);
      if canonical.Ok? {
        claims := claims + [canonical.value];
      } else {
        assert claims + [] == claims;
      }
    }
    NoCanonicals(raw, claims);
  }

  lemma NoCanonicals(raw: seq<RawClaim>, claims: seq<CanonicalClaim>)
    ensures claims + Canonicals(raw[|raw|..]) == claims
  {
  }

  method InternPass(claims: seq<CanonicalClaim>, interner: Interner)
    requires interner.Valid() && interner.names == []
    modifies interner
    ensures interner.Valid() && interner.names == NamesOf(claims)
  {
    hide StringsOf, ExtendAll, Known, Encode;
    for i := 0 to |claims|
      invariant interner.Valid()
      invariant ExtendAll(interner.names, AllStrings(claims[i..])) == NamesOf(claims)
    {
      assert claims[i..][0] == claims[i] && claims[i..][1..] == claims[i + 1..];
      ExtendAllConcat(interner.names, StringsOf(claims[i]), AllStrings(claims[i + 1..]));
      var _ := EncodeClaim(claims[i], interner);
    }
    assert ExtendAll(interner.names, []) == interner.names by { ExtendNothing(interner.names); }
  }

  lemma ExtendNothing(names: seq<string>)
    ensures ExtendAll(names, []) == names
  {
  }

  /** The second pass adds no ids. Claims beyond the canonical ones are skipped, as an index error is. */
  method EncodePass(raw: seq<RawClaim>, claims: seq<CanonicalClaim>, interner: Interner) returns (rows: seq<EncodedRow>)
    requires interner.Valid() && interner.names == NamesOf(claims) && |claims| <= |raw|
    requires forall j | 0 <= j < |claims| :: Known(NamesOf(claims), claims[j])
    modifies interner
    ensures interner.Valid() && interner.names == old(interner.names)
    ensures rows == Rows(NamesOf(claims), claims)
  {
    hide Known, Encode, ToRow, NamesOf, ExtendAll, StringsOf;
    rows := [];
    ghost var names := interner.names;
    for idx := 0 to |raw|
      invariant interner.Valid() && interner.names == names
      invariant |rows| == if idx < |claims| then idx else |claims|
      invariant forall j | 0 <= j < |rows| :: rows[j] == ToRow(Encode(names, claims[j]))
    {
      if idx >= |claims| {
        continue;
      }
      KnownIff(names, claims[idx]);
      ExtendAllLaws(names, StringsOf(claims[idx]));
      var e := EncodeClaim(claims[idx], interner);
      rows := rows + [ToRow(e)];
    }
  }

  // ---- Round trip ----

  /** Row `j` of a pack, read back through the stored and reloaded table, is the `j`-th canonical claim. */
  lemma {:induction false} CompressionRoundTrip(raw: seq<RawClaim>, j: nat)
    requires j < |Canonicals(raw)|
    ensures |PackOf(raw).rows| == |Canonicals(raw)|
    ensures var table := LoadIds(PackOf(raw).table.idToString);
      var e := FromRow(PackOf(raw).rows[j]);
      table.Some? && e.Some? && Decode(e.value, table.value) == Some(Canonicals(raw)[j])
  {
    hide NamesOf, Known, Encode, Decode, ToRow, FromRow, StoredOf;
    var claims := Canonicals(raw);
    var names := NamesOf(claims);
    NamesKnown(claims);
    StoredRoundTrip(names);
    RowRoundTrip(Encode(names, claims[j]));
    DecodeOfEncode(names, claims[j]);
  }

  // ---- The integrity check ----

  datatype CheckOutcome = Accepted | DecodeFailed | Mismatch(index: nat) | MissingRow | NotCanonical

  predicate Truthy(f: RawField) {
    f.Present? && f.truthy
  }

  predicate SameTriple(a: CanonicalClaim, b: CanonicalClaim) {
    a.subject == b.subject && a.relation == b.relation && a.obj == b.obj
  }

  /** What a row decodes to through a loaded table. */
  function RowClaim(row: EncodedRow, i2s: map<int, string>): Option<CanonicalClaim> {
    if FromRow(row).Some? then Decode(FromRow(row).value, i2s) else None
  }

  /** The check on original `idx`: its row, and its fields when all three are truthy. */
  predicate OriginalChecks(pack: CompressedPack, i2s: map<int, string>, idx: nat)
    requires idx < |pack.originals|
  {
    && idx < |pack.rows|
    && RowClaim(pack.rows[idx], i2s).Some?
    && var original := pack.originals[idx];
       Truthy(original.subject) && Truthy(original.relation) && Truthy(original.obj) ==>
         Canonicalize(original).Ok? && SameTriple(RowClaim(pack.rows[idx], i2s).value, Canonicalize(original).value)
  }

  predicate Passes(pack: CompressedPack) {
    && LoadIds(pack.table.idToString).Some?
    && var i2s := LoadIds(pack.table.idToString).value;
       && (forall j | 0 <= j < |pack.rows| :: RowClaim(pack.rows[j], i2s).Some?)
       && (forall idx | 0 <= idx < |pack.originals| :: OriginalChecks(pack, i2s, idx))
  }

  /** `decompress_pack` on a loaded pack: accepted, or the way it fails. */
  method DecompressPack(pack: CompressedPack) returns (outcome: CheckOutcome)
    ensures outcome.Accepted? <==> Passes(pack)
  {
    hide Decode, Canonicalize, FromRow, LoadIds, LoadNames;
    var _, loaded := FromDict(pack.table);
    if loaded.None? {
      return DecodeFailed;
    }
    var i2s := loaded.value;
    for j := 0 to |pack.rows|
      invariant forall k | 0 <= k < j :: RowClaim(pack.rows[k], i2s).Some?
    {
      var e := FromRow(pack.rows[j]);
      if e.None? {
        return DecodeFailed;
      }
      var c := DecodeClaim(e.value, i2s);
      if c.None? {
        return DecodeFailed;
      }
    }
    for idx := 0 to |pack.originals|
      invariant forall k | 0 <= k < idx :: OriginalChecks(pack, i2s, k)
    {
      if idx >= |pack.rows| {
        assert !OriginalChecks(pack, i2s, idx);
        return MissingRow;
      }
      var e := FromRow(pack.rows[idx]);
      var decoded := DecodeClaim(e.value, i2s);
      var original := pack.originals[idx];
      if Truthy(original.subject) && Truthy(original.relation) && Truthy(original.obj) {
        var canonical := CanonicalizeClaim(original);
        if canonical.Err? {
          assert !OriginalChecks(pack, i2s, idx);
          return NotCanonical;
        }
        if !SameTriple(decoded.value, canonical.value) {
          assert !OriginalChecks(pack, i2s, idx);
          return Mismatch(idx);
        }
      }
    }
    outcome := Accepted;
  }

  /** A pack passes its own integrity check exactly when every original claim had a canonical form:
      skipping one leaves fewer rows than originals. */
  lemma {:induction false} AcceptsOwnPackIff(raw: seq<RawClaim>)
    ensures Passes(PackOf(raw)) <==> forall i | 0 <= i < |raw| :: Canonicalize(raw[i]).Ok?
  {
    hide NamesOf, Known, Encode, Decode, ToRow, FromRow, StoredOf, Canonicalize, Canonicals, Truthy, SameTriple;
    var pack, claims := PackOf(raw), Canonicals(raw);
    CanonicalCount(raw);
    NamesKnown(claims);
    StoredRoundTrip(NamesOf(claims));
    assert |pack.rows| == |claims|;
    if |claims| == |raw| {
      var i2s := LoadIds(pack.table.idToString).value;
      forall j | 0 <= j < |pack.rows| ensures RowClaim(pack.rows[j], i2s) == Some(claims[j]) {
        CompressionRoundTrip(raw, j);
      }
      forall idx | 0 <= idx < |raw| ensures OriginalChecks(pack, i2s, idx) {
        assert Canonicalize(raw[idx]).Ok? && claims[idx] == Canonicalize(raw[idx]).value;
        SameTripleItself(claims[idx]);
      }
    } else {
      assert |claims| < |raw| && pack.originals == raw;
      assert !OriginalChecks(pack, LoadIds(pack.table.idToString).value, |claims|);
    }
  }

  lemma SameTripleItself(c: CanonicalClaim)
    ensures SameTriple(c, c)
  {
  }

  // ---- Lookup by id ----

  datatype Triple = Triple(subject: string, relation: string, obj: string)

  /** The runtime index reads the tables and the rows of a stored pack and never writes. */
  datatype RuntimeIndex = RuntimeIndex(s2i: map<string, int>, i2s: map<int, string>, rows: seq<EncodedRow>)

  function ResolveOr(ix: RuntimeIndex, id: int): string {
    if id in ix.i2s then ix.i2s[id] else ""
  }

  function RowTriple(ix: RuntimeIndex, row: EncodedRow): Triple {
    Triple(ResolveOr(ix, row.subjectId), ResolveOr(ix, row.relationId), ResolveOr(ix, row.objectId))
  }

  function Triples(ix: RuntimeIndex): seq<Triple> {
    seq(|ix.rows|, i requires 0 <= i < |ix.rows| => RowTriple(ix, ix.rows[i]))
  }

  /** `iter_claims` */
  method IterClaims(ix: RuntimeIndex) returns (claims: seq<Triple>)
    ensures claims == Triples(ix)
  {
    claims := [];
    for i := 0 to |ix.rows|
      invariant claims == Triples(ix)[..i]
    {
      claims := claims + [RowTriple(ix, ix.rows[i])];
    }
  }

  predicate Matches(t: Triple, subject: Option<string>, relation: Option<string>, obj: Option<string>) {
    && (subject.Some? ==> t.subject == subject.value)
    && (relation.Some? ==> t.relation == relation.value)
    && (obj.Some? ==> t.obj == obj.value)
  }

  function Select(
      ts: seq<Triple>, subject: Option<string>, relation: Option<string>, obj: Option<string>): seq<Triple>
  {
    if ts == [] then []
    else (if Matches(ts[0], subject, relation, obj) then [ts[0]] else []) + Select(ts[1..], subject, relation, obj)
  }

  /** The tables invert each other and cover every id a row uses. */
  predicate TablesAgree(ix: RuntimeIndex) {
    && (forall s | s in ix.s2i :: ix.s2i[s] in ix.i2s && ix.i2s[ix.s2i[s]] == s)
    && (forall i | i in ix.i2s :: ix.i2s[i] in ix.s2i && ix.s2i[ix.i2s[i]] == i)
    && (forall k | 0 <= k < |ix.rows| ::
      ix.rows[k].subjectId in ix.i2s && ix.rows[k].relationId in ix.i2s && ix.rows[k].objectId in ix.i2s)
  }

  function IdOf(ix: RuntimeIndex, s: Option<string>): Option<int> {
    if s.Some? && s.value in ix.s2i then Some(ix.s2i[s.value]) else None
  }

  lemma {:induction false} IdMatch(ix: RuntimeIndex, id: int, s: string)
    requires TablesAgree(ix) && id in ix.i2s
    ensures IdOf(ix, Some(s)) == Some(id) <==> ResolveOr(ix, id) == s
  {
  }

  /** Every filter given names a known string, and the row has their ids. */
  predicate IdsMatch(
      ix: RuntimeIndex, row: EncodedRow, subject: Option<string>, relation: Option<string>, obj: Option<string>)
  {
    && (subject.Some? ==> IdOf(ix, subject) == Some(row.subjectId))
    && (relation.Some? ==> IdOf(ix, relation) == Some(row.relationId))
    && (obj.Some? ==> IdOf(ix, obj) == Some(row.objectId))
  }

  function SelectByIds(
      ix: RuntimeIndex, rows: seq<EncodedRow>, subject: Option<string>, relation: Option<string>,
      obj: Option<string>): seq<Triple>
  {
    if rows == [] then []
    else
      (if IdsMatch(ix, rows[0], subject, relation, obj) then [RowTriple(ix, rows[0])] else [])
      + SelectByIds(ix, rows[1..], subject, relation, obj)
  }

  /** Comparing ids selects the same claims, in the same order, as comparing strings over `iter_claims`,
      for every combination of filters, when the tables agree. */
  lemma {:induction false} LookupIsSelection(
      ix: RuntimeIndex, k: nat, subject: Option<string>, relation: Option<string>, obj: Option<string>)
    requires TablesAgree(ix) && k <= |ix.rows|
    ensures SelectByIds(ix, ix.rows[k..], subject, relation, obj) == Select(Triples(ix)[k..], subject, relation, obj)
    decreases |ix.rows| - k
  {
    hide RowTriple, Matches, IdsMatch, TablesAgree;
    if k < |ix.rows| {
      LookupIsSelection(ix, k + 1, subject, relation, obj);
      RowSelected(ix, k, subject, relation, obj);
      var ts := Triples(ix)[k..];
      assert ts[0] == RowTriple(ix, ix.rows[k]) && ts[1..] == Triples(ix)[k + 1..];
      assert ix.rows[k..][0] == ix.rows[k] && ix.rows[k..][1..] == ix.rows[k + 1..];
    }
  }

  lemma {:induction false} UnknownFilter(
      ix: RuntimeIndex, rows: seq<EncodedRow>, subject: Option<string>, relation: Option<string>, obj: Option<string>)
    requires (subject.Some? && IdOf(ix, subject).None?) || (relation.Some? && IdOf(ix, relation).None?) ||
      (obj.Some? && IdOf(ix, obj).None?)
    ensures SelectByIds(ix, rows, subject, relation, obj) == []
  {
    hide RowTriple;
    if rows != [] {
      UnknownFilter(ix, rows[1..], subject, relation, obj);
    }
  }

  /** `lookup`, on whatever tables were loaded. */
  method Lookup(
      ix: RuntimeIndex, subject: Option<string>, relation: Option<string>, obj: Option<string>)
    returns (matches: seq<Triple>)
    ensures matches == SelectByIds(ix, ix.rows, subject, relation, obj)
    ensures TablesAgree(ix) ==> matches == Select(Triples(ix), subject, relation, obj)
  {
    hide Select, TablesAgree, RowTriple;
    var subjectId, relationId, objectId := IdOf(ix, subject), IdOf(ix, relation), IdOf(ix, obj);
    assert Triples(ix)[0..] == Triples(ix) && ix.rows[0..] == ix.rows;
    if TablesAgree(ix) {
      LookupIsSelection(ix, 0, subject, relation, obj);
    }
    if (subject.Some? && subjectId.None?) || (relation.Some? && relationId.None?) || (obj.Some? && objectId.None?) {
      UnknownFilter(ix, ix.rows, subject, relation, obj);
      return [];
    }
    matches := [];
    for k := 0 to |ix.rows|
      invariant matches + SelectByIds(ix, ix.rows[k..], subject, relation, obj) ==
        SelectByIds(ix, ix.rows, subject, relation, obj)
    {
      var row := ix.rows[k];
      SelectNext(ix, k, matches, subject, relation, obj);
      if subjectId.Some? && row.subjectId != subjectId.value { continue; }
      if relationId.Some? && row.relationId != relationId.value { continue; }
      if objectId.Some? && row.objectId != objectId.value { continue; }
      matches := matches + [RowTriple(ix, row)];
    }
  }

  lemma {:induction false} RowSelected(
      ix: RuntimeIndex, k: nat, subject: Option<string>, relation: Option<string>, obj: Option<string>)
    requires TablesAgree(ix) && k < |ix.rows|
    ensures Matches(RowTriple(ix, ix.rows[k]), subject, relation, obj) <==>
      IdsMatch(ix, ix.rows[k], subject, relation, obj)
  {
    var row := ix.rows[k];
    if subject.Some? { IdMatch(ix, row.subjectId, subject.value); }
    if relation.Some? { IdMatch(ix, row.relationId, relation.value); }
    if obj.Some? { IdMatch(ix, row.objectId, obj.value); }
  }

  lemma {:induction false} SelectNext(
      ix: RuntimeIndex, k: nat, done: seq<Triple>, subject: Option<string>, relation: Option<string>,
      obj: Option<string>)
    requires k < |ix.rows|
    ensures var next := SelectByIds(ix, ix.rows[k + 1..], subject, relation, obj);
      done + SelectByIds(ix, ix.rows[k..], subject, relation, obj) ==
      (if IdsMatch(ix, ix.rows[k], subject, relation, obj) then done + [RowTriple(ix, ix.rows[k])] else done) + next
  {
    hide RowTriple, IdsMatch;
    assert ix.rows[k..][0] == ix.rows[k] && ix.rows[k..][1..] == ix.rows[k + 1..];
  }

  /** The index a stored pack loads into. */
  function IndexOfPack(raw: seq<RawClaim>): RuntimeIndex {
    var pack := PackOf(raw);
    var ids := LoadIds(pack.table.idToString);
    RuntimeIndex(LoadNames(pack.table.stringToId), if ids.Some? then ids.value else map[], pack.rows)
  }

  function TripleOf(c: CanonicalClaim): Triple {
    Triple(c.subject, c.relation, c.obj)
  }

  /** The triple of a claim by its own texts, when all three fields have words. */
  function TextTriple(c: RawClaim): seq<Triple> {
    if Filled(c.subject) && Filled(c.relation) && Filled(c.obj) then
      [Triple(Text.Join(" ", Text.Words(Text.Lower(c.subject.text))),
              RelationName(Text.Strip(Text.Lower(c.relation.text))),
              Text.Join(" ", Text.Words(Text.Lower(c.obj.text))))]
    else []
  }

  function TextTriples(raw: seq<RawClaim>): seq<Triple> {
    if raw == [] then [] else TextTriple(raw[0]) + TextTriples(raw[1..])
  }

  function TriplesOf(claims: seq<CanonicalClaim>): (ts: seq<Triple>)
    ensures |ts| == |claims| && forall j | 0 <= j < |claims| :: ts[j] == TripleOf(claims[j])
  {
    seq(|claims|, j requires 0 <= j < |claims| => TripleOf(claims[j]))
  }

  lemma {:induction false} CanonicalTexts(raw: seq<RawClaim>)
    ensures TriplesOf(Canonicals(raw)) == TextTriples(raw)
  {
    hide Canonicalize, Filled, RelationName, Text.Join, Text.Words, Text.Lower, Text.Strip;
    if raw != [] {
      CanonicalFields(raw[0]);
      CanonicalTexts(raw[1..]);
    }
  }

  /** The index of a pack lists the triples of the raw claims, by their own words; so a lookup on it is a
      selection over the raw claims' texts. */
  lemma {:induction false} IndexOfPackTexts(
      raw: seq<RawClaim>, subject: Option<string>, relation: Option<string>, obj: Option<string>)
    ensures Triples(IndexOfPack(raw)) == TextTriples(raw)
    ensures var ix := IndexOfPack(raw);
      SelectByIds(ix, ix.rows, subject, relation, obj) == Select(TextTriples(raw), subject, relation, obj)
  {
    hide IndexOfPack, TextTriples, Canonicals, TablesAgree, SelectByIds, Select, TripleOf;
    var ix := IndexOfPack(raw);
    IndexOfPackLists(raw);
    CanonicalTexts(raw);
    assert Triples(ix) == TriplesOf(Canonicals(raw));
    LookupIsSelection(ix, 0, subject, relation, obj);
    assert ix.rows[0..] == ix.rows && Triples(ix)[0..] == Triples(ix);
  }

  /** The index of a pack is consistent and lists the triples of the canonical claims; so a lookup
      on it is the same selection over the canonicalised original claims. */
  lemma {:induction false} IndexOfPackLists(raw: seq<RawClaim>)
    ensures TablesAgree(IndexOfPack(raw))
    ensures |Triples(IndexOfPack(raw))| == |Canonicals(raw)|
    ensures forall j | 0 <= j < |Canonicals(raw)| :: Triples(IndexOfPack(raw))[j] == TripleOf(Canonicals(raw)[j])
  {
    hide NamesOf, StoredOf, Canonicals, LoadIds, LoadNames;
    var claims := Canonicals(raw);
    var names := NamesOf(claims);
    NamesKnown(claims);
    StoredRoundTrip(names);
    var ix := IndexOfPack(raw);
    assert ix.s2i == IdTable(names) && ix.i2s == NameTable(names);
    forall i | i in ix.i2s ensures ix.i2s[i] in ix.s2i && ix.s2i[ix.i2s[i]] == i {
      IndexUnique(names, i);
    }
    forall j | 0 <= j < |claims|
      ensures RowTriple(ix, ix.rows[j]) == TripleOf(claims[j])
      ensures ix.rows[j].subjectId in ix.i2s && ix.rows[j].relationId in ix.i2s && ix.rows[j].objectId in ix.i2s
    {
      assert ix.rows[j] == ToRow(Encode(names, claims[j]));
    }
  }
}
