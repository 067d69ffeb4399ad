/** The claim-building loop of the knowledge compiler (src/vcse/compiler/engine.py): expand, normalise,
    deduplicate by key, record provenance and aliases. */
module KnowledgeCompiler {
  import opened Json
  import opened Text
  import opened Identity

  /** A record value: null, a list whose items are null or texts, or anything else by its text. */
  datatype Value = Null | Items(text: string, items: seq<Option<string>>) | Scalar(text: string)

  datatype Record = Record(id: string, fields: map<string, Value>)

  /** `fields` maps aliases to source fields, in order; validation makes `relationMap` cover the aliases. */
  datatype Mapping = Mapping(sourceId: string, domainId: string, entityField: string, fields: seq<(string, string)>,
    relationMap: map<string, string>)

  predicate ValidMapping(m: Mapping) {
    forall i | 0 <= i < |m.fields| :: m.fields[i].0 in m.relationMap
  }

  function FieldOf(r: Record, field: string): Value {
    if field in r.fields then r.fields[field] else Value.Null
  }

  function NonBlank(text: string): seq<string> {
    if Strip(text) == "" then [] else [Strip(text)]
  }

  function ExpandItems(items: seq<Option<string>>): seq<string> {
    if items == [] then [] else (if items[0].None? then [] else NonBlank(items[0].value)) + ExpandItems(items[1..])
  }

  /** `_expand_value` */
  function ExpandValue(v: Value): seq<string> {
    match v
    case Null => []
    case Items(_, items) => ExpandItems(items)
    case Scalar(text) => NonBlank(text)
  }

  // ---- Facts: the normalisable (record, field, value) triples ----

  datatype Fact = Fact(subject: string, relation: string, obj: string, recordId: string, field: string)

  /** `_claim_key` of the normalised subject and object. */
  function KeyOf(f: Fact): string {
    NormalizeEntity(f.subject) + "|" + f.relation + "|" + NormalizeEntity(f.obj)
  }

  /** An expanded value counts when its text normalises to something. */
  function Normalisable(f: Fact): seq<Fact> {
    if NormalizeEntity(f.obj) == "" then [] else [f]
  }

  function FactsOfValues(
      subject: string, relation: string, values: seq<string>, recordId: string, field: string): seq<Fact>
  {
    if values == [] then []
    else Normalisable(Fact(subject, relation, values[0], recordId, field))
         + FactsOfValues(subject, relation, values[1..], recordId, field)
  }

  function FactsOfFields(subject: string, r: Record, m: Mapping, fields: seq<(string, string)>): seq<Fact>
    requires forall i | 0 <= i < |fields| :: fields[i].0 in m.relationMap
  {
    if fields == [] then []
    else FactsOfValues(subject, m.relationMap[fields[0].0], ExpandValue(FieldOf(r, fields[0].1)), r.id, fields[0].1)
         + FactsOfFields(subject, r, m, fields[1..])
  }

  /** The subject of a record, when it is present and normalises to something. */
  function SubjectOf(r: Record, m: Mapping): Option<string> {
    var raw := FieldOf(r, m.entityField);
    if raw.Null? || Strip(raw.text) == "" || NormalizeEntity(Strip(raw.text)) == "" then None else Some(Strip(raw.text))
  }

  function FactsOfRecord(r: Record, m: Mapping): seq<Fact>
    requires ValidMapping(m)
  {
    var subject := SubjectOf(r, m);
    if subject.None? then [] else FactsOfFields(subject.value, r, m, m.fields)
  }

  function Facts(records: seq<Record>, m: Mapping): seq<Fact>
    requires ValidMapping(m)
  {
    if records == [] then [] else FactsOfRecord(records[0], m) + Facts(records[1..], m)
  }

  /** The subject texts the records put in the registry. */
  function Subjects(records: seq<Record>, m: Mapping): set<string> {
    set r | r in records && SubjectOf(r, m).Some? :: SubjectOf(r, m).value
  }

  function Objects(facts: seq<Fact>): set<string> {
    set f | f in facts :: f.obj
  }

  // ---- What is emitted ----

  datatype CompiledClaim = CompiledClaim(
    key: string,
    subject: string,
    relation: string,
    obj: string,
    normalizedSubject: string,
    normalizedObject: string,
    subjectId: string,
    objectId: string)

  datatype ProvenanceRow = ProvenanceRow(
    key: string,
    sourceId: string,
    recordId: string,
    domainId: string,
    relation: string,
    field: string,
    value: string,
    normalizedSubject: string,
    normalizedObject: string,
    subjectId: string,
    objectId: string)

  function ClaimOf(f: Fact): CompiledClaim {
    CompiledClaim(KeyOf(f), f.subject, f.relation, f.obj, NormalizeEntity(f.subject), NormalizeEntity(f.obj),
                  CanonicalId(f.subject), CanonicalId(f.obj))
  }

  function RowOf(f: Fact, m: Mapping): ProvenanceRow {
    ProvenanceRow(KeyOf(f), m.sourceId, f.recordId, m.domainId, f.relation, f.field, f.obj,
                  NormalizeEntity(f.subject), NormalizeEntity(f.obj), CanonicalId(f.subject), CanonicalId(f.obj))
  }

  function Keys(facts: seq<Fact>): set<string> {
    set f | f in facts :: KeyOf(f)
  }

  /** The first fact of each key, in order. */
  function FirstFacts(facts: seq<Fact>): seq<Fact> {
    if facts == [] then []
    else
      var init, f := facts[..|facts| - 1], facts[|facts| - 1];
      if KeyOf(f) in Keys(init) then FirstFacts(init) else FirstFacts(init) + [f]
  }

  function ClaimsOf(facts: seq<Fact>): (cs: seq<CompiledClaim>)
    ensures |cs| == |facts| && forall i | 0 <= i < |cs| :: cs[i] == ClaimOf(facts[i])
  {
    seq(|facts|, i requires 0 <= i < |facts| => ClaimOf(facts[i]))
  }

  function RowsOf(facts: seq<Fact>, m: Mapping): (rs: seq<ProvenanceRow>)
    ensures |rs| == |facts| && forall i | 0 <= i < |rs| :: rs[i] == RowOf(facts[i], m)
  {
    seq(|facts|, i requires 0 <= i < |facts| => RowOf(facts[i], m))
  }

  /** The local variables of `compile` that its loops update. */
  class Compilation {
    const mapping: Mapping
    var claims: seq<CompiledClaim>
    var provenance: seq<ProvenanceRow>
    var seenKeys: set<string>
    var duplicateCount: nat
    const registry: AliasRegistry
    ghost var facts: seq<Fact>
    ghost var subjects: set<string>

    /** The state is what processing `facts` in order gives; the registry knows their objects and `subjects`. */
    ghost predicate Valid()
      reads this, registry
    {
      && registry.Valid()
      && Derived(registry.entities) && Texts(registry.entities) == subjects + Objects(facts)
      && claims == ClaimsOf(FirstFacts(facts))
      && provenance == RowsOf(FirstFacts(facts), mapping)
      && seenKeys == Keys(facts)
      && duplicateCount == |facts| - |FirstFacts(facts)|
    }

    constructor (mapping: Mapping)
      ensures Valid() && facts == [] && subjects == {} && this.mapping == mapping && fresh(registry)
    {
      this.mapping := mapping;
      claims, provenance, seenKeys, duplicateCount, facts, subjects := [], [], {}, 0, [], {};
      registry := new AliasRegistry();
    }

    /** The body of the innermost loop, for one expanded value. */
    method EmitValue(f: Fact)
      requires Valid()
      modifies this, registry
      ensures Valid()
      ensures facts == old(facts) + Normalisable(f)
      ensures subjects == old(subjects)
    {
      hide NormalizeEntity, KeyOf, FirstFacts, ClaimOf, RowOf, Keys, Objects, AliasRegistry.Valid, Derived, Texts;
      var normalizedObject := NormalizeEntity(f.obj);
      if normalizedObject == "" {
        assert facts + [] == facts;
        return;
      }
      DerivedNext(registry.entities, f.obj);
      registry.Add(Entity("entity:" + normalizedObject, f.obj, normalizedObject));
      var key := KeyOf(f);
      FirstSnoc(facts, f);
      ObjectsSnoc(facts, f);
      FirstFewer(facts);
      EmittedSnoc(FirstFacts(facts), f, mapping);
      facts := facts + [f];
      if key in seenKeys {
        duplicateCount := duplicateCount + 1;
        return;
      }
      seenKeys := seenKeys + {key};
      claims := claims + [ClaimOf(f)];
      provenance := provenance + [RowOf(f, mapping)];
    }

    /** The loop over the mapped fields and their expanded values. */
    method CompileFields(subject: string, r: Record)
      requires Valid() && ValidMapping(mapping)
      modifies this, registry
      ensures Valid() && facts == old(facts) + FactsOfFields(subject, r, mapping, mapping.fields)
      ensures subjects == old(subjects)
    {
      hide NormalizeEntity, ExpandValue;
      ghost var goal := facts + FactsOfFields(subject, r, mapping, mapping.fields);
      assert mapping.fields[0..] == mapping.fields;
      for i := 0 to |mapping.fields|
        invariant Valid() && subjects == old(subjects)
        invariant facts + FactsOfFields(subject, r, mapping, mapping.fields[i..]) == goal
      {
        var (alias, field) := mapping.fields[i];
        var relation := mapping.relationMap[alias];
        var values := ExpandValue(FieldOf(r, field));
        FieldsFirst(subject, r, mapping, i, facts);
        CompileValues(subject, relation, values, r.id, field);
      }
      assert facts + [] == facts;
    }

    method CompileValues(subject: string, relation: string, values: seq<string>, recordId: string, field: string)
      requires Valid()
      modifies this, registry
      ensures Valid() && facts == old(facts) + FactsOfValues(subject, relation, values, recordId, field)
      ensures subjects == old(subjects)
    {
      hide NormalizeEntity;
      assert values[0..] == values;
      for j := 0 to |values|
        invariant Valid() && subjects == old(subjects)
        invariant facts + FactsOfValues(subject, relation, values[j..], recordId, field)
               == old(facts) + FactsOfValues(subject, relation, values, recordId, field)
      {
        ValuesFirst(subject, relation, values, recordId, field, j, facts);
        EmitValue(Fact(subject, relation, values[j], recordId, field));
      }
      assert facts + [] == facts;
    }

    /** The loop over the records. */
    method Compile(records: seq<Record>)
      requires Valid() && ValidMapping(mapping) && facts == [] && subjects == {}
      modifies this, registry
      ensures Valid() && facts == Facts(records, mapping) && subjects == Subjects(records, mapping)
    {
      hide NormalizeEntity, Facts, FactsOfFields, Objects, Subjects, FirstFacts, Keys, AliasRegistry.Valid, Derived,
        Texts;
      assert records[0..] == records && records[..0] == [];
      assert [] + Facts(records, mapping) == Facts(records, mapping);
      SubjectsEmpty(mapping);
      for k := 0 to |records|
        invariant Valid()
        invariant facts + Facts(records[k..], mapping) == Facts(records, mapping)
        invariant subjects == Subjects(records[..k], mapping)
      {
        var record := records[k];
        RecordsFirst(records, mapping, k, facts);
        SubjectsNext(records, mapping, k);
        var subjectRaw := FieldOf(record, mapping.entityField);
        if subjectRaw.Null? || Strip(subjectRaw.text) == "" { continue; }
        var subject := Strip(subjectRaw.text);
        var normalizedSubject := NormalizeEntity(subject);
        if normalizedSubject == "" { continue; }
        AddSubject(subject, normalizedSubject);
        CompileFields(subject, record);
      }
      FactsEnd(records, mapping, facts);
    }

    /** Registers the subject of a record. */
    method AddSubject(subject: string, normalizedSubject: string)
      requires Valid() && normalizedSubject == NormalizeEntity(subject)
      modifies this`subjects, registry
      ensures Valid() && subjects == old(subjects) + {subject}
    {
      hide NormalizeEntity, Objects, FirstFacts, Keys, AliasRegistry.Valid, Derived, Texts;
      DerivedNext(registry.entities, subject);
      registry.Add(Entity("entity:" + normalizedSubject, subject, normalizedSubject));
      subjects := subjects + {subject};
    }
  }

  lemma DerivedNext(entities: seq<Entity>, text: string)
    requires Derived(entities)
    ensures Derived(entities + [EntityOf(text)]) && Texts(entities + [EntityOf(text)]) == Texts(entities) + {text}
  {
    hide NormalizeEntity;
    assert forall e :: e in entities + [EntityOf(text)] <==> e in entities || e == EntityOf(text);
  }

  lemma SubjectsEmpty(m: Mapping)
    ensures Subjects([], m) == {}
  {
    hide SubjectOf;
  }

  lemma {:induction false} SubjectsNext(records: seq<Record>, m: Mapping, k: nat)
    requires k < |records|
    ensures Subjects(records[..k + 1], m) == Subjects(records[..k], m)
      + (if SubjectOf(records[k], m).Some? then {SubjectOf(records[k], m).value} else {})
  {
    hide SubjectOf;
    assert records[..k + 1] == records[..k] + [records[k]];
    assert forall r :: r in records[..k + 1] <==> r in records[..k] || r == records[k];
  }

  lemma {:induction false} FactsEnd(records: seq<Record>, m: Mapping, done: seq<Fact>)
    requires ValidMapping(m)
    ensures records[|records|..] == [] && done + Facts(records[|records|..], m) == done &&
      records[..|records|] == records
  {
    hide FactsOfRecord;
    assert done + [] == done;
  }

  lemma {:induction false} ObjectsSnoc(facts: seq<Fact>, f: Fact)
    ensures Objects(facts + [f]) == Objects(facts) + {f.obj}
  {
    assert forall x :: x in facts + [f] <==> x in facts || x == f;
  }

  lemma {:induction false} EmittedSnoc(kept: seq<Fact>, f: Fact, m: Mapping)
    ensures ClaimsOf(kept + [f]) == ClaimsOf(kept) + [ClaimOf(f)]
    ensures RowsOf(kept + [f], m) == RowsOf(kept, m) + [RowOf(f, m)]
  {
    hide ClaimOf, RowOf;
  }

  lemma {:induction false} RecordsFirst(records: seq<Record>, m: Mapping, k: nat, done: seq<Fact>)
    requires k < |records| && ValidMapping(m)
    ensures done + Facts(records[k..], m) == (done + FactsOfRecord(records[k], m)) + Facts(records[k + 1..], m)
    ensures FactsOfRecord(records[k], m) == [] ==> done + Facts(records[k..], m) == done + Facts(records[k + 1..], m)
  {
    hide FactsOfRecord;
    assert records[k..][0] == records[k] && records[k..][1..] == records[k + 1..];
    var here, later := FactsOfRecord(records[k], m), Facts(records[k + 1..], m);
    assert done + (here + later) == (done + here) + later;
    assert [] + later == later;
  }

  lemma {:induction false} FieldsFirst(subject: string, r: Record, m: Mapping, i: nat, done: seq<Fact>)
    requires i < |m.fields| && ValidMapping(m)
    ensures var here :=
      FactsOfValues(subject, m.relationMap[m.fields[i].0], ExpandValue(FieldOf(r, m.fields[i].1)), r.id, m.fields[i].1);
      done + FactsOfFields(subject, r, m, m.fields[i..]) ==
        (done + here) + FactsOfFields(subject, r, m, m.fields[i + 1..])
  {
    hide FactsOfValues, ExpandValue;
    assert m.fields[i..][0] == m.fields[i] && m.fields[i..][1..] == m.fields[i + 1..];
    var here := FactsOfValues(subject, m.relationMap[m.fields[i].0], ExpandValue(FieldOf(r, m.fields[i].1)), r.id,
      m.fields[i].1);
    var later := FactsOfFields(subject, r, m, m.fields[i + 1..]);
    assert done + (here + later) == (done + here) + later;
  }

  lemma {:induction false} ValuesFirst(
      subject: string, relation: string, values: seq<string>, recordId: string, field: string, j: nat, done: seq<Fact>)
    requires j < |values|
    ensures var here := Normalisable(Fact(subject, relation, values[j], recordId, field));
      done + FactsOfValues(subject, relation, values[j..], recordId, field)
      == (done + here) + FactsOfValues(subject, relation, values[j + 1..], recordId, field)
  {
    hide Normalisable;
    assert values[j..][0] == values[j] && values[j..][1..] == values[j + 1..];
    var here := Normalisable(Fact(subject, relation, values[j], recordId, field));
    var later := FactsOfValues(subject, relation, values[j + 1..], recordId, field);
    assert done + (here + later) == (done + here) + later;
  }

  lemma {:induction false} FirstSnoc(facts: seq<Fact>, f: Fact)
    ensures FirstFacts(facts + [f]) == if KeyOf(f) in Keys(facts) then FirstFacts(facts) else FirstFacts(facts) + [f]
    ensures Keys(facts + [f]) == Keys(facts) + {KeyOf(f)}
  {
    hide KeyOf;
    var all := facts + [f];
    assert all[..|all| - 1] == facts;
    assert forall x :: x in all <==> x in facts || x == f;
  }

  lemma {:induction false} FirstFewer(facts: seq<Fact>)
    ensures |FirstFacts(facts)| <= |facts|
  {
    hide KeyOf;
    if facts != [] {
      FirstFewer(facts[..|facts| - 1]);
    }
  }

  // ---- What the loop promises ----

  /** The fact at `j` is the first of its key. */
  predicate FirstAt(facts: seq<Fact>, j: nat, f: Fact) {
    j < |facts| && facts[j] == f && forall i | 0 <= i < j :: KeyOf(facts[i]) != KeyOf(f)
  }

  ghost predicate IsFirst(facts: seq<Fact>, f: Fact) {
    exists j: nat :: FirstAt(facts, j, f)
  }

  /** The claim holds the fact's own ends and relation, their normal forms, and ids and a key made of those. */
  predicate ClaimStates(claim: CompiledClaim, f: Fact) {
    && claim.subject == f.subject && claim.relation == f.relation && claim.obj == f.obj
    && claim.normalizedSubject == NormalizeEntity(f.subject) && claim.normalizedObject == NormalizeEntity(f.obj)
    && claim.subjectId == "entity:" + claim.normalizedSubject && claim.objectId == "entity:" + claim.normalizedObject
    && claim.key == claim.normalizedSubject + "|" + claim.relation + "|" + claim.normalizedObject
  }

  /** The row tells where the claim's fact was found. */
  predicate RowStates(row: ProvenanceRow, claim: CompiledClaim, f: Fact, m: Mapping) {
    && row.recordId == f.recordId && row.field == f.field && row.sourceId == m.sourceId && row.domainId == m.domainId
    && row.key == claim.key && row.relation == claim.relation && row.value == claim.obj
    && row.normalizedSubject == claim.normalizedSubject && row.normalizedObject == claim.normalizedObject
    && row.subjectId == claim.subjectId && row.objectId == claim.objectId
  }

  /** The claim and its row are made from the first fact with their key. */
  ghost predicate FromFirst(facts: seq<Fact>, claim: CompiledClaim, row: ProvenanceRow, m: Mapping) {
    exists f :: IsFirst(facts, f) && ClaimStates(claim, f) && RowStates(row, claim, f, m)
  }

  /** Some claim has the fact's key. */
  predicate Represented(claims: seq<CompiledClaim>, f: Fact) {
    exists i :: 0 <= i < |claims| && claims[i].key == KeyOf(f)
  }

  lemma {:induction false} FirstKeys(facts: seq<Fact>)
    ensures Keys(FirstFacts(facts)) == Keys(facts)
  {
    hide KeyOf, Keys;
    if facts != [] {
      var init, f := facts[..|facts| - 1], facts[|facts| - 1];
      FirstKeys(init);
      assert facts == init + [f];
      FirstSnoc(init, f);
      FirstSnoc(FirstFacts(init), f);
    }
  }

  lemma KeyListed(facts: seq<Fact>, i: nat)
    requires i < |facts|
    ensures KeyOf(facts[i]) in Keys(facts)
  {
    hide KeyOf;
    assert facts[i] in facts;
  }

  lemma {:induction false} FirstDistinct(facts: seq<Fact>, a: nat, b: nat)
    requires a < b < |FirstFacts(facts)|
    ensures KeyOf(FirstFacts(facts)[a]) != KeyOf(FirstFacts(facts)[b])
  {
    hide KeyOf, Keys;
    var init, f := facts[..|facts| - 1], facts[|facts| - 1];
    var before := FirstFacts(init);
    if b < |before| {
      FirstDistinct(init, a, b);
    } else {
      FirstKeys(init);
      KeyListed(before, a);
    }
  }

  lemma {:induction false} FirstOccurs(facts: seq<Fact>, a: nat) returns (j: nat)
    requires a < |FirstFacts(facts)|
    ensures FirstAt(facts, j, FirstFacts(facts)[a])
  {
    hide KeyOf, Keys;
    var init, f := facts[..|facts| - 1], facts[|facts| - 1];
    var before := FirstFacts(init);
    assert facts == init + [f];
    if a < |before| {
      j := FirstOccurs(init, a);
      assert forall i | 0 <= i <= j :: facts[i] == init[i];
    } else {
      j := |init|;
      forall i | 0 <= i < j ensures KeyOf(facts[i]) != KeyOf(f) {
        KeyListed(init, i);
        assert facts[i] == init[i];
      }
    }
  }

  /** The emitted facts have distinct keys, are each the first of their key, and leave no key out. */
  lemma {:induction false} FirstFactsLaws(facts: seq<Fact>)
    ensures var out := FirstFacts(facts);
      && (forall a, b | 0 <= a < b < |out| :: KeyOf(out[a]) != KeyOf(out[b]))
      && (forall a | 0 <= a < |out| :: IsFirst(facts, out[a]))
      && Keys(out) == Keys(facts)
  {
    hide KeyOf, Keys, FirstFacts, FirstAt;
    FirstKeys(facts);
    var out := FirstFacts(facts);
    forall a, b | 0 <= a < b < |out| ensures KeyOf(out[a]) != KeyOf(out[b]) { FirstDistinct(facts, a, b); }
    forall a | 0 <= a < |out| ensures IsFirst(facts, out[a]) { var j := FirstOccurs(facts, a); }
  }

  /** The claim key tells normalised triples apart, even when the relation contains `|`. */
  lemma {:induction false} KeyInjective(a: Fact, b: Fact)
    ensures KeyOf(a) == KeyOf(b) <==>
      NormalizeEntity(a.subject) == NormalizeEntity(b.subject) && a.relation == b.relation &&
        NormalizeEntity(a.obj) == NormalizeEntity(b.obj)
  {
    hide NormalizeEntity;
    NormalizeEntityLaws(a.subject);
    NormalizeEntityLaws(a.obj);
    NormalizeEntityLaws(b.subject);
    NormalizeEntityLaws(b.obj);
    if KeyOf(a) == KeyOf(b) {
      SplitKey(NormalizeEntity(a.subject), a.relation, NormalizeEntity(a.obj),
               NormalizeEntity(b.subject), b.relation, NormalizeEntity(b.obj));
    }
  }

  ghost predicate Named(facts: seq<Fact>) {
    forall f | f in facts :: NormalizeEntity(f.obj) != ""
  }

  lemma {:induction false} ValuesNamed(
      subject: string, relation: string, values: seq<string>, recordId: string, field: string)
    ensures Named(FactsOfValues(subject, relation, values, recordId, field))
  {
    hide NormalizeEntity;
    if values != [] {
      ValuesNamed(subject, relation, values[1..], recordId, field);
    }
  }

  lemma {:induction false} FieldsNamed(subject: string, r: Record, m: Mapping, fields: seq<(string, string)>)
    requires forall i | 0 <= i < |fields| :: fields[i].0 in m.relationMap
    ensures Named(FactsOfFields(subject, r, m, fields))
  {
    hide NormalizeEntity, FactsOfValues, ExpandValue;
    if fields != [] {
      ValuesNamed(subject, m.relationMap[fields[0].0], ExpandValue(FieldOf(r, fields[0].1)), r.id, fields[0].1);
      FieldsNamed(subject, r, m, fields[1..]);
    }
  }

  lemma {:induction false} FactsNamed(records: seq<Record>, m: Mapping)
    requires ValidMapping(m)
    ensures Named(Facts(records, m))
  {
    hide NormalizeEntity, FactsOfFields, Strip;
    if records != [] {
      var r := records[0];
      if SubjectOf(r, m).Some? {
        FieldsNamed(SubjectOf(r, m).value, r, m, m.fields);
      }
      FactsNamed(records[1..], m);
    }
  }

  /** Every text a run puts in the registry normalises to something, so looking it up finds its id. */
  lemma {:induction false} AliasesNamed(records: seq<Record>, m: Mapping)
    requires ValidMapping(m)
    ensures forall text | text in Subjects(records, m) + Objects(Facts(records, m)) :: NormalizeEntity(text) != ""
  {
    hide NormalizeEntity, Facts, Strip;
    FactsNamed(records, m);
  }

  /** Compile from scratch: the emitted claims and the duplicates together are all normalisable triples;
      keys are distinct, each claim is the first of its key, and row `i` of the provenance is claim `i`'s. */
  method CompilePack(records: seq<Record>, mapping: Mapping) returns (c: Compilation)
    requires ValidMapping(mapping)
    ensures fresh(c) && c.Valid() && c.mapping == mapping && c.facts == Facts(records, mapping)
    ensures Derived(c.registry.entities) &&
      Texts(c.registry.entities) == Subjects(records, mapping) + Objects(Facts(records, mapping))
    ensures forall text | text in Texts(c.registry.entities) :: NormalizeEntity(text) != ""
    ensures |c.claims| + c.duplicateCount == |Facts(records, mapping)|
    ensures forall a, b | 0 <= a < b < |c.claims| :: c.claims[a].key != c.claims[b].key
    ensures |c.provenance| == |c.claims|
    ensures forall i | 0 <= i < |c.claims| ::
      FromFirst(Facts(records, mapping), c.claims[i], c.provenance[i], mapping)
    ensures forall f | f in Facts(records, mapping) :: Represented(c.claims, f)
  {
    hide Facts, FirstFacts, KeyOf, Subjects, Objects, AliasRegistry.Valid, Derived, Texts, NormalizeEntity, FromFirst,
      ClaimOf, RowOf, CanonicalId, Represented;
    c := new Compilation(mapping);
    c.Compile(records);
    EmittedLaws(Facts(records, mapping), mapping);
    AliasesNamed(records, mapping);
  }

  /** The laws of the kept facts, read off the claims and provenance rows made from them. */
  lemma {:induction false} EmittedLaws(all: seq<Fact>, m: Mapping)
    ensures var claims, rows := ClaimsOf(FirstFacts(all)), RowsOf(FirstFacts(all), m);
      && (forall a, b | 0 <= a < b < |claims| :: claims[a].key != claims[b].key)
      && |rows| == |claims| && (forall i | 0 <= i < |claims| :: FromFirst(all, claims[i], rows[i], m))
      && forall f | f in all :: Represented(claims, f)
  {
    hide FirstFacts, KeyOf, NormalizeEntity, IsFirst, ClaimStates, RowStates, ClaimOf, RowOf;
    FirstFactsLaws(all);
    var out := FirstFacts(all);
    var claims, rows := ClaimsOf(out), RowsOf(out, m);
    forall f ensures ClaimStates(ClaimOf(f), f) && RowStates(RowOf(f, m), ClaimOf(f), f, m) { Emitted(f, m); }
    forall f ensures ClaimOf(f).key == KeyOf(f) { EmittedKey(f); }
    forall i | 0 <= i < |claims| ensures FromFirst(all, claims[i], rows[i], m) {
      assert IsFirst(all, out[i]) && claims[i] == ClaimOf(out[i]) && rows[i] == RowOf(out[i], m);
    }
    forall a, b | 0 <= a < b < |claims| ensures claims[a].key != claims[b].key {
      assert KeyOf(out[a]) != KeyOf(out[b]);
    }
    forall f | f in all ensures Represented(claims, f) {
      assert KeyOf(f) in Keys(out);
      var g :| g in out && KeyOf(g) == KeyOf(f);
      var i :| 0 <= i < |out| && out[i] == g;
      assert claims[i].key == KeyOf(f);
    }
  }

  lemma Emitted(f: Fact, m: Mapping)
    ensures ClaimStates(ClaimOf(f), f) && RowStates(RowOf(f, m), ClaimOf(f), f, m)
  {
    hide NormalizeEntity;
  }

  lemma EmittedKey(f: Fact)
    ensures ClaimOf(f).key == KeyOf(f)
  {
    hide NormalizeEntity;
  }

  // ---- Which facts there are ----

  /** The value holds the text: as its own, or as one of its items, with the whitespace around it stripped. */
  predicate HoldsText(v: Value, text: string) {
    && text != ""
    && match v
       case Null => false
       case Items(_, items) => exists i :: 0 <= i < |items| && items[i].Some? && Strip(items[i].value) == text
       case Scalar(raw) => Strip(raw) == text
  }

  /** The record states the fact through the mapped field at `i`: the entity field's text is the subject and the
      field holds the object, and both normalise to something. */
  predicate StatesFact(r: Record, m: Mapping, i: nat, f: Fact)
    requires ValidMapping(m)
  {
    && f.recordId == r.id
    && m.entityField in r.fields && !r.fields[m.entityField].Null?
    && Strip(r.fields[m.entityField].text) == f.subject && NormalizeEntity(f.subject) != ""
    && i < |m.fields| && m.fields[i].1 == f.field && m.relationMap[m.fields[i].0] == f.relation
    && f.field in r.fields && HoldsText(r.fields[f.field], f.obj) && NormalizeEntity(f.obj) != ""
  }

  ghost predicate StatedBy(r: Record, m: Mapping, f: Fact)
    requires ValidMapping(m)
  {
    exists i: nat :: StatesFact(r, m, i, f)
  }

  lemma {:induction false} ExpandItemsIff(items: seq<Option<string>>, text: string)
    ensures text in ExpandItems(items) <==>
      text != "" && exists i :: 0 <= i < |items| && items[i].Some? && Strip(items[i].value) == text
  {
    hide Strip;
    if items != [] {
      ExpandItemsIff(items[1..], text);
      if i :| 0 <= i < |items| && items[i].Some? && Strip(items[i].value) == text && i > 0 {
        assert items[1..][i - 1] == items[i];
      }
      if j :| 0 <= j < |items[1..]| && items[1..][j].Some? && Strip(items[1..][j].value) == text {
        assert items[j + 1] == items[1..][j];
      }
    }
  }

  lemma {:induction false} ExpandIff(v: Value, text: string)
    ensures text in ExpandValue(v) <==> HoldsText(v, text)
  {
    hide Strip;
    match v
    case Null =>
    case Items(_, items) => ExpandItemsIff(items, text);
    case Scalar(raw) =>
  }

  lemma {:induction false} ValuesIff(
      subject: string, relation: string, values: seq<string>, recordId: string, field: string, f: Fact)
    ensures f in FactsOfValues(subject, relation, values, recordId, field) <==>
      f == Fact(subject, relation, f.obj, recordId, field) && f.obj in values && NormalizeEntity(f.obj) != ""
  {
    hide NormalizeEntity;
    if values != [] {
      ValuesIff(subject, relation, values[1..], recordId, field, f);
      assert f.obj in values <==> f.obj == values[0] || f.obj in values[1..];
    }
  }

  lemma {:induction false} FieldsIff(subject: string, r: Record, m: Mapping, k: nat, f: Fact)
    requires ValidMapping(m) && k <= |m.fields|
    ensures f in FactsOfFields(subject, r, m, m.fields[k..]) <==>
      exists i: nat :: k <= i && FromField(subject, r, m, i, f)
    decreases |m.fields| - k
  {
    hide FactsOfValues, ExpandValue, FromField;
    if k == |m.fields| {
      NoField(subject, r, m, f);
    } else {
      FieldsIff(subject, r, m, k + 1, f);
      assert m.fields[k..][0] == m.fields[k] && m.fields[k..][1..] == m.fields[k + 1..];
      FieldIff(subject, r, m, k, f);
      if i: nat :| k <= i && FromField(subject, r, m, i, f) && i > k {
        assert k + 1 <= i;
      }
    }
  }

  predicate FromField(subject: string, r: Record, m: Mapping, i: nat, f: Fact)
    requires ValidMapping(m)
  {
    && i < |m.fields|
    && f == Fact(subject, m.relationMap[m.fields[i].0], f.obj, r.id, m.fields[i].1)
    && HoldsText(FieldOf(r, m.fields[i].1), f.obj) && NormalizeEntity(f.obj) != ""
  }

  lemma NoField(subject: string, r: Record, m: Mapping, f: Fact)
    requires ValidMapping(m)
    ensures forall i: nat | |m.fields| <= i :: !FromField(subject, r, m, i, f)
  {
    hide NormalizeEntity, HoldsText;
  }

  lemma {:induction false} FieldIff(subject: string, r: Record, m: Mapping, i: nat, f: Fact)
    requires ValidMapping(m) && i < |m.fields|
    ensures FromField(subject, r, m, i, f) <==>
      f in FactsOfValues(subject, m.relationMap[m.fields[i].0], ExpandValue(FieldOf(r, m.fields[i].1)), r.id,
        m.fields[i].1)
  {
    hide NormalizeEntity, HoldsText, ExpandValue, FactsOfValues;
    var v := FieldOf(r, m.fields[i].1);
    ExpandIff(v, f.obj);
    ValuesIff(subject, m.relationMap[m.fields[i].0], ExpandValue(v), r.id, m.fields[i].1, f);
  }

  lemma {:induction false} RecordIff(r: Record, m: Mapping, f: Fact)
    requires ValidMapping(m)
    ensures f in FactsOfRecord(r, m) <==> StatedBy(r, m, f)
  {
    hide NormalizeEntity, Strip, FactsOfFields;
    assert m.fields[0..] == m.fields;
    EmptyName();
    if SubjectOf(r, m).Some? {
      var subject := SubjectOf(r, m).value;
      FieldsIff(subject, r, m, 0, f);
      if i: nat :| FromField(subject, r, m, i, f) {
        assert StatesFact(r, m, i, f);
      }
      if i: nat :| StatesFact(r, m, i, f) {
        assert FromField(subject, r, m, i, f);
      }
    }
  }

  lemma EmptyName()
    ensures NormalizeEntity("") == ""
  {
  }

  /** The facts compiled are exactly those some record states: no end exchanged, no field or value passed over. */
  lemma {:induction false} FactsIff(records: seq<Record>, m: Mapping, f: Fact)
    requires ValidMapping(m)
    ensures f in Facts(records, m) <==> exists r :: r in records && StatedBy(r, m, f)
  {
    hide FactsOfRecord, StatedBy;
    if records != [] {
      RecordIff(records[0], m, f);
      FactsIff(records[1..], m, f);
      assert forall r :: r in records <==> r == records[0] || r in records[1..];
    }
  }

  predicate NamedBy(r: Record, m: Mapping, text: string) {
    && m.entityField in r.fields && !r.fields[m.entityField].Null?
    && Strip(r.fields[m.entityField].text) == text && NormalizeEntity(text) != ""
  }

  /** The subjects registered are the entity-field texts that normalise to something. */
  lemma {:induction false} SubjectsIff(records: seq<Record>, m: Mapping, text: string)
    ensures text in Subjects(records, m) <==> exists r :: r in records && NamedBy(r, m, text)
  {
    hide NormalizeEntity, Strip;
    EmptyName();
    if r :| r in records && NamedBy(r, m, text) {
      assert SubjectOf(r, m) == Some(text);
    }
    if text in Subjects(records, m) {
      var r :| r in records && SubjectOf(r, m) == Some(text);
      assert NamedBy(r, m, text);
    }
  }
}
