/** Canonical claims (src/vcse/compression/canonicalizer.py): when a raw claim has a canonical form,
    that the form is a fixed point, and when it forgets the order of the qualifiers. */
module Canonicalizer {
  import opened Text
  import Sorting

  datatype Result<+T> = Ok(value: T) | Err(code: string)

  /** A field of a raw claim: absent or null, or a value known by its text and its truth value. */
  datatype RawField = Missing | Present(text: string, truthy: bool)

  type Pair = (string, string)

  /** `qualifiers` are the texts of the dictionary's items in insertion order; none when it is no dictionary. */
  datatype RawClaim = RawClaim(subject: RawField, relation: RawField, obj: RawField, qualifiers: seq<Pair>)

  datatype CanonicalClaim = CanonicalClaim(subject: string, relation: string, obj: string, qualifiers: seq<Pair>)

  const RELATION_CANONICAL := map[
    "is_a" := "is_a",
    "is_an" := "is_a",
    "isa" := "is_a",
    "type_of" := "is_a",
    "subclass_of" := "is_a",
    "subtypeof" := "is_a",
    "part_of" := "part_of",
    "part" := "part_of",
    "has_part" := "part_of",
    "contains" := "contains",
    "stored_in" := "stored_in",
    "located_in" := "located_in",
    "related_to" := "related_to",
    "depends_on" := "depends_on",
    "causes" := "causes",
    "enables" := "enables",
    "precedes" := "precedes",
    "follows" := "precedes"]

  function MapRelation(rel: string): string {
    if rel in RELATION_CANONICAL then RELATION_CANONICAL[rel] else rel
  }

  /** `_canonicalize_relation` */
  function CanonicalRelation(relation: string): string {
    MapRelation(Lower(Strip(relation)))
  }

  /** How subjects, objects and qualifier keys are normalised; qualifier values keep their case. */
  function NormalizeName(text: string): string {
    NormalizeWhitespace(Lower(Strip(text)))
  }

  function NormalizeValue(text: string): string {
    NormalizeWhitespace(Strip(text))
  }

  predicate Blankish(f: RawField) {
    f.Missing? || Strip(f.text) == ""
  }

  // ---- Qualifiers ----

  function QualifierItem(p: Pair): seq<Pair> {
    if NormalizeName(p.0) != "" then [(NormalizeName(p.0), NormalizeValue(p.1))] else []
  }

  function QualifierItems(raw: seq<Pair>): seq<Pair> {
    if raw == [] then [] else QualifierItem(raw[0]) + QualifierItems(raw[1..])
  }

  predicate KeyLe(a: Pair, b: Pair) {
    StrLe(a.0, b.0)
  }

  function CanonicalQualifiers(raw: seq<Pair>): seq<Pair> {
    Sorting.Sort(QualifierItems(raw), KeyLe)
  }

  // ---- Claims ----

  function Canonicalize(c: RawClaim): Result<CanonicalClaim> {
    if Blankish(c.subject) then Err("MISSING_SUBJECT")
    else if Blankish(c.relation) then Err("MISSING_RELATION")
    else if Blankish(c.obj) then Err("MISSING_OBJECT")
    else
      var subject, relation, obj :=
        NormalizeName(c.subject.text), CanonicalRelation(Strip(c.relation.text)), NormalizeName(c.obj.text);
      if subject == "" then Err("EMPTY_SUBJECT")
      else if relation == "" then Err("EMPTY_RELATION")
      else if obj == "" then Err("EMPTY_OBJECT")
      else Ok(CanonicalClaim(subject, relation, obj, CanonicalQualifiers(c.qualifiers)))
  }

  /** `canonicalize_claim` */
  method CanonicalizeClaim(c: RawClaim) returns (r: Result<CanonicalClaim>)
    ensures r == Canonicalize(c)
  {
    hide CanonicalRelation, NormalizeName, Strip, QualifierItems;
    if Blankish(c.subject) { return Err("MISSING_SUBJECT"); }
    if Blankish(c.relation) { return Err("MISSING_RELATION"); }
    if Blankish(c.obj) { return Err("MISSING_OBJECT"); }
    var subject := NormalizeName(c.subject.text);
    var relation := CanonicalRelation(Strip(c.relation.text));
    var obj := NormalizeName(c.obj.text);
    if subject == "" { return Err("EMPTY_SUBJECT"); }
    if relation == "" { return Err("EMPTY_RELATION"); }
    if obj == "" { return Err("EMPTY_OBJECT"); }
    var items := QualifierLoop(c.qualifiers);
    r := Ok(CanonicalClaim(subject, relation, obj, Sorting.Sort(items, KeyLe)));
  }

  method QualifierLoop(raw: seq<Pair>) returns (items: seq<Pair>)
    ensures items == QualifierItems(raw)
  {
    hide NormalizeName, NormalizeValue;
    items := [];
    for i := 0 to |raw|
      invariant items + QualifierItems(raw[i..]) == QualifierItems(raw)
    {
      assert raw[i..][0] == raw[i] && raw[i..][1..] == raw[i + 1..];
      Sorting.ConcatAssociative(items, QualifierItem(raw[i]), QualifierItems(raw[i + 1..]));
      var key := NormalizeName(raw[i].0);
      if key != "" {
        items := items + [(key, NormalizeValue(raw[i].1))];
      }
    }
  }

  // ---- When there is a canonical form ----

  lemma {:induction false} NameLaws(text: string)
    ensures NormalizeName(text) == "" <==> Strip(text) == ""
    ensures NormalizeName(NormalizeName(text)) == NormalizeName(text)
    ensures Trimmed(NormalizeName(text)) && IsLower(NormalizeName(text))
  {
    hide NormalizeWhitespace, Strip;
    StripTrimmed(text);
    LowerIsLower(Strip(text));
    var t := Lower(Strip(text));
    NormalizeWhitespaceLaws(t);
    LowerBlank(Strip(text));
    StripEmpty(text);
    StripEmpty(Strip(text));
    var n := NormalizeName(text);
    StripTrimmed(n);
    LowerFixed(n);
  }

  lemma {:induction false} LowerBlank(s: string)
    ensures Blank(Lower(s)) <==> Blank(s)
  {
    forall i | 0 <= i < |s| ensures IsSpace(Lower(s)[i]) <==> IsSpace(s[i]) {
    }
  }

  lemma {:induction false} ValueLaws(text: string)
    ensures NormalizeValue(NormalizeValue(text)) == NormalizeValue(text)
  {
    hide NormalizeWhitespace, Strip;
    NormalizeWhitespaceLaws(Strip(text));
    StripTrimmed(NormalizeValue(text));
  }

  predicate RelationFixed(r: string) {
    MapRelation(r) == r && Trimmed(r) && IsLower(r) && r != ""
  }

  const CANONICAL_RELATIONS := {
    "is_a", "part_of", "contains", "stored_in", "located_in", "related_to", "depends_on", "causes", "enables",
      "precedes"}

  lemma MappedIsCanonical(rel: string)
    requires rel in RELATION_CANONICAL
    ensures RELATION_CANONICAL[rel] in CANONICAL_RELATIONS
  {
  }

  lemma CanonicalIsFixed(rel: string)
    requires rel in CANONICAL_RELATIONS
    ensures RelationFixed(rel)
  {
  }

  lemma {:induction false} RelationMapClosed(rel: string)
    requires Trimmed(rel) && IsLower(rel) && rel != ""
    ensures RelationFixed(MapRelation(rel))
  {
    if rel in RELATION_CANONICAL {
      MappedIsCanonical(rel);
      CanonicalIsFixed(MapRelation(rel));
    }
  }

  lemma {:induction false} RelationLaws(relation: string)
    requires Strip(relation) != ""
    ensures RelationFixed(CanonicalRelation(Strip(relation)))
    ensures CanonicalRelation(Strip(CanonicalRelation(Strip(relation)))) == CanonicalRelation(Strip(relation))
  {
    hide Strip, MapRelation, RelationFixed;
    var s := Strip(relation);
    StripTrimmed(relation);
    StripTrimmed(s);
    LowerIsLower(s);
    TrimmedLower(s);
    var r := CanonicalRelation(s);
    RelationMapClosed(Lower(s));
    assert MapRelation(r) == r && Trimmed(r) && IsLower(r) by { FixedFacts(r); }
    StripTrimmed(r);
    LowerFixed(r);
  }

  lemma FixedFacts(r: string)
    requires RelationFixed(r)
    ensures MapRelation(r) == r && Trimmed(r) && IsLower(r) && r != ""
  {
  }

  lemma {:induction false} TrimmedLower(s: string)
    requires Trimmed(s)
    ensures Trimmed(Lower(s))
  {
  }

  /** A claim has a canonical form exactly when its three fields are present and not blank: the
      checks after normalising never fire. */
  lemma {:induction false} CanonicalizesIff(c: RawClaim)
    ensures Canonicalize(c).Ok? <==> !Blankish(c.subject) && !Blankish(c.relation) && !Blankish(c.obj)
  {
    hide NormalizeName, CanonicalRelation, Strip, CanonicalQualifiers, RelationFixed;
    if !Blankish(c.subject) && !Blankish(c.relation) && !Blankish(c.obj) {
      NameLaws(c.subject.text);
      NameLaws(c.obj.text);
      RelationLaws(c.relation.text);
      FixedFacts(CanonicalRelation(Strip(c.relation.text)));
    }
  }

  // ---- What the canonical form keeps of the raw claim ----

  /** The field is present and has a word. */
  predicate Filled(f: RawField) {
    f.Present? && Words(f.text) != []
  }

  lemma {:induction false} FilledIff(f: RawField)
    ensures Filled(f) <==> !Blankish(f)
  {
    hide Strip, Words;
    if f.Present? {
      WordsEmpty(f.text);
      StripEmpty(f.text);
    }
  }

  /** A canonical name is the lower-cased words of its text, one space apart. */
  lemma {:induction false} NameIs(text: string)
    ensures NormalizeName(text) == Join(" ", Words(Lower(text)))
    ensures Words(NormalizeName(text)) == Words(Lower(text))
  {
    hide Strip, Words, Lower, Join;
    WordsOfStrip(text);
    WordsAreWords(Lower(text));
    WordsOfJoin(Words(Lower(text)));
  }

  lemma {:induction false} ValueIs(text: string)
    ensures NormalizeValue(text) == Join(" ", Words(text))
    ensures Words(NormalizeValue(text)) == Words(text)
  {
    hide Strip, Words, Lower, Join;
    WordsOfStrip(text);
    WordsAreWords(text);
    WordsOfJoin(Words(text));
  }

  const IS_A_NAMES := {"is_a", "is_an", "isa", "type_of", "subclass_of", "subtypeof"}
  const PART_OF_NAMES := {"part_of", "part", "has_part"}
  const PRECEDES_NAMES := {"precedes", "follows"}

  /** The name a trimmed lower-cased relation goes by. */
  function RelationName(t: string): string {
    if t in IS_A_NAMES then "is_a"
    else if t in PART_OF_NAMES then "part_of"
    else if t in PRECEDES_NAMES then "precedes"
    else t
  }

  lemma {:induction false} MapRelationIs(t: string)
    ensures MapRelation(t) == RelationName(t)
  {
  }

  lemma {:induction false} RelationIs(text: string)
    ensures CanonicalRelation(Strip(text)) == RelationName(Strip(Lower(text)))
  {
    hide Strip, Lower, MapRelation, RelationName;
    StripTrimmed(text);
    StripTrimmed(Strip(text));
    StripLower(text);
    MapRelationIs(Strip(Lower(text)));
  }

  /** The relations are the same text, or two names of one alias class. */
  predicate SameRelation(t: string, u: string) {
    || t == u
    || (t in IS_A_NAMES && u in IS_A_NAMES)
    || (t in PART_OF_NAMES && u in PART_OF_NAMES)
    || (t in PRECEDES_NAMES && u in PRECEDES_NAMES)
  }

  lemma {:induction false} SameRelationIff(t: string, u: string)
    ensures RelationName(t) == RelationName(u) <==> SameRelation(t, u)
  {
    ClassesApart();
    OwnNames();
  }

  lemma ClassesApart()
    ensures "is_a" != "part_of" && "part_of" != "precedes" && "is_a" != "precedes"
    ensures IS_A_NAMES !! PART_OF_NAMES && PART_OF_NAMES !! PRECEDES_NAMES && IS_A_NAMES !! PRECEDES_NAMES
  {
    assert |"is_a"| == 4 && |"is_an"| == 5 && |"isa"| == 3;
    assert |"type_of"| == 7 && |"subclass_of"| == 11 && |"subtypeof"| == 9;
    assert |"part_of"| == 7 && |"part"| == 4 && |"has_part"| == 8 && |"precedes"| == 8 && |"follows"| == 7;
    assert "type_of"[0] != "part_of"[0] && "type_of"[0] != "follows"[0] && "is_a"[0] != "part"[0];
    assert "part_of"[0] != "follows"[0] && "has_part"[0] != "precedes"[0];
  }

  lemma OwnNames()
    ensures "is_a" in IS_A_NAMES && "part_of" in PART_OF_NAMES && "precedes" in PRECEDES_NAMES
  {
  }

  /** Each canonical field has exactly the words of its own raw field, lower-cased; the relation goes by
      the name of its alias class, and otherwise by its own trimmed text. */
  lemma {:induction false} CanonicalFields(raw: RawClaim)
    ensures Canonicalize(raw).Ok? <==> Filled(raw.subject) && Filled(raw.relation) && Filled(raw.obj)
    ensures Canonicalize(raw).Ok? ==>
      var c := Canonicalize(raw).value;
      && Words(c.subject) == Words(Lower(raw.subject.text)) && c.subject == Join(" ", Words(Lower(raw.subject.text)))
      && Words(c.obj) == Words(Lower(raw.obj.text)) && c.obj == Join(" ", Words(Lower(raw.obj.text)))
      && c.relation == RelationName(Strip(Lower(raw.relation.text)))
      && c.qualifiers == CanonicalQualifiers(raw.qualifiers)
  {
    hide Words, Join, Lower, Strip, NormalizeName, CanonicalRelation, CanonicalQualifiers, Blankish, RelationName;
    CanonicalizesIff(raw);
    FilledIff(raw.subject);
    FilledIff(raw.relation);
    FilledIff(raw.obj);
    if Canonicalize(raw).Ok? {
      NameIs(raw.subject.text);
      NameIs(raw.obj.text);
      RelationIs(raw.relation.text);
    }
  }

  /** A claim is refused for the first of subject, relation and object without a word, and for nothing else. */
  lemma {:induction false} RefusedFor(raw: RawClaim)
    ensures !Filled(raw.subject) <==> Canonicalize(raw) == Err("MISSING_SUBJECT")
    ensures Filled(raw.subject) && !Filled(raw.relation) <==> Canonicalize(raw) == Err("MISSING_RELATION")
    ensures Filled(raw.subject) && Filled(raw.relation) && !Filled(raw.obj) <==>
      Canonicalize(raw) == Err("MISSING_OBJECT")
  {
    hide Filled, Blankish, NormalizeName, CanonicalRelation, CanonicalQualifiers;
    FilledIff(raw.subject);
    FilledIff(raw.relation);
    FilledIff(raw.obj);
    CanonicalizesIff(raw);
  }

  /** Two claims have the same canonical triple exactly when, field by field, they have the same lower-cased
      words, and the same relation up to its alias class. */
  lemma {:induction false} SameCanonicalIff(a: RawClaim, b: RawClaim)
    requires Canonicalize(a).Ok? && Canonicalize(b).Ok?
    ensures var c, d := Canonicalize(a).value, Canonicalize(b).value;
      && (c.subject == d.subject <==> Words(Lower(a.subject.text)) == Words(Lower(b.subject.text)))
      && (c.relation == d.relation <==> SameRelation(Strip(Lower(a.relation.text)), Strip(Lower(b.relation.text))))
      && (c.obj == d.obj <==> Words(Lower(a.obj.text)) == Words(Lower(b.obj.text)))
  {
    hide Words, Join, Lower, Strip, Canonicalize, RelationName, SameRelation;
    CanonicalFields(a);
    CanonicalFields(b);
    SameRelationIff(Strip(Lower(a.relation.text)), Strip(Lower(b.relation.text)));
  }

  /** The qualifiers by their words: lower-cased in the key, as given in the value; none without a key word. */
  function WordItems(raw: seq<Pair>): seq<Pair> {
    if raw == [] then []
    else
      (if Words(raw[0].0) == [] then [] else [(Join(" ", Words(Lower(raw[0].0))), Join(" ", Words(raw[0].1)))])
      + WordItems(raw[1..])
  }

  lemma {:induction false} ItemsAreWords(raw: seq<Pair>)
    ensures QualifierItems(raw) == WordItems(raw)
  {
    hide Words, Join, Lower, Strip, NormalizeName, NormalizeValue;
    if raw != [] {
      NameIs(raw[0].0);
      ValueIs(raw[0].1);
      NameLaws(raw[0].0);
      StripEmpty(raw[0].0);
      WordsEmpty(raw[0].0);
      ItemsAreWords(raw[1..]);
    }
  }

  /** The canonical qualifiers are those items sorted by key, and within a key in insertion order. */
  lemma {:induction false} QualifiersAre(raw: seq<Pair>)
    ensures Sorting.SortedBy(CanonicalQualifiers(raw), KeyLe)
    ensures forall k :: WithKey(CanonicalQualifiers(raw), k) == WithKey(WordItems(raw), k)
    ensures multiset(CanonicalQualifiers(raw)) == multiset(WordItems(raw))
  {
    hide QualifierItems, WordItems, KeyLe, WithKey, Sorting.Sort;
    ItemsAreWords(raw);
    KeyPreorder();
    Sorting.SortSorted(QualifierItems(raw), KeyLe);
    forall k ensures WithKey(CanonicalQualifiers(raw), k) == WithKey(WordItems(raw), k) {
      KeyStable(WordItems(raw), k);
    }
  }

  // ---- The canonical form is a fixed point ----

  /** `dict(pairs)`: a repeated key keeps its first place and takes its last value. */
  function DictOf(pairs: seq<Pair>): seq<Pair> {
    if pairs == [] then []
    else Put(DictOf(pairs[..|pairs| - 1]), pairs[|pairs| - 1])
  }

  function Put(d: seq<Pair>, p: Pair): seq<Pair> {
    if d == [] then [p]
    else if d[0].0 == p.0 then [p] + d[1..]
    else [d[0]] + Put(d[1..], p)
  }

  predicate DistinctKeys(pairs: seq<Pair>) {
    forall i, j | 0 <= i < j < |pairs| :: pairs[i].0 != pairs[j].0
  }

  function ToRaw(c: CanonicalClaim): RawClaim {
    RawClaim(Present(c.subject, c.subject != ""), Present(c.relation, c.relation != ""), Present(c.obj, c.obj != ""),
      DictOf(c.qualifiers))
  }

  lemma {:induction false} PutLaws(d: seq<Pair>, p: Pair)
    ensures (forall i | 0 <= i < |d| :: d[i].0 != p.0) ==> Put(d, p) == d + [p]
    ensures |d| <= |Put(d, p)| <= |d| + 1
    ensures (exists i :: 0 <= i < |d| && d[i].0 == p.0) ==> |Put(d, p)| == |d|
    ensures forall k: string :: HasKey(Put(d, p), k) <==> HasKey(d, k) || k == p.0
  {
    if d != [] && d[0].0 != p.0 {
      PutLaws(d[1..], p);
      var r := Put(d[1..], p);
      assert Put(d, p) == [d[0]] + r;
      forall k: string ensures HasKey(Put(d, p), k) <==> HasKey(d, k) || k == p.0 {
        HasKeyCons(d[0], r, k);
        HasKeyCons(d[0], d[1..], k);
        assert d == [d[0]] + d[1..];
      }
      if i :| 0 <= i < |d| && d[i].0 == p.0 {
        assert d[1..][i - 1].0 == p.0;
      }
    } else if d != [] {
      forall k: string ensures HasKey(Put(d, p), k) <==> HasKey(d, k) || k == p.0 {
        HasKeyCons(p, d[1..], k);
        HasKeyCons(d[0], d[1..], k);
        assert d == [d[0]] + d[1..];
      }
    } else {
      forall k: string ensures HasKey(Put(d, p), k) <==> HasKey(d, k) || k == p.0 {
        HasKeyCons(p, [], k);
        assert [p] + [] == [p];
      }
    }
  }

  predicate HasKey(d: seq<Pair>, k: string) {
    exists i | 0 <= i < |d| :: d[i].0 == k
  }

  lemma {:induction false} HasKeyCons(p: Pair, d: seq<Pair>, k: string)
    ensures HasKey([p] + d, k) <==> p.0 == k || HasKey(d, k)
  {
    var all := [p] + d;
    assert all[0] == p && forall i | 0 <= i < |d| :: all[i + 1] == d[i];
    if i :| 0 <= i < |all| && all[i].0 == k && i > 0 {
      assert d[i - 1].0 == k;
    }
  }

  /** Making a dictionary of the pairs keeps them as they are exactly when no key repeats. */
  lemma {:induction false} DictOfIff(pairs: seq<Pair>)
    ensures DistinctKeys(pairs) ==> DictOf(pairs) == pairs
    ensures !DistinctKeys(pairs) ==> |DictOf(pairs)| < |pairs|
    ensures |DictOf(pairs)| <= |pairs|
    ensures forall k: string :: HasKey(DictOf(pairs), k) <==> HasKey(pairs, k)
  {
    if pairs != [] {
      var init, last := pairs[..|pairs| - 1], pairs[|pairs| - 1];
      DictOfIff(init);
      PutLaws(DictOf(init), last);
      assert pairs == init + [last];
      forall k: string ensures HasKey(pairs, k) <==> HasKey(init, k) || last.0 == k {
        if i :| 0 <= i < |init| && init[i].0 == k { assert pairs[i].0 == k; }
        assert pairs[|init|] == last;
      }
      if DistinctKeys(pairs) {
        assert forall i | 0 <= i < |init| :: pairs[i] == init[i];
      } else if DistinctKeys(init) && !HasKey(init, last.0) {
        DistinctSnoc(init, last);
        assert false;
      }
    }
  }

  lemma {:induction false} DistinctSnoc(init: seq<Pair>, last: Pair)
    requires DistinctKeys(init) && !HasKey(init, last.0)
    ensures DistinctKeys(init + [last])
  {
  }

  predicate CleanItem(p: Pair) {
    p.0 != "" && NormalizeName(p.0) == p.0 && NormalizeValue(p.1) == p.1
  }

  lemma {:induction false} ItemsClean(raw: seq<Pair>)
    ensures forall p | p in QualifierItems(raw) :: CleanItem(p)
    ensures |QualifierItems(raw)| <= |raw|
  {
    hide NormalizeName, NormalizeValue;
    if raw != [] {
      ItemsClean(raw[1..]);
      NameLaws(raw[0].0);
      ValueLaws(raw[0].1);
    }
  }

  lemma {:induction false} ItemsOfClean(pairs: seq<Pair>)
    requires forall i | 0 <= i < |pairs| :: CleanItem(pairs[i])
    ensures QualifierItems(pairs) == pairs
  {
    hide NormalizeName, NormalizeValue;
    if pairs != [] {
      ItemsOfClean(pairs[1..]);
      assert pairs == [pairs[0]] + pairs[1..];
    }
  }

  lemma {:induction false} KeyPreorder()
    ensures Sorting.TotalPreorder(KeyLe)
  {
    forall x, y: Pair ensures KeyLe(x, y) || KeyLe(y, x) {
      StrLeTotal(x.0, y.0);
    }
    forall x, y, z: Pair | KeyLe(x, y) && KeyLe(y, z) ensures KeyLe(x, z) {
      StrLeTransitive(x.0, y.0, z.0);
    }
  }

  /** Canonicalising a canonical claim gives it back exactly when no two of its qualifiers share a key. */
  lemma {:induction false} IdempotentIff(raw: RawClaim)
    ensures Canonicalize(raw).Ok? ==>
      var c := Canonicalize(raw).value;
      (Canonicalize(ToRaw(c)) == Ok(c) <==> DistinctKeys(c.qualifiers))
  {
    hide NormalizeName, CanonicalRelation, Strip, CanonicalQualifiers, RelationFixed, DictOf;
    if Canonicalize(raw).Ok? {
      var c := Canonicalize(raw).value;
      CanonicalizesIff(raw);
      NameLaws(raw.subject.text);
      NameLaws(raw.obj.text);
      RelationLaws(raw.relation.text);
      FixedFacts(c.relation);
      FieldsFixed(c);
      QualifiersFixedIff(raw.qualifiers);
    }
  }

  lemma {:induction false} FieldsFixed(c: CanonicalClaim)
    requires c.subject != "" && Trimmed(c.subject) && c.obj != "" && Trimmed(c.obj) && c.relation != "" &&
      Trimmed(c.relation)
    ensures !Blankish(ToRaw(c).subject) && !Blankish(ToRaw(c).relation) && !Blankish(ToRaw(c).obj)
  {
    hide Strip, Trimmed, DictOf;
    StripTrimmed(c.subject);
    StripTrimmed(c.relation);
    StripTrimmed(c.obj);
  }

  lemma {:induction false} QualifiersFixedIff(raw: seq<Pair>)
    ensures var q := CanonicalQualifiers(raw);
      CanonicalQualifiers(DictOf(q)) == q <==> DistinctKeys(q)
  {
    hide CleanItem, DictOf, KeyLe;
    var items, q := QualifierItems(raw), CanonicalQualifiers(raw);
    ItemsClean(raw);
    DictOfIff(q);
    if DistinctKeys(q) {
      Sorting.SameElements(items, q);
      assert forall i | 0 <= i < |q| :: q[i] in q;
      ItemsOfClean(q);
      KeyPreorder();
      Sorting.SortSorted(items, KeyLe);
      Sorting.SortFixed(q, KeyLe);
    } else {
      ItemsClean(DictOf(q));
    }
  }

  // ---- Order of the qualifiers ----

  /** Two entries that normalise to the same key also normalise to the same value. */
  predicate Consistent(raw: seq<Pair>) {
    forall p, r | p in QualifierItems(raw) && r in QualifierItems(raw) && p.0 == r.0 :: p.1 == r.1
  }

  ghost predicate OrderIrrelevant(raw: seq<Pair>) {
    forall a, b | multiset(a) == multiset(raw) && multiset(b) == multiset(raw) ::
      CanonicalQualifiers(a) == CanonicalQualifiers(b)
  }

  lemma {:induction false} ItemsConcat(a: seq<Pair>, b: seq<Pair>)
    ensures QualifierItems(a + b) == QualifierItems(a) + QualifierItems(b)
  {
    hide QualifierItem;
    if a == [] {
      assert a + b == b;
    } else {
      ItemsConcat(a[1..], b);
      assert (a + b)[1..] == a[1..] + b;
      Sorting.ConcatAssociative(QualifierItem(a[0]), QualifierItems(a[1..]), QualifierItems(b));
    }
  }

  lemma {:induction false} ItemsPermute(a: seq<Pair>, b: seq<Pair>)
    requires multiset(a) == multiset(b)
    ensures multiset(QualifierItems(a)) == multiset(QualifierItems(b))
  {
    hide QualifierItem, QualifierItems;
    Sorting.SameElements(a, b);
    if a != [] {
      assert a[0] in a && a[0] in b;
      var j :| 0 <= j < |b| && b[j] == a[0];
      var rest := b[..j] + b[j + 1..];
      assert a == [a[0]] + a[1..];
      Sorting.Without(b, j);
      Sorting.DropHead(a);
      assert multiset(a[1..]) == multiset(rest);
      ItemsPermute(a[1..], rest);
      ItemsConcat([a[0]], a[1..]);
      ItemsMoved(b, j);
    } else {
      assert b == [];
    }
  }

  lemma {:induction false} ItemsMoved(b: seq<Pair>, j: nat)
    requires j < |b|
    ensures multiset(QualifierItems(b)) ==
      multiset(QualifierItems([b[j]])) + multiset(QualifierItems(b[..j] + b[j + 1..]))
  {
    hide QualifierItems;
    Sorting.Without(b, j);
    ItemsConcat(b[..j], [b[j]] + b[j + 1..]);
    ItemsConcat([b[j]], b[j + 1..]);
    ItemsConcat(b[..j], b[j + 1..]);
  }

  function KeyIs(k: string): Pair -> bool {
    (p: Pair) => p.0 == k
  }

  function WithKey(pairs: seq<Pair>, k: string): seq<Pair> {
    Sorting.Filter(pairs, KeyIs(k))
  }

  /** Sorting by key keeps the entries of one key in the order they came. */
  lemma {:induction false} KeyStable(xs: seq<Pair>, k: string)
    ensures WithKey(Sorting.Sort(xs, KeyLe), k) == WithKey(xs, k)
  {
    hide Sorting.Sort, Sorting.Filter;
    StrLeTotal(k, k);
    Sorting.SortStable(xs, KeyLe, KeyIs(k));
  }

  lemma {:induction false} ItemOrigin(raw: seq<Pair>, p: Pair) returns (i: nat)
    requires p in QualifierItems(raw)
    ensures i < |raw| && QualifierItem(raw[i]) == [p]
  {
    hide NormalizeName, NormalizeValue;
    if p in QualifierItem(raw[0]) {
      i := 0;
    } else {
      var j := ItemOrigin(raw[1..], p);
      i := j + 1;
    }
  }

  /** Moving an entry to the front puts its item first among those of its key. */
  lemma {:induction false} FrontFirst(raw: seq<Pair>, i: nat, p: Pair) returns (moved: seq<Pair>)
    requires i < |raw| && QualifierItem(raw[i]) == [p]
    ensures multiset(moved) == multiset(raw)
    ensures WithKey(CanonicalQualifiers(moved), p.0) != [] && WithKey(CanonicalQualifiers(moved), p.0)[0] == p
  {
    hide QualifierItem;
    var rest := raw[..i] + raw[i + 1..];
    moved := [raw[i]] + rest;
    assert raw == raw[..i] + [raw[i]] + raw[i + 1..];
    KeyStable(QualifierItems(moved), p.0);
    assert moved[1..] == rest;
    assert QualifierItems(moved)[0] == p;
  }

  /** The canonical qualifiers forget the insertion order exactly when entries that agree on the
      normalised key agree on the normalised value. */
  lemma {:induction false} OrderIrrelevantIff(raw: seq<Pair>)
    ensures OrderIrrelevant(raw) <==> Consistent(raw)
  {
    hide CanonicalQualifiers, QualifierItem;
    if Consistent(raw) {
      forall a, b | multiset(a) == multiset(raw) && multiset(b) == multiset(raw)
        ensures CanonicalQualifiers(a) == CanonicalQualifiers(b)
      {
        SameCanonical(raw, a, b);
      }
    } else {
      var p, r :| p in QualifierItems(raw) && r in QualifierItems(raw) && p.0 == r.0 && p.1 != r.1;
      var i := ItemOrigin(raw, p);
      var j := ItemOrigin(raw, r);
      var a := FrontFirst(raw, i, p);
      var b := FrontFirst(raw, j, r);
      assert CanonicalQualifiers(a) != CanonicalQualifiers(b);
    }
  }

  lemma {:induction false} SameCanonical(raw: seq<Pair>, a: seq<Pair>, b: seq<Pair>)
    requires Consistent(raw) && multiset(a) == multiset(raw) && multiset(b) == multiset(raw)
    ensures CanonicalQualifiers(a) == CanonicalQualifiers(b)
  {
    hide QualifierItems;
    ItemsPermute(raw, a);
    ItemsPermute(raw, b);
    KeyPreorder();
    var items := QualifierItems(a);
    Sorting.SameElements(items, QualifierItems(raw));
    forall x, y | x in items && y in items && KeyLe(x, y) && KeyLe(y, x) ensures x == y {
      StrLeAntisymmetric(x.0, y.0);
    }
    Sorting.SortCanonical(items, QualifierItems(b), KeyLe);
  }
}
