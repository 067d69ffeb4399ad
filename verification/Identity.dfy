/** Entity normalisation and the alias registry (src/vcse/identity/normalizer.py, alias_registry.py),
    on ASCII text. */
module Identity {
  import opened Json
  import opened Text
  import Sorting

  predicate IsWordChar(c: char) {
    'a' <= c <= 'z' || 'A' <= c <= 'Z' || '0' <= c <= '9' || c == '_'
  }

  /** `re.sub(r"[^\w\s_]+", "", s)` */
  function DropSymbols(s: string): string {
    if s == [] then [] else (if IsWordChar(s[0]) || IsSpace(s[0]) then [s[0]] else []) + DropSymbols(s[1..])
  }

  /** `re.sub(p + "+", "_", s)` for the characters that `p` matches. */
  function Squeeze(s: string, p: char -> bool): string {
    if s == [] then []
    else if !p(s[0]) then [s[0]] + Squeeze(s[1..], p)
    else if |s| > 1 && p(s[1]) then Squeeze(s[1..], p)
    else ['_'] + Squeeze(s[1..], p)
  }

  predicate IsUnderscore(c: char) {
    c == '_'
  }

  function TrimLeft(s: string): string {
    if s != [] && s[0] == '_' then TrimLeft(s[1..]) else s
  }

  function TrimRight(s: string): string {
    if s != [] && s[|s| - 1] == '_' then TrimRight(s[..|s| - 1]) else s
  }

  /** `normalize_entity` */
  function NormalizeEntity(text: string): string {
    var kept := DropSymbols(Lower(Strip(text)));
    TrimRight(TrimLeft(Squeeze(Squeeze(kept, IsSpace), IsUnderscore)))
  }

  // ---- The normal form ----

  predicate IsKeyChar(c: char) {
    'a' <= c <= 'z' || '0' <= c <= '9' || c == '_'
  }

  predicate KeyText(s: string) {
    forall i | 0 <= i < |s| :: IsKeyChar(s[i])
  }

  /** No two underscores next to each other. */
  ghost predicate Single(s: string) {
    forall i, j | 0 <= i < j < |s| && j == i + 1 :: !(s[i] == '_' && s[j] == '_')
  }

  ghost predicate Normal(s: string) {
    KeyText(s) && Single(s) && (s != [] ==> s[0] != '_' && s[|s| - 1] != '_')
  }

  predicate LowerWordOrSpace(s: string) {
    forall i | 0 <= i < |s| :: IsKeyChar(s[i]) || IsSpace(s[i])
  }

  lemma {:induction false} DropSymbolsShape(s: string)
    requires IsLower(s)
    ensures LowerWordOrSpace(DropSymbols(s))
  {
    if s != [] {
      assert LowerChar(s[0]) == s[0];
      assert IsLower(s[1..]) by { assert forall i | 0 <= i < |s[1..]| :: s[1..][i] == s[i + 1]; }
      DropSymbolsShape(s[1..]);
    }
  }

  lemma {:induction false} SqueezeSpaces(s: string)
    requires LowerWordOrSpace(s)
    ensures KeyText(Squeeze(s, IsSpace))
  {
    hide IsSpace, IsKeyChar;
    if s != [] {
      assert IsKeyChar('_') by { UnderscoreIsKey(); }
      assert LowerWordOrSpace(s[1..]) by { assert forall i | 0 <= i < |s[1..]| :: s[1..][i] == s[i + 1]; }
      SqueezeSpaces(s[1..]);
    }
  }

  lemma UnderscoreIsKey()
    ensures IsKeyChar('_')
  {
  }

  lemma {:induction false} SqueezeUnderscores(s: string)
    requires KeyText(s)
    ensures var r := Squeeze(s, IsUnderscore); KeyText(r) && Single(r) && (r != [] ==> s != [] && r[0] == s[0])
  {
    hide IsKeyChar;
    if s != [] {
      UnderscoreIsKey();
      var t := s[1..];
      assert KeyText(t) by { assert forall i | 0 <= i < |t| :: t[i] == s[i + 1]; }
      SqueezeUnderscores(t);
      var r := Squeeze(t, IsUnderscore);
      SingleCons(s[0], r);
    }
  }

  lemma {:induction false} SingleCons(c: char, r: string)
    ensures Single(r) && (c == '_' && r != [] ==> r[0] != '_') ==> Single([c] + r)
  {
  }

  lemma {:induction false} TrimSlice(s: string)
    ensures exists i, j :: 0 <= i <= j <= |s| && TrimRight(TrimLeft(s)) == s[i..j]
    ensures var r := TrimRight(TrimLeft(s)); r != [] ==> r[0] != '_' && r[|r| - 1] != '_'
  {
    var i := TrimLeftSlice(s);
    var l := TrimLeft(s);
    var j := TrimRightSlice(l);
    assert TrimRight(l) == s[i..][..j] == s[i..i + j];
  }

  lemma {:induction false} TrimLeftSlice(s: string) returns (i: nat)
    ensures i <= |s| && TrimLeft(s) == s[i..]
    ensures TrimLeft(s) != [] ==> TrimLeft(s)[0] != '_'
  {
    if s != [] && s[0] == '_' {
      i := TrimLeftSlice(s[1..]);
      i := i + 1;
    } else {
      i := 0;
    }
  }

  lemma {:induction false} TrimRightSlice(s: string) returns (j: nat)
    ensures j <= |s| && TrimRight(s) == s[..j]
    ensures TrimRight(s) != [] ==> TrimRight(s)[|TrimRight(s)| - 1] != '_'
  {
    if s != [] && s[|s| - 1] == '_' {
      j := TrimRightSlice(s[..|s| - 1]);
    } else {
      j := |s|;
    }
  }

  lemma {:induction false} SliceShape(s: string, i: nat, j: nat)
    requires i <= j <= |s| && KeyText(s) && Single(s)
    ensures KeyText(s[i..j]) && Single(s[i..j])
  {
    hide IsKeyChar;
    var n := s[i..j];
    forall k | 0 <= k < |n| ensures IsKeyChar(n[k]) { assert n[k] == s[i + k]; }
    forall k, l | 0 <= k < l < |n| && l == k + 1 ensures !(n[k] == '_' && n[l] == '_') {
      assert n[k] == s[i + k] && n[l] == s[i + l];
    }
  }

  lemma {:induction false} NormalizeIsNormal(text: string)
    ensures Normal(NormalizeEntity(text))
  {
    hide DropSymbols, Squeeze, TrimLeft, TrimRight, KeyText, Single, LowerWordOrSpace;
    LowerIsLower(Strip(text));
    var kept := DropSymbols(Lower(Strip(text)));
    DropSymbolsShape(Lower(Strip(text)));
    SqueezeSpaces(kept);
    var joined := Squeeze(kept, IsSpace);
    SqueezeUnderscores(joined);
    var single := Squeeze(joined, IsUnderscore);
    TrimSlice(single);
    var i, j :| 0 <= i <= j <= |single| && TrimRight(TrimLeft(single)) == single[i..j];
    SliceShape(single, i, j);
  }

  lemma {:induction false} KeyTextFacts(s: string)
    requires KeyText(s)
    ensures Trimmed(s) && IsLower(s) && DropSymbols(s) == s && Squeeze(s, IsSpace) == s && '|' !in s
  {
    forall i | 0 <= i < |s| ensures !IsSpace(s[i]) && LowerChar(s[i]) == s[i] && s[i] != '|' {
      assert IsKeyChar(s[i]);
    }
    KeyTextKept(s);
  }

  lemma {:induction false} KeyTextKept(s: string)
    requires KeyText(s)
    ensures DropSymbols(s) == s && Squeeze(s, IsSpace) == s
  {
    if s != [] {
      assert IsKeyChar(s[0]);
      assert KeyText(s[1..]) by { assert forall i | 0 <= i < |s[1..]| :: s[1..][i] == s[i + 1]; }
      KeyTextKept(s[1..]);
      assert s == [s[0]] + s[1..];
    }
  }

  lemma {:induction false} SqueezeSingle(s: string)
    requires Single(s)
    ensures Squeeze(s, IsUnderscore) == s
  {
    if s != [] {
      var t := s[1..];
      assert Single(t) by {
        forall k, l | 0 <= k < l < |t| && l == k + 1 ensures !(t[k] == '_' && t[l] == '_') {
          assert t[k] == s[k + 1] && t[l] == s[l + 1];
        }
      }
      SqueezeSingle(t);
      assert s == [s[0]] + t;
    }
  }

  /** Normalising is idempotent, and a normalised name holds no `|`. */
  lemma {:induction false} NormalizeEntityLaws(text: string)
    ensures NormalizeEntity(NormalizeEntity(text)) == NormalizeEntity(text)
    ensures '|' !in NormalizeEntity(text)
  {
    hide DropSymbols, Squeeze, KeyText, Single, Strip, Lower, NormalizeEntity;
    NormalizeIsNormal(text);
    NormalFixed(NormalizeEntity(text));
    KeyTextFacts(NormalizeEntity(text));
  }

  lemma {:induction false} NormalFixed(n: string)
    requires Normal(n)
    ensures NormalizeEntity(n) == n
  {
    hide DropSymbols, Squeeze, KeyText, Single, Strip, Lower;
    KeyTextFacts(n);
    StripTrimmed(n);
    LowerFixed(n);
    SqueezeSingle(n);
  }

  // ---- Which name it is ----

  /** Letters and digits, once lower-cased. */
  predicate IsPlain(c: char) {
    'a' <= c <= 'z' || '0' <= c <= '9'
  }

  predicate IsKept(c: char) {
    IsWordChar(c) || IsSpace(c)
  }

  /** The stretches of letters and digits of a lower-cased text, once other symbols are dropped. */
  function NameParts(text: string): seq<string> {
    Runs(Sorting.Filter(Lower(text), IsKept), IsPlain)
  }

  lemma {:induction false} DropSymbolsIsFilter(s: string)
    ensures DropSymbols(s) == Sorting.Filter(s, IsKept)
  {
    if s != [] {
      DropSymbolsIsFilter(s[1..]);
    }
  }

  lemma {:induction false} RunsOfSqueeze(s: string, p: char -> bool)
    requires forall c :: p(c) ==> !IsPlain(c)
    ensures Runs(Squeeze(s, p), IsPlain) == Runs(s, IsPlain)
    ensures Squeeze(s, p) == [] <==> s == []
    ensures s != [] ==> (IsPlain(Squeeze(s, p)[0]) <==> IsPlain(s[0]))
  {
    hide Runs, IsPlain;
    if s != [] {
      var t := s[1..];
      RunsOfSqueeze(t, p);
      assert s == [s[0]] + t;
      RunsCons(s[0], t, IsPlain);
      RunsCons(s[0], Squeeze(t, p), IsPlain);
      RunsCons('_', Squeeze(t, p), IsPlain);
      assert !IsPlain('_') by { UnderscoreIsNotPlain(); }
    }
  }

  lemma UnderscoreIsNotPlain()
    ensures !IsPlain('_')
  {
  }

  lemma {:induction false} RunsOfTrim(s: string)
    ensures Runs(TrimRight(TrimLeft(s)), IsPlain) == Runs(s, IsPlain)
  {
    hide Runs;
    RunsOfTrimLeft(s);
    RunsOfTrimRight(TrimLeft(s));
  }

  lemma {:induction false} RunsOfTrimLeft(s: string)
    ensures Runs(TrimLeft(s), IsPlain) == Runs(s, IsPlain)
  {
    hide Runs;
    if s != [] && s[0] == '_' {
      RunsOfTrimLeft(s[1..]);
      assert s == [s[0]] + s[1..];
      RunsCons(s[0], s[1..], IsPlain);
    }
  }

  lemma {:induction false} RunsOfTrimRight(s: string)
    ensures Runs(TrimRight(s), IsPlain) == Runs(s, IsPlain)
  {
    hide Runs;
    if s != [] && s[|s| - 1] == '_' {
      RunsOfTrimRight(s[..|s| - 1]);
      assert [] + s[..|s| - 1] + ['_'] == s;
      RunsPadded([], s[..|s| - 1], ['_'], IsPlain);
    }
  }

  /** A text of plain stretches with one underscore between each two is the join of those stretches. */
  lemma {:induction false} JoinOfRuns(n: string)
    requires KeyText(n) && Single(n) && (n != [] ==> n[0] != '_' && n[|n| - 1] != '_')
    ensures Join("_", Runs(n, IsPlain)) == n
    decreases |n|
  {
    hide Runs;
    if n == [] {
      RunsNone(n, IsPlain);
    } else {
      var t := n[1..];
      assert n == [n[0]] + t;
      assert IsKeyChar(n[0]) && IsPlain(n[0]);
      RunsCons(n[0], t, IsPlain);
      if t == [] {
        RunsNone(t, IsPlain);
        assert Runs(n, IsPlain) == [[n[0]]] && Join("_", [[n[0]]]) == [n[0]] == n;
      } else if t[0] == '_' {
        var u := t[1..];
        assert t == [t[0]] + u;
        RunsCons('_', u, IsPlain);
        NormalSlice(n, 2);
        assert n[2..] == u;
        assert u != [] && u[0] != '_' by {
          assert n[1] == '_' && |n| > 2 ==> n[2] != '_';
          assert n[|n| - 1] != '_';
        }
        JoinOfRuns(u);
        assert IsKeyChar(n[2]);
        JoinCons([n[0]], Runs(u, IsPlain));
        assert [n[0]] + "_" + u == n;
      } else {
        NormalSlice(n, 1);
        JoinOfRuns(t);
        assert IsKeyChar(n[1]) && IsPlain(t[0]);
        JoinHead(n[0], Runs(t, IsPlain));
        assert Join("_", Runs(n, IsPlain)) == [n[0]] + t;
      }
    }
  }

  lemma {:induction false} NormalSlice(n: string, i: nat)
    requires i < |n| && KeyText(n) && Single(n)
    ensures KeyText(n[i..]) && Single(n[i..]) && n[i..][|n[i..]| - 1] == n[|n| - 1]
  {
    SliceShape(n, i, |n|);
    assert n[i..|n|] == n[i..];
  }

  lemma JoinCons(first: string, rest: seq<string>)
    requires rest != []
    ensures Join("_", [first] + rest) == first + "_" + Join("_", rest)
  {
    assert ([first] + rest)[1..] == rest;
  }

  lemma JoinHead(c: char, parts: seq<string>)
    requires parts != []
    ensures Join("_", [[c] + parts[0]] + parts[1..]) == [c] + Join("_", parts)
  {
    var all := [[c] + parts[0]] + parts[1..];
    assert all[1..] == parts[1..];
    if |parts| > 1 {
      assert ([c] + parts[0]) + "_" + Join("_", parts[1..]) == [c] + (parts[0] + "_" + Join("_", parts[1..]));
    }
  }

  lemma {:induction false} PartsOfStrip(text: string)
    ensures Runs(Sorting.Filter(Lower(Strip(text)), IsKept), IsPlain) == NameParts(text)
  {
    hide Runs, Strip, Sorting.Filter;
    var left, right := StripIs(text);
    LowerConcat(left, Strip(text), right);
    var a, m, b := Lower(left), Lower(Strip(text)), Lower(right);
    Sorting.FilterConcat(a + m, b, IsKept);
    Sorting.FilterConcat(a, m, IsKept);
    NothingPlain(a);
    NothingPlain(b);
    RunsPadded(Sorting.Filter(a, IsKept), Sorting.Filter(m, IsKept), Sorting.Filter(b, IsKept), IsPlain);
  }

  lemma {:induction false} NothingPlain(s: string)
    requires forall i | 0 <= i < |s| :: !IsPlain(s[i])
    ensures NoneIn(Sorting.Filter(s, IsKept), IsPlain)
  {
    if s != [] {
      assert forall i | 0 <= i < |s[1..]| :: s[1..][i] == s[i + 1];
      NothingPlain(s[1..]);
    }
  }

  /** The normal form is the plain stretches of the lower-cased text, joined by underscores: two texts
      name the same entity exactly when they have the same stretches. */
  lemma {:induction false} NormalizeEntityIs(text: string)
    ensures NormalizeEntity(text) == Join("_", NameParts(text))
    ensures NameParts(NormalizeEntity(text)) == NameParts(text)
  {
    hide Runs, Squeeze, TrimLeft, TrimRight, DropSymbols, Strip, Lower, KeyText, Single, Sorting.Filter;
    var kept := DropSymbols(Lower(Strip(text)));
    DropSymbolsIsFilter(Lower(Strip(text)));
    PartsOfStrip(text);
    assert forall c :: IsSpace(c) ==> !IsPlain(c);
    RunsOfSqueeze(kept, IsSpace);
    RunsOfSqueeze(Squeeze(kept, IsSpace), IsUnderscore);
    RunsOfTrim(Squeeze(Squeeze(kept, IsSpace), IsUnderscore));
    var n := NormalizeEntity(text);
    assert Runs(n, IsPlain) == NameParts(text);
    NormalizeIsNormal(text);
    JoinOfRuns(n);
    KeyTextFacts(n);
    LowerFixed(n);
    DropSymbolsIsFilter(n);
  }

  /** Two texts name the same entity exactly when they have the same parts. */
  lemma {:induction false} SameEntityIff(a: string, b: string)
    ensures NormalizeEntity(a) == NormalizeEntity(b) <==> NameParts(a) == NameParts(b)
  {
    hide NormalizeEntity, NameParts;
    NormalizeEntityIs(a);
    NormalizeEntityIs(b);
  }

  // ---- The registry ----

  function CanonicalId(text: string): string {
    "entity:" + NormalizeEntity(text)
  }

  /** `CanonicalEntity`, by the fields the registry reads. */
  datatype Entity = Entity(id: string, text: string, normalized: string)

  /** The entity the compiler builds from a text. */
  function EntityOf(text: string): Entity {
    Entity(CanonicalId(text), text, NormalizeEntity(text))
  }

  /** Every entity was built from its text. */
  predicate Derived(entities: seq<Entity>) {
    forall e | e in entities :: e == EntityOf(e.text)
  }

  function Texts(entities: seq<Entity>): set<string> {
    set e | e in entities :: e.text
  }

  /** The id of the last entity of each normalised name. */
  function LastIds(entities: seq<Entity>): map<string, string> {
    if entities == [] then map[]
    else
      var last := entities[|entities| - 1];
      LastIds(entities[..|entities| - 1])[last.normalized := last.id]
  }

  function AliasTable(entities: seq<Entity>): map<string, set<string>> {
    map id | id in EntityIds(entities) :: AliasesOf(entities, id)
  }

  function EntityIds(entities: seq<Entity>): set<string> {
    set e | e in entities :: e.id
  }

  function AliasesOf(entities: seq<Entity>, id: string): set<string> {
    set e | e in entities && e.id == id :: e.text
  }

  class AliasRegistry {
    var normalizedToCanonical: map<string, string>
    var canonicalToAliases: map<string, set<string>>
    ghost var entities: seq<Entity>

    /** The tables record exactly the entities added. */
    ghost predicate Valid()
      reads this
    {
      normalizedToCanonical == LastIds(entities) && canonicalToAliases == AliasTable(entities)
    }

    constructor ()
      ensures Valid() && entities == []
    {
      normalizedToCanonical, canonicalToAliases, entities := map[], map[], [];
    }

    /** `add` */
    method Add(entity: Entity)
      requires Valid()
      modifies this
      ensures Valid() && entities == old(entities) + [entity]
    {
      AliasTableNext(entities, entity);
      assert (entities + [entity])[..|entities|] == entities;
      normalizedToCanonical := normalizedToCanonical[entity.normalized := entity.id];
      var aliases := if entity.id in canonicalToAliases then canonicalToAliases[entity.id] else {};
      canonicalToAliases := canonicalToAliases[entity.id := aliases + {entity.text}];
      entities := entities + [entity];
    }

    /** `get_canonical`: among entities built from their texts, every recorded alias of an id resolves to
        that id, and nothing resolves to any other. */
    method GetCanonical(text: string) returns (id: Option<string>)
      requires Valid()
      ensures NormalizeEntity(text) == "" ==> id == None
      ensures Derived(entities) && NormalizeEntity(text) != "" ==>
        forall alias | alias in canonicalToAliases :: text in canonicalToAliases[alias] ==> id == Some(alias)
      ensures Derived(entities) && id.Some? ==> id.value == CanonicalId(text) && id.value in canonicalToAliases
    {
      hide NormalizeEntity;
      var normalized := NormalizeEntity(text);
      if normalized == "" {
        return None;
      }
      id := if normalized in normalizedToCanonical then Some(normalizedToCanonical[normalized]) else None;
      if Derived(entities) {
        DerivedTables(entities, text);
      }
    }

    /** The compiler's duplicate_entity_count: normalised names beyond the canonical ids, which entities
        built from their texts never have. */
    method DuplicateEntityCount() returns (n: int)
      requires Valid()
      ensures n >= 0 && (Derived(entities) ==> n == 0)
    {
      hide NormalizeEntity, LastIds;
      var difference := |normalizedToCanonical| - |canonicalToAliases|;
      n := if difference > 0 then difference else 0;
      if Derived(entities) {
        SameCount(Texts(entities));
        DerivedKeys(entities);
        assert normalizedToCanonical.Keys == Names(Texts(entities)) && canonicalToAliases.Keys == Ids(Texts(entities));
        assert |normalizedToCanonical| == |normalizedToCanonical.Keys| &&
          |canonicalToAliases| == |canonicalToAliases.Keys|;
      }
    }
  }

  lemma {:induction false} AliasTableNext(entities: seq<Entity>, e: Entity)
    ensures AliasTable(entities + [e]) ==
      AliasTable(entities)[e.id := (if e.id in EntityIds(entities) then AliasesOf(entities, e.id) else {}) + {e.text}]
  {
    hide AliasesOf;
    var all := entities + [e];
    var table := AliasTable(entities)[e.id :=
      (if e.id in EntityIds(entities) then AliasesOf(entities, e.id) else {}) + {e.text}];
    NoAliases(entities, e.id);
    assert forall x :: x in all <==> x in entities || x == e;
    assert table.Keys == EntityIds(all) == AliasTable(all).Keys;
    forall id | id in table ensures table[id] == AliasesOf(all, id) {
      AliasesNext(entities, e, id);
    }
  }

  lemma NoAliases(entities: seq<Entity>, id: string)
    ensures id !in EntityIds(entities) ==> AliasesOf(entities, id) == {}
  {
  }

  lemma AliasesNext(entities: seq<Entity>, e: Entity, id: string)
    ensures AliasesOf(entities + [e], id) == AliasesOf(entities, id) + (if id == e.id then {e.text} else {})
  {
    assert forall x :: x in entities + [e] <==> x in entities || x == e;
  }

  lemma {:induction false} LastIdsKeys(entities: seq<Entity>)
    ensures forall n :: n in LastIds(entities) <==> exists e | e in entities :: e.normalized == n
    ensures forall n | n in LastIds(entities) :: exists e | e in entities ::
      e.normalized == n && e.id == LastIds(entities)[n]
  {
    if entities != [] {
      var init, last := entities[..|entities| - 1], entities[|entities| - 1];
      LastIdsKeys(init);
      assert entities == init + [last];
    }
  }

  lemma {:induction false} DerivedTables(entities: seq<Entity>, text: string)
    requires Derived(entities)
    ensures var n := NormalizeEntity(text);
      && (n in LastIds(entities) ==>
        LastIds(entities)[n] == CanonicalId(text) && CanonicalId(text) in EntityIds(entities))
      && (forall id | id in EntityIds(entities) && text in AliasesOf(entities, id) ::
        n in LastIds(entities) && LastIds(entities)[n] == id)
  {
    hide NormalizeEntity, LastIds;
    LastIdsKeys(entities);
  }

  lemma {:induction false} DerivedKeys(entities: seq<Entity>)
    requires Derived(entities)
    ensures LastIds(entities).Keys == Names(Texts(entities)) && EntityIds(entities) == Ids(Texts(entities))
  {
    hide NormalizeEntity, LastIds;
    LastIdsKeys(entities);
    forall n ensures n in LastIds(entities) <==> n in Names(Texts(entities)) {
      if n in Names(Texts(entities)) {
        var e :| e in entities && NormalizeEntity(e.text) == n;
        assert e.normalized == n;
      }
    }
    forall id ensures id in EntityIds(entities) <==> id in Ids(Texts(entities)) {
      if id in Ids(Texts(entities)) {
        var e :| e in entities && CanonicalId(e.text) == id;
        assert e.id == id;
      }
    }
  }

  function Names(texts: set<string>): set<string> {
    set t | t in texts :: NormalizeEntity(t)
  }

  function Ids(texts: set<string>): set<string> {
    set t | t in texts :: CanonicalId(t)
  }

  /** Normalised names and canonical ids correspond one to one. */
  lemma {:induction false} SameCount(texts: set<string>)
    ensures |Names(texts)| == |Ids(texts)|
    decreases |texts|
  {
    hide NormalizeEntity, CanonicalId, Names, Ids;
    if texts == {} {
      NoNames();
    } else {
      ghost var t :| t in texts;
      var rest := texts - {t};
      assert texts == rest + {t};
      SameCount(rest);
      NamesNext(rest, t);
      var names, ids := Names(rest), Ids(rest);
      assert NormalizeEntity(t) in names ==> names + {NormalizeEntity(t)} == names;
      assert CanonicalId(t) in ids ==> ids + {CanonicalId(t)} == ids;
    }
  }

  lemma NoNames()
    ensures Names({}) == {} && Ids({}) == {}
  {
    hide NormalizeEntity;
  }

  lemma {:induction false} NamesNext(rest: set<string>, t: string)
    ensures Names(rest + {t}) == Names(rest) + {NormalizeEntity(t)}
    ensures Ids(rest + {t}) == Ids(rest) + {CanonicalId(t)}
    ensures NormalizeEntity(t) in Names(rest) <==> CanonicalId(t) in Ids(rest)
  {
    hide NormalizeEntity;
    forall u | u in rest && CanonicalId(u) == CanonicalId(t) ensures NormalizeEntity(u) == NormalizeEntity(t) {
      assert NormalizeEntity(u) == CanonicalId(u)[7..];
    }
  }
}
