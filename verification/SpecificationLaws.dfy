/** What the ingredients of generation mean: looked-up fields, found texts, filled defaults, complete
    specifications and ranks (src/vcse/generation/spec.py, candidate.py, repair.py, evaluator.py, pipeline.py). */
module SpecificationLaws {
  import opened Json
  import opened ArtifactEvaluation
  import opened GenerationPipeline
  import opened GenerationLaws
  import opened Sorting
  import T = Templates
  import Text

  // ---- Looking up ----

  /** The item at `i` is the first with the key. */
  predicate FirstItem(fields: Fields, key: string, i: nat) {
    i < |fields| && fields[i].0 == key && forall j | 0 <= j < i :: fields[j].0 != key
  }

  ghost predicate HasKey(fields: Fields, key: string) {
    exists i: nat :: FirstItem(fields, key, i)
  }

  lemma {:induction false} GetIs(fields: Fields, key: string)
    ensures Get(fields, key).None? <==> forall i | 0 <= i < |fields| :: fields[i].0 != key
    ensures Get(fields, key).Some? <==> HasKey(fields, key)
    ensures forall i: nat | FirstItem(fields, key, i) :: Get(fields, key) == Some(fields[i].1)
  {
    if fields != [] {
      var rest := fields[1..];
      GetIs(rest, key);
      if fields[0].0 == key {
        assert FirstItem(fields, key, 0);
      } else {
        assert forall i | 0 < i < |fields| :: fields[i] == rest[i - 1];
        forall i: nat | FirstItem(fields, key, i) ensures Get(fields, key) == Some(fields[i].1) {
          assert FirstItem(rest, key, i - 1);
        }
        if j: nat :| FirstItem(rest, key, j) {
          assert FirstItem(fields, key, j + 1);
        }
      }
    }
  }

  /** The dictionary has the key first at `i`. */
  predicate FirstKey(keys: seq<string>, values: seq<Json>, key: string, i: nat) {
    i < |keys| && i < |values| && keys[i] == key && key !in keys[..i]
  }

  /** A dictionary's entry for a key is the value beside the key's first place. */
  lemma {:induction false} FindIs(keys: seq<string>, values: seq<Json>, key: string)
    ensures Find(keys, values, key).Some? <==> exists i: nat :: FirstKey(keys, values, key, i)
    ensures forall i: nat | FirstKey(keys, values, key, i) :: Find(keys, values, key) == Some(values[i])
  {
    if keys != [] && values != [] {
      FindIs(keys[1..], values[1..], key);
      if keys[0] == key {
        assert FirstKey(keys, values, key, 0);
      }
      forall i: nat | FirstKey(keys, values, key, i) && i > 0
        ensures FirstKey(keys[1..], values[1..], key, i - 1) && keys[0] != key
      {
        assert keys[..i][0] == keys[0];
        assert keys[1..][..i - 1] == keys[..i][1..];
      }
      if j: nat :| FirstKey(keys[1..], values[1..], key, j) && keys[0] != key {
        assert keys[..j + 1] == [keys[0]] + keys[1..][..j];
        assert FirstKey(keys, values, key, j + 1);
      }
    }
  }

  predicate PieceAt(s: string, sub: string, i: nat) {
    i + |sub| <= |s| && s[i..i + |sub|] == sub
  }

  /** `sub in s` when some stretch of `s` is `sub`. */
  lemma {:induction false} ContainsIff(s: string, sub: string)
    ensures Contains(s, sub) <==> exists i: nat :: PieceAt(s, sub, i)
  {
    if sub <= s {
      assert PieceAt(s, sub, 0);
    } else if s != [] {
      ContainsIff(s[1..], sub);
      if i: nat :| PieceAt(s, sub, i) {
        assert i > 0;
        assert s[1..][i - 1..i - 1 + |sub|] == s[i..i + |sub|];
        assert PieceAt(s[1..], sub, i - 1);
      }
      if i: nat :| PieceAt(s[1..], sub, i) {
        assert s[1..][i..i + |sub|] == s[i + 1..i + 1 + |sub|];
        assert PieceAt(s, sub, i + 1);
      }
    }
  }

  /** A field is present when its first value is neither null, nor an empty list, nor a text of whitespace. */
  lemma {:induction false} FieldPresentIff(fields: Fields, key: string)
    ensures FieldPresent(fields, key) <==> exists i: nat :: FirstItem(fields, key, i) && Filled(fields[i].1)
  {
    hide Text.Strip, Text.Blank;
    GetIs(fields, key);
    if i: nat :| FirstItem(fields, key, i) {
      FilledIff(fields[i].1);
      assert Get(fields, key) == Some(fields[i].1);
      forall j: nat | FirstItem(fields, key, j) ensures j == i {
        assert !(j < i) && !(i < j);
      }
    }
  }

  lemma FilledIff(v: Json)
    ensures Filled(v) <==> !Empty(v) && v != List([])
  {
    hide Text.Strip, Text.Blank;
    if v.Str? {
      Text.StripEmpty(v.s);
    }
  }

  predicate Filled(v: Json) {
    v != Null && v != List([]) && (v.Str? ==> !Text.Blank(v.s))
  }

  // ---- Acceptance ----

  /** The content is a dictionary whose entry for the key is `v`. */
  ghost predicate HasEntry(content: Json, key: string, v: Json) {
    content.Dict? && exists i: nat :: FirstKey(content.keys, content.values, key, i) && content.values[i] == v
  }

  lemma {:induction false} EntryIff(content: Json, key: string, v: Json)
    ensures Entry(content, key) == Some(v) <==> HasEntry(content, key, v)
  {
    if content.Dict? {
      FindIs(content.keys, content.values, key);
    }
  }

  ghost predicate HasSections(content: Json) {
    exists items :: items != [] && HasEntry(content, "sections", List(items))
  }

  lemma {:induction false} SectionsIff(content: Json)
    ensures FilledList(Entry(content, "sections")) <==> HasSections(content)
  {
    hide Entry, HasEntry;
    var v := Entry(content, "sections");
    if FilledList(v) {
      EntryIff(content, "sections", v.value);
      assert v.value == List(v.value.items);
    }
    if items :| items != [] && HasEntry(content, "sections", List(items)) {
      EntryIff(content, "sections", List(items));
    }
  }

  /** What a constraint asks for: a present field, a list of sections, or a key of the content. */
  ghost predicate Granted(a: Artifact, c: Constraint) {
    var kind := Text.Lower(Text.Strip(c.kind));
    var target := if c.target.Some? then Text.Strip(c.target.value) else "";
    || (kind == "field_present" && exists i: nat :: FirstItem(a.fieldsUsed, target, i) && Filled(a.fieldsUsed[i].1))
    || (kind == "section_present" && target == "sections" && HasSections(a.content))
    || (kind == "key_present" && exists v :: HasEntry(a.content, target, v))
  }

  lemma {:induction false} GrantedIff(a: Artifact, c: Constraint)
    ensures Holds(a, c) <==> Granted(a, c)
  {
    hide Text.Lower, Text.Strip, FieldPresent, Entry, FilledList, HasSections, HasEntry, Filled;
    var target := Target(c);
    FieldPresentIff(a.fieldsUsed, target);
    SectionsIff(a.content);
    if v :| HasEntry(a.content, target, v) {
      EntryIff(a.content, target, v);
    }
    if Entry(a.content, target).Some? {
      EntryIff(a.content, target, Entry(a.content, target).value);
    }
  }

  /** A required field has a value and was used. */
  predicate Supplied(used: Fields, item: (string, Json)) {
    Usable(item.1) && exists i :: 0 <= i < |used| && used[i].0 == item.0
  }

  lemma {:induction false} SuppliedIff(used: Fields, item: (string, Json))
    ensures FieldSupplied(used, item) <==> Supplied(used, item)
  {
    hide Text.Strip, Text.Blank;
    GetIs(used, item.0);
    if item.1.Str? {
      Text.StripEmpty(item.1.s);
    }
  }

  /** Needs to be found, without regard to case or to whitespace around it, unless it is whitespace only. */
  ghost predicate CriterionFound(a: Artifact, criterion: string, w: World) {
    Text.Blank(criterion) ||
    exists i: nat ::
      PieceAt(Text.Lower(w.whole(a.content, a.fieldsUsed)), Text.Lower(Text.Strip(criterion)), i)
  }

  lemma {:induction false} CriterionIff(a: Artifact, criterion: string, w: World)
    ensures CriterionFound(a, criterion, w) <==>
      (Needle(criterion) != "" ==> Contains(Haystack(a, w), Needle(criterion)))
  {
    hide Text.Lower, Text.Strip, Text.Blank, Contains, PieceAt;
    Text.StripLower(criterion);
    Text.StripEmpty(criterion);
    LowerEmpty(Text.Strip(criterion));
    ContainsIff(Haystack(a, w), Needle(criterion));
  }

  lemma LowerEmpty(s: string)
    ensures Text.Lower(s) == "" <==> s == ""
  {
  }

  /** The shape of each artifact type: the three parts of a plan, the required keys of a configuration, the sections
      of a policy or document, and a function definition in code. */
  ghost predicate Shaped(a: Artifact, spec: Spec, w: World) {
    && (a.artifactType == "plan" ==>
          HasPart(a.content, "steps") && HasPart(a.content, "preconditions") && HasPart(a.content, "effects"))
    && (a.artifactType == "config" ==>
          a.content.Dict? && forall item | item in spec.requiredFields :: exists v :: HasEntry(a.content, item.0, v))
    && (a.artifactType in {"policy", "structured_document"} ==> HasSections(a.content))
    && (a.artifactType == "simple_code" ==>
          exists v, text, i: nat ::
            HasEntry(a.content, "code", v) && TextOf(text, v, w) && PieceAt(text, "def ", i))
  }

  ghost predicate HasPart(content: Json, part: string) {
    exists v :: HasEntry(content, part, v) && Usable(v)
  }

  lemma {:induction false} PartIff(content: Json, part: string)
    ensures PlanPart(content, part) <==> HasPart(content, part)
    ensures HasPart(content, part) ==> content.Dict?
  {
    hide Text.Strip, Text.Blank, Entry, HasEntry;
    var e := Entry(content, part);
    if e.Some? {
      EntryIff(content, part, e.value);
      if e.value.Str? {
        Text.StripEmpty(e.value.s);
      }
    }
    if v :| HasEntry(content, part, v) && Usable(v) {
      EntryIff(content, part, v);
      EntryNeedsObject(content, part, v);
    }
  }

  lemma {:induction false} CodeIff(content: Json, w: World)
    ensures (content.Dict? && Contains(CodeText(content, w), "def ")) <==>
      exists v, text, i: nat :: HasEntry(content, "code", v) && TextOf(text, v, w) && PieceAt(text, "def ", i)
  {
    hide Entry, HasEntry, Contains;
    var e, code := Entry(content, "code"), CodeText(content, w);
    ContainsIff(code, "def ");
    if e.Some? {
      EntryIff(content, "code", e.value);
      assert TextOf(code, e.value, w);
    }
    if v, text, i: nat :| HasEntry(content, "code", v) && TextOf(text, v, w) && PieceAt(text, "def ", i) {
      EntryIff(content, "code", v);
      EntryNeedsObject(content, "code", v);
      assert text == code;
    }
  }

  lemma EntryNeedsObject(content: Json, key: string, v: Json)
    requires HasEntry(content, key, v)
    ensures content.Dict?
  {
  }

  lemma {:induction false} ShapedIff(a: Artifact, spec: Spec, w: World)
    ensures WellShaped(a, spec, w) <==> Shaped(a, spec, w)
  {
    hide Text.Strip, Text.Blank, Entry, HasEntry, Contains, CodeText, FilledList, HasSections, PlanPart, HasPart,
      Usable, TextOf, PieceAt;
    PartIff(a.content, "steps");
    PartIff(a.content, "preconditions");
    PartIff(a.content, "effects");
    SectionsIff(a.content);
    CodeIff(a.content, w);
    forall item | item in spec.requiredFields
      ensures Entry(a.content, item.0).Some? <==> exists v :: HasEntry(a.content, item.0, v)
    {
      HasSome(a.content, item.0);
    }
  }

  lemma {:induction false} HasSome(content: Json, key: string)
    ensures Entry(content, key).Some? <==> exists v :: HasEntry(content, key, v)
  {
    hide Entry, HasEntry;
    if Entry(content, key).Some? { EntryIff(content, key, Entry(content, key).value); }
    if v :| HasEntry(content, key, v) { EntryIff(content, key, v); }
  }

  /** A request for test code: a `tests` field whose first value is not empty, zero or false. */
  ghost predicate AsksForTests(a: Artifact, spec: Spec) {
    && a.artifactType == "simple_code"
    && exists i: nat :: FirstItem(spec.requiredFields, "tests", i) && spec.requiredFields[i].1 !in
         {Null, Bool(false), Number(0.0), Str(""), List([])} &&
         !(spec.requiredFields[i].1.Dict? && spec.requiredFields[i].1.keys == [])
  }

  lemma {:induction false} TestsIff(a: Artifact, spec: Spec)
    ensures TestsRequested(a, spec) <==> AsksForTests(a, spec)
  {
    GetIs(spec.requiredFields, "tests");
    if i: nat :| FirstItem(spec.requiredFields, "tests", i) {
      assert Get(spec.requiredFields, "tests") == Some(spec.requiredFields[i].1);
    }
  }

  /** What the evaluator verifies, written out: an artifact that was not put down for clarification, has provenance,
      is granted every constraint of its template and of the specification, uses every required field, holds every
      criterion, contradicts nothing, has its type's shape, and asks for no tests. */
  lemma {:induction false} VerifiedMeans(a: Artifact, spec: Spec, w: World)
    ensures Evaluate(a, spec, w).status == Verified <==>
      && a.status != NeedsClarification && a.provenance != map[]
      && (forall c | c in TemplateConstraints(a) + spec.constraints :: Granted(a, c))
      && (forall item | item in spec.requiredFields :: Supplied(a.fieldsUsed, item))
      && (forall criterion | criterion in spec.criteria :: CriterionFound(a, criterion, w))
      && w.contradiction(a.fieldsUsed) in {None, Some("")}
      && Shaped(a, spec, w) && !AsksForTests(a, spec)
  {
    hide Evaluate, Holds, Granted, FieldSupplied, Supplied, CriterionFound, Contains, Needle, Haystack, WellShaped,
      Shaped, TestsRequested, AsksForTests, TemplateConstraints;
    VerifiedIff(a, spec, w);
    ShapedIff(a, spec, w);
    TestsIff(a, spec);
    forall c ensures Holds(a, c) <==> Granted(a, c) { GrantedIff(a, c); }
    forall item ensures FieldSupplied(a.fieldsUsed, item) <==> Supplied(a.fieldsUsed, item) {
      SuppliedIff(a.fieldsUsed, item);
    }
    forall criterion
      ensures CriterionFound(a, criterion, w) <==>
        (Needle(criterion) != "" ==> Contains(Haystack(a, w), Needle(criterion)))
    {
      CriterionIff(a, criterion, w);
    }
  }

  // ---- What the evaluator reports ----

  lemma {:induction false} CollectMember<X, Y>(xs: seq<X>, f: X -> seq<Y>, y: Y)
    ensures y in Collect(xs, f) <==> exists x :: x in xs && y in f(x)
  {
    if xs != [] {
      CollectMember(xs[1..], f, y);
      assert xs == [xs[0]] + xs[1..];
    }
  }

  /** What is said of a constraint that is not granted. */
  predicate Complains(v: Violation, c: Constraint) {
    var kind := Text.Lower(Text.Strip(c.kind));
    var target := if c.target.Some? then Text.Strip(c.target.value) else "";
    && (kind == "field_present" ==> v == MissingField(target))
    && (kind == "section_present" ==> v == MissingSection(target))
    && (kind == "key_present" ==> v == MissingKey(target))
    && (kind !in {"field_present", "section_present", "key_present"} ==> v == UnsupportedConstraint(kind))
  }

  /** The violation names a constraint, a required field or a criterion that is not met. */
  ghost predicate Unmet(a: Artifact, spec: Spec, w: World, v: Violation) {
    || (exists c | c in TemplateConstraints(a) + spec.constraints :: !Granted(a, c) && Complains(v, c))
    || (exists item | item in spec.requiredFields :: !Supplied(a.fieldsUsed, item) && v == MissingField(item.0))
    || (exists criterion | criterion in spec.criteria ::
          !CriterionFound(a, criterion, w) && v == CriterionUnmet(criterion))
  }

  lemma {:induction false} ConstraintGap(a: Artifact, c: Constraint, v: Violation)
    ensures v in MissedBy(a)(c) <==> !Granted(a, c) && Complains(v, c)
  {
    hide Text.Lower, Text.Strip, Granted, Holds;
    GrantedIff(a, c);
  }

  lemma {:induction false} GapsAre(a: Artifact, spec: Spec, w: World, v: Violation)
    ensures v in Gaps(a, spec, w) <==> Unmet(a, spec, w, v)
  {
    hide Granted, Complains, Supplied, CriterionFound, Haystack, TemplateConstraints, Needle, Contains, Collect,
      FieldSupplied;
    var constraints := TemplateConstraints(a) + spec.constraints;
    CollectMember(constraints, MissedBy(a), v);
    CollectMember(spec.requiredFields, FieldGaps(a.fieldsUsed), v);
    CollectMember(spec.criteria, CriteriaGaps(Haystack(a, w)), v);
    forall c ensures v in MissedBy(a)(c) <==> !Granted(a, c) && Complains(v, c) { ConstraintGap(a, c, v); }
    forall item ensures FieldSupplied(a.fieldsUsed, item) <==> Supplied(a.fieldsUsed, item) {
      SuppliedIff(a.fieldsUsed, item);
    }
    forall criterion
      ensures CriterionFound(a, criterion, w) <==>
        (Needle(criterion) != "" ==> Contains(Haystack(a, w), Needle(criterion)))
    {
      CriterionIff(a, criterion, w);
    }
  }

  /** The violation names what the shape of the artifact lacks. */
  ghost predicate Misshapen(a: Artifact, spec: Spec, w: World, v: Violation) {
    || (a.artifactType in {"plan", "config", "policy", "structured_document", "simple_code"} && !a.content.Dict?
        && v == ContentNotObject)
    || (a.artifactType == "plan" && a.content.Dict? && v.PlanMissing? && !HasPart(a.content, v.part)
        && v.part in {"steps", "preconditions", "effects"})
    || (a.artifactType == "config" && a.content.Dict? && exists item | item in spec.requiredFields ::
          v == MissingKey(item.0) && !exists value :: HasEntry(a.content, item.0, value))
    || (a.artifactType in {"policy", "structured_document"} && a.content.Dict? && v == MissingSection("sections")
        && !HasSections(a.content))
    || (a.artifactType == "simple_code" && a.content.Dict? && v == NoPythonFunction
        && !exists value, text, i: nat ::
             HasEntry(a.content, "code", value) && TextOf(text, value, w) && PieceAt(text, "def ", i))
  }

  lemma {:induction false} PartGaps(content: Json, v: Violation)
    ensures v in Collect(PLAN_PARTS, PlanGaps(content)) <==>
      v.PlanMissing? && v.part in {"steps", "preconditions", "effects"} && !HasPart(content, v.part)
  {
    hide HasPart, PlanPart, Collect;
    CollectMember(PLAN_PARTS, PlanGaps(content), v);
    forall part ensures PlanPart(content, part) <==> HasPart(content, part) { PartIff(content, part); }
    assert forall part :: part in PLAN_PARTS <==> part in {"steps", "preconditions", "effects"};
    if v.PlanMissing? {
      assert v in PlanGaps(content)(v.part) <==> !HasPart(content, v.part);
    }
  }

  lemma {:induction false} KeysGaps(content: Json, required: Fields, v: Violation)
    ensures v in Collect(required, KeyGaps(content)) <==>
      exists item | item in required :: v == MissingKey(item.0) && !exists value :: HasEntry(content, item.0, value)
  {
    hide Entry, HasEntry, Collect;
    CollectMember(required, KeyGaps(content), v);
    forall item: (string, Json)
      ensures v in KeyGaps(content)(item) <==>
        v == MissingKey(item.0) && !exists value :: HasEntry(content, item.0, value)
    {
      HasSome(content, item.0);
    }
  }

  lemma {:induction false} ShapeGapsAre(a: Artifact, spec: Spec, w: World, v: Violation)
    ensures v in TypeViolations(a, spec, w) <==> Misshapen(a, spec, w, v)
  {
    hide Entry, HasEntry, HasPart, PlanPart, HasSections, FilledList, Contains, CodeText, Collect, PieceAt, TextOf;
    PartGaps(a.content, v);
    KeysGaps(a.content, spec.requiredFields, v);
    SectionsIff(a.content);
    CodeIff(a.content, w);
  }

  /** What the evaluator reports, once the artifact has provenance and was not put down for clarification: a violation
      for each unmet demand, then either the contradiction or what the shape lacks. */
  lemma {:induction false} ViolationsAre(a: Artifact, spec: Spec, w: World, v: Violation)
    requires a.status != NeedsClarification && a.provenance != map[]
    ensures v in Evaluate(a, spec, w).violations <==>
      || Unmet(a, spec, w, v)
      || (Contradicted(a, w) && v == ContradictsMemory(w.contradiction(a.fieldsUsed).value))
      || (!Contradicted(a, w) && Misshapen(a, spec, w, v))
  {
    hide Unmet, Misshapen, Gaps, TypeViolations, SatisfiedNotes, TestsRequested;
    GapsAre(a, spec, w, v);
    ShapeGapsAre(a, spec, w, v);
  }

  /** How many places of the list satisfy `p`. */
  ghost function Tally<X>(xs: seq<X>, p: X -> bool): nat {
    if xs == [] then 0 else (if p(xs[0]) then 1 else 0) + Tally(xs[1..], p)
  }

  lemma {:induction false} CollectCount<X, Y>(xs: seq<X>, f: X -> seq<Y>, p: X -> bool)
    requires forall x :: |f(x)| == if p(x) then 1 else 0
    ensures |Collect(xs, f)| == Tally(xs, p)
  {
    if xs != [] {
      CollectCount(xs[1..], f, p);
    }
  }

  ghost function IsGranted(a: Artifact): Constraint -> bool {
    c => Granted(a, c)
  }

  ghost function IsDenied(a: Artifact): Constraint -> bool {
    c => !Granted(a, c)
  }

  ghost function IsUnsupplied(used: Fields): ((string, Json)) -> bool {
    (item: (string, Json)) => !Supplied(used, item)
  }

  /** The criterion is not blank and found. */
  ghost function IsFound(a: Artifact, w: World): string -> bool {
    criterion => !Text.Blank(criterion) && CriterionFound(a, criterion, w)
  }

  ghost function IsMissed(a: Artifact, w: World): string -> bool {
    criterion => !CriterionFound(a, criterion, w)
  }

  lemma {:induction false} ConstraintCounts(a: Artifact, constraints: seq<Constraint>)
    ensures |Collect(constraints, PassedBy(a))| == Tally(constraints, IsGranted(a))
    ensures |Collect(constraints, MissedBy(a))| == Tally(constraints, IsDenied(a))
  {
    hide Granted, Holds, Collect, Tally, Passed, Missed;
    forall c ensures Holds(a, c) <==> Granted(a, c) { GrantedIff(a, c); }
    CollectCount(constraints, PassedBy(a), IsGranted(a));
    CollectCount(constraints, MissedBy(a), IsDenied(a));
  }

  lemma {:induction false} FieldCounts(used: Fields, required: Fields)
    ensures |Collect(required, FieldGaps(used))| == Tally(required, IsUnsupplied(used))
  {
    hide Supplied, FieldSupplied, Collect, Tally;
    forall item ensures FieldSupplied(used, item) <==> Supplied(used, item) { SuppliedIff(used, item); }
    CollectCount(required, FieldGaps(used), IsUnsupplied(used));
  }

  lemma {:induction false} CriterionCounts(a: Artifact, criteria: seq<string>, w: World)
    ensures |Collect(criteria, CriteriaFound(Haystack(a, w)))| == Tally(criteria, IsFound(a, w))
    ensures |Collect(criteria, CriteriaGaps(Haystack(a, w)))| == Tally(criteria, IsMissed(a, w))
  {
    hide CriterionFound, Contains, Needle, Haystack, Collect, Tally, Text.Blank;
    forall criterion
      ensures Needle(criterion) == "" <==> Text.Blank(criterion)
      ensures CriterionFound(a, criterion, w) <==>
        (Needle(criterion) != "" ==> Contains(Haystack(a, w), Needle(criterion)))
    {
      CriterionIff(a, criterion, w);
      BlankNeedle(criterion);
    }
    CollectCount(criteria, CriteriaFound(Haystack(a, w)), IsFound(a, w));
    CollectCount(criteria, CriteriaGaps(Haystack(a, w)), IsMissed(a, w));
  }

  lemma {:induction false} BlankNeedle(criterion: string)
    ensures Needle(criterion) == "" <==> Text.Blank(criterion)
  {
    hide Text.Lower, Text.Strip, Text.Blank;
    Text.StripLower(criterion);
    Text.StripEmpty(criterion);
    LowerEmpty(Text.Strip(criterion));
  }

  /** The demands not met, by place: constraints, required fields, criteria. */
  ghost function UnmetCount(a: Artifact, spec: Spec, w: World): nat {
    Tally(TemplateConstraints(a) + spec.constraints, IsDenied(a))
    + Tally(spec.requiredFields, IsUnsupplied(a.fieldsUsed)) + Tally(spec.criteria, IsMissed(a, w))
  }

  ghost function MetCount(a: Artifact, spec: Spec, w: World): nat {
    Tally(TemplateConstraints(a) + spec.constraints, IsGranted(a)) + Tally(spec.criteria, IsFound(a, w))
  }

  lemma {:induction false} NotesCount(a: Artifact, spec: Spec, w: World)
    ensures |SatisfiedNotes(a, spec, w)| == MetCount(a, spec, w) && |Gaps(a, spec, w)| == UnmetCount(a, spec, w)
  {
    hide TemplateConstraints, Collect, Tally, IsGranted, IsDenied, IsUnsupplied, IsFound, IsMissed, PassedBy, MissedBy,
      FieldGaps, CriteriaFound, CriteriaGaps;
    ConstraintCounts(a, TemplateConstraints(a) + spec.constraints);
    FieldCounts(a.fieldsUsed, spec.requiredFields);
    CriterionCounts(a, spec.criteria, w);
  }

  lemma {:induction false} ReportLengths(a: Artifact, spec: Spec, w: World)
    requires a.status != NeedsClarification && a.provenance != map[]
    ensures var e := Evaluate(a, spec, w);
      && |e.satisfied| == |SatisfiedNotes(a, spec, w)|
      && |e.violations| == |Gaps(a, spec, w)| + if Contradicted(a, w) then 1 else |TypeViolations(a, spec, w)|
  {
    hide TypeViolations, TestsRequested, Gaps, SatisfiedNotes;
  }

  /** What the ranking counts: each constraint granted and each criterion found is one satisfied note, repeats
      included; each demand not met is one violation, and a contradiction one more. */
  lemma {:induction false} CountsAre(a: Artifact, spec: Spec, w: World)
    requires a.status != NeedsClarification && a.provenance != map[]
    ensures var e, unmet := Evaluate(a, spec, w), UnmetCount(a, spec, w);
      && |e.satisfied| == MetCount(a, spec, w)
      && (Contradicted(a, w) ==> |e.violations| == unmet + 1)
      && (!Contradicted(a, w) && Shaped(a, spec, w) ==> |e.violations| == unmet)
      && (!Contradicted(a, w) && !Shaped(a, spec, w) ==> |e.violations| > unmet)
  {
    hide TypeViolations, Shaped, WellShaped, Evaluate, Gaps, SatisfiedNotes, UnmetCount, MetCount;
    NotesCount(a, spec, w);
    ReportLengths(a, spec, w);
    ShapedIff(a, spec, w);
    NoTypeViolationsIff(a, spec, w);
  }

  // ---- Candidates ----

  /** A template's missing fields are those it requires and no item of the specification has, and only a
      template without any yields content: its body rendered on the specification's fields. */
  lemma {:induction false} CandidateIff(t: Template, spec: Spec, w: World)
    ensures forall name :: name in MissingFields(t, spec) <==>
      name in t.requiredFields && forall i | 0 <= i < |spec.requiredFields| :: spec.requiredFields[i].0 != name
    ensures var a := Candidate(t, spec, w);
      && a.templateId == t.id && a.artifactType == spec.artifactType && a.fieldsUsed == spec.requiredFields
      && a.id == spec.id + ":" + t.id
      && (a.status == NeedsClarification <==> exists name :: name in MissingFields(t, spec))
      && a.content == if a.status == NeedsClarification then Dict([], []) else Render(t, spec.requiredFields, w)
  {
    hide Render, Get;
    forall name
      ensures name in MissingFields(t, spec) <==>
        name in t.requiredFields && forall i | 0 <= i < |spec.requiredFields| :: spec.requiredFields[i].0 != name
    {
      CollectMember(t.requiredFields, AbsentIn(spec), name);
      GetIs(spec.requiredFields, name);
    }
    if MissingFields(t, spec) != [] {
      assert MissingFields(t, spec)[0] in MissingFields(t, spec);
    }
  }

  /** A text stands for itself; any other value for what `str` makes of it. */
  predicate TextOf(text: string, v: Json, w: World) {
    if v.Str? then text == v.s else text == w.str(v)
  }

  predicate StandsFor(field: T.Field, key: string, v: Json, w: World) {
    && field.key == key
    && match v
       case List(items) =>
         field.value.Items? && |field.value.texts| == |items| &&
         forall i | 0 <= i < |items| :: TextOf(field.value.texts[i], items[i], w)
       case _ => field.value.Scalar? && TextOf(field.value.text, v, w)
  }

  lemma {:induction false} TextsAre(items: seq<Json>, w: World)
    ensures |Texts(items, w)| == |items| && forall i | 0 <= i < |items| :: TextOf(Texts(items, w)[i], items[i], w)
  {
    if items != [] {
      TextsAre(items[1..], w);
    }
  }

  /** The renderer is given every field under its own name, with its own text or its items' texts in order. */
  lemma {:induction false} FieldValuesAre(fields: Fields, w: World)
    ensures |FieldValues(fields, w)| == |fields|
    ensures forall i | 0 <= i < |fields| :: StandsFor(FieldValues(fields, w)[i], fields[i].0, fields[i].1, w)
  {
    hide StandsFor;
    if fields != [] {
      FieldValuesAre(fields[1..], w);
      FirstValue(fields, w);
    }
  }

  lemma {:induction false} FirstValue(fields: Fields, w: World)
    requires fields != []
    ensures FieldValues(fields, w) != [] && FieldValues(fields, w)[1..] == FieldValues(fields[1..], w)
    ensures StandsFor(FieldValues(fields, w)[0], fields[0].0, fields[0].1, w)
  {
    if fields[0].1.List? {
      TextsAre(fields[0].1.items, w);
    }
  }

  // ---- Defaults ----

  predicate DistinctKeys(fields: Fields) {
    forall i, j | 0 <= i < j < |fields| :: fields[i].0 != fields[j].0
  }

  lemma {:induction false} PutLaws(fields: Fields, key: string, value: Json)
    ensures Get(Put(fields, key, value), key) == Some(value)
    ensures forall other | other != key :: Get(Put(fields, key, value), other) == Get(fields, other)
    ensures DistinctKeys(fields) ==> DistinctKeys(Put(fields, key, value))
    ensures forall item | item in Put(fields, key, value) :: item.0 == key || item in fields
  {
    if fields != [] && fields[0].0 != key {
      PutLaws(fields[1..], key, value);
      var rest, r := Put(fields[1..], key, value), Put(fields, key, value);
      assert r[1..] == rest;
      if DistinctKeys(fields) {
        forall j | 0 < j < |r| ensures r[0].0 != r[j].0 {
          assert rest[j - 1] in rest;
          if r[j].0 != key {
            assert rest[j - 1] in fields[1..];
          }
        }
      }
    }
  }

  /** The constraint at `i` is the last one to set a default for the key. */
  predicate LastDefault(constraints: seq<Constraint>, key: string, i: nat) {
    && i < |constraints| && SetsDefault(constraints[i]) && DefaultKey(constraints[i]) == key
    && forall j | i < j < |constraints| :: !(SetsDefault(constraints[j]) && DefaultKey(constraints[j]) == key)
  }

  /** Each key's default is the one its last constraint gives. */
  lemma {:induction false} DefaultsAre(constraints: seq<Constraint>, key: string)
    ensures DistinctKeys(Defaults(constraints))
    ensures Get(Defaults(constraints), key).Some? <==> exists i: nat :: LastDefault(constraints, key, i)
    ensures forall i: nat | LastDefault(constraints, key, i) ::
      Get(Defaults(constraints), key) == constraints[i].fallback
  {
    hide SetsDefault, DefaultKey, Put, Get;
    if constraints == [] {
      GetIs([], key);
    } else {
      var n := |constraints| - 1;
      var init, c := constraints[..n], constraints[n];
      DefaultsAre(init, key);
      if SetsDefault(c) {
        HasFallback(c);
        PutLaws(Defaults(init), DefaultKey(c), c.fallback.value);
      }
      if SetsDefault(c) && DefaultKey(c) == key {
        assert LastDefault(constraints, key, n);
      } else {
        assert forall i: nat :: LastDefault(constraints, key, i) <==> LastDefault(init, key, i);
      }
    }
  }

  lemma HasFallback(c: Constraint)
    requires SetsDefault(c)
    ensures c.fallback.Some?
  {
  }

  /** Filling in gives every field that is absent, null or empty its default, and leaves all others alone. */
  lemma {:induction false} FillIs(fields: Fields, defaults: Fields, key: string)
    requires DistinctKeys(defaults)
    ensures Get(FillDefaults(fields, defaults), key) ==
      if Get(fields, key) in {None, Some(Null), Some(Str(""))} && Get(defaults, key).Some? then Get(defaults, key)
      else Get(fields, key)
    decreases |defaults|
  {
    hide Put;
    if defaults != [] {
      var (name, value) := defaults[0];
      PutLaws(fields, name, value);
      GetIs(defaults[1..], name);
      assert forall i | 0 <= i < |defaults[1..]| :: defaults[1..][i] == defaults[i + 1];
      FillIs(if Unset(fields, name) then Put(fields, name, value) else fields, defaults[1..], key);
    }
  }

  // ---- Specifications ----

  predicate Usable(v: Json) {
    v != Null && (v.Str? ==> !Text.Blank(v.s))
  }

  lemma {:induction false} NoneBlankIff(fields: Fields)
    ensures Collect(fields, BlankField()) == [] <==> forall i | 0 <= i < |fields| :: Usable(fields[i].1)
  {
    hide Collect, Usable;
    CollectEmptyIff(fields, BlankField());
    forall item: (string, Json) ensures BlankField()(item) == [] <==> Usable(item.1) { BlankIff(item); }
    assert forall i | 0 <= i < |fields| :: fields[i] in fields;
  }

  lemma BlankIff(item: (string, Json))
    ensures BlankField()(item) == if Usable(item.1) then [] else [item.0]
  {
    hide Text.Blank, Text.Strip;
    if item.1.Str? {
      Text.StripEmpty(item.1.s);
    }
  }

  lemma {:induction false} StatedIff(spec: Spec)
    ensures Text.Strip(spec.goal) != "" && ValidCriteria(spec.criteria) <==>
      !Text.Blank(spec.goal) && spec.criteria != [] &&
      forall i | 0 <= i < |spec.criteria| :: !Text.Blank(spec.criteria[i])
  {
    hide Text.Blank, Text.Strip;
    forall s ensures Text.Strip(s) == "" <==> Text.Blank(s) { Text.StripEmpty(s); }
  }

  /** When a specification is complete. */
  lemma {:induction false} CompleteIff(spec: Spec)
    ensures Complete(spec) <==>
      && spec.artifactType in {"plan", "policy", "structured_document", "config", "simple_code"}
      && spec.mode in {"strict", "explain", "debug"}
      && !Text.Blank(spec.goal)
      && spec.criteria != [] && (forall i | 0 <= i < |spec.criteria| :: !Text.Blank(spec.criteria[i]))
      && forall i | 0 <= i < |spec.requiredFields| :: Usable(spec.requiredFields[i].1)
  {
    hide Text.Blank, Text.Strip, Usable, ValidCriteria, Collect;
    NoneBlankIff(spec.requiredFields);
    StatedIff(spec);
  }

  /** What is said of a specification that is not: one code, or the names of the fields without a value. */
  lemma {:induction false} SpecErrors(spec: Spec)
    ensures var typed := spec.artifactType in {"plan", "policy", "structured_document", "config", "simple_code"};
      var moded := spec.mode in {"strict", "explain", "debug"};
      var stated := !Text.Blank(spec.goal) && spec.criteria != [] &&
        forall i | 0 <= i < |spec.criteria| :: !Text.Blank(spec.criteria[i]);
      && (CheckSpec(spec) == Rejected("INVALID_ARTIFACT_TYPE") <==> !typed)
      && (CheckSpec(spec) == Rejected("INVALID_MODE") <==> typed && !moded)
      && (CheckSpec(spec) == Rejected("INVALID_SPEC") <==> typed && moded && !stated)
    ensures CheckSpec(spec).MissingValues? ==> forall name :: name in CheckSpec(spec).names <==>
      exists item :: item in spec.requiredFields && item.0 == name && !Usable(item.1)
  {
    hide Text.Blank, Text.Strip, Usable, ValidCriteria, Collect;
    StatedIff(spec);
    if CheckSpec(spec).MissingValues? {
      forall name
        ensures name in CheckSpec(spec).names <==>
          exists item :: item in spec.requiredFields && item.0 == name && !Usable(item.1)
      {
        CollectMember(spec.requiredFields, BlankField(), name);
        forall item: (string, Json) ensures BlankField()(item) == if Usable(item.1) then [] else [item.0] {
          BlankIff(item);
        }
      }
    }
  }

  // ---- Ranks ----

  const STATUSES := [Verified, Contradictory, Inconclusive, NeedsClarification, Failed]

  /** Of two artifacts, the one of the better status comes first; among equals the one with fewer violations,
      then with more satisfied, then with more provenance, then with the smaller template id. */
  lemma {:induction false} RankIs(a: Artifact, b: Artifact, i: nat, j: nat)
    requires i < 5 && j < 5 && STATUSES[i] == a.status && STATUSES[j] == b.status
    ensures RankLe(a, b) <==>
      || i < j
      || (i == j && |a.violations| < |b.violations|)
      || (i == j && |a.violations| == |b.violations| && |a.satisfied| > |b.satisfied|)
      || (i == j && |a.violations| == |b.violations| && |a.satisfied| == |b.satisfied|
          && |a.provenance| > |b.provenance|)
      || (i == j && |a.violations| == |b.violations| && |a.satisfied| == |b.satisfied|
          && |a.provenance| == |b.provenance| && Text.StrLe(a.templateId, b.templateId))
  {
    assert STATUSES[0] == Verified && STATUSES[1] == Contradictory && STATUSES[2] == Inconclusive;
    assert STATUSES[3] == NeedsClarification && STATUSES[4] == Failed;
  }

  /** Templates are tried by ascending priority, and among equals by ascending id. */
  lemma {:induction false} SelectedOrder(
      spec: Spec, builtins: seq<Template>, bundled: seq<Template>, indexed: Option<set<string>>, i: nat, j: nat)
    requires i < j < |Select(spec, builtins, bundled, indexed)|
    ensures var t, u := Select(spec, builtins, bundled, indexed)[i], Select(spec, builtins, bundled, indexed)[j];
      t.priority < u.priority || (t.priority == u.priority && Text.StrLe(t.id, u.id))
  {
    hide Select;
    SelectIff(spec, builtins, bundled, indexed);
  }
}
