/** Generated artifacts and their evaluation (src/vcse/generation/artifact.py, spec.py, constraints.py,
    evaluator.py), against one declarative acceptance condition. */
module ArtifactEvaluation {
  import opened Json
  import Text

  /** The items of a dictionary of field values, in insertion order. */
  type Fields = seq<(string, Json)>

  datatype Status = Verified | Contradictory | Inconclusive | NeedsClarification | Failed

  /** A constraint dictionary; a missing kind reads as the empty text. */
  datatype Constraint = Constraint(kind: string, target: Option<string>, fallback: Option<Json>)

  datatype Violation =
    | MissingProvenance
    | MissingField(name: string)
    | MissingSection(section: string)
    | MissingKey(key: string)
    | UnsupportedConstraint(kind: string)
    | CriterionUnmet(criterion: string)
    | ContradictsMemory(message: string)
    | ContentNotObject
    | PlanMissing(part: string)
    | NoPythonFunction

  datatype Satisfied = FieldFound(name: string) | SectionFound | KeyFound(key: string) | CriterionMet(criterion: string)

  datatype ProvenanceValue = Text(text: string) | Constraints(constraints: seq<Constraint>) | Names(names: seq<string>)

  /** `GeneratedArtifact` as a value. */
  datatype Artifact = Artifact(
    id: string,
    artifactType: string,
    content: Json,
    templateId: string,
    fieldsUsed: Fields,
    satisfied: seq<Satisfied>,
    violations: seq<Violation>,
    provenance: map<string, ProvenanceValue>,
    status: Status,
    reasons: seq<string>)

  /** `GenerationSpec` */
  datatype Spec = Spec(
    id: string,
    artifactType: string,
    goal: string,
    requiredFields: Fields,
    constraints: seq<Constraint>,
    criteria: seq<string>,
    allowedTemplates: seq<string>,
    mode: string)

  /** What this model leaves open: Python's `str` of a value, the text of content and fields together,
      and the check of the fields against the claims in memory. */
  datatype World = World(str: Json -> string, whole: (Json, Fields) -> string, contradiction: Fields -> Option<string>)

  /** `GeneratedArtifact`, whose fields the pipeline and the repairer update in place. */
  class GeneratedArtifact {
    var id: string
    var artifactType: string
    var content: Json
    var templateId: string
    var fieldsUsed: Fields
    var satisfied: seq<Satisfied>
    var violations: seq<Violation>
    var provenance: map<string, ProvenanceValue>
    var status: Status
    var reasons: seq<string>

    function View(): Artifact
      reads this
    {
      Artifact(id, artifactType, content, templateId, fieldsUsed, satisfied, violations, provenance, status, reasons)
    }

    constructor (a: Artifact)
      ensures View() == a
    {
      id, artifactType, content, templateId, fieldsUsed := a.id, a.artifactType, a.content, a.templateId, a.fieldsUsed;
      satisfied, violations, provenance, status, reasons :=
        a.satisfied, a.violations, a.provenance, a.status, a.reasons;
    }
  }

  // ---- Reading values ----

  function Get(fields: Fields, key: string): Option<Json> {
    if fields == [] then None else if fields[0].0 == key then Some(fields[0].1) else Get(fields[1..], key)
  }

  function Find(keys: seq<string>, values: seq<Json>, key: string): Option<Json> {
    if keys == [] || values == [] then None
    else if keys[0] == key then Some(values[0])
    else Find(keys[1..], values[1..], key)
  }

  /** `content.get(key)`, for content that is a dictionary. */
  function Entry(content: Json, key: string): Option<Json> {
    if content.Dict? then Find(content.keys, content.values, key) else None
  }

  /** None, or a text of whitespace only. */
  predicate Empty(v: Json) {
    v.Null? || (v.Str? && Text.Strip(v.s) == "")
  }

  predicate Truthy(v: Json) {
    match v
    case Null => false
    case Bool(b) => b
    case Number(n) => n != 0.0
    case Str(s) => s != ""
    case List(items) => items != []
    case Dict(keys, _) => keys != []
  }

  predicate FilledList(v: Option<Json>) {
    v.Some? && v.value.List? && v.value.items != []
  }

  /** `sub in s` */
  predicate Contains(s: string, sub: string) {
    sub <= s || (s != [] && Contains(s[1..], sub))
  }

  /** `_field_present` */
  predicate FieldPresent(fields: Fields, key: string) {
    var v := Get(fields, key);
    v.Some? && !Empty(v.value) && !(v.value.List? && v.value.items == [])
  }

  function Kind(c: Constraint): string {
    Text.Lower(Text.Strip(c.kind))
  }

  function Target(c: Constraint): string {
    if c.target.Some? then Text.Strip(c.target.value) else ""
  }

  // ---- Lists built by appending ----

  function Collect<T, R>(xs: seq<T>, f: T -> seq<R>): seq<R> {
    if xs == [] then [] else f(xs[0]) + Collect(xs[1..], f)
  }

  /** One step of a loop that appends `f(xs[i])`. */
  lemma {:induction false} CollectNext<T, R>(xs: seq<T>, f: T -> seq<R>, i: nat, done: seq<R>)
    requires i < |xs|
    ensures done + Collect(xs[i..], f) == (done + f(xs[i])) + Collect(xs[i + 1..], f)
    ensures f(xs[i]) == [] ==> done + Collect(xs[i..], f) == done + Collect(xs[i + 1..], f)
  {
    assert xs[i..][0] == xs[i] && xs[i..][1..] == xs[i + 1..];
    var here, later := f(xs[i]), Collect(xs[i + 1..], f);
    assert done + (here + later) == (done + here) + later;
    assert [] + later == later;
  }

  lemma CollectDone<T, R>(xs: seq<T>, f: T -> seq<R>, done: seq<R>)
    ensures xs[0..] == xs && done + Collect(xs[|xs|..], f) == done
  {
  }

  lemma {:induction false} CollectEmptyIff<T, R>(xs: seq<T>, f: T -> seq<R>)
    ensures Collect(xs, f) == [] <==> forall x | x in xs :: f(x) == []
  {
    if xs != [] {
      CollectEmptyIff(xs[1..], f);
      assert xs == [xs[0]] + xs[1..];
    }
  }

  // ---- Constraints ----

  /** When a constraint counts as satisfied; no other kind ever is. */
  predicate Holds(a: Artifact, c: Constraint) {
    || (Kind(c) == "field_present" && FieldPresent(a.fieldsUsed, Target(c)))
    || (Kind(c) == "section_present" && Target(c) == "sections" && FilledList(Entry(a.content, "sections")))
    || (Kind(c) == "key_present" && Entry(a.content, Target(c)).Some?)
  }

  function Passed(c: Constraint): Satisfied {
    if Kind(c) == "field_present" then FieldFound(Target(c))
    else if Kind(c) == "section_present" then SectionFound
    else KeyFound(Target(c))
  }

  function Missed(c: Constraint): Violation {
    if Kind(c) == "field_present" then MissingField(Target(c))
    else if Kind(c) == "section_present" then MissingSection(Target(c))
    else if Kind(c) == "key_present" then MissingKey(Target(c))
    else UnsupportedConstraint(Kind(c))
  }

  function PassedBy(a: Artifact): Constraint -> seq<Satisfied> {
    c => if Holds(a, c) then [Passed(c)] else []
  }

  function MissedBy(a: Artifact): Constraint -> seq<Violation> {
    c => if Holds(a, c) then [] else [Missed(c)]
  }

  /** `evaluate_constraints` */
  method EvaluateConstraints(artifact: GeneratedArtifact, constraints: seq<Constraint>)
    returns (satisfied: seq<Satisfied>, violations: seq<Violation>)
    ensures satisfied == Collect(constraints, PassedBy(artifact.View()))
    ensures violations == Collect(constraints, MissedBy(artifact.View()))
  {
    hide Kind, Target, FieldPresent, Entry, FilledList;
    ghost var a := artifact.View();
    satisfied, violations := [], [];
    CollectDone(constraints, PassedBy(a), satisfied);
    assert [] + Collect(constraints, PassedBy(a)) == Collect(constraints, PassedBy(a));
    assert [] + Collect(constraints, MissedBy(a)) == Collect(constraints, MissedBy(a));
    for i := 0 to |constraints|
      invariant satisfied + Collect(constraints[i..], PassedBy(a)) == Collect(constraints, PassedBy(a))
      invariant violations + Collect(constraints[i..], MissedBy(a)) == Collect(constraints, MissedBy(a))
    {
      var item := constraints[i];
      CollectNext(constraints, PassedBy(a), i, satisfied);
      CollectNext(constraints, MissedBy(a), i, violations);
      var kind, target := Kind(item), Target(item);
      if kind == "field_present" {
        if FieldPresent(artifact.fieldsUsed, target) {
          satisfied := satisfied + [FieldFound(target)];
        } else {
          violations := violations + [MissingField(target)];
        }
      } else if kind == "section_present" {
        if target == "sections" && FilledList(Entry(artifact.content, "sections")) {
          satisfied := satisfied + [SectionFound];
        } else {
          violations := violations + [MissingSection(target)];
        }
      } else if kind == "key_present" {
        if Entry(artifact.content, target).Some? {
          satisfied := satisfied + [KeyFound(target)];
        } else {
          violations := violations + [MissingKey(target)];
        }
      } else {
        violations := violations + [UnsupportedConstraint(kind)];
      }
    }
    CollectDone(constraints, PassedBy(a), satisfied);
    CollectDone(constraints, MissedBy(a), violations);
  }

  // ---- The other checks ----

  predicate FieldSupplied(used: Fields, item: (string, Json)) {
    !Empty(item.1) && Get(used, item.0).Some?
  }

  function FieldGaps(used: Fields): ((string, Json)) -> seq<Violation> {
    (item: (string, Json)) => if FieldSupplied(used, item) then [] else [MissingField(item.0)]
  }

  function Needle(criterion: string): string {
    Text.Strip(Text.Lower(criterion))
  }

  function Haystack(a: Artifact, w: World): string {
    Text.Lower(w.whole(a.content, a.fieldsUsed))
  }

  function CriteriaFound(haystack: string): string -> seq<Satisfied> {
    criterion =>
      if Needle(criterion) != "" && Contains(haystack, Needle(criterion)) then [CriterionMet(criterion)] else []
  }

  function CriteriaGaps(haystack: string): string -> seq<Violation> {
    criterion =>
      if Needle(criterion) == "" || Contains(haystack, Needle(criterion)) then [] else [CriterionUnmet(criterion)]
  }

  const PLAN_PARTS := ["steps", "preconditions", "effects"]

  predicate PlanPart(content: Json, key: string) {
    var v := Entry(content, key);
    v.Some? && !Empty(v.value)
  }

  function PlanGaps(content: Json): string -> seq<Violation> {
    key => if PlanPart(content, key) then [] else [PlanMissing(key)]
  }

  function KeyGaps(content: Json): ((string, Json)) -> seq<Violation> {
    (item: (string, Json)) => if Entry(content, item.0).Some? then [] else [MissingKey(item.0)]
  }

  function CodeText(content: Json, w: World): string {
    var v := Entry(content, "code");
    if v.None? then "" else if v.value.Str? then v.value.s else w.str(v.value)
  }

  /** The violations the type of an artifact adds. */
  function TypeViolations(a: Artifact, spec: Spec, w: World): seq<Violation> {
    if a.artifactType !in {"plan", "config", "policy", "structured_document", "simple_code"} then []
    else if !a.content.Dict? then [ContentNotObject]
    else if a.artifactType == "plan" then Collect(PLAN_PARTS, PlanGaps(a.content))
    else if a.artifactType == "config" then Collect(spec.requiredFields, KeyGaps(a.content))
    else if a.artifactType == "simple_code" then
      if Contains(CodeText(a.content, w), "def ") then [] else [NoPythonFunction]
    else if FilledList(Entry(a.content, "sections")) then [] else [MissingSection("sections")]
  }

  predicate TestsRequested(a: Artifact, spec: Spec) {
    var tests := Get(spec.requiredFields, "tests");
    a.artifactType == "simple_code" && tests.Some? && Truthy(tests.value)
  }

  function TemplateConstraints(a: Artifact): seq<Constraint> {
    if "template_constraints" in a.provenance && a.provenance["template_constraints"].Constraints?
    then a.provenance["template_constraints"].constraints else []
  }

  datatype Evaluation = Evaluation(status: Status, reasons: seq<string>, satisfied: seq<Satisfied>,
    violations: seq<Violation>)

  function SatisfiedNotes(a: Artifact, spec: Spec, w: World): seq<Satisfied> {
    Collect(TemplateConstraints(a) + spec.constraints, PassedBy(a)) +
      Collect(spec.criteria, CriteriaFound(Haystack(a, w)))
  }

  function Gaps(a: Artifact, spec: Spec, w: World): seq<Violation> {
    Collect(TemplateConstraints(a) + spec.constraints, MissedBy(a))
    + Collect(spec.requiredFields, FieldGaps(a.fieldsUsed))
    + Collect(spec.criteria, CriteriaGaps(Haystack(a, w)))
  }

  /** What `ArtifactEvaluator.evaluate` returns. */
  function Evaluate(a: Artifact, spec: Spec, w: World): Evaluation {
    if a.status == NeedsClarification then Evaluation(NeedsClarification, a.reasons, [], [])
    else if a.provenance == map[] then Evaluation(Failed, ["missing provenance"], [], [MissingProvenance])
    else
      var satisfied, gaps := SatisfiedNotes(a, spec, w), Gaps(a, spec, w);
      var contradiction := w.contradiction(a.fieldsUsed);
      if contradiction.Some? && contradiction.value != "" then
        Evaluation(Contradictory, [contradiction.value], satisfied, gaps + [ContradictsMemory(contradiction.value)])
      else
        var violations := gaps + TypeViolations(a, spec, w);
        if TestsRequested(a, spec) then Evaluation(Inconclusive, ["CODE_EXECUTION_NOT_ENABLED"], satisfied, violations)
        else if violations != [] then Evaluation(Failed, ["artifact validation failed"], satisfied, violations)
        else Evaluation(Verified, ["artifact verified"], satisfied, [])
  }

  /** The loop over the required fields, appending to `before`. */
  method CheckFields(used: Fields, required: Fields, before: seq<Violation>) returns (violations: seq<Violation>)
    ensures violations == before + Collect(required, FieldGaps(used))
  {
    hide Empty, Get;
    violations := before;
    CollectDone(required, FieldGaps(used), before);
    for i := 0 to |required|
      invariant violations + Collect(required[i..], FieldGaps(used)) == before + Collect(required, FieldGaps(used))
    {
      CollectNext(required, FieldGaps(used), i, violations);
      var (key, value) := required[i];
      if Empty(value) {
        violations := violations + [MissingField(key)];
      } else if Get(used, key).None? {
        violations := violations + [MissingField(key)];
      }
    }
    CollectDone(required, FieldGaps(used), violations);
  }

  /** The loop over the success criteria, appending to both lists. */
  method CheckCriteria(haystack: string, criteria: seq<string>, passed: seq<Satisfied>, before: seq<Violation>)
    returns (satisfied: seq<Satisfied>, violations: seq<Violation>)
    ensures satisfied == passed + Collect(criteria, CriteriaFound(haystack))
    ensures violations == before + Collect(criteria, CriteriaGaps(haystack))
  {
    hide Needle, Contains;
    satisfied, violations := passed, before;
    CollectDone(criteria, CriteriaFound(haystack), passed);
    for i := 0 to |criteria|
      invariant satisfied + Collect(criteria[i..], CriteriaFound(haystack)) ==
        passed + Collect(criteria, CriteriaFound(haystack))
      invariant violations + Collect(criteria[i..], CriteriaGaps(haystack)) ==
        before + Collect(criteria, CriteriaGaps(haystack))
    {
      CollectNext(criteria, CriteriaFound(haystack), i, satisfied);
      CollectNext(criteria, CriteriaGaps(haystack), i, violations);
      var criterion := criteria[i];
      var needle := Needle(criterion);
      if needle == "" { continue; }
      if Contains(haystack, needle) {
        satisfied := satisfied + [CriterionMet(criterion)];
      } else {
        violations := violations + [CriterionUnmet(criterion)];
      }
    }
    CollectDone(criteria, CriteriaFound(haystack), satisfied);
    CollectDone(criteria, CriteriaGaps(haystack), violations);
  }

  /** `_type_specific_violations` */
  method CheckType(artifact: GeneratedArtifact, spec: Spec, w: World) returns (violations: seq<Violation>)
    ensures violations == TypeViolations(artifact.View(), spec, w)
  {
    hide PlanPart, Entry, FilledList, Contains, CodeText;
    var content := artifact.content;
    violations := [];
    if artifact.artifactType == "plan" {
      if !content.Dict? { return [ContentNotObject]; }
      CollectDone(PLAN_PARTS, PlanGaps(content), violations);
      for i := 0 to |PLAN_PARTS|
        invariant violations + Collect(PLAN_PARTS[i..], PlanGaps(content)) == Collect(PLAN_PARTS, PlanGaps(content))
      {
        CollectNext(PLAN_PARTS, PlanGaps(content), i, violations);
        if !PlanPart(content, PLAN_PARTS[i]) {
          violations := violations + [PlanMissing(PLAN_PARTS[i])];
        }
      }
      CollectDone(PLAN_PARTS, PlanGaps(content), violations);
    } else if artifact.artifactType == "config" {
      if !content.Dict? { return [ContentNotObject]; }
      var required := spec.requiredFields;
      CollectDone(required, KeyGaps(content), violations);
      for i := 0 to |required|
        invariant violations + Collect(required[i..], KeyGaps(content)) == Collect(required, KeyGaps(content))
      {
        CollectNext(required, KeyGaps(content), i, violations);
        var key := required[i].0;
        if Entry(content, key).None? {
          violations := violations + [MissingKey(key)];
        }
      }
      CollectDone(required, KeyGaps(content), violations);
    } else if artifact.artifactType == "policy" || artifact.artifactType == "structured_document" {
      if !content.Dict? { return [ContentNotObject]; }
      if !FilledList(Entry(content, "sections")) {
        violations := violations + [MissingSection("sections")];
      }
    } else if artifact.artifactType == "simple_code" {
      if !content.Dict? { return [ContentNotObject]; }
      if !Contains(CodeText(content, w), "def ") {
        violations := violations + [NoPythonFunction];
      }
    }
  }

  /** `ArtifactEvaluator.evaluate` */
  method EvaluateArtifact(artifact: GeneratedArtifact, spec: Spec, w: World) returns (r: Evaluation)
    ensures r == Evaluate(artifact.View(), spec, w)
  {
    hide Collect, TypeViolations, TestsRequested, TemplateConstraints, Haystack;
    var a := artifact.View();
    if artifact.status == NeedsClarification {
      return Evaluation(NeedsClarification, artifact.reasons, [], []);
    }
    if artifact.provenance == map[] {
      return Evaluation(Failed, ["missing provenance"], [], [MissingProvenance]);
    }
    var constraints := TemplateConstraints(a) + spec.constraints;
    var satisfied, violations := EvaluateConstraints(artifact, constraints);
    violations := CheckFields(artifact.fieldsUsed, spec.requiredFields, violations);
    satisfied, violations := CheckCriteria(Haystack(a, w), spec.criteria, satisfied, violations);
    var contradiction := w.contradiction(artifact.fieldsUsed);
    if contradiction.Some? && contradiction.value != "" {
      return Evaluation(Contradictory, [contradiction.value], satisfied,
        violations + [ContradictsMemory(contradiction.value)]);
    }
    var shape := CheckType(artifact, spec, w);
    violations := violations + shape;
    if TestsRequested(a, spec) {
      return Evaluation(Inconclusive, ["CODE_EXECUTION_NOT_ENABLED"], satisfied, violations);
    }
    if violations != [] {
      return Evaluation(Failed, ["artifact validation failed"], satisfied, violations);
    }
    return Evaluation(Verified, ["artifact verified"], satisfied, []);
  }

  // ---- What verified means ----

  /** The shape each type of artifact must have. */
  ghost predicate WellShaped(a: Artifact, spec: Spec, w: World) {
    match a.artifactType
    case "plan" => a.content.Dict? && PlanPart(a.content, "steps") && PlanPart(a.content, "preconditions") &&
      PlanPart(a.content, "effects")
    case "config" => a.content.Dict? && forall item | item in spec.requiredFields :: Entry(a.content, item.0).Some?
    case "policy" => FilledList(Entry(a.content, "sections"))
    case "structured_document" => FilledList(Entry(a.content, "sections"))
    case "simple_code" => a.content.Dict? && Contains(CodeText(a.content, w), "def ")
    case _ => true
  }

  /** Everything a reader expects of a verified artifact. */
  ghost predicate Meets(a: Artifact, spec: Spec, w: World) {
    && (forall c | c in TemplateConstraints(a) + spec.constraints :: Holds(a, c))
    && (forall item | item in spec.requiredFields :: FieldSupplied(a.fieldsUsed, item))
    && (forall criterion | criterion in spec.criteria && Needle(criterion) != "" ::
      Contains(Haystack(a, w), Needle(criterion)))
    && (w.contradiction(a.fieldsUsed) == None || w.contradiction(a.fieldsUsed) == Some(""))
    && WellShaped(a, spec, w)
    && !TestsRequested(a, spec)
  }

  lemma {:induction false} NoTypeViolationsIff(a: Artifact, spec: Spec, w: World)
    ensures TypeViolations(a, spec, w) == [] <==> WellShaped(a, spec, w)
  {
    hide PlanPart, Entry, FilledList, Contains, CodeText, Collect;
    CollectEmptyIff(PLAN_PARTS, PlanGaps(a.content));
    CollectEmptyIff(spec.requiredFields, KeyGaps(a.content));
    SectionsNeedObject(a.content);
    assert "steps" in PLAN_PARTS && "preconditions" in PLAN_PARTS && "effects" in PLAN_PARTS;
    assert PlanGaps(a.content)("steps") == [] <==> PlanPart(a.content, "steps");
    assert PlanGaps(a.content)("preconditions") == [] <==> PlanPart(a.content, "preconditions");
    assert PlanGaps(a.content)("effects") == [] <==> PlanPart(a.content, "effects");
    forall item | item in spec.requiredFields
      ensures KeyGaps(a.content)(item) == [] <==> Entry(a.content, item.0).Some?
    {
    }
  }

  lemma SectionsNeedObject(content: Json)
    ensures FilledList(Entry(content, "sections")) ==> content.Dict?
  {
  }

  lemma {:induction false} NoGapsIff(a: Artifact, spec: Spec, w: World)
    ensures Gaps(a, spec, w) == [] <==>
      && (forall c | c in TemplateConstraints(a) + spec.constraints :: Holds(a, c))
      && (forall item | item in spec.requiredFields :: FieldSupplied(a.fieldsUsed, item))
      && (forall criterion | criterion in spec.criteria && Needle(criterion) != "" ::
        Contains(Haystack(a, w), Needle(criterion)))
  {
    hide Holds, FieldSupplied, Contains, Haystack, Needle, TemplateConstraints, Collect;
    CollectEmptyIff(TemplateConstraints(a) + spec.constraints, MissedBy(a));
    CollectEmptyIff(spec.requiredFields, FieldGaps(a.fieldsUsed));
    CollectEmptyIff(spec.criteria, CriteriaGaps(Haystack(a, w)));
    assert forall c :: MissedBy(a)(c) == [] <==> Holds(a, c);
    assert forall item :: FieldGaps(a.fieldsUsed)(item) == [] <==> FieldSupplied(a.fieldsUsed, item);
  }

  /** The evaluator verifies exactly the artifacts that have provenance and meet the whole specification. */
  lemma {:induction false} VerifiedIff(a: Artifact, spec: Spec, w: World)
    ensures Evaluate(a, spec, w).status == Verified <==>
      a.status != NeedsClarification && a.provenance != map[] && Meets(a, spec, w)
    ensures Evaluate(a, spec, w).status == Verified ==> Evaluate(a, spec, w).violations == []
  {
    hide Gaps, TypeViolations, SatisfiedNotes, Holds, FieldSupplied, Contains, Haystack, Needle, TemplateConstraints,
      WellShaped, TestsRequested;
    NoGapsIff(a, spec, w);
    NoTypeViolationsIff(a, spec, w);
  }

  ghost predicate Contradicted(a: Artifact, w: World) {
    w.contradiction(a.fieldsUsed).Some? && w.contradiction(a.fieldsUsed) != Some("")
  }

  /** Which artifacts are sent to repair: those without provenance, and those that fall short although
      nothing contradicts them and no test run was asked for. */
  lemma {:induction false} FailedIff(a: Artifact, spec: Spec, w: World)
    ensures Evaluate(a, spec, w).status == Failed <==>
      a.status != NeedsClarification &&
      (a.provenance == map[] || (!Contradicted(a, w) && !TestsRequested(a, spec) && !Meets(a, spec, w)))
    ensures Evaluate(a, spec, w).status == Contradictory <==>
      a.status != NeedsClarification && a.provenance != map[] && Contradicted(a, w)
    ensures Evaluate(a, spec, w).status == Failed ==> Evaluate(a, spec, w).violations != []
  {
    hide Gaps, TypeViolations, SatisfiedNotes, Meets, TestsRequested;
    VerifiedIff(a, spec, w);
  }
}
