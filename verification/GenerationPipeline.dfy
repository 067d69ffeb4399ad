/** The verified generation pipeline: candidates from templates, evaluation, bounded repair, ranking
    (src/vcse/generation/candidate.py, repair.py, pipeline.py). */
module GenerationPipeline {
  import opened Json
  import opened ArtifactEvaluation
  import opened Sorting
  import T = Templates
  import Text

  /** `GenerationTemplate`, without the fields generation never reads. */
  datatype Template = Template(
    id: string,
    artifactType: string,
    requiredFields: seq<string>,
    body: Json,
    constraints: seq<Constraint>,
    priority: int)

  /** The order of the sort key `(priority, id)`. */
  predicate TemplateLe(t: Template, u: Template) {
    t.priority < u.priority || (t.priority == u.priority && Text.StrLe(t.id, u.id))
  }

  function Ordered(templates: seq<Template>): seq<Template> {
    Sort(templates, TemplateLe)
  }

  // ---- Rendering with JSON field values ----

  function ItemText(v: Json, w: World): string {
    if v.Str? then v.s else w.str(v)
  }

  function Texts(items: seq<Json>, w: World): seq<string> {
    if items == [] then [] else [ItemText(items[0], w)] + Texts(items[1..], w)
  }

  function FieldValues(fields: Fields, w: World): seq<T.Field> {
    if fields == [] then []
    else
      var (key, v) := fields[0];
      [T.Field(key, if v.List? then T.Items(Texts(v.items, w)) else T.Scalar(ItemText(v, w)))] +
        FieldValues(fields[1..], w)
  }

  /** `render_template_body(template.body, fields)` */
  function Render(t: Template, fields: Fields, w: World): Json {
    T.RenderBody(t.body, FieldValues(fields, w))
  }

  // ---- Candidates ----

  function AbsentIn(spec: Spec): string -> seq<string> {
    name => if Get(spec.requiredFields, name).None? then [name] else []
  }

  function MissingFields(t: Template, spec: Spec): seq<string> {
    Collect(t.requiredFields, AbsentIn(spec))
  }

  predicate Ready(t: Template, spec: Spec) {
    MissingFields(t, spec) == []
  }

  /** The artifact a template yields on the fields of the specification. */
  function Rendered(t: Template, spec: Spec, w: World): Artifact {
    Artifact(spec.id + ":" + t.id, spec.artifactType, Render(t, spec.requiredFields, w), t.id, spec.requiredFields,
             [], [],
             map["source" := Text("generation"), "template_id" := Text(t.id),
                 "template_constraints" := Constraints(t.constraints), "spec_id" := Text(spec.id)],
             Inconclusive, [])
  }

  function Candidate(t: Template, spec: Spec, w: World): Artifact {
    var missing := MissingFields(t, spec);
    if missing == [] then Rendered(t, spec, w)
    else Artifact(spec.id + ":" + t.id, spec.artifactType, Dict([], []), t.id, spec.requiredFields, [], [],
                  map["source" := Text("generation"), "template_id" := Text(t.id),
                      "template_constraints" := Constraints(t.constraints), "missing_fields" := Names(missing)],
                  NeedsClarification, ["missing required fields: " + Text.Join(", ", missing)])
  }

  /** `CandidateGenerator.generate` */
  method GenerateCandidates(spec: Spec, templates: seq<Template>, w: World) returns (candidates: seq<GeneratedArtifact>)
    ensures |candidates| == |Ordered(templates)|
    ensures forall i | 0 <= i < |candidates| ::
      fresh(candidates[i]) && candidates[i].View() == Candidate(Ordered(templates)[i], spec, w)
    ensures forall i, j | 0 <= i < j < |candidates| :: candidates[i] != candidates[j]
  {
    hide Candidate, Ordered;
    var ordered := Ordered(templates);
    candidates := [];
    for k := 0 to |ordered|
      invariant |candidates| == k
      invariant forall i | 0 <= i < k :: fresh(candidates[i]) && candidates[i].View() == Candidate(ordered[i], spec, w)
      invariant forall i, j | 0 <= i < j < k :: candidates[i] != candidates[j]
    {
      var candidate := new GeneratedArtifact(Candidate(ordered[k], spec, w));
      candidates := candidates + [candidate];
    }
  }

  // ---- Evaluation written back ----

  function Assess(a: Artifact, spec: Spec, w: World): Artifact {
    var e := Evaluate(a, spec, w);
    a.(satisfied := e.satisfied, violations := e.violations, status := e.status, reasons := e.reasons)
  }

  method AssessArtifact(artifact: GeneratedArtifact, spec: Spec, w: World) returns (result: Evaluation)
    modifies artifact
    ensures artifact.View() == Assess(old(artifact.View()), spec, w)
    ensures result == Evaluate(old(artifact.View()), spec, w)
  {
    hide Evaluate;
    result := EvaluateArtifact(artifact, spec, w);
    artifact.satisfied := result.satisfied;
    artifact.violations := result.violations;
    artifact.status := result.status;
    artifact.reasons := result.reasons;
  }

  // ---- Repair ----

  /** `fields[key] = value` on a dictionary. */
  function Put(fields: Fields, key: string, value: Json): Fields {
    if fields == [] then [(key, value)]
    else if fields[0].0 == key then [(key, value)] + fields[1..]
    else [fields[0]] + Put(fields[1..], key, value)
  }

  /** The repairer lowers the kind but, unlike the evaluator, does not strip it. */
  predicate SetsDefault(c: Constraint) {
    Text.Lower(c.kind) == "default_if_missing" && c.fallback.Some?
  }

  function DefaultKey(c: Constraint): string {
    if c.target.Some? then c.target.value else "None"
  }

  /** The dictionary of defaults; a later default for a key replaces an earlier one. */
  function Defaults(constraints: seq<Constraint>): Fields {
    if constraints == [] then []
    else
      var init, c := Defaults(constraints[..|constraints| - 1]), constraints[|constraints| - 1];
      if SetsDefault(c) then Put(init, DefaultKey(c), c.fallback.value) else init
  }

  predicate Unset(fields: Fields, key: string) {
    Get(fields, key) in {None, Some(Null), Some(Str(""))}
  }

  function FillDefaults(fields: Fields, defaults: Fields): Fields
    decreases |defaults|
  {
    if defaults == [] then fields
    else
      var (key, value) := defaults[0];
      FillDefaults(if Unset(fields, key) then Put(fields, key, value) else fields, defaults[1..])
  }

  predicate SomeUnset(fields: Fields, defaults: Fields) {
    defaults != [] && (Unset(fields, defaults[0].0) || SomeUnset(fields, defaults[1..]))
  }

  function FirstOther(templates: seq<Template>, id: string): Option<Template> {
    if templates == [] then None
    else if templates[0].id != id then Some(templates[0])
    else FirstOther(templates[1..], id)
  }

  /** Another template takes over, rendered on the fields in use. */
  function Switch(a: Artifact, t: Template, w: World): Artifact {
    a.(templateId := t.id,
       provenance := a.provenance["template_id" := Text(t.id)]["template_constraints" := Constraints(t.constraints)],
       content := Render(t, a.fieldsUsed, w))
  }

  /** One attempt; None when there is nothing left to try. */
  function RepairStep(a: Artifact, spec: Spec, templates: seq<Template>, w: World): Option<Artifact> {
    var defaults := Defaults(spec.constraints);
    if SomeUnset(a.fieldsUsed, defaults) then Some(a.(fieldsUsed := FillDefaults(a.fieldsUsed, defaults)))
    else
      var other := FirstOther(Ordered(templates), a.templateId);
      if other.None? then None else Some(Switch(a, other.value, w))
  }

  function Repair(a: Artifact, spec: Spec, templates: seq<Template>, w: World, attempts: nat): Artifact
    decreases attempts
  {
    if attempts == 0 then a
    else
      var next := RepairStep(a, spec, templates, w);
      if next.None? then a else Repair(next.value, spec, templates, w, attempts - 1)
  }

  /** The loop that fills in defaults. */
  method FillArtifact(artifact: GeneratedArtifact, defaults: Fields) returns (changed: bool)
    modifies artifact`fieldsUsed
    ensures artifact.fieldsUsed == FillDefaults(old(artifact.fieldsUsed), defaults)
    ensures changed == SomeUnset(old(artifact.fieldsUsed), defaults)
    ensures !changed ==> artifact.fieldsUsed == old(artifact.fieldsUsed)
  {
    hide Unset, Put;
    changed := false;
    assert defaults[0..] == defaults;
    for i := 0 to |defaults|
      invariant FillDefaults(artifact.fieldsUsed, defaults[i..]) == FillDefaults(old(artifact.fieldsUsed), defaults)
      invariant changed || (artifact.fieldsUsed == old(artifact.fieldsUsed)
        && SomeUnset(old(artifact.fieldsUsed), defaults[i..]) == SomeUnset(old(artifact.fieldsUsed), defaults))
      invariant changed ==> SomeUnset(old(artifact.fieldsUsed), defaults)
    {
      assert defaults[i..][0] == defaults[i] && defaults[i..][1..] == defaults[i + 1..];
      var (key, value) := defaults[i];
      if Unset(artifact.fieldsUsed, key) {
        artifact.fieldsUsed := Put(artifact.fieldsUsed, key, value);
        changed := true;
      }
    }
  }

  /** `ArtifactRepairer.repair`: works on a copy; the evaluation result is not refreshed between attempts. */
  method RepairArtifact(
      artifact: GeneratedArtifact, evaluation: Evaluation, spec: Spec, templates: seq<Template>, w: World,
      maxAttempts: nat)
    returns (current: GeneratedArtifact)
    ensures fresh(current)
    ensures evaluation.status == Verified ==> current.View() == artifact.View()
    ensures evaluation.status != Verified ==> current.View() == Repair(artifact.View(), spec, templates, w, maxAttempts)
  {
    hide Ordered, Defaults, FillDefaults, SomeUnset, FirstOther, Render;
    current := new GeneratedArtifact(artifact.View());
    var attempts := 0;
    while attempts < maxAttempts && evaluation.status != Verified
      invariant attempts <= maxAttempts && fresh(current)
      invariant evaluation.status == Verified ==> current.View() == artifact.View()
      invariant evaluation.status != Verified ==>
        Repair(current.View(), spec, templates, w, maxAttempts - attempts) ==
          Repair(artifact.View(), spec, templates, w, maxAttempts)
    {
      attempts := attempts + 1;
      ghost var before := current.View();
      var changed := FillArtifact(current, Defaults(spec.constraints));
      if !changed {
        var other := FirstOther(Ordered(templates), current.templateId);
        if other.None? { break; }
        var template := other.value;
        current.templateId := template.id;
        current.provenance := current.provenance["template_id" := Text(template.id)];
        current.provenance := current.provenance["template_constraints" := Constraints(template.constraints)];
        current.content := Render(template, current.fieldsUsed, w);
      }
    }
  }

  // ---- Ranking ----

  function StatusOrder(s: Status): nat {
    match s
    case Verified => 0
    case Contradictory => 1
    case Inconclusive => 2
    case NeedsClarification => 3
    case Failed => 4
  }

  /** `_rank_key`, as the order it sorts by. */
  predicate RankLe(a: Artifact, b: Artifact) {
    var (sa, sb) := (StatusOrder(a.status), StatusOrder(b.status));
    sa < sb || (sa == sb &&
    (|a.violations| < |b.violations| || (|a.violations| == |b.violations| &&
    (|a.satisfied| > |b.satisfied| || (|a.satisfied| == |b.satisfied| &&
    (|a.provenance| > |b.provenance| || (|a.provenance| == |b.provenance| &&
    Text.StrLe(a.templateId, b.templateId))))))))
  }

  lemma {:induction false} RankLePreorder()
    ensures TotalPreorder(RankLe)
  {
    forall a, b ensures RankLe(a, b) || RankLe(b, a) {
      Text.StrLeTotal(a.templateId, b.templateId);
    }
    forall a, b, c | RankLe(a, b) && RankLe(b, c) ensures RankLe(a, c) {
      if Text.StrLe(a.templateId, b.templateId) && Text.StrLe(b.templateId, c.templateId) {
        Text.StrLeTransitive(a.templateId, b.templateId, c.templateId);
      }
    }
  }

  lemma {:induction false} TemplateLePreorder()
    ensures TotalPreorder(TemplateLe)
  {
    forall a, b ensures TemplateLe(a, b) || TemplateLe(b, a) {
      Text.StrLeTotal(a.id, b.id);
    }
    forall a, b, c | TemplateLe(a, b) && TemplateLe(b, c) ensures TemplateLe(a, c) {
      if Text.StrLe(a.id, b.id) && Text.StrLe(b.id, c.id) {
        Text.StrLeTransitive(a.id, b.id, c.id);
      }
    }
  }

  // ---- The pipeline ----

  const MAX_REPAIR_ATTEMPTS := 2
  const ARTIFACT_TYPES := {"plan", "policy", "structured_document", "config", "simple_code"}
  const MODES := {"strict", "explain", "debug"}

  datatype SpecCheck = Rejected(code: string) | MissingValues(names: seq<string>)

  function BlankField(): ((string, Json)) -> seq<string> {
    (item: (string, Json)) => if Empty(item.1) then [item.0] else []
  }

  predicate ValidCriteria(criteria: seq<string>) {
    criteria != [] && forall i | 0 <= i < |criteria| :: Text.Strip(criteria[i]) != ""
  }

  /** `GenerationSpec.validate` */
  function CheckSpec(spec: Spec): SpecCheck {
    if spec.artifactType !in ARTIFACT_TYPES then Rejected("INVALID_ARTIFACT_TYPE")
    else if spec.mode !in MODES then Rejected("INVALID_MODE")
    else if Text.Strip(spec.goal) == "" then Rejected("INVALID_SPEC")
    else if !ValidCriteria(spec.criteria) then Rejected("INVALID_SPEC")
    else MissingValues(Collect(spec.requiredFields, BlankField()))
  }

  function Keep(templates: seq<Template>, p: Template -> bool): seq<Template> {
    if templates == [] then []
    else (if p(templates[0]) then [templates[0]] else []) + Keep(templates[1..], p)
  }

  /** `_select_templates`, then `_filter_templates_by_index` for the ids the index selected, if it is on. */
  function Select(
      spec: Spec, builtins: seq<Template>, bundled: seq<Template>, indexed: Option<set<string>>): seq<Template>
  {
    var typed := Keep(builtins + Ordered(bundled), (t: Template) => t.artifactType == spec.artifactType);
    var allowed :=
      if spec.allowedTemplates == [] then typed else Keep(typed, (t: Template) => t.id in spec.allowedTemplates);
    var ordered := Ordered(allowed);
    if indexed.None? || indexed.value == {} then ordered else Keep(ordered, (t: Template) => t.id in indexed.value)
  }

  datatype GenerationResult = GenerationResult(
    status: Status,
    best: Option<Artifact>,
    candidates: seq<Artifact>,
    reasons: seq<string>,
    clarification: Option<string>)

  datatype Generation = Raised(code: string) | Generated(result: GenerationResult)

  /** What becomes of one candidate: evaluated, and when that fails repaired and evaluated again. */
  function Outcome(a: Artifact, spec: Spec, templates: seq<Template>, w: World): Artifact {
    var assessed := Assess(a, spec, w);
    if assessed.status != Failed then assessed
    else Assess(Repair(assessed, spec, templates, w, MAX_REPAIR_ATTEMPTS), spec, w)
  }

  function Outcomes(spec: Spec, templates: seq<Template>, w: World): (r: seq<Artifact>)
    ensures |r| == |Ordered(templates)|
    ensures forall k | 0 <= k < |r| :: r[k] == Outcome(Candidate(Ordered(templates)[k], spec, w), spec, templates, w)
  {
    var ordered := Ordered(templates);
    seq(|ordered|, k requires 0 <= k < |ordered| => Outcome(Candidate(ordered[k], spec, w), spec, templates, w))
  }

  function Ranked(outcomes: seq<Artifact>): (r: seq<Artifact>)
    ensures |r| == |outcomes|
  {
    Sort(outcomes, RankLe)
  }

  function Report(ranked: seq<Artifact>): GenerationResult
    requires ranked != []
  {
    var best := ranked[0];
    var reasons := Text.Join("; ", best.reasons);
    GenerationResult(best.status, Some(best), ranked, best.reasons,
      if best.status != NeedsClarification then None
      else if reasons == "" then Some("Spec requires clarification")
      else Some(reasons))
  }

  /** The result of the pipeline on the selected templates. */
  function Generate(spec: Spec, templates: seq<Template>, w: World): Generation {
    var check := CheckSpec(spec);
    if check.Rejected? then Raised(check.code)
    else if check.names != [] then
      Generated(GenerationResult(NeedsClarification, None, [], ["incomplete spec"],
        Some("Missing required fields: " + Text.Join(", ", Sort(check.names, Text.StrLe)))))
    else if templates == [] then
      Generated(GenerationResult(Inconclusive, None, [], ["no matching templates"], None))
    else Generated(Report(Ranked(Outcomes(spec, templates, w))))
  }

  /** The body of the candidate loop. */
  method Process(
      candidate: GeneratedArtifact, spec: Spec, templates: seq<Template>, w: World)
    returns (processed: GeneratedArtifact)
    modifies candidate
    ensures processed == candidate || fresh(processed)
    ensures processed.View() == Outcome(old(candidate.View()), spec, templates, w)
  {
    hide Evaluate, Repair;
    var result := AssessArtifact(candidate, spec, w);
    processed := candidate;
    if result.status == Failed {
      var repaired := RepairArtifact(candidate, result, spec, templates, w, MAX_REPAIR_ATTEMPTS);
      var again := AssessArtifact(repaired, spec, w);
      processed := repaired;
    }
  }

  /** The candidate loop: in order, each candidate is processed and its final value kept. */
  method ProcessAll(
      candidates: seq<GeneratedArtifact>, spec: Spec, templates: seq<Template>, w: World)
    returns (evaluated: seq<Artifact>)
    requires forall i, j | 0 <= i < j < |candidates| :: candidates[i] != candidates[j]
    modifies candidates
    ensures |evaluated| == |candidates|
    ensures forall i | 0 <= i < |candidates| :: evaluated[i] == Outcome(old(candidates[i].View()), spec, templates, w)
  {
    hide Outcome;
    evaluated := [];
    for k := 0 to |candidates|
      invariant |evaluated| == k
      invariant forall i | 0 <= i < k :: evaluated[i] == Outcome(old(candidates[i].View()), spec, templates, w)
      invariant forall i | k <= i < |candidates| :: candidates[i].View() == old(candidates[i].View())
    {
      var processed := Process(candidates[k], spec, templates, w);
      evaluated := evaluated + [processed.View()];
    }
  }

  /** `GenerationPipeline.generate`; `indexed` is what the template index selects for the query, if it is on. */
  method RunPipeline(
      spec: Spec, builtins: seq<Template>, bundled: seq<Template>, indexed: Option<set<string>>, w: World)
    returns (r: Generation)
    ensures r == Generate(spec, Select(spec, builtins, bundled, indexed), w)
  {
    hide Select, Outcome, Candidate, Text.Join, Collect;
    var check := CheckSpec(spec);
    if check.Rejected? {
      return Raised(check.code);
    }
    if check.names != [] {
      return Generated(GenerationResult(NeedsClarification, None, [], ["incomplete spec"],
        Some("Missing required fields: " + Text.Join(", ", Sort(check.names, Text.StrLe)))));
    }
    var templates := Select(spec, builtins, bundled, indexed);
    if templates == [] {
      return Generated(GenerationResult(Inconclusive, None, [], ["no matching templates"], None));
    }
    var candidates := GenerateCandidates(spec, templates, w);
    var evaluated := ProcessAll(candidates, spec, templates, w);
    assert evaluated == Outcomes(spec, templates, w);
    var ranked := Ranked(evaluated);
    var best := ranked[0];
    var clarification := None;
    if best.status == NeedsClarification {
      var reasons := Text.Join("; ", best.reasons);
      clarification := Some(if reasons == "" then "Spec requires clarification" else reasons);
    }
    return Generated(GenerationResult(best.status, Some(best), ranked, best.reasons, clarification));
  }
}
