/** What a verified result of the generation pipeline means, and exactly when there is one. */
module GenerationLaws {
  import opened Json
  import opened ArtifactEvaluation
  import opened GenerationPipeline
  import opened Sorting
  import T = Templates
  import Text

  // ---- Selection ----

  ghost predicate Considered(
      t: Template, spec: Spec, builtins: seq<Template>, bundled: seq<Template>, indexed: Option<set<string>>)
  {
    && (t in builtins || t in bundled)
    && t.artifactType == spec.artifactType
    && (spec.allowedTemplates == [] || t.id in spec.allowedTemplates)
    && (indexed.None? || indexed.value == {} || t.id in indexed.value)
  }

  lemma {:induction false} KeepIff(templates: seq<Template>, p: Template -> bool, t: Template)
    ensures t in Keep(templates, p) <==> t in templates && p(t)
  {
    if templates != [] {
      KeepIff(templates[1..], p, t);
      assert templates == [templates[0]] + templates[1..];
    }
  }

  lemma {:induction false} KeepSorted(templates: seq<Template>, p: Template -> bool)
    requires SortedBy(templates, TemplateLe)
    ensures SortedBy(Keep(templates, p), TemplateLe)
  {
    hide TemplateLe;
    if templates != [] {
      var rest := Keep(templates[1..], p);
      KeepSorted(templates[1..], p);
      forall j | 0 <= j < |rest| ensures TemplateLe(templates[0], rest[j]) {
        KeepIff(templates[1..], p, rest[j]);
      }
    }
  }

  /** Selection keeps exactly the templates of the right type that are allowed and indexed, in order. */
  lemma {:induction false} SelectIff(
      spec: Spec, builtins: seq<Template>, bundled: seq<Template>, indexed: Option<set<string>>)
    ensures var selected := Select(spec, builtins, bundled, indexed);
      SortedBy(selected, TemplateLe) && forall t :: t in selected <==> Considered(t, spec, builtins, bundled, indexed)
  {
    hide TemplateLe, Keep;
    var ofType, isAllowed :=
      (t: Template) => t.artifactType == spec.artifactType, (t: Template) => t.id in spec.allowedTemplates;
    var pool := builtins + Ordered(bundled);
    var typed := Keep(pool, ofType);
    var allowed := if spec.allowedTemplates == [] then typed else Keep(typed, isAllowed);
    var ordered := Ordered(allowed);
    TemplateLePreorder();
    SortSorted(allowed, TemplateLe);
    SameElements(bundled, Ordered(bundled));
    SameElements(allowed, ordered);
    forall t ensures t in ordered <==> Considered(t, spec, builtins, bundled, None) {
      KeepIff(pool, ofType, t);
      KeepIff(typed, isAllowed, t);
    }
    if indexed.Some? && indexed.value != {} {
      var isIndexed := (t: Template) => t.id in indexed.value;
      KeepSorted(ordered, isIndexed);
      forall t ensures t in Keep(ordered, isIndexed) <==> Considered(t, spec, builtins, bundled, indexed) {
        KeepIff(ordered, isIndexed, t);
      }
    }
  }

  // ---- Acceptance looks at content, fields and template constraints only ----

  ghost predicate Alike(a: Artifact, b: Artifact) {
    && a.artifactType == b.artifactType && a.content == b.content && a.fieldsUsed == b.fieldsUsed
    && TemplateConstraints(a) == TemplateConstraints(b)
  }

  lemma {:induction false} MeetsAlike(a: Artifact, b: Artifact, spec: Spec, w: World)
    requires Alike(a, b)
    ensures Meets(a, spec, w) == Meets(b, spec, w)
  {
    hide TemplateConstraints, Kind, Target, FieldPresent, FilledList, Entry, FieldSupplied, Needle, PlanPart, CodeText,
      Contains, Truthy;
    assert forall c :: Holds(a, c) == Holds(b, c);
  }

  // ---- Defaults ----

  lemma {:induction false} NoDefaults(constraints: seq<Constraint>)
    requires forall c | c in constraints :: !SetsDefault(c)
    ensures Defaults(constraints) == []
  {
    hide SetsDefault;
    if constraints != [] {
      NoDefaults(constraints[..|constraints| - 1]);
    }
  }

  lemma {:induction false} DefaultKind(kind: string)
    requires Text.Lower(kind) == "default_if_missing"
    ensures Text.Lower(Text.Strip(kind)) == "default_if_missing"
  {
    assert Text.LowerChar(kind[0]) == 'd' && Text.LowerChar(kind[|kind| - 1]) == 'g';
    assert Text.Trimmed(kind);
    Text.StripTrimmed(kind);
  }

  /** A constraint that sets a default is one the evaluator never counts as satisfied: whoever asks for
      defaults never gets a verified artifact. */
  lemma {:induction false} DefaultNeverVerified(a: Artifact, c: Constraint, spec: Spec, w: World)
    requires c in spec.constraints && SetsDefault(c)
    ensures Evaluate(a, spec, w).status != Verified
    ensures !Meets(a, spec, w)
  {
    hide WellShaped, Evaluate, TemplateConstraints, FieldPresent, FilledList, Entry, Text.Strip, Text.Lower;
    DefaultKind(c.kind);
    assert Kind(c) == "default_if_missing";
    assert !Holds(a, c);
    assert c in TemplateConstraints(a) + spec.constraints;
    VerifiedIff(a, spec, w);
  }

  // ---- Repair ----

  /** The artifact is the body of `t` rendered on the fields of the specification. */
  ghost predicate RenderingOf(a: Artifact, t: Template, spec: Spec, w: World) {
    && a.templateId == t.id && a.artifactType == spec.artifactType && a.fieldsUsed == spec.requiredFields
    && a.content == Render(t, a.fieldsUsed, w)
    && TemplateConstraints(a) == t.constraints
    && a.provenance != map[]
  }

  ghost predicate RendersOne(a: Artifact, templates: seq<Template>, spec: Spec, w: World) {
    exists t :: t in templates && RenderingOf(a, t, spec, w)
  }

  lemma {:induction false} FirstOtherLaws(templates: seq<Template>, id: string)
    ensures var r := FirstOther(templates, id);
      (r.Some? ==> r.value in templates && r.value.id != id) && (r.None? ==> forall t | t in templates :: t.id == id)
  {
    if templates != [] {
      FirstOtherLaws(templates[1..], id);
      assert templates == [templates[0]] + templates[1..];
    }
  }

  lemma OrderedElements(templates: seq<Template>)
    ensures forall t :: t in Ordered(templates) <==> t in templates
  {
    SameElements(templates, Ordered(templates));
  }

  lemma {:induction false} SwitchRenders(a: Artifact, t: Template, spec: Spec, w: World)
    requires a.artifactType == spec.artifactType && a.fieldsUsed == spec.requiredFields
    ensures RenderingOf(Switch(a, t, w), t, spec, w)
    ensures Switch(a, t, w).status == a.status
  {
    hide Render;
    var b := Switch(a, t, w);
    assert "template_constraints" in b.provenance;
  }

  /** Without defaults a repaired artifact is still some considered template's rendering. */
  lemma {:induction false} RepairRenders(a: Artifact, spec: Spec, templates: seq<Template>, w: World, attempts: nat)
    requires Defaults(spec.constraints) == [] && RendersOne(a, templates, spec, w)
    ensures RendersOne(Repair(a, spec, templates, w, attempts), templates, spec, w)
    ensures Repair(a, spec, templates, w, attempts).status == a.status
    decreases attempts
  {
    hide Ordered, Defaults, RenderingOf, FirstOther, Switch;
    if attempts > 0 {
      var next := RepairStep(a, spec, templates, w);
      if next.Some? {
        var other := FirstOther(Ordered(templates), a.templateId);
        FirstOtherLaws(Ordered(templates), a.templateId);
        OrderedElements(templates);
        RenderedFields(a, templates, spec, w);
        SwitchRenders(a, other.value, spec, w);
        RepairRenders(next.value, spec, templates, w, attempts - 1);
      }
    }
  }

  lemma RenderedFields(a: Artifact, templates: seq<Template>, spec: Spec, w: World)
    requires RendersOne(a, templates, spec, w)
    ensures a.artifactType == spec.artifactType && a.fieldsUsed == spec.requiredFields && a.provenance != map[]
  {
  }

  // ---- The winner ----

  lemma {:induction false} RenderedLaws(t: Template, spec: Spec, w: World)
    ensures RenderingOf(Rendered(t, spec, w), t, spec, w)
    ensures Rendered(t, spec, w).status == Inconclusive
  {
    hide Render;
    var a := Rendered(t, spec, w);
    assert "template_constraints" in a.provenance;
  }

  lemma {:induction false} AssessLaws(a: Artifact, spec: Spec, w: World)
    ensures Alike(Assess(a, spec, w), a)
    ensures forall t :: RenderingOf(a, t, spec, w) ==> RenderingOf(Assess(a, spec, w), t, spec, w)
    ensures Assess(a, spec, w).status == Verified <==>
      a.status != NeedsClarification && a.provenance != map[] && Meets(a, spec, w)
    ensures Assess(a, spec, w).status == Verified ==>
      Assess(a, spec, w).violations == [] && Meets(Assess(a, spec, w), spec, w)
    ensures Assess(a, spec, w).status == NeedsClarification <==> a.status == NeedsClarification
  {
    hide Meets, Render, Gaps, TypeViolations, SatisfiedNotes, TestsRequested;
    VerifiedIff(a, spec, w);
    MeetsAlike(Assess(a, spec, w), a, spec, w);
  }

  lemma {:induction false} OutcomeLaws(t: Template, spec: Spec, templates: seq<Template>, w: World)
    requires t in templates
    ensures var r := Outcome(Candidate(t, spec, w), spec, templates, w);
      r.status == Verified ==> r.violations == [] && Meets(r, spec, w) && RendersOne(r, templates, spec, w)
  {
    hide Assess, Meets, Repair, MissingFields, RenderingOf, Rendered;
    var a := Candidate(t, spec, w);
    var assessed := Assess(a, spec, w);
    AssessLaws(a, spec, w);
    if Ready(t, spec) {
      RenderedLaws(t, spec, w);
      assert RendersOne(assessed, templates, spec, w);
      if assessed.status == Failed {
        var repaired := Repair(assessed, spec, templates, w, MAX_REPAIR_ATTEMPTS);
        AssessLaws(repaired, spec, w);
        if c :| c in spec.constraints && SetsDefault(c) {
          DefaultNeverVerified(repaired, c, spec, w);
        } else {
          NoDefaults(spec.constraints);
          RepairRenders(assessed, spec, templates, w, MAX_REPAIR_ATTEMPTS);
          var u :| u in templates && RenderingOf(repaired, u, spec, w);
          assert RenderingOf(Assess(repaired, spec, w), u, spec, w);
        }
      }
    }
  }

  predicate Complete(spec: Spec) {
    CheckSpec(spec) == MissingValues([])
  }

  /** The reported artifact comes first in the ranking: it is one of the outcomes, none of them ranks
      strictly before it, and it is verified as soon as any of them is. */
  lemma {:induction false} BestOfOutcomes(spec: Spec, templates: seq<Template>, w: World)
    requires Complete(spec) && templates != []
    ensures Generate(spec, templates, w).Generated?
    ensures var r, outcomes := Generate(spec, templates, w).result, Outcomes(spec, templates, w);
      && r.best.Some? && r.best.value in outcomes && r.status == r.best.value.status
      && multiset(r.candidates) == multiset(outcomes) && SortedBy(r.candidates, RankLe)
      && (forall a | a in outcomes :: RankLe(r.best.value, a))
      && (r.status == Verified <==> exists k :: 0 <= k < |outcomes| && outcomes[k].status == Verified)
  {
    hide Outcome, Candidate, CheckSpec, Text.Join, RankLe;
    var outcomes := Outcomes(spec, templates, w);
    var ranked := Ranked(outcomes);
    RankLePreorder();
    SortSorted(outcomes, RankLe);
    SameElements(outcomes, ranked);
    assert |outcomes| == |Ordered(templates)| == |templates|;
    var best := ranked[0];
    assert best in ranked;
    forall a | a in outcomes ensures RankLe(best, a) && (a.status == Verified ==> best.status == Verified) {
      HeadIsLeast(ranked, a, RankLe);
      assert RankLe(a, a);
      RankVerified(best, a);
    }
  }

  lemma RankVerified(best: Artifact, a: Artifact)
    requires RankLe(best, a)
    ensures a.status == Verified ==> best.status == Verified
  {
  }

  /** A verified result is never a half-filled or stale artifact: no violations, the whole specification
      met, and the content is the body of a considered template, rendered on the fields of the specification. */
  lemma {:induction false} WinnerLaws(spec: Spec, templates: seq<Template>, w: World)
    ensures var g := Generate(spec, templates, w);
      g.Generated? && g.result.status == Verified ==>
        var best := g.result.best;
        && best.Some? && best.value.status == Verified && best.value.violations == []
        && Meets(best.value, spec, w) && RendersOne(best.value, templates, spec, w)
  {
    hide Outcome, Candidate, Meets, RendersOne, RankLe;
    var g := Generate(spec, templates, w);
    if g.Generated? && g.result.status == Verified {
      assert Complete(spec) && templates != [];
      BestOfOutcomes(spec, templates, w);
      var outcomes := Outcomes(spec, templates, w);
      var k :| 0 <= k < |outcomes| && outcomes[k] == g.result.best.value;
      OrderedElements(templates);
      assert Ordered(templates)[k] in Ordered(templates);
      OutcomeLaws(Ordered(templates)[k], spec, templates, w);
    }
  }

  // ---- Exactly when there is a verified result ----

  ghost predicate DistinctIds(templates: seq<Template>) {
    forall i, j | 0 <= i < j < |templates| :: templates[i].id != templates[j].id
  }

  /** The rendering of the template on the fields of the specification is acceptable. */
  ghost predicate Good(t: Template, spec: Spec, w: World) {
    Meets(Rendered(t, spec, w), spec, w)
  }

  predicate Fails(t: Template, spec: Spec, w: World) {
    Evaluate(Rendered(t, spec, w), spec, w).status == Failed
  }

  /** Where two attempts end that start at this id, if there is another to go to. */
  function Landing(templates: seq<Template>, id: string): Option<Template> {
    var other := FirstOther(templates, id);
    if other.None? then None else FirstOther(templates, other.value.id)
  }

  /** Candidate `k` ends verified: it is ready, and its own rendering is acceptable, or it fails and the
      rendering of the template where its repair ends is acceptable. */
  ghost predicate Wins(templates: seq<Template>, spec: Spec, w: World, k: nat)
    requires k < |templates|
  {
    var landing := Landing(templates, templates[k].id);
    Ready(templates[k], spec) &&
    (Good(templates[k], spec, w) || (Fails(templates[k], spec, w) && landing.Some? && Good(landing.value, spec, w)))
  }

  /** Repair ends at the first template when it starts at its id, and otherwise at the first template
      with another id than that, however many templates there are. */
  lemma {:induction false} LandingIs(templates: seq<Template>, k: nat)
    requires k < |templates|
    ensures var second := FirstOther(templates, templates[0].id);
      Landing(templates, templates[k].id) ==
      if second.None? then None else if templates[k].id == templates[0].id then Some(templates[0]) else second
  {
    FirstOtherLaws(templates, templates[0].id);
    assert templates[k] in templates;
  }

  lemma {:induction false} SecondOf(templates: seq<Template>)
    requires DistinctIds(templates) && templates != []
    ensures FirstOther(templates, templates[0].id) == if |templates| > 1 then Some(templates[1]) else None
  {
    if |templates| > 1 {
      assert templates[1..][0] == templates[1];
    }
  }

  lemma {:induction false} SwitchTwice(a: Artifact, t: Template, u: Template, w: World)
    ensures Switch(Switch(a, t, w), u, w) == Switch(a, u, w)
  {
    hide Render;
    var p := a.provenance;
    assert p["template_id" := Text(t.id)]["template_constraints" := Constraints(t.constraints)]
            ["template_id" := Text(u.id)]["template_constraints" := Constraints(u.constraints)]
        == p["template_id" := Text(u.id)]["template_constraints" := Constraints(u.constraints)];
  }

  /** Without defaults, two attempts end with one switch to the landing template. */
  lemma {:induction false} RepairLands(a: Artifact, spec: Spec, templates: seq<Template>, w: World)
    requires Defaults(spec.constraints) == [] && SortedBy(templates, TemplateLe)
    requires exists t :: t in templates && t.id == a.templateId
    ensures var landing := Landing(templates, a.templateId);
      Repair(a, spec, templates, w, 2) == if landing.Some? then Switch(a, landing.value, w) else a
  {
    hide Defaults, TemplateLe, Render, FirstOther;
    SortFixed(templates, TemplateLe);
    var other := FirstOther(templates, a.templateId);
    FirstOtherLaws(templates, a.templateId);
    if other.Some? {
      FirstOtherLaws(templates, other.value.id);
      var last := FirstOther(templates, other.value.id).value;
      var b := Switch(a, other.value, w);
      assert RepairStep(a, spec, templates, w) == Some(b);
      assert RepairStep(b, spec, templates, w) == Some(Switch(b, last, w));
      assert Repair(b, spec, templates, w, 1) == Switch(b, last, w);
      SwitchTwice(a, other.value, last, w);
    } else {
      assert RepairStep(a, spec, templates, w) == None;
    }
  }

  lemma {:induction false} SwitchIsRendered(a: Artifact, t: Template, spec: Spec, w: World)
    requires a.artifactType == spec.artifactType && a.fieldsUsed == spec.requiredFields
    ensures Meets(Switch(a, t, w), spec, w) == Good(t, spec, w)
    ensures Switch(a, t, w).provenance != map[]
  {
    hide Meets, Render;
    SwitchRenders(a, t, spec, w);
    RenderedLaws(t, spec, w);
    MeetsAlike(Switch(a, t, w), Rendered(t, spec, w), spec, w);
  }

  lemma {:induction false} OutcomeVerifiedIff(spec: Spec, templates: seq<Template>, w: World, k: nat)
    requires SortedBy(templates, TemplateLe) && k < |templates|
    ensures Outcome(Candidate(templates[k], spec, w), spec, templates, w).status == Verified <==>
      Wins(templates, spec, w, k)
  {
    hide Evaluate, Meets, Repair, MissingFields, RenderingOf, Rendered, TemplateLe, Alike, Landing;
    var t := templates[k];
    var a := Candidate(t, spec, w);
    var assessed := Assess(a, spec, w);
    AssessLaws(a, spec, w);
    RenderedLaws(t, spec, w);
    RenderedShape(t, spec, w);
    if Ready(t, spec) && assessed.status == Failed {
      var landing := Landing(templates, t.id);
      var repaired := Repair(assessed, spec, templates, w, MAX_REPAIR_ATTEMPTS);
      AssessLaws(repaired, spec, w);
      if c :| c in spec.constraints && SetsDefault(c) {
        DefaultNeverVerified(repaired, c, spec, w);
        if landing.Some? { DefaultNeverVerified(Rendered(landing.value, spec, w), c, spec, w); }
      } else {
        NoDefaults(spec.constraints);
        assert t in templates;
        RepairLands(assessed, spec, templates, w);
        if landing.Some? { SwitchIsRendered(assessed, landing.value, spec, w); }
        VerifiedIff(a, spec, w);
        MeetsAssessed(a, spec, w);
      }
    }
  }

  lemma RenderedShape(t: Template, spec: Spec, w: World)
    ensures var a := Rendered(t, spec, w);
      a.templateId == t.id && a.artifactType == spec.artifactType && a.fieldsUsed == spec.requiredFields &&
        a.provenance != map[]
  {
    hide Render;
    assert "source" in Rendered(t, spec, w).provenance;
  }

  lemma MeetsAssessed(a: Artifact, spec: Spec, w: World)
    ensures Meets(Assess(a, spec, w), spec, w) == Meets(a, spec, w)
  {
    hide Meets, Evaluate;
    MeetsAlike(Assess(a, spec, w), a, spec, w);
  }

  /** Exactly when the pipeline verifies, on the selected templates. */
  lemma {:induction false} PipelineVerifiedIff(spec: Spec, templates: seq<Template>, w: World)
    requires Complete(spec) && templates != [] && SortedBy(templates, TemplateLe)
    ensures var g := Generate(spec, templates, w);
      g.Generated? && (g.result.status == Verified <==> exists k :: 0 <= k < |templates| && Wins(templates, spec, w, k))
  {
    hide Outcome, Candidate, Wins, RankLe, TemplateLe, Generate, CheckSpec;
    BestOfOutcomes(spec, templates, w);
    SortFixed(templates, TemplateLe);
    var outcomes := Outcomes(spec, templates, w);
    forall k | 0 <= k < |templates|
      ensures outcomes[k].status == Verified <==> Wins(templates, spec, w, k)
    {
      OutcomeVerifiedIff(spec, templates, w, k);
    }
  }

  // ---- Repair can verify a template whose fields are missing ----

  /** The artifact names a considered template that the specification lacks fields for. */
  ghost predicate FromUnready(a: Artifact, templates: seq<Template>, spec: Spec) {
    exists t :: t in templates && t.id == a.templateId && !Ready(t, spec)
  }

  /** Candidate `k` ends verified under a template that was put down for clarification exactly when it
      comes after the second template, fails, and the second is not ready but renders acceptably. */
  lemma {:induction false} UnreadyWinsIff(spec: Spec, templates: seq<Template>, w: World, k: nat)
    requires SortedBy(templates, TemplateLe) && DistinctIds(templates) && k < |templates|
    ensures var r := Outcome(Candidate(templates[k], spec, w), spec, templates, w);
      r.status == Verified && FromUnready(r, templates, spec) <==>
        k > 1 && Ready(templates[k], spec) && Fails(templates[k], spec, w)
        && Good(templates[1], spec, w) && !Ready(templates[1], spec)
  {
    hide Ready, Good, Fails, Outcome, TemplateLe, FirstOther, Landing;
    OutcomeVerifiedIff(spec, templates, w, k);
    LandingIs(templates, k);
    SecondOf(templates);
    GoodDoesNotFail(templates[k], spec, w);
    if Ready(templates[k], spec) {
      OutcomeTemplate(spec, templates, w, k);
      forall i | 0 <= i < |templates| ensures templates[i] in templates {
      }
    }
  }

  lemma GoodDoesNotFail(t: Template, spec: Spec, w: World)
    ensures Good(t, spec, w) ==> !Fails(t, spec, w)
  {
    hide Meets, Evaluate, Rendered;
    RenderedLaws(t, spec, w);
    VerifiedIff(Rendered(t, spec, w), spec, w);
  }

  /** The template a ready candidate's verified outcome names. */
  lemma {:induction false} OutcomeTemplate(spec: Spec, templates: seq<Template>, w: World, k: nat)
    requires SortedBy(templates, TemplateLe) && k < |templates| && Ready(templates[k], spec)
    ensures var r, landing :=
      Outcome(Candidate(templates[k], spec, w), spec, templates, w), Landing(templates, templates[k].id);
      r.status == Verified ==>
      r.templateId == if Fails(templates[k], spec, w) && landing.Some? then landing.value.id else templates[k].id
  {
    hide Evaluate, Meets, Repair, MissingFields, RenderingOf, TemplateLe, Alike, Landing, Render;
    var t := templates[k];
    var assessed := Assess(Candidate(t, spec, w), spec, w);
    if assessed.status == Failed {
      var repaired := Repair(assessed, spec, templates, w, MAX_REPAIR_ATTEMPTS);
      AssessLaws(repaired, spec, w);
      if c :| c in spec.constraints && SetsDefault(c) {
        DefaultNeverVerified(repaired, c, spec, w);
      } else {
        NoDefaults(spec.constraints);
        assert t in templates;
        RepairLands(assessed, spec, templates, w);
      }
    }
  }

  function OpenFields(): Fields {
    [("a", Str("x"))]
  }

  function OpenBody(): Json {
    Dict(["a"], [Str("{b}")])
  }

  function OpenSpec(): Spec {
    Spec("s", "config", "g", OpenFields(), [], ["x"], ["1", "2", "3"], "strict")
  }

  /** The second template needs a field `b` that the specification does not have. */
  function OpenTemplates(): seq<Template> {
    [Template("1", "config", [], Dict([], []), [], 1),
     Template("2", "config", ["b"], OpenBody(), [], 2),
     Template("3", "config", [], Dict([], []), [], 3)]
  }

  /** Memory does not contradict the fields, and the text of the second body and the fields holds an `x`. */
  ghost predicate OpenWorld(w: World) {
    Contains(Text.Lower(w.whole(OpenBody(), OpenFields())), "x") && w.contradiction(OpenFields()) == None
  }

  /** Python's text of that body and those fields is such a text. */
  lemma OpenText()
    ensures Contains(Text.Lower("{'a': '{b}'} {'a': 'x'}"), "x")
  {
    hide Text.Lower, Contains;
    var text := "{'a': '{b}'} {'a': 'x'}";
    Text.LowerFixed(text);
    assert text[20] == 'x';
    ContainsAt(text, 20);
  }

  lemma {:induction false} ContainsAt(s: string, i: nat)
    requires i < |s|
    ensures Contains(s, [s[i]])
  {
    if i > 0 {
      ContainsAt(s[1..], i - 1);
    }
  }

  lemma OpenTemplatesSorted()
    ensures SortedBy(OpenTemplates(), TemplateLe) && DistinctIds(OpenTemplates())
  {
  }

  lemma OpenRender()
    ensures T.RenderBody(OpenBody(), [T.Field("a", T.Scalar("x"))]) == OpenBody()
    ensures T.RenderBody(Dict([], []), [T.Field("a", T.Scalar("x"))]) == Dict([], [])
  {
    var fields := [T.Field("a", T.Scalar("x"))];
    assert T.Pattern("a") == "{a}";
    assert T.Replace("b}", "{a}", "x") == "b}";
    assert "{b}"[1] != "{a}"[1] && "{b}"[1..] == "b}";
    assert T.Replace("{b}", "{a}", "x") == "{" + T.Replace("b}", "{a}", "x");
    assert fields[1..] == [];
    assert T.RenderChain("{b}", fields) == "{b}";
    assert [Str("{b}")][1..] == [];
  }

  lemma {:induction false} OneChar(s: string)
    requires |s| == 1 && 'a' <= s[0] <= 'z'
    ensures Text.Strip(s) == s && Text.Lower(s) == s
  {
    hide Text.Strip, Text.Lower;
    Text.StripTrimmed(s);
    Text.LowerFixed(s);
  }

  lemma {:induction false} OpenNeedle()
    ensures Needle("x") == "x" && Text.Strip("g") == "g" && Text.Strip("x") == "x"
  {
    hide Text.Strip, Text.Lower;
    OneChar("g");
    OneChar("x");
  }

  lemma {:induction false} OpenComplete()
    ensures Complete(OpenSpec())
  {
    hide Text.Strip;
    OpenNeedle();
    assert BlankField()(("a", Str("x"))) == [];
    CollectEmptyIff(OpenSpec().requiredFields, BlankField());
  }

  lemma {:induction false} OpenContent(w: World)
    ensures Render(OpenTemplates()[1], OpenFields(), w) == OpenBody()
    ensures Render(OpenTemplates()[2], OpenFields(), w) == Dict([], [])
    ensures Render(OpenTemplates()[0], OpenFields(), w) == Dict([], [])
  {
    hide T.RenderBody;
    OpenRender();
    assert OpenFields()[1..] == [];
    assert FieldValues(OpenFields(), w) == [T.Field("a", T.Scalar("x"))];
  }

  lemma {:induction false} OpenGood(w: World)
    requires OpenWorld(w)
    ensures Good(OpenTemplates()[1], OpenSpec(), w)
  {
    hide Text.Strip, Text.Lower, Render, Needle, Contains;
    OpenContent(w);
    OpenNeedle();
    var a := Rendered(OpenTemplates()[1], OpenSpec(), w);
    assert "template_constraints" in a.provenance;
    assert TemplateConstraints(a) == [];
    assert Haystack(a, w) == Text.Lower(w.whole(OpenBody(), OpenFields()));
    assert Find(["a"], [Str("{b}")], "a") == Some(Str("{b}"));
    assert Entry(a.content, "a").Some?;
    assert Get(a.fieldsUsed, "a") == Some(Str("x"));
  }

  lemma {:induction false} OpenFails(w: World)
    requires OpenWorld(w)
    ensures Fails(OpenTemplates()[2], OpenSpec(), w)
  {
    hide Render, Gaps, SatisfiedNotes, Rendered;
    OpenContent(w);
    var t := OpenTemplates()[2];
    var a := Rendered(t, OpenSpec(), w);
    RenderedLaws(t, OpenSpec(), w);
    assert Entry(a.content, "a").None?;
    assert KeyGaps(a.content)(("a", Str("x"))) == [MissingKey("a")];
    CollectEmptyIff(OpenSpec().requiredFields, KeyGaps(a.content));
    assert ("a", Str("x")) in OpenSpec().requiredFields;
    assert TypeViolations(a, OpenSpec(), w) != [];
  }

  /** A concrete case: whatever else the world is like, the template that was put down for clarification
      is verified through the third candidate's repair, with its placeholder left open in the content. */
  lemma {:induction false} UnreadyTemplateCanWin(w: World)
    requires OpenWorld(w)
    ensures Complete(OpenSpec()) && !Ready(OpenTemplates()[1], OpenSpec())
    ensures var g := Generate(OpenSpec(), OpenTemplates(), w);
      g.Generated? && g.result.status == Verified && g.result.best.Some? && g.result.best.value.content == OpenBody()
  {
    hide Generate, Wins, Render, CheckSpec, RankLe, TemplateLe, OpenWorld;
    OpenComplete();
    OpenTemplatesSorted();
    OpenReady();
    ThirdIsRepaired(w);
    PipelineVerifiedIff(OpenSpec(), OpenTemplates(), w);
    WinnerLaws(OpenSpec(), OpenTemplates(), w);
    OpenWinner(w);
  }

  /** The third template's candidate is the witness: ready, failing, and repaired into the second. */
  lemma {:induction false} ThirdIsRepaired(w: World)
    requires OpenWorld(w)
    ensures Wins(OpenTemplates(), OpenSpec(), w, 2)
  {
    hide Good, Fails, Ready, OpenWorld, Landing, FirstOther, TemplateLe;
    OpenReady();
    OpenFails(w);
    OpenGood(w);
    OpenTemplatesSorted();
    LandingIs(OpenTemplates(), 2);
    SecondOf(OpenTemplates());
  }

  lemma {:induction false} OpenReady()
    ensures !Ready(OpenTemplates()[1], OpenSpec()) && Ready(OpenTemplates()[2], OpenSpec())
  {
    hide TemplateLe;
    var missing := AbsentIn(OpenSpec());
    assert Get(OpenSpec().requiredFields, "b") == None;
    assert missing("b") == ["b"];
    CollectEmptyIff(["b"], missing);
    assert "b" in ["b"];
  }

  lemma {:induction false} OpenWinner(w: World)
    ensures var g := Generate(OpenSpec(), OpenTemplates(), w);
      g.Generated? && g.result.status == Verified ==> g.result.best.value.content == OpenBody()
  {
    hide Generate, Render, TemplateLe, RankLe, TemplateConstraints, Holds, FieldSupplied, Contains, Needle, Haystack,
      TestsRequested;
    var g := Generate(OpenSpec(), OpenTemplates(), w);
    WinnerLaws(OpenSpec(), OpenTemplates(), w);
    if g.Generated? && g.result.status == Verified {
      var best := g.result.best.value;
      var t :| t in OpenTemplates() && RenderingOf(best, t, OpenSpec(), w);
      OpenContent(w);
      assert ("a", Str("x")) in OpenSpec().requiredFields;
      assert Entry(best.content, "a").Some?;
      assert Find([], [], "a") == None;
    }
  }
}
