/** The checks `DSLValidator.validate` makes on a generation template (src/vcse/dsl/validator.py),
    and what a template that passes them is good for. */
module DslValidator {
  import opened Json
  import opened Placeholders
  import opened Templates
  import Text

  const VALID_GENERATION_ARTIFACT_TYPES := {"plan", "policy", "structured_document", "config", "simple_code"}

  /** The payload of a generation template; `others` holds the values under any further keys. */
  datatype GenerationPayload = GenerationPayload(
    artifactType: string,
    requiredFields: seq<string>,
    optionalFields: seq<string>,
    body: Json,
    constraints: Json,
    others: seq<Json>)

  function Strings(xs: seq<string>): seq<Json> {
    seq(|xs|, i requires 0 <= i < |xs| => Str(xs[i]))
  }

  /** The values the placeholder check walks over. */
  function PayloadValues(p: GenerationPayload): seq<Json> {
    [Str(p.artifactType), List(Strings(p.requiredFields)), List(Strings(p.optionalFields)), p.body, p.constraints]
    + p.others
  }

  function RawNames(p: GenerationPayload): set<string> {
    set f | f in p.requiredFields + p.optionalFields
  }

  /** The names a placeholder may have: field names with surrounding whitespace removed. */
  function AllowedNames(p: GenerationPayload): set<string> {
    set f | f in p.requiredFields + p.optionalFields && Text.Strip(f) != "" :: Text.Strip(f)
  }

  predicate NoBlank(xs: seq<string>) {
    forall i | 0 <= i < |xs| :: Text.Strip(xs[i]) != ""
  }

  predicate KnownType(artifactType: string) {
    Text.Lower(Text.Strip(artifactType)) in VALID_GENERATION_ARTIFACT_TYPES
  }

  /** The error list after the shape checks, in the order they are made. */
  function ShapeReport(errors: seq<DslError>, p: GenerationPayload, id: string): seq<DslError> {
    var e1 := Report(errors, KnownType(p.artifactType), InvalidArtifactType(id));
    var e2 := Report(e1, NoBlank(p.requiredFields), InvalidRequiredFields(id));
    var e3 := Report(e2, NoBlank(p.optionalFields), InvalidOptionalFields(id));
    var e4 := Report(e3, p.body.Dict?, InvalidBody(id));
    Report(e4, p.constraints.List?, InvalidConstraints(id))
  }

  /** The error list after all checks on one generation template. */
  function GenerationReport(errors: seq<DslError>, p: GenerationPayload, id: string): seq<DslError> {
    Report(ShapeReport(errors + AllErrors(PayloadValues(p), id), p, id),
           CollectPlaceholders(p.body) <= AllowedNames(p), InvalidPlaceholders(id))
  }

  method ValidateGenerationTemplate(p: GenerationPayload, errors: ErrorLog, id: string)
    modifies errors
    ensures errors.items == GenerationReport(old(errors.items), p, id)
  {
    ValidateEach(PayloadValues(p), errors, id);
    errors.Require(KnownType(p.artifactType), InvalidArtifactType(id));
    errors.Require(NoBlank(p.requiredFields), InvalidRequiredFields(id));
    errors.Require(NoBlank(p.optionalFields), InvalidOptionalFields(id));
    errors.Require(p.body.Dict?, InvalidBody(id));
    errors.Require(p.constraints.List?, InvalidConstraints(id));
    errors.Require(CollectPlaceholders(p.body) <= AllowedNames(p), InvalidPlaceholders(id));
  }

  predicate Accepted(p: GenerationPayload, id: string) {
    GenerationReport([], p, id) == []
  }

  /** Some field name, with the whitespace around it stripped, is this name. */
  predicate NamesField(p: GenerationPayload, name: string) {
    exists f :: f in p.requiredFields + p.optionalFields && Text.Strip(f) == name
  }

  /** Each check counts: a template is accepted exactly when every one of them passes. */
  lemma {:induction false} AcceptedIff(p: GenerationPayload, id: string)
    ensures Accepted(p, id) <==>
      && AllErrors(PayloadValues(p), id) == []
      && Text.Lower(Text.Strip(p.artifactType)) in {"plan", "policy", "structured_document", "config", "simple_code"}
      && (forall f | f in p.requiredFields + p.optionalFields :: !Text.Blank(f))
      && p.body.Dict? && p.constraints.List?
      && forall name | name in CollectPlaceholders(p.body) :: NamesField(p, name)
  {
    hide AllErrors, CollectPlaceholders, Text.Strip, Text.Blank, Text.Lower;
    CheckedIff(p, id);
    var names := p.requiredFields + p.optionalFields;
    forall f ensures Text.Strip(f) == "" <==> Text.Blank(f) { Text.StripEmpty(f); }
    assert NoBlank(p.requiredFields) && NoBlank(p.optionalFields) <==> forall f | f in names :: !Text.Blank(f) by {
      assert forall i | 0 <= i < |p.requiredFields| :: p.requiredFields[i] in names;
      assert forall i | 0 <= i < |p.optionalFields| :: p.optionalFields[i] in names;
    }
    if NoBlank(p.requiredFields) && NoBlank(p.optionalFields) {
      assert forall name :: name in AllowedNames(p) <==> NamesField(p, name);
    }
  }

  lemma {:induction false} CheckedIff(p: GenerationPayload, id: string)
    ensures Accepted(p, id) <==>
      && AllErrors(PayloadValues(p), id) == []
      && KnownType(p.artifactType) && NoBlank(p.requiredFields) && NoBlank(p.optionalFields)
      && p.body.Dict? && p.constraints.List?
      && CollectPlaceholders(p.body) <= AllowedNames(p)
  {
    hide AllErrors, KnownType, NoBlank, AllowedNames, CollectPlaceholders;
  }

  lemma {:induction false} AcceptedBody(p: GenerationPayload, id: string)
    requires Accepted(p, id)
    ensures PayloadErrors(p.body, id) == []
    ensures CollectPlaceholders(p.body) <= AllowedNames(p)
  {
    hide Accepted, AllErrors, AllowedNames, CollectPlaceholders, PayloadErrors;
    CheckedIff(p, id);
    NoErrorAt(PayloadValues(p), id, 3);
  }

  lemma {:induction false} NoErrorAt(items: seq<Json>, id: string, k: nat)
    requires k < |items| && AllErrors(items, id) == []
    ensures PayloadErrors(items[k], id) == []
  {
    if k > 0 {
      NoErrorAt(items[1..], id, k - 1);
    }
  }

  /** An accepted template, given a `{`-free text for at least each field it names, renders completely
      exactly when every placeholder is one of the given fields; unpadded field names are enough. */
  lemma {:induction false} AcceptedTemplateRenders(p: GenerationPayload, fields: seq<Field>, id: string)
    requires Accepted(p, id)
    requires DistinctKeys(fields) && KeysClosed(fields) && TextsOpenFree(fields)
    requires RawNames(p) <= FieldKeys(fields)
    ensures RenderBody(p.body, fields) == SubstituteBody(p.body, EnvOf(fields))
    ensures BodyOpenFree(RenderBody(p.body, fields)) <==> CollectPlaceholders(p.body) <= FieldKeys(fields)
    ensures (forall f | f in RawNames(p) :: Text.Strip(f) == f) ==> BodyOpenFree(RenderBody(p.body, fields))
  {
    hide Accepted, PayloadErrors, CollectPlaceholders, RenderBody, SubstituteBody, BodyOpenFree;
    AcceptedBody(p, id);
    RenderBodyIsSubstitution(p.body, fields, id);
  }

  lemma {:induction false} BraceFreeAccepted(s: string, id: string)
    requires forall i | 0 <= i < |s| :: !IsBrace(s[i])
    ensures TextErrors(s, id) == []
  {
    var segs := Literals(s);
    UnparseLiterals(s);
    assert ValidSegments(segs) && Unparse(segs) == s;
    AcceptsExactlyTemplateTexts(s, id);
  }

  /** A field name padded with whitespace passes the check, and its placeholder is never filled. */
  lemma {:induction false} PaddedFieldNameStaysOpen(id: string, text: string)
    requires OpenFree(text)
    ensures Accepted(PaddedTemplate(), id)
    ensures !BodyOpenFree(RenderBody(PaddedTemplate().body, [Field(" role ", Scalar(text))]))
  {
    hide *;
    PaddedAccepted(id);
    AcceptedBody(PaddedTemplate(), id);
    PaddedFields(text);
    RenderBodyIsSubstitution(PaddedTemplate().body, [Field(" role ", Scalar(text))], id);
    PaddedHole();
  }

  lemma {:induction false} PaddedFields(text: string)
    requires OpenFree(text)
    ensures var fields := [Field(" role ", Scalar(text))];
      DistinctKeys(fields) && KeysClosed(fields) && TextsOpenFree(fields) && "role" !in FieldKeys(fields)
  {
    assert " role "[0] != "role"[0];
  }

  function PaddedTemplate(): GenerationPayload {
    GenerationPayload("policy", [" role "], [], Dict(["title"], [Str("{role}")]), List([]), [])
  }

  lemma {:induction false} PaddedHole()
    ensures CollectPlaceholders(PaddedTemplate().body) == {"role"}
    ensures IsTemplateText("{role}")
  {
    var segs := [Hole("role")];
    OneHole("role", map[]);
    assert ValidSegments(segs);
    assert "{role}"[0..] == "{role}";
    SegmentsOfUnparse("{role}", 0, segs);
    CollectsExactlyTheHoles("{role}");
    HoleNamesCons(Hole("role"), []);
    assert [Hole("role")] + [] == segs && HoleNames([]) == {};
    var values := [Str("{role}")];
    assert values[1..] == [] && CollectAll([]) == {};
  }

  lemma {:induction false} PaddedAccepted(id: string)
    ensures Accepted(PaddedTemplate(), id)
  {
    var p := PaddedTemplate();
    hide Text.Strip, Text.Lower, CollectPlaceholders, TextErrors, IsTemplateText, Accepted;
    CheckedIff(p, id);
    BraceFreeAccepted("policy", id);
    BraceFreeAccepted(" role ", id);
    PaddedHole();
    AcceptsExactlyTemplateTexts("{role}", id);
    var values := [Str("{role}")];
    assert values[1..] == [] && AllErrors([], id) == [];
    assert PayloadErrors(p.body, id) == [];
    AllClean(p, id);
    StripExamples();
    assert " role " in p.requiredFields + p.optionalFields;
    assert "role" in AllowedNames(p);
  }

  lemma {:induction false} StripExamples()
    ensures Text.Strip(" role ") == "role"
    ensures Text.Lower(Text.Strip("policy")) == "policy"
  {
    hide *;
    Text.StripAround(" ", "role", " ") by { TrimmedExamples(); }
    Text.StripTrimmed("policy") by { TrimmedExamples(); }
    TrimmedExamples();
  }

  lemma {:induction false} TrimmedExamples()
    ensures Text.Trimmed("role") && Text.Trimmed("policy")
    ensures Text.Blank(" ") && " " + "role" + " " == " role "
    ensures Text.Lower("policy") == "policy"
  {
  }

  lemma {:induction false} AllClean(p: GenerationPayload, id: string)
    requires |p.requiredFields| == 1 && p.optionalFields == [] && p.constraints == List([]) && p.others == []
    requires TextErrors(p.artifactType, id) == [] && TextErrors(p.requiredFields[0], id) == []
    requires PayloadErrors(p.body, id) == []
    ensures AllErrors(PayloadValues(p), id) == []
  {
    hide TextErrors;
    assert AllErrors([], id) == [];
    var required, optional := List(Strings(p.requiredFields)), List(Strings(p.optionalFields));
    assert PayloadErrors(required, id) == [] by {
      CleanCons(Str(p.requiredFields[0]), [], id);
      assert Strings(p.requiredFields) == [Str(p.requiredFields[0])] + [];
    }
    CleanCons(p.constraints, [], id);
    CleanCons(p.body, [p.constraints], id);
    CleanCons(optional, [p.body, p.constraints], id);
    CleanCons(required, [optional, p.body, p.constraints], id);
    CleanCons(Str(p.artifactType), [required, optional, p.body, p.constraints], id);
    assert PayloadValues(p) == [Str(p.artifactType)] + [required, optional, p.body, p.constraints];
    assert [required] + [optional, p.body, p.constraints] == [required, optional, p.body, p.constraints];
    assert [optional] + [p.body, p.constraints] == [optional, p.body, p.constraints];
  }

  lemma {:induction false} CleanCons(first: Json, rest: seq<Json>, id: string)
    requires PayloadErrors(first, id) == [] && AllErrors(rest, id) == []
    ensures AllErrors([first] + rest, id) == []
  {
  }
}
