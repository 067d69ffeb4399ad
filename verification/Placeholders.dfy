/** The placeholder check of the DSL validator (src/vcse/dsl/validator.py): the regular
    expression `{name}`, the brace checks built on it, and the grammar they amount to. */
module Placeholders {
  import opened Json

  predicate IsNameStart(c: char) {
    'a' <= c <= 'z' || 'A' <= c <= 'Z' || c == '_'
  }

  predicate IsNameChar(c: char) {
    IsNameStart(c) || '0' <= c <= '9'
  }

  predicate IsName(s: string) {
    s != [] && IsNameStart(s[0]) && forall i | 0 <= i < |s| :: IsNameChar(s[i])
  }

  predicate IsBrace(c: char) {
    c == '{' || c == '}'
  }

  // ---- The regular expression, as an explicit left-to-right scan ----

  /** The span of one match, braces included. */
  datatype Match = Match(start: nat, end: nat)

  function NameRun(s: string, i: nat): (j: nat)
    requires i <= |s|
    ensures i <= j <= |s|
    ensures forall k | i <= k < j :: IsNameChar(s[k])
    ensures j < |s| ==> !IsNameChar(s[j])
    decreases |s| - i
  {
    if i < |s| && IsNameChar(s[i]) then NameRun(s, i + 1) else i
  }

  /** Where the match that starts at `i` ends, or `i` when there is none. */
  function MatchEnd(s: string, i: nat): (e: nat)
    requires i < |s|
    ensures e == i || (i + 3 <= e <= |s| && s[i] == '{' && s[e - 1] == '}' && IsName(s[i + 1..e - 1]))
  {
    if s[i] == '{' && i + 1 < |s| && IsNameStart(s[i + 1]) then
      var j := NameRun(s, i + 1);
      if j < |s| && s[j] == '}' then j + 1 else i
    else i
  }

  /** `PLACEHOLDER_RE.finditer` from position `i` on. */
  function FindIter(s: string, i: nat): seq<Match>
    requires i <= |s|
    decreases |s| - i
  {
    if i == |s| then []
    else
      var e := MatchEnd(s, i);
      if e == i then FindIter(s, i + 1) else [Match(i, e)] + FindIter(s, e)
  }

  lemma FindIterSpans(s: string, i: nat)
    requires i <= |s|
    ensures forall m | m in FindIter(s, i) ::
      i <= m.start && m.start + 3 <= m.end <= |s| && IsName(s[m.start + 1..m.end - 1])
    decreases |s| - i
  {
  }

  predicate InSpan(m: Match, j: int) {
    m.start <= j < m.end
  }

  function SpanOf(m: Match): (r: set<int>)
    ensures forall j :: j in r <==> m.start <= j < m.end
  {
    set j: int | m.start <= j < m.end && InSpan(m, j)
  }

  predicate Consumed(ms: seq<Match>, j: int) {
    exists k | 0 <= k < |ms| :: ms[k].start <= j < ms[k].end
  }

  /** Some brace from position `i` on lies outside every match. */
  predicate HasStray(s: string, i: nat)
    requires i <= |s|
  {
    exists j | i <= j < |s| :: IsBrace(s[j]) && !Consumed(FindIter(s, i), j)
  }

  function Count(s: string, c: char): nat {
    if s == [] then 0 else (if s[0] == c then 1 else 0) + Count(s[1..], c)
  }

  lemma CountConcat(a: string, b: string, c: char)
    ensures Count(a + b, c) == Count(a, c) + Count(b, c)
  {
    if a == [] {
      assert a + b == b;
    } else {
      assert a + b == [a[0]] + (a[1..] + b);
      CountConcat(a[1..], b, c);
    }
  }

  // ---- The grammar ----

  datatype Segment = Literal(c: char) | Hole(name: string)

  predicate ValidSegment(g: Segment) {
    match g
    case Literal(c) => !IsBrace(c)
    case Hole(name) => IsName(name)
  }

  predicate ValidSegments(segs: seq<Segment>) {
    forall i | 0 <= i < |segs| :: ValidSegment(segs[i])
  }

  function Written(g: Segment): string {
    match g
    case Literal(c) => [c]
    case Hole(name) => "{" + name + "}"
  }

  function Unparse(segs: seq<Segment>): string {
    if segs == [] then [] else Written(segs[0]) + Unparse(segs[1..])
  }

  /** A concatenation of brace-free literals and `{identifier}` placeholders. */
  ghost predicate IsTemplateText(s: string) {
    exists segs :: ValidSegments(segs) && Unparse(segs) == s
  }

  function HoleNames(segs: seq<Segment>): set<string> {
    set g | g in segs && g.Hole? :: g.name
  }

  /** The segment read at `i`, and where the next one starts. */
  function Head(s: string, i: nat): Segment
    requires i < |s|
  {
    var e := MatchEnd(s, i);
    if e == i then Literal(s[i]) else Hole(s[i + 1..e - 1])
  }

  function Next(s: string, i: nat): (j: nat)
    requires i < |s|
    ensures i < j <= |s|
  {
    var e := MatchEnd(s, i);
    if e == i then i + 1 else e
  }

  lemma {:induction false} HeadWritten(s: string, i: nat)
    requires i < |s|
    ensures Written(Head(s, i)) == s[i..Next(s, i)]
  {
    var e := MatchEnd(s, i);
    if e != i {
      assert s[i..e] == [s[i]] + s[i + 1..e - 1] + [s[e - 1]];
    }
  }

  /** Reads `s[i..]` as placeholders and single characters; a stray brace becomes an invalid literal. */
  function Segments(s: string, i: nat): seq<Segment>
    requires i <= |s|
    decreases |s| - i
  {
    if i == |s| then [] else [Head(s, i)] + Segments(s, Next(s, i))
  }

  lemma {:induction false} SegmentsSpell(s: string, i: nat)
    requires i <= |s|
    ensures Unparse(Segments(s, i)) == s[i..]
    decreases |s| - i
  {
    hide Head, Next, IsName, Written;
    if i < |s| {
      var next := Next(s, i);
      SegmentsSpell(s, next);
      HeadWritten(s, i);
      assert Segments(s, i)[1..] == Segments(s, next);
      CutAt(s, i, next);
    }
  }

  lemma CutAt(s: string, i: nat, j: nat)
    requires i <= j <= |s|
    ensures s[i..] == s[i..j] + s[j..]
  {
  }

  lemma {:induction false} HeadOfWritten(s: string, i: nat, g: Segment)
    requires ValidSegment(g) && i + |Written(g)| <= |s|
    requires s[i..i + |Written(g)|] == Written(g)
    ensures Head(s, i) == g && Next(s, i) == i + |Written(g)|
  {
    var w := Written(g);
    forall k | 0 <= k < |w| ensures s[i + k] == w[k] {
      assert s[i..i + |w|][k] == w[k];
    }
    match g
    case Literal(c) =>
      assert s[i + 0] == w[0];
    case Hole(name) =>
      assert s[i + 0] == '{' && s[i + (|name| + 1)] == '}';
      assert forall k | 0 <= k < |name| :: s[i + (k + 1)] == name[k];
      NameRunStops(s, i + 1, i + 1 + |name|);
      assert s[i + 1..i + 1 + |name|] == name;
  }

  lemma NameRunStops(s: string, i: nat, j: nat)
    requires i <= j < |s| && !IsNameChar(s[j])
    requires forall k | i <= k < j :: IsNameChar(s[k])
    ensures NameRun(s, i) == j
    decreases j - i
  {
  }

  /** The grammar is unambiguous: reading recovers the segments that were written. */
  lemma {:induction false} SegmentsOfUnparse(s: string, i: nat, segs: seq<Segment>)
    requires i <= |s| && ValidSegments(segs)
    requires s[i..] == Unparse(segs)
    ensures Segments(s, i) == segs
    decreases |segs|
  {
    hide Head, Next, IsName, Written;
    if segs != [] {
      UnparseSplit(s, i, segs);
      var n := i + |Written(segs[0])|;
      HeadOfWritten(s, i, segs[0]);
      SegmentsOfUnparse(s, n, segs[1..]);
      assert segs == [segs[0]] + segs[1..];
    }
  }

  lemma {:induction false} WrittenNonEmpty(g: Segment)
    ensures Written(g) != []
  {
  }

  lemma {:induction false} UnparseSplit(s: string, i: nat, segs: seq<Segment>)
    requires i <= |s| && segs != [] && s[i..] == Unparse(segs)
    ensures var n := i + |Written(segs[0])|;
      i < n <= |s| && s[i..n] == Written(segs[0]) && s[n..] == Unparse(segs[1..])
  {
    hide Written;
    WrittenNonEmpty(segs[0]);
    SuffixSplit(s, i, Written(segs[0]), Unparse(segs[1..]));
  }

  lemma {:induction false} SuffixSplit(s: string, i: nat, w: string, rest: string)
    requires i <= |s| && s[i..] == w + rest
    ensures i + |w| <= |s| && s[i..i + |w|] == w && s[i + |w|..] == rest
  {
    assert s[i..i + |w|] == s[i..][..|w|];
    assert s[i + |w|..] == s[i..][|w|..];
  }

  /** Which positions are consumed changes only at the segment just read. */
  lemma {:induction false} ConsumedStep(s: string, i: nat, j: int)
    requires i < |s| && i <= j
    ensures Consumed(FindIter(s, i), j) <==>
            if j < Next(s, i) then Head(s, i).Hole? else Consumed(FindIter(s, Next(s, i)), j)
  {
    var next := Next(s, i);
    var ms, rest := FindIter(s, i), FindIter(s, next);
    FindIterSpans(s, next);
    if MatchEnd(s, i) != i {
      assert ms == [Match(i, next)] + rest;
      assert ms[0].start <= j < ms[0].end <==> j < next;
      if Consumed(rest, j) {
        var k :| 0 <= k < |rest| && rest[k].start <= j < rest[k].end;
        assert ms[k + 1] == rest[k];
      }
      assert forall k | 1 <= k < |ms| :: ms[k] == rest[k - 1];
    }
  }

  /** The segments are all valid exactly when every brace lies inside a match. */
  lemma {:induction false} ValidIffNoStray(s: string, i: nat)
    requires i <= |s|
    ensures ValidSegments(Segments(s, i)) <==> !HasStray(s, i)
    decreases |s| - i
  {
    if i < |s| {
      var next := Next(s, i);
      ValidIffNoStray(s, next);
      forall j | i <= j
        ensures Consumed(FindIter(s, i), j) <==>
                if j < next then Head(s, i).Hole? else Consumed(FindIter(s, next), j)
      {
        ConsumedStep(s, i, j);
      }
      assert ValidSegment(Head(s, i)) <==> Head(s, i).Hole? || !IsBrace(s[i]);
      assert HasStray(s, i) <==> (IsBrace(s[i]) && Head(s, i).Literal?) || HasStray(s, next);
      ValidCons(Head(s, i), Segments(s, next));
    }
  }

  lemma {:induction false} ValidCons(g: Segment, tail: seq<Segment>)
    ensures ValidSegments([g] + tail) <==> ValidSegment(g) && ValidSegments(tail)
  {
    var all := [g] + tail;
    assert forall i | 0 <= i < |tail| :: all[i + 1] == tail[i];
    assert all[0] == g;
  }

  lemma {:induction false} UnparseBalanced(segs: seq<Segment>)
    requires ValidSegments(segs)
    ensures Count(Unparse(segs), '{') == Count(Unparse(segs), '}')
  {
    if segs != [] {
      UnparseBalanced(segs[1..]);
      CountConcat(Written(segs[0]), Unparse(segs[1..]), '{');
      CountConcat(Written(segs[0]), Unparse(segs[1..]), '}');
      if segs[0].Hole? {
        var name := segs[0].name;
        NameHasNoBrace(name);
        forall c | IsBrace(c) ensures Count(Written(segs[0]), c) == 1 {
          CountConcat("{" + name, "}", c);
          CountConcat("{", name, c);
        }
      }
    }
  }

  lemma NameHasNoBrace(name: string)
    requires forall i | 0 <= i < |name| :: IsNameChar(name[i])
    ensures Count(name, '{') == 0 && Count(name, '}') == 0
    ensures '{' !in name && '}' !in name
  {
  }

  // ---- The validator ----

  datatype DslError =
    | UnbalancedBraces(artifact: string, text: string)
    | BadFormat(artifact: string, text: string)
    | InvalidRequiredFields(artifact: string)
    | InvalidOptionalFields(artifact: string)
    | InvalidArtifactType(artifact: string)
    | InvalidBody(artifact: string)
    | InvalidConstraints(artifact: string)
    | InvalidPlaceholders(artifact: string)

  function Report(errors: seq<DslError>, ok: bool, e: DslError): seq<DslError> {
    if ok then errors else errors + [e]
  }

  /** The error list the checks share and append to. */
  class ErrorLog {
    var items: seq<DslError>

    constructor ()
      ensures items == []
    {
      items := [];
    }

    method Append(e: DslError)
      modifies this
      ensures items == old(items) + [e]
    {
      items := items + [e];
    }

    method Require(ok: bool, e: DslError)
      modifies this
      ensures items == Report(old(items), ok, e)
    {
      if !ok { Append(e); }
    }
  }

  function TextErrors(text: string, id: string): seq<DslError> {
    if Count(text, '{') != Count(text, '}') then [UnbalancedBraces(id, text)]
    else if HasStray(text, 0) then [BadFormat(id, text)]
    else []
  }

  /** What the recursive check appends for a whole payload. Dictionary keys are not checked. */
  function PayloadErrors(payload: Json, id: string): seq<DslError>
    decreases payload
  {
    match payload
    case Str(s) => TextErrors(s, id)
    case List(items) => AllErrors(items, id)
    case Dict(_, values) => AllErrors(values, id)
    case _ => []
  }

  function AllErrors(items: seq<Json>, id: string): seq<DslError>
    decreases items
  {
    if items == [] then [] else PayloadErrors(items[0], id) + AllErrors(items[1..], id)
  }

  method CountChar(s: string, c: char) returns (n: nat)
    ensures n == Count(s, c)
  {
    n := 0;
    for i := 0 to |s|
      invariant n + Count(s[i..], c) == Count(s, c)
    {
      assert s[i..][0] == s[i] && s[i..][1..] == s[i + 1..];
      if s[i] == c { n := n + 1; }
    }
  }

  /** The string case of `_validate_placeholders`. */
  method ValidateText(payload: string, errors: ErrorLog, id: string)
    modifies errors
    ensures errors.items == old(errors.items) + TextErrors(payload, id)
  {
    hide FindIter, Count, IsName;
    var opens := CountChar(payload, '{');
    var closes := CountChar(payload, '}');
    if opens != closes {
      errors.Append(UnbalancedBraces(id, payload));
      return;
    }
    var matches := FindIter(payload, 0);
    var consumed := ConsumedPositions(payload, matches) by { FindIterSpans(payload, 0); }
    var index := 0;
    while index < |payload|
      invariant 0 <= index <= |payload|
      invariant forall j | 0 <= j < index :: !(IsBrace(payload[j]) && !Consumed(matches, j))
      invariant errors.items == old(errors.items)
    {
      if IsBrace(payload[index]) && index !in consumed {
        errors.Append(BadFormat(id, payload));
        assert HasStray(payload, 0);
        return;
      }
      index := index + 1;
    }
  }

  /** The loop over the matches. */
  method ConsumedPositions(payload: string, matches: seq<Match>) returns (consumed: set<int>)
    requires forall m | m in matches ::
      m.start + 3 <= m.end <= |payload| && IsName(payload[m.start + 1..m.end - 1])
    ensures forall j :: j in consumed <==> Consumed(matches, j)
  {
    hide IsName;
    consumed := {};
    for k := 0 to |matches|
      invariant forall j :: j in consumed <==> Consumed(matches[..k], j)
    {
      var m := matches[k];
      var key := payload[m.start + 1..m.end - 1];
      assert matches[..k + 1] == matches[..k] + [m];
      consumed := consumed + SpanOf(m);
      ConsumedSnoc(matches[..k], m);
      assert IsName(key);  // so the key test here never reports an error
    }
    assert matches[..|matches|] == matches;
  }

  lemma {:induction false} ConsumedSnoc(ms: seq<Match>, m: Match)
    ensures forall j :: Consumed(ms + [m], j) <==> Consumed(ms, j) || m.start <= j < m.end
  {
    var all := ms + [m];
    forall j ensures Consumed(all, j) <==> Consumed(ms, j) || m.start <= j < m.end {
      if Consumed(ms, j) {
        var k :| 0 <= k < |ms| && ms[k].start <= j < ms[k].end;
        assert all[k] == ms[k];
      }
      assert all[|ms|] == m;
      if Consumed(all, j) {
        var k :| 0 <= k < |all| && all[k].start <= j < all[k].end;
        assert k < |ms| ==> ms[k] == all[k];
      }
    }
  }

  /** `_validate_placeholders` */
  method ValidatePlaceholders(payload: Json, errors: ErrorLog, id: string)
    modifies errors
    ensures errors.items == old(errors.items) + PayloadErrors(payload, id)
    decreases payload, 1
  {
    match payload
    case Str(s) => ValidateText(s, errors, id);
    case List(items) => ValidateEach(items, errors, id);
    case Dict(_, values) => ValidateEach(values, errors, id);
    case _ =>
  }

  method ValidateEach(items: seq<Json>, errors: ErrorLog, id: string)
    modifies errors
    ensures errors.items == old(errors.items) + AllErrors(items, id)
    decreases items, 0
  {
    for i := 0 to |items|
      invariant errors.items + AllErrors(items[i..], id) == old(errors.items) + AllErrors(items, id)
    {
      assert items[i..][0] == items[i] && items[i..][1..] == items[i + 1..];
      ValidatePlaceholders(items[i], errors, id);
    }
  }

  predicate InBounds(s: string, m: Match) {
    m.start + 3 <= m.end <= |s|
  }

  function MatchNames(s: string, ms: seq<Match>): set<string> {
    set m | m in ms && InBounds(s, m) :: s[m.start + 1..m.end - 1]
  }

  function TextPlaceholders(s: string): set<string> {
    MatchNames(s, FindIter(s, 0))
  }

  /** `_collect_placeholders` */
  function CollectPlaceholders(payload: Json): set<string>
    decreases payload
  {
    match payload
    case Str(s) => TextPlaceholders(s)
    case List(items) => CollectAll(items)
    case Dict(_, values) => CollectAll(values)
    case _ => {}
  }

  function CollectAll(items: seq<Json>): set<string>
    decreases items
  {
    if items == [] then {} else CollectPlaceholders(items[0]) + CollectAll(items[1..])
  }

  // ---- What the check means ----

  /** The check accepts exactly the strings of the grammar. */
  lemma {:induction false} AcceptsExactlyTemplateTexts(s: string, id: string)
    ensures TextErrors(s, id) == [] <==> IsTemplateText(s)
    ensures TextErrors(s, id) == [] <==> ValidSegments(Segments(s, 0))
  {
    var segs := Segments(s, 0);
    ValidIffNoStray(s, 0);
    SegmentsSpell(s, 0);
    assert s[0..] == s;
    if ValidSegments(segs) {
      assert Unparse(segs) == s;
      UnparseBalanced(segs);
    }
    if IsTemplateText(s) {
      var written :| ValidSegments(written) && Unparse(written) == s;
      SegmentsOfUnparse(s, 0, written);
    }
  }

  /** Collection returns exactly the names of the placeholders read, accepted string or not. */
  lemma {:induction false} CollectsExactlyTheHoles(s: string)
    ensures TextPlaceholders(s) == HoleNames(Segments(s, 0))
  {
    NamesFrom(s, 0);
    FindIterSpans(s, 0);
  }

  /** The string values of a payload, in order; dictionary keys are not among them. */
  function StringValues(payload: Json): seq<string>
    decreases payload
  {
    match payload
    case Str(s) => [s]
    case List(items) => AllStringValues(items)
    case Dict(_, values) => AllStringValues(values)
    case _ => []
  }

  function AllStringValues(items: seq<Json>): seq<string>
    decreases items
  {
    if items == [] then [] else StringValues(items[0]) + AllStringValues(items[1..])
  }

  /** What is said of a string that is not in the grammar. */
  ghost predicate Faulty(s: string, id: string, e: DslError) {
    && !IsTemplateText(s)
    && e == if Count(s, '{') != Count(s, '}') then UnbalancedBraces(id, s) else BadFormat(id, s)
  }

  ghost predicate FaultOfSome(strings: seq<string>, id: string, e: DslError) {
    exists s | s in strings :: Faulty(s, id, e)
  }

  /** The errors of a payload are one for each of its string values outside the grammar, and no others. */
  lemma {:induction false} PayloadErrorsIff(payload: Json, id: string, e: DslError)
    ensures e in PayloadErrors(payload, id) <==> FaultOfSome(StringValues(payload), id, e)
    decreases payload, 1
  {
    hide Faulty;
    match payload
    case Str(s) => TextErrorsIff(s, id, e);
    case List(items) => AllErrorsIff(items, id, e);
    case Dict(_, values) => AllErrorsIff(values, id, e);
    case _ =>
  }

  lemma {:induction false} TextErrorsIff(s: string, id: string, e: DslError)
    ensures e in TextErrors(s, id) <==> Faulty(s, id, e)
  {
    hide Count, HasStray, IsTemplateText, Segments;
    AcceptsExactlyTemplateTexts(s, id);
  }

  lemma {:induction false} AllErrorsIff(items: seq<Json>, id: string, e: DslError)
    ensures e in AllErrors(items, id) <==> FaultOfSome(AllStringValues(items), id, e)
    decreases items, 0
  {
    hide Faulty;
    if items != [] {
      PayloadErrorsIff(items[0], id, e);
      AllErrorsIff(items[1..], id, e);
    }
  }

  ghost predicate HoleOfSome(strings: seq<string>, name: string) {
    exists s | s in strings :: name in HoleNames(Segments(s, 0))
  }

  /** The names collected from a payload are exactly the placeholders of its string values. */
  lemma {:induction false} CollectedIff(payload: Json, name: string)
    ensures name in CollectPlaceholders(payload) <==> HoleOfSome(StringValues(payload), name)
    decreases payload, 1
  {
    hide TextPlaceholders, Segments, HoleNames;
    match payload
    case Str(s) => CollectsExactlyTheHoles(s);
    case List(items) => AllCollectedIff(items, name);
    case Dict(_, values) => AllCollectedIff(values, name);
    case _ =>
  }

  lemma {:induction false} AllCollectedIff(items: seq<Json>, name: string)
    ensures name in CollectAll(items) <==> HoleOfSome(AllStringValues(items), name)
    decreases items, 0
  {
    hide Segments, HoleNames;
    if items != [] {
      CollectedIff(items[0], name);
      AllCollectedIff(items[1..], name);
    }
  }

  lemma {:induction false} NamesFrom(s: string, i: nat)
    requires i <= |s|
    ensures MatchNames(s, FindIter(s, i)) == HoleNames(Segments(s, i))
    decreases |s| - i
  {
    hide IsName, NameRun, HoleNames, MatchNames;
    if i < |s| {
      var next := Next(s, i);
      NamesFrom(s, next);
      HoleNamesCons(Head(s, i), Segments(s, next));
      if MatchEnd(s, i) != i {
        MatchNamesCons(s, Match(i, next), FindIter(s, next));
      }
    } else {
      assert MatchNames(s, []) == {} == HoleNames([]) by { NoNames(s); }
    }
  }

  lemma {:induction false} NoNames(s: string)
    ensures MatchNames(s, []) == {} == HoleNames([])
  {
  }

  lemma {:induction false} MatchNamesCons(s: string, m0: Match, rest: seq<Match>)
    requires InBounds(s, m0)
    ensures MatchNames(s, [m0] + rest) == {s[m0.start + 1..m0.end - 1]} + MatchNames(s, rest)
  {
    assert m0 in [m0] + rest;
    assert forall m | m in rest :: m in [m0] + rest;
  }

  lemma {:induction false} HoleNamesCons(g: Segment, segs: seq<Segment>)
    ensures HoleNames([g] + segs) == (if g.Hole? then {g.name} else {}) + HoleNames(segs)
  {
    var all := [g] + segs;
    forall x ensures x in HoleNames(all) <==> (g.Hole? && x == g.name) || x in HoleNames(segs) {
      if x in HoleNames(segs) {
        assert Hole(x) in segs;
        assert Hole(x) in all;
      }
      if g.Hole? && x == g.name { assert g in all; }
    }
  }
}
