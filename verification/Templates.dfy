/** Rendering of generation templates (src/vcse/generation/templates.py): one `str.replace` per
    field, against a single simultaneous substitution over the placeholder grammar. */
module Templates {
  import opened Json
  import opened Placeholders
  import Text

  // ---- str.replace ----

  /** `s.replace(pat, rep)`: leftmost occurrences first, never rescanning inserted text. */
  function Replace(s: string, pat: string, rep: string): string
    requires pat != ""
  {
    if |s| < |pat| then s
    else if pat <= s then rep + Replace(s[|pat|..], pat, rep)
    else [s[0]] + Replace(s[1..], pat, rep)
  }

  function Pattern(key: string): string {
    "{" + key + "}"
  }

  // ---- Fields ----

  /** A field value as its text: `str(value)`, or the texts of a list's items. */
  datatype FieldValue = Scalar(text: string) | Items(texts: seq<string>)

  /** One item of the insertion-ordered field dictionary. */
  datatype Field = Field(key: string, value: FieldValue)

  function FieldToText(v: FieldValue): string {
    match v
    case Scalar(text) => text
    case Items(texts) => Text.Join("\n", texts)
  }

  function FieldText(f: Field): string {
    FieldToText(f.value)
  }

  /** What being the items of a dictionary means. */
  predicate DistinctKeys(fields: seq<Field>) {
    forall i, j | 0 <= i < j < |fields| :: fields[i].key != fields[j].key
  }

  predicate KeysClosed(fields: seq<Field>) {
    forall i | 0 <= i < |fields| :: '}' !in fields[i].key
  }

  predicate OpenFree(s: string) {
    '{' !in s
  }

  predicate TextsOpenFree(fields: seq<Field>) {
    forall i | 0 <= i < |fields| :: OpenFree(FieldText(fields[i]))
  }

  function FieldKeys(fields: seq<Field>): set<string> {
    set f | f in fields :: f.key
  }

  function EnvOf(fields: seq<Field>): map<string, string> {
    if fields == [] then map[] else EnvOf(fields[1..])[fields[0].key := FieldText(fields[0])]
  }

  lemma EnvKeys(fields: seq<Field>)
    ensures EnvOf(fields).Keys == FieldKeys(fields)
  {
    if fields != [] {
      EnvKeys(fields[1..]);
      assert fields == [fields[0]] + fields[1..];
    }
  }

  lemma EnvLookup(fields: seq<Field>, i: nat)
    requires DistinctKeys(fields) && i < |fields|
    ensures fields[i].key in EnvOf(fields) && EnvOf(fields)[fields[i].key] == FieldText(fields[i])
  {
    EnvKeys(fields);
    assert fields[i] in fields;
    if i > 0 {
      EnvLookup(fields[1..], i - 1);
    }
  }

  // ---- Rendering one string ----

  function RenderChain(value: string, fields: seq<Field>): string
    decreases |fields|
  {
    if fields == [] then value
    else RenderChain(Replace(value, Pattern(fields[0].key), FieldText(fields[0])), fields[1..])
  }

  /** `_render_string` */
  method RenderString(value: string, fields: seq<Field>) returns (rendered: string)
    ensures rendered == RenderChain(value, fields)
    ensures IsTemplateText(value) && DistinctKeys(fields) && KeysClosed(fields) && TextsOpenFree(fields)
      ==> rendered == Substitute(Segments(value, 0), EnvOf(fields))
  {
    rendered := value;
    for i := 0 to |fields|
      invariant RenderChain(rendered, fields[i..]) == RenderChain(value, fields)
    {
      assert fields[i..][0] == fields[i] && fields[i..][1..] == fields[i + 1..];
      rendered := Replace(rendered, Pattern(fields[i].key), FieldText(fields[i]));
    }
    if IsTemplateText(value) && DistinctKeys(fields) && KeysClosed(fields) && TextsOpenFree(fields) {
      ChainIsSubstitution(value, fields);
    }
  }

  function Value(g: Segment, env: map<string, string>): string {
    if g.Hole? && g.name in env then env[g.name] else Written(g)
  }

  /** All placeholders replaced at once; one without a value stays as written. */
  function Substitute(segs: seq<Segment>, env: map<string, string>): string {
    if segs == [] then "" else Value(segs[0], env) + Substitute(segs[1..], env)
  }

  // ---- One replacement, on segments ----

  /** A text in the middle of rendering: inserted characters may be `}`, but not `{`. */
  predicate Settled(segs: seq<Segment>) {
    forall i | 0 <= i < |segs| ::
      match segs[i]
      case Literal(c) => c != '{'
      case Hole(name) => IsName(name)
  }

  function Literals(text: string): (segs: seq<Segment>)
    ensures |segs| == |text| && forall i | 0 <= i < |segs| :: segs[i] == Literal(text[i])
  {
    seq(|text|, i requires 0 <= i < |text| => Literal(text[i]))
  }

  /** Every placeholder named `key` becomes the characters of `text`. */
  function Fill(segs: seq<Segment>, key: string, text: string): seq<Segment> {
    if segs == [] then []
    else (if segs[0] == Hole(key) then Literals(text) else [segs[0]]) + Fill(segs[1..], key, text)
  }

  lemma {:induction false} FillSettled(segs: seq<Segment>, key: string, text: string)
    requires Settled(segs) && OpenFree(text)
    ensures Settled(Fill(segs, key, text))
  {
    if segs != [] {
      FillSettled(segs[1..], key, text);
    }
  }

  lemma {:induction false} SubstituteConcat(a: seq<Segment>, b: seq<Segment>, env: map<string, string>)
    ensures Substitute(a + b, env) == Substitute(a, env) + Substitute(b, env)
  {
    hide Value;
    if a == [] {
      assert a + b == b;
    } else {
      SubstituteConcat(a[1..], b, env);
      assert (a + b)[1..] == a[1..] + b;
      ConcatAssociative(Value(a[0], env), Substitute(a[1..], env), Substitute(b, env));
    }
  }

  lemma ConcatAssociative(a: string, b: string, c: string)
    ensures (a + b) + c == a + (b + c)
  {
  }

  lemma {:induction false} SubstituteLiterals(text: string, env: map<string, string>)
    ensures Substitute(Literals(text), env) == text
  {
    if text != [] {
      SubstituteLiterals(text[1..], env);
      assert Literals(text)[1..] == Literals(text[1..]);
    }
  }

  lemma {:induction false} SubstituteNothing(segs: seq<Segment>)
    ensures Substitute(segs, map[]) == Unparse(segs)
  {
    if segs != [] {
      SubstituteNothing(segs[1..]);
    }
  }

  /** Filling one name and then substituting the others is substituting them together. */
  lemma {:induction false} SubstituteFill(segs: seq<Segment>, key: string, text: string, env: map<string, string>)
    requires key !in env
    ensures Substitute(Fill(segs, key, text), env) == Substitute(segs, env[key := text])
  {
    if segs != [] {
      var first := if segs[0] == Hole(key) then Literals(text) else [segs[0]];
      SubstituteFill(segs[1..], key, text, env);
      SubstituteConcat(first, Fill(segs[1..], key, text), env);
      if segs[0] == Hole(key) {
        SubstituteLiterals(text, env);
      } else {
        assert Substitute([segs[0]], env) == Substitute([segs[0]], env[key := text]);
      }
    }
  }

  /** Replacing passes over a stretch without `{` unchanged. */
  lemma {:induction false} ReplaceSkips(p: string, rest: string, key: string, rep: string)
    requires OpenFree(p)
    ensures Replace(p + rest, Pattern(key), rep) == p + Replace(rest, Pattern(key), rep)
  {
    var s := p + rest;
    if p == [] {
      assert s == rest;
    } else {
      ReplaceSkips(p[1..], rest, key, rep);
      assert s[0] == p[0] && s[1..] == p[1..] + rest;
      assert Pattern(key)[0] == '{' && p[0] in p;
      if |s| < |Pattern(key)| {
        ReplaceShort(rest, key, rep);
      }
    }
  }

  lemma {:induction false} ReplaceShort(s: string, key: string, rep: string)
    requires |s| < |Pattern(key)|
    ensures Replace(s, Pattern(key), rep) == s
  {
  }

  function FirstClose(s: string): nat {
    if s == [] || s[0] == '}' then 0 else 1 + FirstClose(s[1..])
  }

  lemma {:induction false} FirstCloseAt(p: string, rest: string)
    requires '}' !in p
    ensures FirstClose(p + "}" + rest) == |p|
  {
    if p != [] {
      FirstCloseAt(p[1..], rest);
      assert (p + "}" + rest)[1..] == p[1..] + "}" + rest;
      assert p[0] in p;
    }
  }

  /** A placeholder's text starts with a pattern only for its own name: names and keys hold no `}`. */
  lemma {:induction false} PrefixForcesName(name: string, rest: string, key: string)
    requires '}' !in name && '}' !in key
    requires Pattern(key) <= Pattern(name) + rest
    ensures name == key
  {
    var s := Pattern(name) + rest;
    assert s == ("{" + name) + "}" + rest;
    FirstCloseAt("{" + name, rest);
    var after := s[|key| + 2..];
    assert s == Pattern(key) + after == ("{" + key) + "}" + after;
    FirstCloseAt("{" + key, after);
    assert name == s[1..1 + |name|] == key;
  }

  /** One whole-string replacement fills exactly the placeholders of that name. */
  lemma {:induction false} ReplaceIsFill(segs: seq<Segment>, key: string, text: string)
    requires Settled(segs) && '}' !in key
    ensures Replace(Unparse(segs), Pattern(key), text) == Unparse(Fill(segs, key, text))
  {
    if segs != [] {
      var g, tail := segs[0], segs[1..];
      ReplaceIsFill(tail, key, text);
      var rest := Unparse(tail);
      var first := if g == Hole(key) then Literals(text) else [g];
      UnparseConcat(first, Fill(tail, key, text));
      if g == Hole(key) {
        UnparseLiterals(text);
        ReplaceHit(rest, key, text);
      } else {
        assert Unparse(first) == Written(g) by { assert Unparse([]) == ""; }
        ReplaceMiss(g, rest, key, text);
      }
    }
  }

  lemma {:induction false} ReplaceHit(rest: string, key: string, text: string)
    ensures Replace(Pattern(key) + rest, Pattern(key), text) == text + Replace(rest, Pattern(key), text)
  {
    assert (Pattern(key) + rest)[|Pattern(key)|..] == rest;
  }

  lemma {:induction false} ReplaceMiss(g: Segment, rest: string, key: string, text: string)
    requires g.Literal? ==> g.c != '{'
    requires g.Hole? ==> IsName(g.name) && g.name != key
    requires '}' !in key
    ensures Replace(Written(g) + rest, Pattern(key), text) == Written(g) + Replace(rest, Pattern(key), text)
  {
    if g.Literal? {
      ReplaceSkips([g.c], rest, key, text);
    } else {
      NameHasNoBrace(g.name);
      if Pattern(key) <= Pattern(g.name) + rest {
        PrefixForcesName(g.name, rest, key);
      }
      var inner := g.name + "}";
      assert Written(g) + rest == ['{'] + (inner + rest);
      assert Written(g) == ['{'] + inner;
      ReplaceSkips(inner, rest, key, text);
      ReplaceAdvance('{', inner + rest, key, text);
      ConcatAssociative(['{'], inner, Replace(rest, Pattern(key), text));
    }
  }

  lemma {:induction false} ReplaceAdvance(c: char, tail: string, key: string, text: string)
    requires !(Pattern(key) <= [c] + tail)
    ensures Replace([c] + tail, Pattern(key), text) == [c] + Replace(tail, Pattern(key), text)
  {
    assert ([c] + tail)[1..] == tail;
    if |tail| < |Pattern(key)| {
      ReplaceShort(tail, key, text);
    }
  }

  lemma {:induction false} UnparseConcat(a: seq<Segment>, b: seq<Segment>)
    ensures Unparse(a + b) == Unparse(a) + Unparse(b)
  {
    SubstituteNothing(a + b);
    SubstituteNothing(a);
    SubstituteNothing(b);
    SubstituteConcat(a, b, map[]);
  }

  lemma {:induction false} UnparseLiterals(text: string)
    ensures Unparse(Literals(text)) == text
  {
    SubstituteNothing(Literals(text));
    SubstituteLiterals(text, map[]);
  }

  // ---- The chain of replacements ----

  /** The chain equals one simultaneous substitution as soon as no text but the last can open a brace. */
  lemma {:induction false} ChainFromSegments(segs: seq<Segment>, fields: seq<Field>)
    requires Settled(segs) && DistinctKeys(fields) && KeysClosed(fields)
    requires forall i | 0 <= i < |fields| - 1 :: OpenFree(FieldText(fields[i]))
    ensures RenderChain(Unparse(segs), fields) == Substitute(segs, EnvOf(fields))
    decreases |fields|
  {
    if fields == [] {
      SubstituteNothing(segs);
    } else {
      var key, text, rest := fields[0].key, FieldText(fields[0]), fields[1..];
      ReplaceIsFill(segs, key, text);
      EnvKeys(rest);
      SubstituteFill(segs, key, text, EnvOf(rest));
      if rest == [] {
        SubstituteNothing(Fill(segs, key, text));
      } else {
        FillSettled(segs, key, text);
        ChainFromSegments(Fill(segs, key, text), rest);
      }
    }
  }

  lemma {:induction false} ChainIsSubstitution(s: string, fields: seq<Field>)
    requires IsTemplateText(s) && DistinctKeys(fields) && KeysClosed(fields)
    requires forall i | 0 <= i < |fields| - 1 :: OpenFree(FieldText(fields[i]))
    ensures RenderChain(s, fields) == Substitute(Segments(s, 0), EnvOf(fields))
  {
    AcceptsExactlyTemplateTexts(s, "");
    SegmentsSpell(s, 0);
    assert s[0..] == s;
    ChainFromSegments(Segments(s, 0), fields);
  }

  /** Rendering does not depend on the order of the fields. */
  lemma {:induction false} FieldOrderIrrelevant(s: string, fields: seq<Field>, shuffled: seq<Field>)
    requires IsTemplateText(s)
    requires DistinctKeys(fields) && KeysClosed(fields) && TextsOpenFree(fields)
    requires DistinctKeys(shuffled) && (forall f :: f in fields <==> f in shuffled)
    ensures RenderChain(s, fields) == RenderChain(s, shuffled)
  {
    forall i | 0 <= i < |shuffled|
      ensures '}' !in shuffled[i].key && OpenFree(FieldText(shuffled[i]))
    {
      assert shuffled[i] in fields;
    }
    ChainIsSubstitution(s, fields);
    ChainIsSubstitution(s, shuffled);
    SameEnv(fields, shuffled);
  }

  lemma {:induction false} SameEnv(fields: seq<Field>, shuffled: seq<Field>)
    requires DistinctKeys(fields) && DistinctKeys(shuffled)
    requires forall f :: f in fields <==> f in shuffled
    ensures EnvOf(fields) == EnvOf(shuffled)
  {
    EnvKeys(fields);
    EnvKeys(shuffled);
    forall k | k in EnvOf(fields) ensures EnvOf(fields)[k] == EnvOf(shuffled)[k] {
      var f :| f in fields && f.key == k;
      var i :| 0 <= i < |fields| && fields[i] == f;
      var j :| 0 <= j < |shuffled| && shuffled[j] == f;
      EnvLookup(fields, i);
      EnvLookup(shuffled, j);
    }
  }

  // ---- What stands where a placeholder stood ----

  /** The text is the items, each on its own line. */
  ghost predicate IsListText(text: string, items: seq<string>)
    decreases items
  {
    if items == [] then text == ""
    else if |items| == 1 then text == items[0]
    else exists rest :: text == items[0] + "\n" + rest && IsListText(rest, items[1..])
  }

  ghost predicate IsTextOf(text: string, v: FieldValue) {
    match v
    case Scalar(t) => text == t
    case Items(items) => IsListText(text, items)
  }

  lemma {:induction false} JoinIsListText(items: seq<string>)
    ensures IsListText(Text.Join("\n", items), items)
  {
    if |items| > 1 {
      JoinIsListText(items[1..]);
      assert Text.Join("\n", items) == items[0] + "\n" + Text.Join("\n", items[1..]);
    }
  }

  /** A scalar's text is its own; a list's text is its items, all of them and in order, a line each. */
  lemma {:induction false} FieldTextIs(v: FieldValue)
    ensures IsTextOf(FieldToText(v), v)
  {
    if v.Items? {
      JoinIsListText(v.texts);
    }
  }

  /** Splitting such a text at newlines gives the items back, when none holds a newline itself. */
  lemma {:induction false} ListTextSplits(text: string, items: seq<string>)
    requires IsListText(text, items) && items != [] && forall i | 0 <= i < |items| :: '\n' !in items[i]
    ensures Text.SplitOn(text, '\n') == items
    decreases items
  {
    if |items| == 1 {
      Text.SplitOfPart(text, '\n');
    } else {
      var rest :| text == items[0] + "\n" + rest && IsListText(rest, items[1..]);
      ListTextSplits(rest, items[1..]);
      Text.SplitPartThen(items[0], '\n', rest);
      assert items == [items[0]] + items[1..];
    }
  }

  lemma {:induction false} ValidIsSettled(s: string) returns (segs: seq<Segment>)
    requires IsTemplateText(s)
    ensures Settled(segs) && Unparse(segs) == s
  {
    segs :| ValidSegments(segs) && Unparse(segs) == s;
  }

  /** Template texts render piece by piece. */
  lemma {:induction false} ChainConcat(a: string, b: string, fields: seq<Field>)
    requires IsTemplateText(a) && IsTemplateText(b)
    requires DistinctKeys(fields) && KeysClosed(fields) && TextsOpenFree(fields)
    ensures RenderChain(a + b, fields) == RenderChain(a, fields) + RenderChain(b, fields)
  {
    hide RenderChain, Substitute, IsTemplateText, Settled, DistinctKeys, KeysClosed, EnvOf, Unparse;
    var x := ValidIsSettled(a);
    var y := ValidIsSettled(b);
    SettledConcat(x, y);
    UnparseConcat(x, y);
    SubstituteConcat(x, y, EnvOf(fields));
    ChainFromSegments(x, fields);
    ChainFromSegments(y, fields);
    ChainFromSegments(x + y, fields);
  }

  lemma SettledConcat(x: seq<Segment>, y: seq<Segment>)
    requires Settled(x) && Settled(y)
    ensures Settled(x + y)
  {
  }

  lemma {:induction false} PatternRenders(name: string, fields: seq<Field>)
    requires IsName(name)
    requires DistinctKeys(fields) && KeysClosed(fields) && TextsOpenFree(fields)
    ensures IsTemplateText(Pattern(name))
    ensures RenderChain(Pattern(name), fields) == if name in EnvOf(fields) then EnvOf(fields)[name] else Pattern(name)
  {
    hide RenderChain, EnvOf, DistinctKeys, KeysClosed;
    var segs := [Hole(name)];
    OneHole(name, EnvOf(fields));
    assert ValidSegments(segs) && Settled(segs);
    ChainFromSegments(segs, fields);
  }

  /** A stretch without braces renders as itself. */
  lemma {:induction false} LiteralRenders(text: string, fields: seq<Field>)
    requires forall i | 0 <= i < |text| :: !IsBrace(text[i])
    requires DistinctKeys(fields) && KeysClosed(fields) && TextsOpenFree(fields)
    ensures IsTemplateText(text) && RenderChain(text, fields) == text
  {
    hide RenderChain, EnvOf, DistinctKeys, KeysClosed;
    UnparseLiterals(text);
    assert ValidSegments(Literals(text)) && Settled(Literals(text));
    SubstituteLiterals(text, EnvOf(fields));
    ChainFromSegments(Literals(text), fields);
  }

  /** What stands in the output where a placeholder stood is the text of its field, between the
      renderings of what came before and after it; a placeholder without a field stays as written. */
  lemma {:induction false} PlaceholderStretch(before: string, name: string, after: string, fields: seq<Field>)
    requires IsTemplateText(before) && IsName(name) && IsTemplateText(after)
    requires DistinctKeys(fields) && KeysClosed(fields) && TextsOpenFree(fields)
    ensures var out := RenderChain(before + Pattern(name) + after, fields);
      && (forall j | 0 <= j < |fields| && fields[j].key == name ::
            Stretch(out, RenderChain(before, fields), fields[j].value, RenderChain(after, fields)))
      && (name !in FieldKeys(fields) ==>
            out == RenderChain(before, fields) + Pattern(name) + RenderChain(after, fields))
  {
    hide RenderChain, EnvOf, DistinctKeys, KeysClosed, TextsOpenFree, IsTemplateText, Stretch, FieldToText, IsName;
    hide Pattern;
    PatternRenders(name, fields);
    TemplateConcat(before, Pattern(name));
    ChainConcat(before + Pattern(name), after, fields);
    ChainConcat(before, Pattern(name), fields);
    EnvKeys(fields);
    forall j | 0 <= j < |fields| && fields[j].key == name
      ensures Stretch(RenderChain(before + Pattern(name) + after, fields),
                      RenderChain(before, fields), fields[j].value, RenderChain(after, fields))
    {
      EnvLookup(fields, j);
      assert fields[j] in fields;
      StretchOf(RenderChain(before, fields), fields[j], RenderChain(after, fields));
    }
  }

  /** The output is a text of the value between the two others. */
  ghost predicate Stretch(out: string, before: string, v: FieldValue, after: string) {
    exists text :: IsTextOf(text, v) && out == before + text + after
  }

  lemma StretchOf(before: string, f: Field, after: string)
    ensures Stretch(before + FieldText(f) + after, before, f.value, after)
  {
    hide FieldToText, IsTextOf;
    FieldTextIs(f.value);
  }

  lemma {:induction false} TemplateConcat(a: string, b: string)
    requires IsTemplateText(a) && IsTemplateText(b)
    ensures IsTemplateText(a + b)
  {
    var x :| ValidSegments(x) && Unparse(x) == a;
    var y :| ValidSegments(y) && Unparse(y) == b;
    UnparseConcat(x, y);
    assert ValidSegments(x + y) && Unparse(x + y) == a + b;
  }

  // ---- What is left open ----

  /** An accepted string renders without any `{` exactly when every placeholder has a value. */
  lemma {:induction false} FullyRenderedIff(s: string, fields: seq<Field>)
    requires IsTemplateText(s)
    requires DistinctKeys(fields) && KeysClosed(fields) && TextsOpenFree(fields)
    ensures OpenFree(RenderChain(s, fields)) <==> TextPlaceholders(s) <= FieldKeys(fields)
  {
    ChainIsSubstitution(s, fields);
    CollectsExactlyTheHoles(s);
    AcceptsExactlyTemplateTexts(s, "");
    EnvKeys(fields);
    forall k | k in EnvOf(fields) ensures OpenFree(EnvOf(fields)[k]) {
      var f :| f in fields && f.key == k;
      var i :| 0 <= i < |fields| && fields[i] == f;
      EnvLookup(fields, i);
    }
    SubstituteOpenFree(Segments(s, 0), EnvOf(fields));
  }

  lemma {:induction false} SubstituteOpenFree(segs: seq<Segment>, env: map<string, string>)
    requires ValidSegments(segs)
    requires forall k | k in env :: OpenFree(env[k])
    ensures OpenFree(Substitute(segs, env)) <==> HoleNames(segs) <= env.Keys
  {
    if segs != [] {
      SubstituteOpenFree(segs[1..], env);
      HoleNamesCons(segs[0], segs[1..]);
      assert segs == [segs[0]] + segs[1..];
      if segs[0].Hole? && segs[0].name !in env {
        assert Written(segs[0])[0] == '{';
      }
    }
  }

  // ---- How far the chain can be trusted ----

  function TwoFields(k1: string, t1: string, k2: string, t2: string): seq<Field> {
    [Field(k1, Scalar(t1)), Field(k2, Scalar(t2))]
  }

  ghost predicate ChainAgrees(s: string, fields: seq<Field>) {
    RenderChain(s, fields) == Substitute(Segments(s, 0), EnvOf(fields))
  }

  /** Whatever accepted template it goes into, and whatever other field is rendered after it,
      this text keeps the chain equal to the simultaneous substitution. */
  ghost predicate SafeText(t: string) {
    forall s, k1, k2, u |
      IsTemplateText(s) && k1 != k2 && '}' !in k1 && '}' !in k2 :: ChainAgrees(s, TwoFields(k1, t, k2, u))
  }

  /** Being free of `{` is not just enough for a text to be safe: it is necessary. */
  lemma {:induction false} SafeTextIff(t: string)
    ensures SafeText(t) <==> OpenFree(t)
  {
    if OpenFree(t) {
      forall s, k1, k2, u | IsTemplateText(s) && k1 != k2 && '}' !in k1 && '}' !in k2
        ensures ChainAgrees(s, TwoFields(k1, t, k2, u))
      {
        ChainIsSubstitution(s, TwoFields(k1, t, k2, u));
      }
    } else {
      var p, q := LastOpen(t);
      if '}' in q {
        var w, rest := CutAtClose(q);
        var k1 := if w == "a" then "b" else "a";
        assert t == p + Pattern(w) + rest;
        UnsafeAlone(t, p, w, rest, k1);
      } else {
        UnsafeBeforeHole(t, p, q);
      }
    }
  }

  lemma {:induction false} LastOpen(t: string) returns (p: string, q: string)
    requires '{' in t
    ensures t == p + "{" + q && '{' !in q
  {
    if '{' in t[1..] {
      p, q := LastOpen(t[1..]);
      p := [t[0]] + p;
    } else {
      p, q := "", t[1..];
    }
  }

  lemma {:induction false} CutAtClose(q: string) returns (w: string, rest: string)
    requires '}' in q
    ensures q == w + "}" + rest && '}' !in w
  {
    if q[0] == '}' {
      w, rest := "", q[1..];
    } else {
      w, rest := CutAtClose(q[1..]);
      w := [q[0]] + w;
    }
  }

  lemma {:induction false} OneHole(name: string, env: map<string, string>)
    ensures Unparse([Hole(name)]) == Pattern(name)
    ensures Substitute([Hole(name)], env) == if name in env then env[name] else Pattern(name)
  {
    assert Unparse([]) == "" && Substitute([], env) == "";
    assert [Hole(name)][1..] == [];
  }

  lemma {:induction false} TwoFieldsLaws(s: string, k1: string, t1: string, k2: string, t2: string)
    requires k1 != k2
    ensures RenderChain(s, TwoFields(k1, t1, k2, t2)) == Replace(Replace(s, Pattern(k1), t1), Pattern(k2), t2)
    ensures EnvOf(TwoFields(k1, t1, k2, t2)) == map[k1 := t1, k2 := t2]
  {
    var fields, second := TwoFields(k1, t1, k2, t2), [Field(k2, Scalar(t2))];
    var once := Replace(s, Pattern(k1), t1);
    assert fields[1..] == second && second[1..] == [];
    assert EnvOf(second) == map[k2 := t2];
    assert RenderChain(once, second) == RenderChain(Replace(once, Pattern(k2), t2), []);
  }

  /** The inserted text already spells another field's placeholder. */
  lemma {:induction false} UnsafeAlone(t: string, p: string, w: string, rest: string, k1: string)
    requires t == p + Pattern(w) + rest && '}' !in w && k1 != w && k1 in {"a", "b"}
    ensures !SafeText(t)
  {
    hide Replace, RenderChain, Substitute, Segments;
    var segs, s, env := [Hole(k1)], Pattern(k1), map[k1 := t, w := ""];
    OneHole(k1, env);
    assert ValidSegments(segs) && IsTemplateText(s);
    assert s[0..] == s;
    SegmentsOfUnparse(s, 0, segs);
    TwoFieldsLaws(s, k1, t, w, "");
    ReplaceHit("", k1, t);
    ReplaceShort("", k1, t);
    assert s + "" == s && t + "" == t;
    ReplaceShrinks(p, Pattern(w), rest);
    assert !ChainAgrees(s, TwoFields(k1, t, w, ""));
  }

  /** The inserted text opens a brace that the next placeholder closes. */
  lemma {:induction false} UnsafeBeforeHole(t: string, p: string, q: string)
    requires t == p + "{" + q && '}' !in q
    ensures !SafeText(t)
  {
    hide Replace, RenderChain, Substitute, Segments, EnvOf, IsTemplateText;
    var s, w := Pattern("a") + Pattern("x"), q + "{x";
    assert w[|q|] == '{' && |w| >= 2;
    HoleThenHole(t, map["a" := t, w := ""]);
    TwoFieldsLaws(s, "a", t, w, "");
    assert t + Pattern("x") == p + Pattern(w) + "";
    ReplaceShrinks(p, Pattern(w), "");
    assert !ChainAgrees(s, TwoFields("a", t, w, ""));
  }

  lemma {:induction false} HoleThenHole(t: string, env: map<string, string>)
    requires "a" in env && env["a"] == t && "x" !in env
    ensures var s := Pattern("a") + Pattern("x");
      && IsTemplateText(s)
      && Substitute(Segments(s, 0), env) == t + Pattern("x")
      && Replace(s, Pattern("a"), t) == t + Pattern("x")
  {
    hide Replace, Substitute, Segments, Unparse, Value;
    var segs, s := [Hole("a")] + [Hole("x")], Pattern("a") + Pattern("x");
    OneHole("a", env);
    OneHole("x", env);
    UnparseConcat([Hole("a")], [Hole("x")]);
    SubstituteConcat([Hole("a")], [Hole("x")], env);
    assert ValidSegments(segs);
    assert s[0..] == s;
    SegmentsOfUnparse(s, 0, segs);
    ReplaceHit(Pattern("x"), "a", t);
    ReplaceMiss(Hole("x"), "", "a", t);
    ReplaceShort("", "a", t);
    assert Pattern("x") + "" == Pattern("x");
  }

  lemma {:induction false} ReplaceNeverGrows(s: string, pat: string)
    requires pat != ""
    ensures |Replace(s, pat, "")| <= |s|
    decreases |s|
  {
    if |s| >= |pat| {
      ReplaceNeverGrows(if pat <= s then s[|pat|..] else s[1..], pat);
    }
  }

  lemma {:induction false} ReplaceShrinks(p: string, pat: string, rest: string)
    requires pat != ""
    ensures |Replace(p + pat + rest, pat, "")| < |p + pat + rest|
  {
    var s := p + pat + rest;
    if pat <= s {
      ReplaceNeverGrows(s[|pat|..], pat);
    } else {
      assert p != "" by { assert p == "" ==> s == pat + rest; }
      assert s[1..] == p[1..] + pat + rest;
      ReplaceShrinks(p[1..], pat, rest);
    }
  }

  // ---- Whole bodies ----

  /** `render_template_body` */
  function RenderBody(body: Json, fields: seq<Field>): Json
    decreases body
  {
    match body
    case Dict(keys, values) => Dict(keys, RenderAll(values, fields))
    case List(items) => List(RenderAll(items, fields))
    case Str(s) => Str(RenderChain(s, fields))
    case _ => body
  }

  function RenderAll(items: seq<Json>, fields: seq<Field>): seq<Json>
    decreases items
  {
    if items == [] then [] else [RenderBody(items[0], fields)] + RenderAll(items[1..], fields)
  }

  function SubstituteBody(body: Json, env: map<string, string>): Json
    decreases body
  {
    match body
    case Dict(keys, values) => Dict(keys, SubstituteAll(values, env))
    case List(items) => List(SubstituteAll(items, env))
    case Str(s) => Str(Substitute(Segments(s, 0), env))
    case _ => body
  }

  function SubstituteAll(items: seq<Json>, env: map<string, string>): seq<Json>
    decreases items
  {
    if items == [] then [] else [SubstituteBody(items[0], env)] + SubstituteAll(items[1..], env)
  }

  /** No string value of the tree holds a `{`. */
  predicate BodyOpenFree(body: Json)
    decreases body
  {
    match body
    case Dict(_, values) => AllOpenFree(values)
    case List(items) => AllOpenFree(items)
    case Str(s) => OpenFree(s)
    case _ => true
  }

  predicate AllOpenFree(items: seq<Json>)
    decreases items
  {
    items == [] || (BodyOpenFree(items[0]) && AllOpenFree(items[1..]))
  }

  /** On a body the validator accepts, rendering is one simultaneous substitution, and it leaves
      no `{` exactly when every collected placeholder has a value. */
  lemma {:induction false} RenderBodyIsSubstitution(body: Json, fields: seq<Field>, id: string)
    requires PayloadErrors(body, id) == []
    requires DistinctKeys(fields) && KeysClosed(fields) && TextsOpenFree(fields)
    ensures RenderBody(body, fields) == SubstituteBody(body, EnvOf(fields))
    ensures BodyOpenFree(RenderBody(body, fields)) <==> CollectPlaceholders(body) <= FieldKeys(fields)
    decreases body, 1
  {
    match body
    case Dict(_, values) => RenderAllIsSubstitution(values, fields, id);
    case List(items) => RenderAllIsSubstitution(items, fields, id);
    case Str(s) =>
      AcceptsExactlyTemplateTexts(s, id);
      ChainIsSubstitution(s, fields);
      FullyRenderedIff(s, fields);
    case _ =>
  }

  lemma {:induction false} RenderAllIsSubstitution(items: seq<Json>, fields: seq<Field>, id: string)
    requires AllErrors(items, id) == []
    requires DistinctKeys(fields) && KeysClosed(fields) && TextsOpenFree(fields)
    ensures RenderAll(items, fields) == SubstituteAll(items, EnvOf(fields))
    ensures AllOpenFree(RenderAll(items, fields)) <==> CollectAll(items) <= FieldKeys(fields)
    decreases items, 0
  {
    if items != [] {
      RenderBodyIsSubstitution(items[0], fields, id);
      RenderAllIsSubstitution(items[1..], fields, id);
    }
  }
}
