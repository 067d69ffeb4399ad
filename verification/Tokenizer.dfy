/** Tokenisation for retrieval (src/vcse/index/tokenizer.py), on ASCII text. */
module Tokenizer {
  import opened Text

  function DropSpaces(s: string): (r: string)
    ensures |r| <= |s| && r == s[|s| - |r|..]
    ensures r != [] ==> !IsSpace(r[0])
  {
    if s != [] && IsSpace(s[0]) then DropSpaces(s[1..]) else s
  }

  /** `re.sub(r"\s+", " ", s)` */
  function Collapse(s: string): string
    decreases |s|
  {
    if s == [] then []
    else if IsSpace(s[0]) then " " + Collapse(DropSpaces(s[1..]))
    else [s[0]] + Collapse(s[1..])
  }

  /** `normalize_text`, without a hint. */
  function NormalizeText(text: string): string {
    Strip(Collapse(Lower(text)))
  }

  predicate IsTokenChar(c: char) {
    'a' <= c <= 'z' || '0' <= c <= '9' || c == '_'
  }

  /** The non-empty pieces of splitting on `[^a-z0-9_]+`. */
  function TokenRuns(s: string): seq<string> {
    Runs(s, IsTokenChar)
  }

  /** `tokenize` */
  function Tokenize(text: string): seq<string> {
    TokenRuns(Strip(Lower(text)))
  }

  /** `normalized_tokens`, without a hint. */
  function NormalizedTokens(text: string): seq<string> {
    Tokenize(NormalizeText(text))
  }

  // ---- Normal forms ----

  /** Every whitespace character is a single space between other characters, or at an end. */
  ghost predicate Collapsed(s: string) {
    && (forall i | 0 <= i < |s| :: IsSpace(s[i]) ==> s[i] == ' ')
    && (forall i, j | 0 <= i < j < |s| && j == i + 1 :: IsSpace(s[i]) ==> !IsSpace(s[j]))
  }

  lemma {:induction false} CollapseLaws(s: string)
    ensures Collapsed(Collapse(s))
    ensures Collapse(s) != [] ==> s != [] && (IsSpace(Collapse(s)[0]) <==> IsSpace(s[0]))
    ensures IsLower(s) ==> IsLower(Collapse(s))
    decreases |s|
  {
    if s != [] {
      var first := if IsSpace(s[0]) then ' ' else s[0];
      var rest := if IsSpace(s[0]) then DropSpaces(s[1..]) else s[1..];
      CollapseLaws(rest);
      assert Collapse(s) == [first] + Collapse(rest);
    }
  }

  lemma {:induction false} CollapsedTail(s: string)
    requires Collapsed(s) && s != []
    ensures Collapsed(s[1..])
    ensures IsSpace(s[0]) ==> s[0] == ' ' && DropSpaces(s[1..]) == s[1..]
  {
    hide IsSpace;
    SliceCollapsed(s, 1, |s|);
    assert s[1..|s|] == s[1..];
  }

  lemma {:induction false} CollapseFixed(s: string)
    requires Collapsed(s)
    ensures Collapse(s) == s
  {
    hide IsSpace, Collapsed, Collapse;
    if s == [] {
      CollapseEmpty();
    } else {
      CollapsedTail(s);
      CollapseStep(s);
      CollapseFixed(s[1..]);
      assert s == [s[0]] + s[1..];
    }
  }

  lemma {:induction false} CollapseStep(s: string)
    requires s != [] && (IsSpace(s[0]) ==> s[0] == ' ' && DropSpaces(s[1..]) == s[1..])
    ensures Collapse(s) == [s[0]] + Collapse(s[1..])
  {
  }

  lemma CollapseEmpty()
    ensures Collapse([]) == []
  {
  }

  /** Normalising is idempotent, so tokenising the normal form gives the same tokens again. */
  lemma {:induction false} NormalizeIdempotent(text: string)
    ensures NormalizeText(NormalizeText(text)) == NormalizeText(text)
    ensures NormalizedTokens(NormalizeText(text)) == NormalizedTokens(text)
  {
    hide Collapse, Strip, Collapsed, IsLower, Trimmed, Lower, Tokenize;
    var c := Collapse(Lower(text));
    LowerIsLower(text);
    CollapseLaws(Lower(text));
    StripTrimmed(c);
    var i, j :| 0 <= i <= j <= |c| && Strip(c) == c[i..j];
    SliceCollapsed(c, i, j);
    SliceLower(c, i, j);
    var n := Strip(c);
    LowerFixed(n);
    CollapseFixed(n);
    StripTrimmed(n);
  }

  lemma {:induction false} RunsOfDropSpaces(s: string)
    ensures Runs(DropSpaces(s), IsTokenChar) == Runs(s, IsTokenChar)
  {
    hide Runs, IsTokenChar, IsSpace;
    if s != [] && IsSpace(s[0]) {
      RunsOfDropSpaces(s[1..]);
      SpaceIsNoToken(s[0]);
      assert s == [s[0]] + s[1..];
      RunsCons(s[0], s[1..], IsTokenChar);
    }
  }

  lemma {:induction false} CollapseFirst(s: string)
    ensures Collapse(s) == [] <==> s == []
    ensures s != [] ==> (IsTokenChar(Collapse(s)[0]) <==> IsTokenChar(s[0]))
  {
  }

  lemma {:induction false} RunsOfCollapse(s: string)
    ensures Runs(Collapse(s), IsTokenChar) == Runs(s, IsTokenChar)
    decreases |s|
  {
    hide Runs, IsTokenChar, IsSpace;
    if s != [] {
      var t := s[1..];
      assert s == [s[0]] + t;
      RunsCons(s[0], t, IsTokenChar);
      if IsSpace(s[0]) {
        RunsOfCollapse(DropSpaces(t));
        RunsOfDropSpaces(t);
        SpaceIsNoToken(s[0]);
        RunsCons(' ', Collapse(DropSpaces(t)), IsTokenChar);
      } else {
        RunsOfCollapse(t);
        CollapseFirst(t);
        RunsCons(s[0], Collapse(t), IsTokenChar);
      }
    }
  }

  lemma SpaceIsNoToken(c: char)
    requires IsSpace(c)
    ensures !IsTokenChar(c) && !IsTokenChar(' ')
  {
  }

  lemma {:induction false} RunsOfStrip(s: string)
    ensures Runs(Strip(s), IsTokenChar) == Runs(s, IsTokenChar)
  {
    hide Runs, Strip, IsTokenChar, IsSpace;
    var left, right := StripIs(s);
    forall i | 0 <= i < |left| ensures !IsTokenChar(left[i]) { SpaceIsNoToken(left[i]); }
    forall i | 0 <= i < |right| ensures !IsTokenChar(right[i]) { SpaceIsNoToken(right[i]); }
    RunsPadded(left, Strip(s), right, IsTokenChar);
  }

  /** The tokens of a text are the runs of letters, digits and underscores of its lower-cased form:
      neither collapsing nor stripping whitespace adds, loses or reorders one. */
  lemma {:induction false} TokensAre(text: string)
    ensures NormalizedTokens(text) == Runs(Lower(text), IsTokenChar)
  {
    hide Collapse, Strip, Lower, Runs, IsTokenChar;
    var n := NormalizeText(text);
    NormalizedIsLower(text);
    RunsOfStrip(n);
    RunsOfStrip(Collapse(Lower(text)));
    RunsOfCollapse(Lower(text));
  }

  lemma {:induction false} NormalizedIsLower(text: string)
    ensures Lower(NormalizeText(text)) == NormalizeText(text)
  {
    hide Collapse, Strip, Collapsed, IsLower, Trimmed, Lower;
    var c := Collapse(Lower(text));
    LowerIsLower(text);
    CollapseLaws(Lower(text));
    StripTrimmed(c);
    var i, j :| 0 <= i <= j <= |c| && Strip(c) == c[i..j];
    SliceLower(c, i, j);
    LowerFixed(Strip(c));
  }

  lemma {:induction false} SliceCollapsed(c: string, i: nat, j: nat)
    requires i <= j <= |c| && Collapsed(c)
    ensures Collapsed(c[i..j])
  {
    hide IsSpace;
    var n := c[i..j];
    forall k | 0 <= k < |n| ensures IsSpace(n[k]) ==> n[k] == ' ' {
      assert n[k] == c[i + k];
    }
    forall k, l | 0 <= k < l < |n| && l == k + 1 ensures IsSpace(n[k]) ==> !IsSpace(n[l]) {
      assert n[k] == c[i + k] && n[l] == c[i + l];
    }
  }

  lemma {:induction false} SliceLower(c: string, i: nat, j: nat)
    requires i <= j <= |c| && IsLower(c)
    ensures IsLower(c[i..j])
  {
  }
}
