/** ASCII text helpers shared by the components: whitespace, letter case, splitting and
    joining, as Python's `str` methods behave on ASCII input. */
module Text {

  /** The ASCII characters `str.isspace` accepts: tab to carriage return, file to unit separator, space. */
  predicate IsSpace(c: char) {
    c == ' ' || '\t' <= c <= '\r' || '\U{1C}' <= c <= '\U{1F}'
  }

  function LowerChar(c: char): char {
    if 'A' <= c <= 'Z' then (c as int + 32) as char else c
  }

  function Lower(s: string): (r: string)
    ensures |r| == |s|
    ensures forall i | 0 <= i < |s| :: r[i] == LowerChar(s[i])
  {
    seq(|s|, i requires 0 <= i < |s| => LowerChar(s[i]))
  }

  predicate IsLower(s: string) {
    forall i | 0 <= i < |s| :: LowerChar(s[i]) == s[i]
  }

  lemma LowerFixed(s: string)
    requires IsLower(s)
    ensures Lower(s) == s
  {
  }

  lemma LowerIsLower(s: string)
    ensures IsLower(Lower(s))
  {
  }

  function StripLeft(s: string): (r: string)
    ensures |r| <= |s| && r == s[|s| - |r|..]
    ensures r != [] ==> !IsSpace(r[0])
    ensures s != [] && !IsSpace(s[0]) ==> r == s
  {
    if s != [] && IsSpace(s[0]) then StripLeft(s[1..]) else s
  }

  function StripRight(s: string): (r: string)
    ensures r <= s
    ensures r != [] ==> !IsSpace(r[|r| - 1])
    ensures s != [] && !IsSpace(s[|s| - 1]) ==> r == s
  {
    if s != [] && IsSpace(s[|s| - 1]) then StripRight(s[..|s| - 1]) else s
  }

  /** `str.strip()` */
  function Strip(s: string): string {
    StripRight(StripLeft(s))
  }

  /** No whitespace at either end. */
  predicate Trimmed(s: string) {
    s != [] ==> !IsSpace(s[0]) && !IsSpace(s[|s| - 1])
  }

  lemma {:induction false} StripTrimmed(s: string)
    ensures Trimmed(Strip(s))
    ensures Trimmed(s) ==> Strip(s) == s
    ensures exists i, j :: 0 <= i <= j <= |s| && Strip(s) == s[i..j]
  {
    hide StripLeft, StripRight, IsSpace;
    var l := StripLeft(s);
    var r := StripRight(l);
    assert r == s[|s| - |l|..|s| - |l| + |r|];
  }

  /** Stripping takes whitespace off both ends, and only that. */
  lemma {:induction false} StripIs(s: string) returns (left: string, right: string)
    ensures s == left + Strip(s) + right && Blank(left) && Blank(right)
  {
    hide StripLeft, StripRight, IsSpace, Blank;
    var l := StripLeft(s);
    var r := StripRight(l);
    left, right := s[..|s| - |l|], l[|r|..];
    StripLeftBlank(s);
    StripRightBlank(l);
    Around(left, r, right, s, l);
  }

  lemma Around(left: string, r: string, right: string, s: string, l: string)
    requires |l| <= |s| && l == s[|s| - |l|..] && r <= l && left == s[..|s| - |l|] && right == l[|r|..]
    ensures s == left + r + right
  {
    assert s == left + l && l == r + right;
  }

  lemma {:induction false} StripLeftBlank(s: string)
    ensures Blank(s[..|s| - |StripLeft(s)|])
  {
    if s != [] && IsSpace(s[0]) {
      StripLeftBlank(s[1..]);
      var n := |s| - |StripLeft(s)|;
      forall i | 0 <= i < n ensures IsSpace(s[i]) {
        if i > 0 { assert s[i] == s[1..][..n - 1][i - 1]; }
      }
    }
  }

  lemma {:induction false} StripRightBlank(s: string)
    ensures Blank(s[|StripRight(s)|..])
  {
    if s != [] && IsSpace(s[|s| - 1]) {
      var init := s[..|s| - 1];
      StripRightBlank(init);
      var n := |StripRight(s)|;
      forall i | n <= i < |s| ensures IsSpace(s[i]) {
        if i < |s| - 1 { assert s[i] == init[n..][i - n]; }
      }
      assert forall i | 0 <= i < |s[n..]| :: s[n..][i] == s[n + i];
    }
  }

  /** Stripping removes exactly the whitespace around a trimmed text. */
  lemma {:induction false} StripAround(left: string, s: string, right: string)
    requires Blank(left) && Blank(right) && Trimmed(s)
    ensures Strip(left + s + right) == s
  {
    hide StripLeft, StripRight, IsSpace;
    if s == [] {
      assert forall i | 0 <= i < |left + s + right| ::
        (left + s + right)[i] == if i < |left| then left[i] else right[i - |left|];
      StripEmpty(left + s + right);
    } else {
      assert left + s + right == left + (s + right);
      StripLeftOf(left, s + right);
      StripRightOf(s, right);
    }
  }

  lemma {:induction false} StripLeftOf(left: string, s: string)
    requires Blank(left) && s != [] && !IsSpace(s[0])
    ensures StripLeft(left + s) == s
  {
    hide IsSpace, Blank;
    if left == [] {
      assert left + s == s;
    } else {
      BlankTail(left);
      StripLeftOf(left[1..], s);
      assert (left + s)[1..] == left[1..] + s && (left + s)[0] == left[0];
    }
  }

  lemma {:induction false} StripRightOf(s: string, right: string)
    requires Blank(right) && s != [] && !IsSpace(s[|s| - 1])
    ensures StripRight(s + right) == s
  {
    hide IsSpace;
    if right == [] {
      assert s + right == s;
    } else {
      var init := right[..|right| - 1];
      assert forall i | 0 <= i < |init| :: init[i] == right[i];
      StripRightOf(s, init);
      assert (s + right)[..|s + right| - 1] == s + init;
    }
  }

  /** Stripping and lower-casing commute. */
  lemma {:induction false} StripLower(s: string)
    ensures Strip(Lower(s)) == Lower(Strip(s))
  {
    hide Strip, IsSpace, Lower;
    var left, right := StripIs(s);
    StripTrimmed(s);
    LowerConcat(left, Strip(s), right);
    LowerSpaces(left);
    LowerSpaces(right);
    LowerSpaces(Strip(s));
    StripAround(Lower(left), Lower(Strip(s)), Lower(right));
  }

  lemma LowerSpaces(s: string)
    ensures Blank(s) ==> Blank(Lower(s))
    ensures Trimmed(s) ==> Trimmed(Lower(s))
  {
    assert forall i | 0 <= i < |s| :: IsSpace(Lower(s)[i]) <==> IsSpace(s[i]);
  }

  predicate Blank(s: string) {
    forall i | 0 <= i < |s| :: IsSpace(s[i])
  }

  /** A string of whitespace strips to nothing, and nothing else does. */
  lemma {:induction false} StripEmpty(s: string)
    ensures Strip(s) == "" <==> Blank(s)
  {
    StripLeftEmpty(s);
    var l := StripLeft(s);
    if l != [] {
      StripRightNonEmpty(l);
      assert s[|s| - |l|] == l[0];
    }
  }

  lemma {:induction false} StripLeftEmpty(s: string)
    ensures StripLeft(s) == "" <==> Blank(s)
  {
    if s != [] && IsSpace(s[0]) {
      StripLeftEmpty(s[1..]);
      BlankTail(s);
    }
  }

  lemma BlankTail(s: string)
    requires s != []
    ensures Blank(s) <==> IsSpace(s[0]) && Blank(s[1..])
  {
    if IsSpace(s[0]) && Blank(s[1..]) {
      forall i | 0 <= i < |s| ensures IsSpace(s[i]) {
        assert i > 0 ==> s[i] == s[1..][i - 1];
      }
    }
  }

  lemma {:induction false} StripRightNonEmpty(s: string)
    requires s != [] && !IsSpace(s[0])
    ensures StripRight(s) != "" && StripRight(s)[0] == s[0]
  {
    if IsSpace(s[|s| - 1]) {
      StripRightNonEmpty(s[..|s| - 1]);
    }
  }

  // ---- Splitting at a character ----

  /** The pieces between the occurrences of `c`: `s.split(c)`. */
  function SplitOn(s: string, c: char): (parts: seq<string>)
    ensures parts != []
  {
    if s == [] then [""]
    else if s[0] == c then [""] + SplitOn(s[1..], c)
    else [[s[0]] + SplitOn(s[1..], c)[0]] + SplitOn(s[1..], c)[1..]
  }

  lemma {:induction false} SplitOfPart(part: string, c: char)
    requires c !in part
    ensures SplitOn(part, c) == [part]
  {
    if part != [] {
      SplitOfPart(part[1..], c);
      assert part == [part[0]] + part[1..] && [part[1..]][1..] == [];
    }
  }

  lemma {:induction false} SplitPartThen(part: string, c: char, rest: string)
    requires c !in part
    ensures SplitOn(part + [c] + rest, c) == [part] + SplitOn(rest, c)
  {
    var s := part + [c] + rest;
    if part == [] {
      assert s[0] == c && s[1..] == rest;
    } else {
      var t := part[1..];
      SplitPartThen(t, c, rest);
      assert part == [part[0]] + t && s[0] == part[0] && s[1..] == t + [c] + rest;
      assert ([t] + SplitOn(rest, c))[1..] == SplitOn(rest, c);
    }
  }

  // ---- Runs ----

  /** The maximal stretches of characters that satisfy `p`, in order. */
  function Runs(s: string, p: char -> bool): (r: seq<string>)
    ensures s != [] && p(s[0]) ==> r != []
  {
    if s == [] then []
    else if !p(s[0]) then Runs(s[1..], p)
    else if |s| > 1 && p(s[1]) then [[s[0]] + Runs(s[1..], p)[0]] + Runs(s[1..], p)[1..]
    else [[s[0]]] + Runs(s[1..], p)
  }

  predicate AllIn(s: string, p: char -> bool) {
    forall i | 0 <= i < |s| :: p(s[i])
  }

  predicate NoneIn(s: string, p: char -> bool) {
    forall i | 0 <= i < |s| :: !p(s[i])
  }

  lemma {:induction false} RunsCons(c: char, t: string, p: char -> bool)
    ensures !p(c) ==> Runs([c] + t, p) == Runs(t, p)
    ensures p(c) && (t == [] || !p(t[0])) ==> Runs([c] + t, p) == [[c]] + Runs(t, p)
    ensures p(c) && t != [] && p(t[0]) ==> Runs([c] + t, p) == [[c] + Runs(t, p)[0]] + Runs(t, p)[1..]
  {
    assert ([c] + t)[1..] == t;
  }

  /** A text of such characters is one run. */
  lemma {:induction false} RunsOfRun(w: string, p: char -> bool)
    requires w != [] && AllIn(w, p)
    ensures Runs(w, p) == [w]
  {
    var t := w[1..];
    assert w == [w[0]] + t;
    RunsCons(w[0], t, p);
    if t == [] {
      assert w == [w[0]] && [[w[0]]] + Runs(t, p) == [w];
    } else {
      assert forall i | 0 <= i < |t| :: t[i] == w[i + 1];
      RunsOfRun(t, p);
      assert Runs(t, p)[1..] == [] && [w] + [] == [w];
    }
  }

  /** A run, then anything that starts outside: the run comes first. */
  lemma {:induction false} RunThen(w: string, rest: string, p: char -> bool)
    requires w != [] && AllIn(w, p) && (rest == [] || !p(rest[0]))
    ensures Runs(w + rest, p) == [w] + Runs(rest, p)
  {
    var t := w[1..];
    assert w + rest == [w[0]] + (t + rest);
    RunsCons(w[0], t + rest, p);
    if t == [] {
      assert t + rest == rest && [w[0]] == w;
    } else {
      assert forall i | 0 <= i < |t| :: t[i] == w[i + 1];
      RunThen(t, rest, p);
      assert w == [w[0]] + t;
    }
  }

  /** Runs do not reach across a character outside. */
  lemma {:induction false} RunsApart(a: string, c: char, b: string, p: char -> bool)
    requires !p(c)
    ensures Runs(a + [c] + b, p) == Runs(a, p) + Runs(b, p)
  {
    if a == [] {
      assert a + [c] + b == [c] + b;
      RunsCons(c, b, p);
    } else {
      var t := a[1..];
      RunsApart(t, c, b, p);
      assert a == [a[0]] + t && a + [c] + b == [a[0]] + (t + [c] + b);
      RunsCons(a[0], t, p);
      RunsCons(a[0], t + [c] + b, p);
      if t == [] {
        assert t + [c] + b == [c] + b;
        assert [[a[0]]] + (Runs(t, p) + Runs(b, p)) == ([[a[0]]] + Runs(t, p)) + Runs(b, p);
      } else {
        assert (t + [c] + b)[0] == t[0];
        RunsHead(a[0], Runs(t, p), Runs(b, p));
      }
    }
  }

  lemma RunsHead(c: char, first: seq<string>, later: seq<string>)
    ensures first != [] ==> [[c] + (first + later)[0]] + (first + later)[1..] == ([[c] + first[0]] + first[1..]) + later
    ensures [[c]] + (first + later) == ([[c]] + first) + later
  {
  }

  lemma {:induction false} RunsNone(s: string, p: char -> bool)
    ensures Runs(s, p) == [] <==> NoneIn(s, p)
  {
    if s != [] {
      RunsNone(s[1..], p);
      assert forall i | 0 <= i < |s[1..]| :: s[1..][i] == s[i + 1];
      if NoneIn(s[1..], p) && !p(s[0]) {
        forall i | 0 <= i < |s| ensures !p(s[i]) {
          if i > 0 { assert s[i] == s[1..][i - 1]; }
        }
      }
    }
  }

  /** Characters outside, at either end, do not matter. */
  lemma {:induction false} RunsPadded(left: string, s: string, right: string, p: char -> bool)
    requires NoneIn(left, p) && NoneIn(right, p)
    ensures Runs(left + s + right, p) == Runs(s, p)
    decreases |left| + |right|
  {
    if left != [] {
      var t := left[1..];
      assert forall i | 0 <= i < |t| :: t[i] == left[i + 1];
      RunsPadded(t, s, right, p);
      assert left + s + right == [left[0]] + (t + s + right);
      RunsCons(left[0], t + s + right, p);
    } else if right != [] {
      assert left + s + right == s + [right[0]] + right[1..];
      RunsApart(s, right[0], right[1..], p);
      RunsNone(right[1..], p);
      assert forall i | 0 <= i < |right[1..]| :: right[1..][i] == right[i + 1];
    } else {
      assert left + s + right == s;
    }
  }

  lemma {:induction false} RunsShape(s: string, p: char -> bool)
    ensures forall k | 0 <= k < |Runs(s, p)| :: Runs(s, p)[k] != [] && AllIn(Runs(s, p)[k], p)
  {
    if s != [] {
      var rest := Runs(s[1..], p);
      RunsShape(s[1..], p);
    }
  }

  lemma {:induction false} RunsKeep(s: string, p: char -> bool, q: char -> bool)
    requires AllIn(s, q)
    ensures forall k | 0 <= k < |Runs(s, p)| :: AllIn(Runs(s, p)[k], q)
  {
    if s != [] {
      assert forall i | 0 <= i < |s[1..]| :: s[1..][i] == s[i + 1];
      RunsKeep(s[1..], p, q);
    }
  }

  // ---- Words ----

  predicate NonSpace(c: char) {
    !IsSpace(c)
  }

  predicate IsWord(w: string) {
    w != [] && forall i | 0 <= i < |w| :: !IsSpace(w[i])
  }

  /** `str.split()` */
  function Words(s: string): (ws: seq<string>) {
    Runs(s, NonSpace)
  }

  lemma WordsAreWords(s: string)
    ensures forall i | 0 <= i < |Words(s)| :: IsWord(Words(s)[i])
  {
    hide Runs, IsSpace;
    RunsShape(s, NonSpace);
    var ws := Words(s);
    forall i | 0 <= i < |ws| ensures IsWord(ws[i]) {
      assert ws[i] != [] && AllIn(ws[i], NonSpace);
      assert forall k | 0 <= k < |ws[i]| :: NonSpace(ws[i][k]);
    }
  }

  /** `sep.join(parts)` */
  function Join(sep: string, parts: seq<string>): string {
    if parts == [] then []
    else if |parts| == 1 then parts[0]
    else parts[0] + sep + Join(sep, parts[1..])
  }

  lemma WordsOfWordThen(w: string, rest: string)
    requires IsWord(w)
    requires rest == [] || IsSpace(rest[0])
    ensures Words(w + rest) == [w] + Words(rest)
  {
    hide Runs, IsSpace;
    assert forall i | 0 <= i < |w| :: NonSpace(w[i]);
    RunThen(w, rest, NonSpace);
  }

  /** Splitting at whitespace ignores stripped ends. */
  lemma WordsOfStrip(s: string)
    ensures Words(Strip(s)) == Words(s)
    ensures Words(Lower(Strip(s))) == Words(Lower(s))
  {
    hide Runs, Strip, IsSpace;
    var left, right := StripIs(s);
    assert forall i | 0 <= i < |left| :: IsSpace(left[i]);
    assert forall i | 0 <= i < |right| :: IsSpace(right[i]);
    RunsPadded(left, Strip(s), right, NonSpace);
    LowerConcat(left, Strip(s), right);
    LowerKeepsBlank(left);
    LowerKeepsBlank(right);
    RunsPadded(Lower(left), Lower(Strip(s)), Lower(right), NonSpace);
  }

  lemma LowerConcat(a: string, b: string, c: string)
    ensures Lower(a + b + c) == Lower(a) + Lower(b) + Lower(c)
  {
  }

  lemma LowerKeepsBlank(s: string)
    requires Blank(s)
    ensures NoneIn(Lower(s), NonSpace)
  {
    forall i | 0 <= i < |Lower(s)| ensures !NonSpace(Lower(s)[i]) {
      assert IsSpace(s[i]);
    }
  }

  /** Splitting undoes joining with a single space, for any list of words. */
  lemma {:induction false} WordsOfJoin(ws: seq<string>)
    requires forall i | 0 <= i < |ws| :: IsWord(ws[i])
    ensures Words(Join(" ", ws)) == ws
  {
    hide Runs, IsWord;
    if ws == [] {
      NoWords();
    } else if |ws| == 1 {
      NoWords();
      WordsOfWordThen(ws[0], "");
      assert ws[0] + "" == ws[0];
      assert ws == [ws[0]];
    } else if |ws| > 1 {
      var tail := Join(" ", ws[1..]);
      WordsOfJoin(ws[1..]);
      WordsOfWordThen(ws[0], " " + tail);
      assert ws[0] + " " + tail == ws[0] + (" " + tail);
      RunsCons(' ', tail, NonSpace);
      assert ws == [ws[0]] + ws[1..];
    }
  }

  lemma {:induction false} JoinWordsTrimmed(ws: seq<string>)
    requires forall i | 0 <= i < |ws| :: IsWord(ws[i])
    ensures Trimmed(Join(" ", ws))
    ensures ws != [] ==> Join(" ", ws) != []
  {
    if |ws| > 1 {
      JoinWordsTrimmed(ws[1..]);
    }
  }

  lemma NoWords()
    ensures Words("") == []
  {
  }

  lemma {:induction false} JoinAll(ws: seq<string>, p: char -> bool)
    requires p(' ')
    requires forall k | 0 <= k < |ws| :: AllIn(ws[k], p)
    ensures AllIn(Join(" ", ws), p)
  {
    if |ws| > 1 {
      JoinAll(ws[1..], p);
    }
  }

  /** `" ".join(text.split())` */
  function NormalizeWhitespace(s: string): string {
    Join(" ", Words(s))
  }

  /** Normalising whitespace is idempotent, trims, and only deletes the text of blank input. */
  lemma NormalizeWhitespaceLaws(s: string)
    ensures NormalizeWhitespace(NormalizeWhitespace(s)) == NormalizeWhitespace(s)
    ensures Trimmed(NormalizeWhitespace(s))
    ensures NormalizeWhitespace(s) == "" <==> Blank(s)
    ensures IsLower(s) ==> IsLower(NormalizeWhitespace(s))
  {
    hide Runs, Blank;
    WordsAreWords(s);
    WordsOfJoin(Words(s));
    JoinWordsTrimmed(Words(s));
    WordsEmpty(s);
    if IsLower(s) {
      var p := (c: char) => LowerChar(c) == c;
      assert AllIn(s, p);
      RunsKeep(s, NonSpace, p);
      JoinAll(Words(s), p);
      assert AllIn(NormalizeWhitespace(s), p);
    }
  }

  lemma {:induction false} WordsEmpty(s: string)
    ensures Words(s) == [] <==> Blank(s)
  {
    hide Runs, IsSpace;
    RunsNone(s, NonSpace);
    assert forall i | 0 <= i < |s| :: NonSpace(s[i]) <==> !IsSpace(s[i]);
  }

  /** Lexicographic order by code point: Python's `<=` on strings. */
  predicate StrLe(a: string, b: string) {
    a == [] || (b != [] && (a[0] < b[0] || (a[0] == b[0] && StrLe(a[1..], b[1..]))))
  }

  /** The texts agree before position `i`, where the first has the smaller character. */
  ghost predicate LessAt(a: string, b: string, i: nat) {
    i < |a| && i < |b| && a[..i] == b[..i] && a[i] < b[i]
  }

  lemma {:induction false} LessAtTail(a: string, b: string, i: nat)
    requires a != [] && b != [] && a[0] == b[0]
    ensures LessAt(a, b, i + 1) <==> LessAt(a[1..], b[1..], i)
  {
    if i < |a[1..]| && i < |b[1..]| {
      assert a[..i + 1] == [a[0]] + a[1..][..i] && b[..i + 1] == [b[0]] + b[1..][..i];
      assert a[..i + 1][1..] == a[1..][..i] && b[..i + 1][1..] == b[1..][..i];
    }
  }

  lemma LessAtHead(a: string, b: string, i: nat)
    requires a != [] && b != []
    ensures LessAt(a, b, 0) <==> a[0] < b[0]
    ensures LessAt(a, b, i) && i > 0 ==> a[0] == b[0]
  {
    if LessAt(a, b, i) && i > 0 {
      assert a[..i][0] == a[0] && b[..i][0] == b[0];
    }
  }

  /** A prefix comes first, and otherwise the smaller character at the first difference. */
  lemma {:induction false} StrLeIff(a: string, b: string)
    ensures StrLe(a, b) <==> a <= b || exists i: nat :: LessAt(a, b, i)
  {
    hide LessAt;
    if a == [] || b == [] {
      assert forall i: nat :: !LessAt(a, b, i) by { NotLessAt(a, b); }
    } else {
      StrLeIff(a[1..], b[1..]);
      assert a == [a[0]] + a[1..] && b == [b[0]] + b[1..];
      LessAtHead(a, b, 0);
      forall i: nat ensures a[0] == b[0] ==> (LessAt(a, b, i + 1) <==> LessAt(a[1..], b[1..], i)) {
        if a[0] == b[0] { LessAtTail(a, b, i); }
      }
      forall i: nat ensures LessAt(a, b, i) && i > 0 ==> a[0] == b[0] {
        LessAtHead(a, b, i);
      }
      if a[0] == b[0] {
        if i: nat :| LessAt(a, b, i) {
          assert i > 0;
          var k: nat := i - 1;
          assert LessAt(a, b, k + 1);
          assert LessAt(a[1..], b[1..], k);
        }
      }
    }
  }

  lemma NotLessAt(a: string, b: string)
    requires a == [] || b == []
    ensures forall i: nat :: !LessAt(a, b, i)
  {
  }

  lemma StrLeTotal(a: string, b: string)
    ensures StrLe(a, b) || StrLe(b, a)
  {
  }

  lemma {:induction false} StrLeAntisymmetric(a: string, b: string)
    requires StrLe(a, b) && StrLe(b, a)
    ensures a == b
  {
    if a != [] && b != [] {
      StrLeAntisymmetric(a[1..], b[1..]);
      assert a == [a[0]] + a[1..] && b == [b[0]] + b[1..];
    }
  }

  lemma StrLeTransitive(a: string, b: string, c: string)
    requires StrLe(a, b) && StrLe(b, c)
    ensures StrLe(a, c)
  {
  }

  // ---- Keys: three parts joined by `|` ----

  function FirstPipe(s: string): nat {
    if s == [] || s[0] == '|' then 0 else 1 + FirstPipe(s[1..])
  }

  lemma {:induction false} FirstPipeAt(p: string, rest: string)
    requires '|' !in p
    ensures FirstPipe(p + "|" + rest) == |p|
  {
    if p != [] {
      FirstPipeAt(p[1..], rest);
      assert (p + "|" + rest)[1..] == p[1..] + "|" + rest;
      assert p[0] in p;
    }
  }

  function LastPipe(s: string): nat {
    if s == [] || s[|s| - 1] == '|' then 0 else 1 + LastPipe(s[..|s| - 1])
  }

  lemma {:induction false} LastPipeAt(rest: string, p: string)
    requires '|' !in p
    ensures LastPipe(rest + "|" + p) == |p|
  {
    if p != [] {
      var init := p[..|p| - 1];
      LastPipeAt(rest, init);
      assert (rest + "|" + p)[..|rest + "|" + p| - 1] == rest + "|" + init;
      assert p[|p| - 1] in p;
    }
  }

  /** When the outer parts hold no `|`, a key determines its three parts. */
  lemma {:induction false} SplitKey(s1: string, r1: string, o1: string, s2: string, r2: string, o2: string)
    requires '|' !in s1 && '|' !in s2 && '|' !in o1 && '|' !in o2
    requires s1 + "|" + r1 + "|" + o1 == s2 + "|" + r2 + "|" + o2
    ensures s1 == s2 && r1 == r2 && o1 == o2
  {
    var k1, k2 := s1 + "|" + (r1 + "|" + o1), s2 + "|" + (r2 + "|" + o2);
    assert k1 == s1 + "|" + r1 + "|" + o1 && k2 == s2 + "|" + r2 + "|" + o2;
    FirstPipeAt(s1, r1 + "|" + o1);
    FirstPipeAt(s2, r2 + "|" + o2);
    assert s1 == k1[..|s1|] == s2;
    var t1, t2 := r1 + "|" + o1, r2 + "|" + o2;
    assert t1 == k1[|s1| + 1..] == t2;
    LastPipeAt(r1, o1);
    LastPipeAt(r2, o2);
    assert r1 == t1[..|t1| - |o1| - 1] == r2 && o1 == t1[|t1| - |o1|..] == o2;
  }

  function Pipes(s: string): nat {
    if s == [] then 0 else (if s[0] == '|' then 1 else 0) + Pipes(s[1..])
  }

  lemma {:induction false} PipesConcat(a: string, b: string)
    ensures Pipes(a + b) == Pipes(a) + Pipes(b)
  {
    if a == [] {
      assert a + b == b;
    } else {
      PipesConcat(a[1..], b);
      assert (a + b)[1..] == a[1..] + b;
    }
  }

  lemma {:induction false} NoPipesIff(s: string)
    ensures Pipes(s) == 0 <==> '|' !in s
  {
    if s != [] {
      NoPipesIff(s[1..]);
      assert s == [s[0]] + s[1..];
    }
  }

  lemma {:induction false} KeyPipes(s: string, r: string, o: string)
    ensures Pipes(s + "|" + r + "|" + o) == Pipes(s) + Pipes(r) + Pipes(o) + 2
  {
    PipesConcat(s + "|" + r + "|", o);
    PipesConcat(s + "|" + r, "|");
    PipesConcat(s + "|", r);
    PipesConcat(s, "|");
  }
}
