/** `sorted(s)` for a set of strings. */
module StringSets {
  import opened Text

  predicate IsMin(m: string, s: set<string>) {
    m in s && forall x | x in s :: StrLe(m, x)
  }

  lemma {:induction false} MinExistsUnique(s: set<string>)
    requires s != {}
    ensures exists m :: IsMin(m, s)
    ensures forall m, n | IsMin(m, s) && IsMin(n, s) :: m == n
    decreases |s|
  {
    var m :| m in s;
    var rest := s - {m};
    StrLeTotal(m, m);
    if rest == {} {
      assert s == {m} && IsMin(m, s);
    } else {
      MinExistsUnique(rest);
      var n :| IsMin(n, rest);
      StrLeTotal(m, n);
      var least := if StrLe(m, n) then m else n;
      forall x | x in s ensures StrLe(least, x) {
        if x != m && StrLe(m, n) { StrLeTransitive(m, n, x); }
      }
      assert IsMin(least, s);
    }
    forall m, n | IsMin(m, s) && IsMin(n, s) ensures m == n {
      StrLeAntisymmetric(m, n);
    }
  }

  predicate StrictlySorted(r: seq<string>) {
    forall i, j | 0 <= i < j < |r| :: StrLe(r[i], r[j]) && r[i] != r[j]
  }

  function Least(s: set<string>): (m: string)
    requires s != {}
    ensures IsMin(m, s)
  {
    MinExistsUnique(s);
    var m :| IsMin(m, s);
    m
  }

  function SortedIds(s: set<string>): seq<string>
    decreases |s|
  {
    if s == {} then [] else [Least(s)] + SortedIds(s - {Least(s)})
  }

  lemma {:induction false} SortedIdsLaws(s: set<string>)
    ensures forall x :: x in SortedIds(s) <==> x in s
    ensures StrictlySorted(SortedIds(s))
    ensures |SortedIds(s)| == |s|
    decreases |s|
  {
    hide StrLe;
    if s != {} {
      SortedIdsLaws(s - {Least(s)});
      ConsSorted(Least(s), SortedIds(s - {Least(s)}), s);
    }
  }

  lemma {:induction false} ConsSorted(m: string, rest: seq<string>, s: set<string>)
    requires IsMin(m, s) && StrictlySorted(rest) && forall x :: x in rest <==> x in s - {m}
    ensures StrictlySorted([m] + rest) && forall x :: x in [m] + rest <==> x in s
  {
    hide StrLe;
    forall i | 0 <= i < |rest| ensures StrLe(m, rest[i]) && m != rest[i] {
      assert rest[i] in rest;
    }
  }

  lemma SortedIdsInjective(a: set<string>, b: set<string>)
    requires SortedIds(a) == SortedIds(b)
    ensures a == b
  {
    SortedIdsLaws(a);
    SortedIdsLaws(b);
    forall x ensures x in a <==> x in b {
      assert x in SortedIds(a) <==> x in SortedIds(b);
    }
  }
}
