/** String interning (src/vcse/compression/interner.py): ids are dense and in first-seen order, the
    two tables invert each other, and saving under decimal keys and loading gives the tables back. */
module Interning {
  import opened Json
  import Text

  // ---- Decimal keys ----

  function Digit(d: nat): char
    requires d < 10
  {
    ('0' as int + d) as char
  }

  /** `str(n)` */
  function Decimal(n: nat): string {
    if n < 10 then [Digit(n)] else Decimal(n / 10) + [Digit(n % 10)]
  }

  /** Decimal digits, with single underscores between them allowed. */
  function ParseDigits(s: string): Option<nat> {
    if s == "" then None
    else
      var c := s[|s| - 1];
      if !('0' <= c <= '9') then None
      else
        var d := c as int - '0' as int;
        if |s| == 1 then Some(d)
        else
          var rest := s[..|s| - 1];
          match ParseDigits(if rest[|rest| - 1] == '_' then rest[..|rest| - 1] else rest)
          case None => None
          case Some(n) => Some(10 * n + d)
  }

  function Signed(sign: char, n: int): int {
    if sign == '-' then -n else n
  }

  /** `int(s)`: surrounding whitespace, a sign and digits; `None` is the ValueError. */
  function ParseInt(s: string): Option<int> {
    var t := Text.Strip(s);
    if t != "" && (t[0] == '+' || t[0] == '-') then
      match ParseDigits(t[1..])
      case None => None
      case Some(n) => Some(Signed(t[0], n))
    else
      match ParseDigits(t)
      case None => None
      case Some(n) => Some(n)
  }

  predicate AllDigits(s: string) {
    forall i | 0 <= i < |s| :: '0' <= s[i] <= '9'
  }

  lemma {:induction false} DigitsOfDecimal(n: nat)
    ensures Decimal(n) != "" && AllDigits(Decimal(n)) && ParseDigits(Decimal(n)) == Some(n)
  {
    var c := Digit(n % 10);
    assert '0' <= c <= '9' && c as int - '0' as int == n % 10;
    if n >= 10 {
      DigitsOfDecimal(n / 10);
      assert Decimal(n)[..|Decimal(n)| - 1] == Decimal(n / 10);
    } else {
      assert Decimal(n) == [c];
    }
  }

  /** Reading a written number gives it back. */
  lemma {:induction false} ParseOfDecimal(n: nat)
    ensures ParseInt(Decimal(n)) == Some(n)
  {
    hide Decimal, ParseDigits, Text.Strip;
    DigitsOfDecimal(n);
    var s := Decimal(n);
    assert '0' <= s[0] <= '9' && '0' <= s[|s| - 1] <= '9';
    Text.StripTrimmed(s);
  }

  // ---- Name lists ----

  predicate NoRepeats(names: seq<string>) {
    forall i, j | 0 <= i < j < |names| :: names[i] != names[j]
  }

  function IndexOf(names: seq<string>, s: string): (i: nat)
    requires s in names
    ensures i < |names| && names[i] == s
  {
    if names[0] == s then 0 else 1 + IndexOf(names[1..], s)
  }

  function Extend(names: seq<string>, s: string): seq<string> {
    if s in names then names else names + [s]
  }

  function ExtendAll(names: seq<string>, added: seq<string>): seq<string>
    decreases |added|
  {
    if added == [] then names else ExtendAll(Extend(names, added[0]), added[1..])
  }

  lemma {:induction false} ExtendLaws(names: seq<string>, s: string)
    requires NoRepeats(names)
    ensures NoRepeats(Extend(names, s)) && names <= Extend(names, s) && s in Extend(names, s)
  {
  }

  lemma {:induction false} ExtendAllLaws(names: seq<string>, added: seq<string>)
    requires NoRepeats(names)
    ensures NoRepeats(ExtendAll(names, added)) && names <= ExtendAll(names, added)
    ensures forall s | s in added :: s in ExtendAll(names, added)
    ensures (forall s | s in added :: s in names) ==> ExtendAll(names, added) == names
    decreases |added|
  {
    hide NoRepeats, Extend;
    if added != [] {
      var next := Extend(names, added[0]);
      ExtendLaws(names, added[0]);
      ExtendAllLaws(next, added[1..]);
      assert added == [added[0]] + added[1..];
      PrefixKeeps(next, ExtendAll(names, added), added[0]);
      if forall s | s in added :: s in names {
        assert next == names by { ExtendSame(names, added[0]); }
      }
    }
  }

  lemma ExtendSame(names: seq<string>, s: string)
    requires s in names
    ensures Extend(names, s) == names
  {
  }

  lemma PrefixKeeps(a: seq<string>, b: seq<string>, s: string)
    requires a <= b && s in a
    ensures s in b
  {
    var i :| 0 <= i < |a| && a[i] == s;
    assert b[i] == s;
  }

  lemma {:induction false} ExtendAllConcat(names: seq<string>, a: seq<string>, b: seq<string>)
    ensures ExtendAll(names, a + b) == ExtendAll(ExtendAll(names, a), b)
    decreases |a|
  {
    if a == [] {
      assert a + b == b;
    } else {
      assert (a + b)[1..] == a[1..] + b;
      ExtendAllConcat(Extend(names, a[0]), a[1..], b);
    }
  }

  /** The position of a name does not change as names are added. */
  lemma {:induction false} IndexStable(names: seq<string>, more: seq<string>, s: string)
    requires names <= more && s in names
    ensures s in more && IndexOf(more, s) == IndexOf(names, s)
  {
    assert more[0] == names[0];
    if names[0] != s {
      assert names == [names[0]] + names[1..];
      assert s in names[1..];
      IndexStable(names[1..], more[1..], s);
    }
  }

  lemma {:induction false} IndexUnique(names: seq<string>, i: nat)
    requires NoRepeats(names) && i < |names|
    ensures IndexOf(names, names[i]) == i
  {
  }

  // ---- The two tables ----

  function IdTable(names: seq<string>): map<string, int> {
    map s | s in names :: IndexOf(names, s)
  }

  function NameTable(names: seq<string>): map<int, string> {
    map i: int | 0 <= i < |names| :: names[i]
  }

  /** The stored form: ordered dictionaries, the ids of the second one as decimal text. */
  datatype Stored = Stored(stringToId: seq<(string, int)>, idToString: seq<(string, string)>)

  function StoredOf(names: seq<string>): Stored {
    Stored(seq(|names|, i requires 0 <= i < |names| => (names[i], i)),
           seq(|names|, i requires 0 <= i < |names| => (Decimal(i), names[i])))
  }

  class Interner {
    var s2i: map<string, int>
    var i2s: map<int, string>
    ghost var names: seq<string>

    /** The tables list `names`, without repeats, under their positions. */
    ghost predicate Valid()
      reads this
    {
      NoRepeats(names) && s2i == IdTable(names) && i2s == NameTable(names)
    }

    constructor ()
      ensures Valid() && names == []
    {
      s2i, i2s, names := map[], map[], [];
    }

    /** `intern` */
    method Intern(value: string) returns (id: int)
      requires Valid()
      modifies this
      ensures Valid()
      ensures names == Extend(old(names), value)
      ensures value in names && id == IndexOf(names, value)
    {
      if value in s2i {
        return s2i[value];
      }
      TableSize(names);
      var nextId := |s2i|;
      AddName(names, value);
      s2i := s2i[value := nextId];
      i2s := i2s[nextId := value];
      names := names + [value];
      id := nextId;
    }

    /** `resolve`; `None` is the `InterningError`. */
    method Resolve(id: int) returns (r: Option<string>)
      requires Valid()
      ensures r.Some? <==> 0 <= id < |names|
      ensures r.Some? ==> r.value in names && IndexOf(names, r.value) == id
      ensures forall s | s in names :: r == Some(s) <==> id == IndexOf(names, s)
    {
      if id in i2s {
        IndexUnique(names, id);
      }
      r := if id in i2s then Some(i2s[id]) else None;
    }

    /** `to_dict`, in the tables' insertion order. */
    method ToDict() returns (data: Stored)
      requires Valid()
      ensures data == StoredOf(names)
    {
      var byName: seq<(string, int)>, byId: seq<(string, string)> := [], [];
      var i := 0;
      TableSize(names);
      while i < |s2i|
        invariant 0 <= i <= |names| == |s2i|
        invariant byName == StoredOf(names).stringToId[..i] && byId == StoredOf(names).idToString[..i]
      {
        byName := byName + [(i2s[i], i)];
        byId := byId + [(Decimal(i), i2s[i])];
        i := i + 1;
      }
      data := Stored(byName, byId);
    }
  }

  lemma {:induction false} TableSize(names: seq<string>)
    requires NoRepeats(names)
    ensures |IdTable(names)| == |names|
  {
    if names != [] {
      var init, last := names[..|names| - 1], names[|names| - 1];
      assert names == init + [last];
      TableSize(init);
      AddName(init, last);
    }
  }

  lemma {:induction false} AddName(names: seq<string>, value: string)
    requires NoRepeats(names) && value !in names
    ensures NoRepeats(names + [value])
    ensures IdTable(names + [value]) == IdTable(names)[value := |names|]
    ensures NameTable(names + [value]) == NameTable(names)[|names| := value]
  {
    var more := names + [value];
    forall s | s in names ensures IndexOf(more, s) == IndexOf(names, s) {
      IndexStable(names, more, s);
    }
    IndexUnique(more, |names|);
  }

  // ---- Loading ----

  function LoadNames(pairs: seq<(string, int)>): map<string, int> {
    if pairs == [] then map[]
    else LoadNames(pairs[..|pairs| - 1])[pairs[|pairs| - 1].0 := pairs[|pairs| - 1].1]
  }

  function LoadIds(pairs: seq<(string, string)>): Option<map<int, string>> {
    if pairs == [] then Some(map[])
    else
      var init, id := LoadIds(pairs[..|pairs| - 1]), ParseInt(pairs[|pairs| - 1].0);
      if init.Some? && id.Some? then Some(init.value[id.value := pairs[|pairs| - 1].1]) else None
  }

  /** `from_dict`: the two tables, or `None` when a key is no number. */
  method FromDict(data: Stored) returns (s2i: map<string, int>, i2s: Option<map<int, string>>)
    ensures s2i == LoadNames(data.stringToId)
    ensures i2s == LoadIds(data.idToString)
  {
    hide ParseInt;
    s2i := map[];
    for k := 0 to |data.stringToId|
      invariant s2i == LoadNames(data.stringToId[..k])
    {
      var pair := data.stringToId[k];
      assert data.stringToId[..k + 1][..k] == data.stringToId[..k];
      s2i := s2i[pair.0 := pair.1];
    }
    assert data.stringToId[..|data.stringToId|] == data.stringToId;
    var ids: map<int, string> := map[];
    for k := 0 to |data.idToString|
      invariant LoadIds(data.idToString[..k]) == Some(ids)
    {
      var pair := data.idToString[k];
      var id := ParseInt(pair.0);
      assert data.idToString[..k + 1][..k] == data.idToString[..k];
      if id.None? {
        LoadIdsStuck(data.idToString, k + 1);
        return s2i, None;
      }
      ids := ids[id.value := pair.1];
    }
    assert data.idToString[..|data.idToString|] == data.idToString;
    i2s := Some(ids);
  }

  lemma {:induction false} LoadIdsStuck(pairs: seq<(string, string)>, k: nat)
    requires k <= |pairs| && LoadIds(pairs[..k]).None?
    ensures LoadIds(pairs).None?
    decreases |pairs| - k
  {
    if k < |pairs| {
      assert pairs[..k + 1][..k] == pairs[..k];
      LoadIdsStuck(pairs, k + 1);
    } else {
      assert pairs[..k] == pairs;
    }
  }

  /** Saving and loading gives both tables back. */
  lemma {:induction false} StoredRoundTrip(names: seq<string>)
    requires NoRepeats(names)
    ensures LoadNames(StoredOf(names).stringToId) == IdTable(names)
    ensures LoadIds(StoredOf(names).idToString) == Some(NameTable(names))
  {
    hide IdTable, NameTable, Decimal, ParseInt;
    if names == [] {
      EmptyTables();
    } else {
      var init, last := names[..|names| - 1], names[|names| - 1];
      assert names == init + [last];
      StoredRoundTrip(init);
      AddName(init, last);
      ParseOfDecimal(|init|);
      var s, s0 := StoredOf(names), StoredOf(init);
      assert s.stringToId[..|names| - 1] == s0.stringToId;
      assert s.idToString[..|names| - 1] == s0.idToString;
    }
  }

  lemma EmptyTables()
    ensures IdTable([]) == map[] && NameTable([]) == map[]
  {
  }
}
