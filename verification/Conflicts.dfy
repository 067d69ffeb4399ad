/** Global conflict detection (src/vcse/conflict/detector.py, `detect_global_conflicts`): pairwise
    violations of functional relations, grouped and sorted. */
module Conflicts {
  import opened Text
  import opened StringSets
  import Sorting

  /** A claim record, by the texts of the fields the detector reads. */
  datatype PackClaim = PackClaim(subject: string, relation: string, obj: string, packId: string, claimId: string,
    sourceId: string)

  datatype Conflict = Conflict(
    subject: string,
    relation: string,
    objectA: string,
    objectB: string,
    sourceA: string,
    sourceB: string,
    packIds: seq<string>,
    provenanceRefs: seq<string>)

  /** A group: the stripped subject and relation. */
  datatype Slot = Slot(subject: string, relation: string)

  /** What a group keeps of a claim. */
  datatype Entry = Entry(obj: string, packId: string, claimId: string, sourceId: string)

  /** `get_relation_properties(relation).get("functional", True)` */
  type Functional = string -> bool

  // ---- Grouping ----

  function SlotOf(c: PackClaim): Slot {
    Slot(Strip(c.subject), Strip(c.relation))
  }

  predicate Groups(c: PackClaim) {
    SlotOf(c).subject != "" && SlotOf(c).relation != ""
  }

  function EntryOf(c: PackClaim): Entry {
    Entry(c.obj, c.packId, c.claimId, c.sourceId)
  }

  /** The groups, in first-seen order. */
  function Slots(claims: seq<PackClaim>): seq<Slot> {
    if claims == [] then []
    else
      var init, c := Slots(claims[..|claims| - 1]), claims[|claims| - 1];
      if Groups(c) && SlotOf(c) !in init then init + [SlotOf(c)] else init
  }

  function Bucket(claims: seq<PackClaim>, slot: Slot): seq<Entry> {
    if claims == [] then []
    else
      var init, c := Bucket(claims[..|claims| - 1], slot), claims[|claims| - 1];
      if Groups(c) && SlotOf(c) == slot then init + [EntryOf(c)] else init
  }

  predicate SlotLe(a: Slot, b: Slot) {
    if a.subject == b.subject then StrLe(a.relation, b.relation) else StrLe(a.subject, b.subject)
  }

  /** Order by `(object, pack_id, claim_id)`. */
  predicate EntryLe(a: Entry, b: Entry) {
    if a.obj != b.obj then StrLe(a.obj, b.obj)
    else if a.packId != b.packId then StrLe(a.packId, b.packId)
    else StrLe(a.claimId, b.claimId)
  }

  // ---- One group ----

  /** The distinct non-blank objects of a group, in first-seen order. */
  function Objects(entries: seq<Entry>): seq<string> {
    if entries == [] then []
    else
      var init, o := Objects(entries[..|entries| - 1]), Strip(entries[|entries| - 1].obj);
      if o != "" && o !in init then init + [o] else init
  }

  function ByObject(entries: seq<Entry>, o: string): seq<Entry> {
    if entries == [] then []
    else (if Strip(entries[0].obj) == o then [entries[0]] else []) + ByObject(entries[1..], o)
  }

  function First(entries: seq<Entry>, o: string): Entry {
    if ByObject(entries, o) == [] then Entry("", "", "", "") else ByObject(entries, o)[0]
  }

  function NonBlank(xs: set<string>): set<string> {
    set x | x in xs && Strip(x) != "" :: Strip(x)
  }

  function PackIds(entries: seq<Entry>): set<string> {
    set e | e in entries :: e.packId
  }

  function SourceIds(entries: seq<Entry>): set<string> {
    set e | e in entries :: e.sourceId
  }

  function ConflictOf(slot: Slot, entries: seq<Entry>, a: string, b: string): Conflict {
    var both := ByObject(entries, a) + ByObject(entries, b);
    Conflict(slot.subject, slot.relation,
             First(entries, a).obj, First(entries, b).obj,
             First(entries, a).sourceId, First(entries, b).sourceId,
             SortedIds(NonBlank(PackIds(both))), SortedIds(NonBlank(SourceIds(both))))
  }

  function Against(slot: Slot, entries: seq<Entry>, a: string, others: seq<string>): seq<Conflict> {
    if others == [] then [] else [ConflictOf(slot, entries, a, others[0])] + Against(slot, entries, a, others[1..])
  }

  function AllPairs(slot: Slot, entries: seq<Entry>, objects: seq<string>): seq<Conflict> {
    if objects == [] then []
    else Against(slot, entries, objects[0], objects[1..]) + AllPairs(slot, entries, objects[1..])
  }

  function SortedEntries(claims: seq<PackClaim>, slot: Slot): seq<Entry> {
    Sorting.Sort(Bucket(claims, slot), EntryLe)
  }

  function SortedObjects(claims: seq<PackClaim>, slot: Slot): seq<string> {
    Sorting.Sort(Objects(SortedEntries(claims, slot)), StrLe)
  }

  function GroupConflicts(claims: seq<PackClaim>, slot: Slot, functional: Functional): seq<Conflict> {
    if functional(slot.relation) then AllPairs(slot, SortedEntries(claims, slot), SortedObjects(claims, slot)) else []
  }

  function ConflictsOver(claims: seq<PackClaim>, slots: seq<Slot>, functional: Functional): seq<Conflict> {
    if slots == [] then []
    else GroupConflicts(claims, slots[0], functional) + ConflictsOver(claims, slots[1..], functional)
  }

  function GlobalConflicts(claims: seq<PackClaim>, functional: Functional): seq<Conflict> {
    ConflictsOver(claims, Sorting.Sort(Slots(claims), SlotLe), functional)
  }

  // ---- The detector ----

  ghost predicate Grouped(grouped: map<Slot, seq<Entry>>, order: seq<Slot>, claims: seq<PackClaim>) {
    && order == Slots(claims)
    && (forall s :: s in grouped <==> s in order)
    && (forall s | s in grouped :: grouped[s] == Bucket(claims, s))
  }

  method Group(claims: seq<PackClaim>) returns (grouped: map<Slot, seq<Entry>>, order: seq<Slot>)
    ensures Grouped(grouped, order, claims)
  {
    hide Groups, SlotOf, EntryOf;
    grouped, order := map[], [];
    for i := 0 to |claims|
      invariant Grouped(grouped, order, claims[..i])
    {
      var c := claims[i];
      assert claims[..i + 1][..i] == claims[..i];
      BucketNew(claims[..i], SlotOf(c));
      if !Groups(c) { continue; }
      if SlotOf(c) !in grouped {
        grouped := grouped[SlotOf(c) := []];
        order := order + [SlotOf(c)];
      }
      grouped := grouped[SlotOf(c) := grouped[SlotOf(c)] + [EntryOf(c)]];
    }
    assert claims[..|claims|] == claims;
  }

  lemma {:induction false} BucketNew(claims: seq<PackClaim>, slot: Slot)
    ensures slot !in Slots(claims) ==> Bucket(claims, slot) == []
  {
    if claims != [] {
      BucketNew(claims[..|claims| - 1], slot);
    }
  }

  /** `detect_global_conflicts` */
  method DetectGlobalConflicts(claims: seq<PackClaim>, functional: Functional) returns (conflicts: seq<Conflict>)
    ensures conflicts == GlobalConflicts(claims, functional)
  {
    hide Grouped, GroupConflicts, Slots, SlotLe;
    var grouped, order := Group(claims);
    assert order == Slots(claims) by { GroupedParts(grouped, order, claims); }
    var sorted := Sorting.Sort(order, SlotLe);
    Sorting.SameElements(order, sorted);
    conflicts := [];
    assert sorted[0..] == sorted;
    for k := 0 to |sorted|
      invariant conflicts + ConflictsOver(claims, sorted[k..], functional) == GlobalConflicts(claims, functional)
    {
      var slot := sorted[k];
      assert slot in order;
      GroupedParts(grouped, order, claims);
      assert sorted[k..][0] == slot && sorted[k..][1..] == sorted[k + 1..];
      Sorting.ConcatAssociative(conflicts, GroupConflicts(claims, slot, functional),
        ConflictsOver(claims, sorted[k + 1..], functional));
      var found := DetectInGroup(slot, grouped[slot], functional);
      assert found == GroupConflicts(claims, slot, functional) by { GroupConflictsAre(claims, slot, functional); }
      conflicts := conflicts + found;
    }
    assert conflicts + [] == conflicts;
  }

  lemma GroupConflictsAre(claims: seq<PackClaim>, slot: Slot, functional: Functional)
    ensures GroupConflicts(claims, slot, functional) == FromBucket(slot, Bucket(claims, slot), functional)
  {
  }

  lemma GroupedParts(grouped: map<Slot, seq<Entry>>, order: seq<Slot>, claims: seq<PackClaim>)
    requires Grouped(grouped, order, claims)
    ensures order == Slots(claims)
    ensures forall s | s in order :: s in grouped && grouped[s] == Bucket(claims, s)
  {
  }

  function FromBucket(slot: Slot, bucket: seq<Entry>, functional: Functional): seq<Conflict> {
    if functional(slot.relation) then
      var entries := Sorting.Sort(bucket, EntryLe);
      AllPairs(slot, entries, Sorting.Sort(Objects(entries), StrLe))
    else []
  }

  method DetectInGroup(slot: Slot, bucket: seq<Entry>, functional: Functional) returns (conflicts: seq<Conflict>)
    ensures conflicts == FromBucket(slot, bucket, functional)
  {
    hide ConflictOf, EntryLe, StrLe, Objects, Sorting.Sort, Against;
    if !functional(slot.relation) {
      return [];
    }
    var entries := Sorting.Sort(bucket, EntryLe);
    var objects := Sorting.Sort(Objects(entries), StrLe);
    if |objects| < 2 {
      FewObjects(slot, entries, objects);
      return [];
    }
    conflicts := DetectPairs(slot, entries, objects);
  }

  /** The loop over the objects of a group. */
  method DetectPairs(slot: Slot, entries: seq<Entry>, objects: seq<string>) returns (conflicts: seq<Conflict>)
    ensures conflicts == AllPairs(slot, entries, objects)
  {
    hide ConflictOf, Against;
    conflicts := [];
    assert objects[0..] == objects;
    for idx := 0 to |objects|
      invariant conflicts + AllPairs(slot, entries, objects[idx..]) == AllPairs(slot, entries, objects)
    {
      var later := objects[idx + 1..];
      assert objects[idx..][0] == objects[idx] && objects[idx..][1..] == later;
      Sorting.ConcatAssociative(conflicts, Against(slot, entries, objects[idx], later), AllPairs(slot, entries, later));
      var found := DetectAgainst(slot, entries, objects[idx], later);
      conflicts := conflicts + found;
    }
    assert conflicts + [] == conflicts;
  }

  /** The inner loop: one object against those after it. */
  method DetectAgainst(
      slot: Slot, entries: seq<Entry>, a: string, others: seq<string>)
    returns (conflicts: seq<Conflict>)
    ensures conflicts == Against(slot, entries, a, others)
  {
    hide ConflictOf;
    conflicts := [];
    for j := 0 to |others|
      invariant conflicts + Against(slot, entries, a, others[j..]) == Against(slot, entries, a, others)
    {
      assert others[j..][0] == others[j] && others[j..][1..] == others[j + 1..];
      var found := ConflictOf(slot, entries, a, others[j]);
      Sorting.ConcatAssociative(conflicts, [found], Against(slot, entries, a, others[j + 1..]));
      conflicts := conflicts + [found];
    }
  }

  lemma {:induction false} FewObjects(slot: Slot, entries: seq<Entry>, objects: seq<string>)
    requires |objects| < 2
    ensures AllPairs(slot, entries, objects) == []
  {
    if objects != [] {
      assert objects[1..] == [];
    }
  }

  // ---- What is detected ----

  /** The claim has this subject and relation, which are not blank, up to the whitespace around them. */
  predicate Of(c: PackClaim, slot: Slot) {
    && Strip(c.subject) == slot.subject && slot.subject != ""
    && Strip(c.relation) == slot.relation && slot.relation != ""
  }

  lemma OfIff(c: PackClaim, slot: Slot)
    ensures Groups(c) && SlotOf(c) == slot <==> Of(c, slot)
  {
    hide Strip;
  }

  /** Some claim asserts the object of the slot. */
  predicate Asserts(claims: seq<PackClaim>, slot: Slot, o: string) {
    exists c | c in claims :: Of(c, slot) && Strip(c.obj) == o && o != ""
  }

  predicate NoRepeats<T(==)>(xs: seq<T>) {
    forall i, j | 0 <= i < j < |xs| :: xs[i] != xs[j]
  }

  lemma {:induction false} SlotsLaws(claims: seq<PackClaim>)
    ensures NoRepeats(Slots(claims))
    ensures forall s :: s in Slots(claims) <==> exists c | c in claims :: Groups(c) && SlotOf(c) == s
  {
    hide Groups, SlotOf;
    if claims != [] {
      var init, c := claims[..|claims| - 1], claims[|claims| - 1];
      SlotsLaws(init);
      assert claims == init + [c];
    }
  }

  lemma {:induction false} BucketIff(claims: seq<PackClaim>, slot: Slot, e: Entry)
    ensures e in Bucket(claims, slot) <==> exists c | c in claims :: Groups(c) && SlotOf(c) == slot && EntryOf(c) == e
  {
    hide Groups, SlotOf, EntryOf;
    if claims != [] {
      var init, c := claims[..|claims| - 1], claims[|claims| - 1];
      BucketIff(init, slot, e);
      assert claims == init + [c];
    }
  }

  lemma {:induction false} ObjectsLaws(entries: seq<Entry>)
    ensures NoRepeats(Objects(entries))
    ensures forall o :: o in Objects(entries) <==> o != "" && exists e | e in entries :: Strip(e.obj) == o
  {
    hide Strip;
    if entries != [] {
      var init, e := entries[..|entries| - 1], entries[|entries| - 1];
      ObjectsLaws(init);
      assert entries == init + [e];
    }
  }

  lemma {:induction false} ByObjectIff(entries: seq<Entry>, o: string, e: Entry)
    ensures e in ByObject(entries, o) <==> e in entries && Strip(e.obj) == o
  {
    hide Strip;
    if entries != [] {
      ByObjectIff(entries[1..], o, e);
      assert entries == [entries[0]] + entries[1..];
    }
  }

  lemma {:induction false} PermutationNoRepeats<T>(a: seq<T>, b: seq<T>)
    requires multiset(a) == multiset(b) && NoRepeats(a)
    ensures NoRepeats(b)
  {
    forall i, j | 0 <= i < j < |b| ensures b[i] != b[j] {
      if b[i] == b[j] {
        CountTwice(b, i, j);
        CountOnce(a, b[i]);
      }
    }
  }

  lemma {:induction false} CountTwice<T>(b: seq<T>, i: nat, j: nat)
    requires i < j < |b| && b[i] == b[j]
    ensures multiset(b)[b[i]] >= 2
  {
    assert b == b[..i] + [b[i]] + b[i + 1..j] + [b[j]] + b[j + 1..];
  }

  lemma {:induction false} CountOnce<T>(a: seq<T>, x: T)
    requires NoRepeats(a)
    ensures multiset(a)[x] <= 1
  {
    if a != [] {
      var init, last := a[..|a| - 1], a[|a| - 1];
      assert a == init + [last];
      CountOnce(init, x);
      if last == x {
        assert x !in init;
        assert multiset(init)[x] == 0;
      }
    }
  }

  /** The objects of a group are its sorted, distinct asserted objects. */
  lemma {:induction false} SortedObjectsLaws(claims: seq<PackClaim>, slot: Slot)
    ensures StrictlySorted(SortedObjects(claims, slot))
    ensures forall o :: o in SortedObjects(claims, slot) <==> Asserts(claims, slot, o)
  {
    hide EntryLe, StrLe, Groups, SlotOf, Strip, Sorting.Sort, Of;
    var bucket, entries := Bucket(claims, slot), SortedEntries(claims, slot);
    var objects, sorted := Objects(entries), SortedObjects(claims, slot);
    Sorting.SameElements(bucket, entries);
    ObjectsLaws(entries);
    Sorting.SameElements(objects, sorted);
    StrPreorder();
    Sorting.SortSorted(objects, StrLe);
    PermutationNoRepeats(objects, sorted);
    forall o ensures o in sorted <==> Asserts(claims, slot, o) {
      if o in sorted {
        var e :| e in entries && Strip(e.obj) == o;
        BucketIff(claims, slot, e);
        var c :| c in claims && Groups(c) && SlotOf(c) == slot && EntryOf(c) == e;
        OfIff(c, slot);
      }
      if Asserts(claims, slot, o) {
        var c :| c in claims && Of(c, slot) && Strip(c.obj) == o;
        OfIff(c, slot);
        BucketIff(claims, slot, EntryOf(c));
        assert EntryOf(c) in entries;
      }
    }
  }

  lemma {:induction false} StrPreorder()
    ensures Sorting.TotalPreorder(StrLe)
  {
    forall a, b ensures StrLe(a, b) || StrLe(b, a) { StrLeTotal(a, b); }
    forall a, b, c | StrLe(a, b) && StrLe(b, c) ensures StrLe(a, c) { StrLeTransitive(a, b, c); }
  }

  /** What a conflict is about: a slot and two of its objects. */
  datatype Violation = Violation(slot: Slot, first: string, second: string)

  function ViolationOf(c: Conflict): Violation {
    Violation(Slot(c.subject, c.relation), Strip(c.objectA), Strip(c.objectB))
  }

  function Violations(cs: seq<Conflict>): (vs: seq<Violation>)
    ensures |vs| == |cs| && forall i | 0 <= i < |cs| :: vs[i] == ViolationOf(cs[i])
  {
    seq(|cs|, i requires 0 <= i < |cs| => ViolationOf(cs[i]))
  }

  /** A violation of a functional slot: two different asserted objects, in order. */
  predicate Violates(claims: seq<PackClaim>, functional: Functional, v: Violation) {
    && functional(v.slot.relation)
    && Asserts(claims, v.slot, v.first) && Asserts(claims, v.slot, v.second)
    && v.first != v.second && StrLe(v.first, v.second)
  }

  lemma {:induction false} FirstHasObject(entries: seq<Entry>, o: string)
    requires exists e | e in entries :: Strip(e.obj) == o
    ensures Strip(First(entries, o).obj) == o
  {
    hide Strip;
    var e :| e in entries && Strip(e.obj) == o;
    ByObjectIff(entries, o, e);
    ByObjectIff(entries, o, First(entries, o));
  }

  predicate Present(entries: seq<Entry>, objects: seq<string>) {
    forall o | o in objects :: exists e | e in entries :: Strip(e.obj) == o
  }

  lemma {:induction false} AgainstViolations(slot: Slot, entries: seq<Entry>, a: string, others: seq<string>)
    requires Present(entries, [a] + others)
    ensures |Against(slot, entries, a, others)| == |others|
    ensures forall i | 0 <= i < |others| ::
      ViolationOf(Against(slot, entries, a, others)[i]) == Violation(slot, a, others[i])
  {
    hide Strip, First, ByObject;
    if others != [] {
      assert a in [a] + others && others[0] in [a] + others;
      FirstHasObject(entries, a);
      FirstHasObject(entries, others[0]);
      assert Present(entries, [a] + others[1..]) by {
        assert forall o | o in [a] + others[1..] :: o in [a] + others;
      }
      AgainstViolations(slot, entries, a, others[1..]);
    }
  }

  lemma {:induction false} AllPairsViolations(slot: Slot, entries: seq<Entry>, objects: seq<string>)
    requires Present(entries, objects) && StrictlySorted(objects)
    ensures NoRepeats(Violations(AllPairs(slot, entries, objects)))
    ensures forall v :: v in Violations(AllPairs(slot, entries, objects)) <==>
      v.slot == slot && v.first in objects && v.second in objects && v.first != v.second && StrLe(v.first, v.second)
  {
    hide Strip, StrLe, ConflictOf, ViolationOf, Against, StrictlySorted;
    if objects != [] {
      var a, rest := objects[0], objects[1..];
      assert objects == [a] + rest;
      assert forall o | o in rest :: o in objects;
      SortedTail(objects);
      AllPairsViolations(slot, entries, rest);
      AgainstViolations(slot, entries, a, rest);
      ViolationsConcat(Against(slot, entries, a, rest), AllPairs(slot, entries, rest));
      PairsJoin(slot, a, rest, Violations(Against(slot, entries, a, rest)), Violations(AllPairs(slot, entries, rest)));
    }
  }

  lemma SortedTail(objects: seq<string>)
    requires StrictlySorted(objects) && objects != []
    ensures StrictlySorted(objects[1..])
  {
    hide StrLe;
  }

  lemma {:induction false} ViolationsConcat(a: seq<Conflict>, b: seq<Conflict>)
    ensures Violations(a + b) == Violations(a) + Violations(b)
  {
    hide ViolationOf;
  }

  lemma {:induction false} PairsJoin(
      slot: Slot, a: string, rest: seq<string>, here: seq<Violation>, later: seq<Violation>)
    requires StrictlySorted([a] + rest)
    requires |here| == |rest| && forall i | 0 <= i < |rest| :: here[i] == Violation(slot, a, rest[i])
    requires NoRepeats(later)
    requires forall v :: v in later <==>
      v.slot == slot && v.first in rest && v.second in rest && v.first != v.second && StrLe(v.first, v.second)
    ensures NoRepeats(here + later)
    ensures forall v :: v in here + later <==>
      v.slot == slot && v.first in [a] + rest && v.second in [a] + rest && v.first != v.second &&
        StrLe(v.first, v.second)
  {
    hide StrLe;
    var objects := [a] + rest;
    forall i | 0 <= i < |rest| ensures StrLe(a, rest[i]) && a != rest[i] {
      assert objects[0] == a && objects[i + 1] == rest[i];
    }
    forall i, j | 0 <= i < j < |rest| ensures rest[i] != rest[j] {
      assert objects[i + 1] == rest[i] && objects[j + 1] == rest[j];
    }
    assert forall i | 0 <= i < |later| :: later[i] in later;
    forall v
      ensures v in here + later <==>
        v.slot == slot && v.first in objects && v.second in objects && v.first != v.second && StrLe(v.first, v.second)
    {
      if v.slot == slot && v.first == a && v.second in rest {
        var i :| 0 <= i < |rest| && rest[i] == v.second;
        assert here[i] == v;
      }
      if v.first in rest && v.second == a && StrLe(v.first, v.second) {
        StrLeAntisymmetric(v.first, a);
      }
    }
  }

  /** One conflict for each unordered pair of distinct objects of each functional slot, and none besides. */
  lemma {:induction false} OneConflictPerPair(claims: seq<PackClaim>, functional: Functional)
    ensures NoRepeats(Violations(GlobalConflicts(claims, functional)))
    ensures forall v :: v in Violations(GlobalConflicts(claims, functional)) <==> Violates(claims, functional, v)
  {
    hide SlotLe, GroupConflicts, Asserts, Slots, StrLe, Sorting.Sort;
    var slots := Slots(claims);
    var sorted := Sorting.Sort(slots, SlotLe);
    SlotsLaws(claims);
    Sorting.SameElements(slots, sorted);
    PermutationNoRepeats(slots, sorted);
    OverViolations(claims, sorted, functional);
    forall v | Violates(claims, functional, v) ensures v.slot in sorted {
      AssertsSlot(claims, v.slot, v.first);
    }
  }

  lemma AssertsSlot(claims: seq<PackClaim>, slot: Slot, o: string)
    requires Asserts(claims, slot, o)
    ensures slot in Slots(claims)
  {
    SlotsLaws(claims);
  }

  lemma {:induction false} GroupViolations(claims: seq<PackClaim>, slot: Slot, functional: Functional)
    ensures NoRepeats(Violations(GroupConflicts(claims, slot, functional)))
    ensures forall v :: v in Violations(GroupConflicts(claims, slot, functional)) <==>
      v.slot == slot && Violates(claims, functional, v)
  {
    hide Strip, StrLe, EntryLe, Asserts, AllPairs, Sorting.Sort;
    var entries, objects := SortedEntries(claims, slot), SortedObjects(claims, slot);
    if functional(slot.relation) {
      SortedObjectsLaws(claims, slot);
      ObjectsLaws(entries);
      Sorting.SameElements(Objects(entries), objects);
      assert Present(entries, objects);
      AllPairsViolations(slot, entries, objects);
    }
  }

  lemma {:induction false} OverViolations(claims: seq<PackClaim>, slots: seq<Slot>, functional: Functional)
    requires NoRepeats(slots)
    ensures NoRepeats(Violations(ConflictsOver(claims, slots, functional)))
    ensures forall v :: v in Violations(ConflictsOver(claims, slots, functional)) <==>
      v.slot in slots && Violates(claims, functional, v)
  {
    hide GroupConflicts, Violates;
    if slots != [] {
      var slot, rest := slots[0], slots[1..];
      assert slots == [slot] + rest;
      GroupViolations(claims, slot, functional);
      OverViolations(claims, rest, functional);
      ViolationsConcat(GroupConflicts(claims, slot, functional), ConflictsOver(claims, rest, functional));
      SlotsJoin(claims, functional, slot, rest,
                Violations(GroupConflicts(claims, slot, functional)),
                Violations(ConflictsOver(claims, rest, functional)));
    }
  }

  lemma {:induction false} SlotsJoin(
      claims: seq<PackClaim>, functional: Functional, slot: Slot, rest: seq<Slot>, here: seq<Violation>,
      later: seq<Violation>)
    requires NoRepeats([slot] + rest) && NoRepeats(here) && NoRepeats(later)
    requires forall v :: v in here <==> v.slot == slot && Violates(claims, functional, v)
    requires forall v :: v in later <==> v.slot in rest && Violates(claims, functional, v)
    ensures NoRepeats(here + later)
    ensures forall v :: v in here + later <==> v.slot in [slot] + rest && Violates(claims, functional, v)
  {
    hide Violates;
    forall i | 0 <= i < |rest| ensures rest[i] != slot {
      assert ([slot] + rest)[0] == slot && ([slot] + rest)[i + 1] == rest[i];
    }
    assert forall i | 0 <= i < |here| :: here[i] in here;
    assert forall i | 0 <= i < |later| :: later[i] in later;
  }

  /** Ordered by subject, then relation, then the first and the second object. */
  predicate ReportedBefore(v: Violation, w: Violation) {
    if v.slot.subject != w.slot.subject then StrLe(v.slot.subject, w.slot.subject)
    else if v.slot.relation != w.slot.relation then StrLe(v.slot.relation, w.slot.relation)
    else if v.first != w.first then StrLe(v.first, w.first)
    else StrLe(v.second, w.second)
  }

  predicate InOrder(vs: seq<Violation>) {
    forall i, j | 0 <= i < j < |vs| :: ReportedBefore(vs[i], vs[j])
  }

  lemma {:induction false} InOrderConcat(a: seq<Violation>, b: seq<Violation>)
    requires InOrder(a) && InOrder(b) && forall v, w | v in a && w in b :: ReportedBefore(v, w)
    ensures InOrder(a + b)
  {
    hide ReportedBefore;
    forall i, j | 0 <= i < j < |a + b| ensures ReportedBefore((a + b)[i], (a + b)[j]) {
      if i < |a| <= j {
        assert a[i] in a && b[j - |a|] in b;
      }
    }
  }

  lemma {:induction false} GroupInOrder(slot: Slot, entries: seq<Entry>, objects: seq<string>)
    requires Present(entries, objects) && StrictlySorted(objects)
    ensures InOrder(Violations(AllPairs(slot, entries, objects)))
  {
    hide Strip, StrLe, ConflictOf, ViolationOf, Against, AllPairs, Present;
    if objects == [] {
      NoPairs(slot, entries);
    } else {
      var a, rest := objects[0], objects[1..];
      assert objects == [a] + rest;
      PresentTail(entries, objects);
      SortedTail(objects);
      GroupInOrder(slot, entries, rest);
      AgainstViolations(slot, entries, a, rest);
      AllPairsViolations(slot, entries, rest);
      PairsSplit(slot, entries, objects);
      var here, later := Violations(Against(slot, entries, a, rest)), Violations(AllPairs(slot, entries, rest));
      forall i | 0 <= i < |rest| ensures StrLe(a, rest[i]) && a != rest[i] {
        assert objects[i + 1] == rest[i];
      }
      assert forall i | 0 <= i < |rest| :: here[i] == Violation(slot, a, rest[i]);
      assert InOrder(here) by {
        forall i, j | 0 <= i < j < |here| ensures ReportedBefore(here[i], here[j]) {
          assert objects[i + 1] == rest[i] && objects[j + 1] == rest[j];
        }
      }
      forall v, w | v in here && w in later ensures ReportedBefore(v, w) {
        assert w.first in rest;
      }
      InOrderConcat(here, later);
      ViolationsConcat(Against(slot, entries, a, rest), AllPairs(slot, entries, rest));
    }
  }

  lemma NoPairs(slot: Slot, entries: seq<Entry>)
    ensures AllPairs(slot, entries, []) == []
  {
  }

  lemma PairsSplit(slot: Slot, entries: seq<Entry>, objects: seq<string>)
    requires objects != []
    ensures AllPairs(slot, entries, objects)
         == Against(slot, entries, objects[0], objects[1..]) + AllPairs(slot, entries, objects[1..])
  {
  }

  lemma PresentTail(entries: seq<Entry>, objects: seq<string>)
    requires Present(entries, objects) && objects != []
    ensures Present(entries, objects[1..]) && Present(entries, [objects[0]] + objects[1..])
  {
    assert objects == [objects[0]] + objects[1..];
    assert forall o | o in objects[1..] :: o in objects;
  }

  lemma {:induction false} SlotInOrder(claims: seq<PackClaim>, slot: Slot, functional: Functional)
    ensures InOrder(Violations(GroupConflicts(claims, slot, functional)))
  {
    hide Strip, StrLe, EntryLe, Asserts, AllPairs, Sorting.Sort, ReportedBefore;
    var entries, objects := SortedEntries(claims, slot), SortedObjects(claims, slot);
    if functional(slot.relation) {
      SortedObjectsLaws(claims, slot);
      ObjectsLaws(entries);
      Sorting.SameElements(Objects(entries), objects);
      assert Present(entries, objects);
      GroupInOrder(slot, entries, objects);
    }
  }

  lemma {:induction false} OverInOrder(claims: seq<PackClaim>, slots: seq<Slot>, functional: Functional)
    requires NoRepeats(slots) && Sorting.SortedBy(slots, SlotLe)
    ensures InOrder(Violations(ConflictsOver(claims, slots, functional)))
  {
    hide GroupConflicts, Violates, InOrder, SlotLe, ReportedBefore;
    if slots == [] {
      assert Violations([]) == [];
      NothingInOrder();
    } else {
      var slot, rest := slots[0], slots[1..];
      SlotInOrder(claims, slot, functional);
      OverInOrder(claims, rest, functional);
      GroupViolations(claims, slot, functional);
      OverViolations(claims, rest, functional);
      var here := Violations(GroupConflicts(claims, slot, functional));
      var later := Violations(ConflictsOver(claims, rest, functional));
      forall v, w | v in here && w in later ensures ReportedBefore(v, w) {
        var j :| 0 <= j < |rest| && rest[j] == w.slot;
        assert slots[j + 1] == w.slot;
        SlotsApart(v, w);
      }
      InOrderConcat(here, later);
      ViolationsConcat(GroupConflicts(claims, slot, functional), ConflictsOver(claims, rest, functional));
    }
  }

  lemma NothingInOrder()
    ensures InOrder([])
  {
  }

  lemma SlotsApart(v: Violation, w: Violation)
    requires v.slot != w.slot && SlotLe(v.slot, w.slot)
    ensures ReportedBefore(v, w)
  {
    hide StrLe;
  }

  /** The conflicts come ordered by subject, relation, first object and second object. */
  lemma {:induction false} ReportInOrder(claims: seq<PackClaim>, functional: Functional)
    ensures InOrder(Violations(GlobalConflicts(claims, functional)))
  {
    hide SlotLe, GroupConflicts, Slots, StrLe, Sorting.Sort, InOrder;
    var slots := Slots(claims);
    var sorted := Sorting.Sort(slots, SlotLe);
    SlotsLaws(claims);
    PermutationNoRepeats(slots, sorted);
    SlotPreorder();
    Sorting.SortSorted(slots, SlotLe);
    OverInOrder(claims, sorted, functional);
  }

  /** The functional slots form a partial function. */
  ghost predicate PartialFunction(claims: seq<PackClaim>, functional: Functional) {
    forall slot: Slot, a: string, b: string | functional(slot.relation) && Asserts(claims, slot, a) &&
      Asserts(claims, slot, b) :: a == b
  }

  /** No conflict is reported exactly when the functional relations are functions. */
  lemma {:induction false} NoConflictIff(claims: seq<PackClaim>, functional: Functional)
    ensures GlobalConflicts(claims, functional) == [] <==> PartialFunction(claims, functional)
  {
    hide GlobalConflicts, Asserts, StrLe;
    OneConflictPerPair(claims, functional);
    var vs := Violations(GlobalConflicts(claims, functional));
    if vs != [] {
      assert vs[0] in vs;
      assert !PartialFunction(claims, functional);
    } else {
      forall slot: Slot, a: string, b: string
        | functional(slot.relation) && Asserts(claims, slot, a) && Asserts(claims, slot, b)
        ensures a == b
      {
        StrLeTotal(a, b);
        assert Violation(slot, a, b) !in vs && Violation(slot, b, a) !in vs;
        assert !Violates(claims, functional, Violation(slot, a, b)) &&
          !Violates(claims, functional, Violation(slot, b, a));
      }
    }
  }

  // ---- What a conflict cites ----

  /** Some claim of the slot has this object, pack, id and source. */
  ghost predicate Filed(claims: seq<PackClaim>, slot: Slot, e: Entry) {
    exists c | c in claims :: Of(c, slot) && Holds(e, c)
  }

  predicate Holds(e: Entry, c: PackClaim) {
    e.obj == c.obj && e.packId == c.packId && e.claimId == c.claimId && e.sourceId == c.sourceId
  }

  /** Ordered by object text, among equals by pack, among equals by claim id. */
  predicate NoLater(e: Entry, g: Entry) {
    || (e.obj == g.obj && e.packId == g.packId && StrLe(e.claimId, g.claimId))
    || (e.obj == g.obj && e.packId != g.packId && StrLe(e.packId, g.packId))
    || (e.obj != g.obj && StrLe(e.obj, g.obj))
  }

  /** The least of the claims that assert the object, by `(object, pack_id, claim_id)`. */
  ghost predicate Leads(claims: seq<PackClaim>, slot: Slot, o: string, e: Entry) {
    && Filed(claims, slot, e) && Strip(e.obj) == o
    && forall g | Filed(claims, slot, g) && Strip(g.obj) == o :: NoLater(e, g)
  }

  ghost predicate Cited(claims: seq<PackClaim>, slot: Slot, o: string, text: string, source: string) {
    exists e :: Leads(claims, slot, o, e) && e.obj == text && e.sourceId == source
  }

  /** Some claim that asserts one of the two objects comes from the pack. */
  ghost predicate PackInvolved(claims: seq<PackClaim>, slot: Slot, a: string, b: string, packId: string) {
    packId != "" && exists e ::
      Filed(claims, slot, e) && (Strip(e.obj) == a || Strip(e.obj) == b) && Strip(e.packId) == packId
  }

  ghost predicate SourceInvolved(claims: seq<PackClaim>, slot: Slot, a: string, b: string, sourceId: string) {
    sourceId != "" && exists e ::
      Filed(claims, slot, e) && (Strip(e.obj) == a || Strip(e.obj) == b) && Strip(e.sourceId) == sourceId
  }

  lemma {:induction false} AgainstMember(
      slot: Slot, entries: seq<Entry>, a: string, others: seq<string>, x: Conflict)
    returns (b: string)
    requires x in Against(slot, entries, a, others)
    ensures b in others && x == ConflictOf(slot, entries, a, b)
  {
    hide ConflictOf;
    if x == ConflictOf(slot, entries, a, others[0]) {
      b := others[0];
    } else {
      b := AgainstMember(slot, entries, a, others[1..], x);
    }
  }

  lemma {:induction false} AllPairsMember(
      slot: Slot, entries: seq<Entry>, objects: seq<string>, x: Conflict)
    returns (a: string, b: string)
    requires x in AllPairs(slot, entries, objects)
    ensures a in objects && b in objects && x == ConflictOf(slot, entries, a, b)
  {
    hide ConflictOf, Against;
    if x in Against(slot, entries, objects[0], objects[1..]) {
      a := objects[0];
      b := AgainstMember(slot, entries, a, objects[1..], x);
    } else {
      a, b := AllPairsMember(slot, entries, objects[1..], x);
    }
  }

  lemma {:induction false} OverMember(claims: seq<PackClaim>, slots: seq<Slot>, functional: Functional, x: Conflict)
    returns (slot: Slot, a: string, b: string)
    requires x in ConflictsOver(claims, slots, functional)
    ensures a in SortedObjects(claims, slot) && b in SortedObjects(claims, slot)
    ensures x == ConflictOf(slot, SortedEntries(claims, slot), a, b)
  {
    hide ConflictOf, AllPairs, SortedObjects, SortedEntries;
    if x in GroupConflicts(claims, slots[0], functional) {
      slot := slots[0];
      a, b := AllPairsMember(slot, SortedEntries(claims, slot), SortedObjects(claims, slot), x);
    } else {
      slot, a, b := OverMember(claims, slots[1..], functional, x);
    }
  }

  lemma {:induction false} ByObjectSorted(entries: seq<Entry>, o: string)
    requires Sorting.SortedBy(entries, EntryLe)
    ensures Sorting.SortedBy(ByObject(entries, o), EntryLe)
  {
    hide Strip, EntryLe;
    if entries != [] {
      var rest := ByObject(entries[1..], o);
      ByObjectSorted(entries[1..], o);
      forall j | 0 <= j < |rest| ensures EntryLe(entries[0], rest[j]) {
        ByObjectIff(entries[1..], o, rest[j]);
      }
    }
  }

  lemma {:induction false} FiledIff(claims: seq<PackClaim>, slot: Slot, e: Entry)
    ensures e in SortedEntries(claims, slot) <==> Filed(claims, slot, e)
  {
    hide Groups, SlotOf, Of, Strip, EntryLe, Sorting.Sort;
    BucketIff(claims, slot, e);
    Sorting.SameElements(Bucket(claims, slot), SortedEntries(claims, slot));
    forall c ensures Groups(c) && SlotOf(c) == slot <==> Of(c, slot) { OfIff(c, slot); }
  }

  lemma {:induction false} FirstLeads(claims: seq<PackClaim>, slot: Slot, o: string)
    requires o in SortedObjects(claims, slot)
    ensures Leads(claims, slot, o, First(SortedEntries(claims, slot), o))
  {
    hide Strip, EntryLe, NoLater, StrLe, Filed, SortedEntries, Sorting.Sort;
    var entries := SortedEntries(claims, slot);
    var same := ByObject(entries, o);
    EntriesSorted(claims, slot);
    ByObjectSorted(entries, o);
    Sorting.SameElements(Objects(entries), SortedObjects(claims, slot));
    ObjectsLaws(entries);
    var w :| w in entries && Strip(w.obj) == o;
    ByObjectIff(entries, o, w);
    var e := First(entries, o);
    ByObjectIff(entries, o, e);
    FiledIff(claims, slot, e);
    forall g | Filed(claims, slot, g) && Strip(g.obj) == o ensures NoLater(e, g) {
      NoLaterIff(e, g);
      FiledIff(claims, slot, g);
      ByObjectIff(entries, o, g);
      Sorting.HeadIsLeast(same, g, EntryLe);
      EntryPreorder();
    }
  }

  lemma NoLaterIff(e: Entry, g: Entry)
    ensures EntryLe(e, g) <==> NoLater(e, g)
  {
    hide StrLe;
  }

  lemma EntriesSorted(claims: seq<PackClaim>, slot: Slot)
    ensures Sorting.SortedBy(SortedEntries(claims, slot), EntryLe)
  {
    hide EntryLe;
    EntryPreorder();
    Sorting.SortSorted(Bucket(claims, slot), EntryLe);
  }

  lemma {:induction false} BothFiled(claims: seq<PackClaim>, slot: Slot, a: string, b: string, e: Entry)
    ensures e in ByObject(SortedEntries(claims, slot), a) + ByObject(SortedEntries(claims, slot), b) <==>
      Filed(claims, slot, e) && (Strip(e.obj) == a || Strip(e.obj) == b)
  {
    hide Strip, Filed, SortedEntries, ByObject;
    ByObjectIff(SortedEntries(claims, slot), a, e);
    ByObjectIff(SortedEntries(claims, slot), b, e);
    FiledIff(claims, slot, e);
  }

  lemma {:induction false} InvolvedIff(claims: seq<PackClaim>, slot: Slot, a: string, b: string, id: string)
    ensures var both := ByObject(SortedEntries(claims, slot), a) + ByObject(SortedEntries(claims, slot), b);
      && (id in NonBlank(PackIds(both)) <==> PackInvolved(claims, slot, a, b, id))
      && (id in NonBlank(SourceIds(both)) <==> SourceInvolved(claims, slot, a, b, id))
  {
    hide Strip, Filed, SortedEntries, ByObject;
    var both := ByObject(SortedEntries(claims, slot), a) + ByObject(SortedEntries(claims, slot), b);
    forall e ensures e in both <==> Filed(claims, slot, e) && (Strip(e.obj) == a || Strip(e.obj) == b) {
      BothFiled(claims, slot, a, b, e);
    }
    assert id in NonBlank(PackIds(both)) <==> id != "" && exists e :: e in both && Strip(e.packId) == id;
    assert id in NonBlank(SourceIds(both)) <==> id != "" && exists e :: e in both && Strip(e.sourceId) == id;
  }

  /** The conflict quotes, for each of its two objects, the object text and source of the least claim
      that asserts it, and lists without repeats exactly the packs and the sources involved. */
  ghost predicate Justified(claims: seq<PackClaim>, x: Conflict) {
    var slot, a, b := Slot(x.subject, x.relation), Strip(x.objectA), Strip(x.objectB);
    && Cited(claims, slot, a, x.objectA, x.sourceA) && Cited(claims, slot, b, x.objectB, x.sourceB)
    && StrictlySorted(x.packIds) && (forall id :: id in x.packIds <==> PackInvolved(claims, slot, a, b, id))
    && StrictlySorted(x.provenanceRefs) &&
      (forall id :: id in x.provenanceRefs <==> SourceInvolved(claims, slot, a, b, id))
  }

  /** Every reported conflict is justified by the claims. */
  lemma {:induction false} ConflictCites(claims: seq<PackClaim>, functional: Functional)
    ensures forall x | x in GlobalConflicts(claims, functional) :: Justified(claims, x)
  {
    hide Justified, ConflictsOver;
    forall x | x in GlobalConflicts(claims, functional) ensures Justified(claims, x) {
      var slot, a, b := OverMember(claims, Sorting.Sort(Slots(claims), SlotLe), functional, x);
      ConflictJustified(claims, slot, a, b);
    }
  }

  lemma {:induction false} ConflictJustified(claims: seq<PackClaim>, slot: Slot, a: string, b: string)
    requires a in SortedObjects(claims, slot) && b in SortedObjects(claims, slot)
    ensures Justified(claims, ConflictOf(slot, SortedEntries(claims, slot), a, b))
  {
    hide Strip, Leads, PackInvolved, SourceInvolved, ByObject, SortedEntries, SortedObjects, First, NonBlank, PackIds,
      SourceIds, SortedIds, StrictlySorted;
    var x := ConflictOf(slot, SortedEntries(claims, slot), a, b);
    FirstLeads(claims, slot, a);
    FirstLeads(claims, slot, b);
    LeadsObject(claims, slot, a);
    LeadsObject(claims, slot, b);
    var both := ByObject(SortedEntries(claims, slot), a) + ByObject(SortedEntries(claims, slot), b);
    SortedIdsLaws(NonBlank(PackIds(both)));
    SortedIdsLaws(NonBlank(SourceIds(both)));
    forall id
      ensures id in x.packIds <==> PackInvolved(claims, slot, a, b, id)
      ensures id in x.provenanceRefs <==> SourceInvolved(claims, slot, a, b, id)
    {
      InvolvedIff(claims, slot, a, b, id);
    }
  }

  lemma LeadsObject(claims: seq<PackClaim>, slot: Slot, o: string)
    requires Leads(claims, slot, o, First(SortedEntries(claims, slot), o))
    ensures Strip(First(SortedEntries(claims, slot), o).obj) == o
  {
    hide Strip, First;
  }

  // ---- Order of the claims ----

  /** Entries of one group that tie on `(object, pack_id, claim_id)` are the same entry. */
  predicate TiesAgree(claims: seq<PackClaim>) {
    forall c, d | c in claims && d in claims ::
      Strip(c.subject) == Strip(d.subject) && Strip(c.relation) == Strip(d.relation) && c.obj == d.obj &&
        c.packId == d.packId && c.claimId == d.claimId ==>
        c.sourceId == d.sourceId
  }

  lemma {:induction false} EntryPreorder()
    ensures Sorting.TotalPreorder(EntryLe)
  {
    forall a, b ensures EntryLe(a, b) || EntryLe(b, a) {
      StrLeTotal(a.obj, b.obj);
      StrLeTotal(a.packId, b.packId);
      StrLeTotal(a.claimId, b.claimId);
    }
    forall a, b, c | EntryLe(a, b) && EntryLe(b, c) ensures EntryLe(a, c) {
      EntryTransitive(a, b, c);
    }
  }

  lemma {:induction false} StrChain(a: string, b: string, c: string)
    requires StrLe(a, b) && StrLe(b, c)
    ensures StrLe(a, c) && (a == c ==> a == b)
  {
    StrLeTransitive(a, b, c);
    if a == c {
      StrLeAntisymmetric(a, b);
    }
  }

  lemma {:induction false} EntryTransitive(a: Entry, b: Entry, c: Entry)
    requires EntryLe(a, b) && EntryLe(b, c)
    ensures EntryLe(a, c)
  {
    hide StrLe;
    if a.obj != b.obj || b.obj != c.obj {
      StrLeTotal(b.obj, b.obj);
      StrChain(a.obj, b.obj, c.obj);
    } else if a.packId != b.packId || b.packId != c.packId {
      StrLeTotal(b.packId, b.packId);
      StrChain(a.packId, b.packId, c.packId);
    } else {
      StrChain(a.claimId, b.claimId, c.claimId);
    }
  }

  lemma {:induction false} EntryTies(a: Entry, b: Entry)
    requires EntryLe(a, b) && EntryLe(b, a)
    ensures a.obj == b.obj && a.packId == b.packId && a.claimId == b.claimId
  {
    if a.obj != b.obj {
      StrLeAntisymmetric(a.obj, b.obj);
    } else if a.packId != b.packId {
      StrLeAntisymmetric(a.packId, b.packId);
    } else {
      StrLeAntisymmetric(a.claimId, b.claimId);
    }
  }

  lemma {:induction false} SlotPreorder()
    ensures Sorting.TotalPreorder(SlotLe)
    ensures Sorting.Antisymmetric(SlotLe)
  {
    forall a, b ensures SlotLe(a, b) || SlotLe(b, a) {
      StrLeTotal(a.subject, b.subject);
      StrLeTotal(a.relation, b.relation);
    }
    forall a, b, c | SlotLe(a, b) && SlotLe(b, c) ensures SlotLe(a, c) {
      SlotTransitive(a, b, c);
    }
    forall a, b | SlotLe(a, b) && SlotLe(b, a) ensures a == b {
      if a.subject != b.subject {
        StrLeAntisymmetric(a.subject, b.subject);
      } else {
        StrLeAntisymmetric(a.relation, b.relation);
      }
    }
  }

  lemma {:induction false} SlotTransitive(a: Slot, b: Slot, c: Slot)
    requires SlotLe(a, b) && SlotLe(b, c)
    ensures SlotLe(a, c)
  {
    hide StrLe;
    if a.subject != b.subject || b.subject != c.subject {
      StrLeTotal(b.subject, b.subject);
      StrChain(a.subject, b.subject, c.subject);
    } else {
      StrChain(a.relation, b.relation, c.relation);
    }
  }

  lemma {:induction false} BucketConcat(a: seq<PackClaim>, b: seq<PackClaim>, slot: Slot)
    ensures Bucket(a + b, slot) == Bucket(a, slot) + Bucket(b, slot)
  {
    hide Groups, SlotOf, EntryOf;
    if b == [] {
      assert a + b == a;
    } else {
      var init := b[..|b| - 1];
      BucketConcat(a, init, slot);
      assert (a + b)[..|a + b| - 1] == a + init;
    }
  }

  lemma {:induction false} BucketPermute(a: seq<PackClaim>, b: seq<PackClaim>, slot: Slot)
    requires multiset(a) == multiset(b)
    ensures multiset(Bucket(a, slot)) == multiset(Bucket(b, slot))
  {
    hide Bucket;
    Sorting.SameElements(a, b);
    if a != [] {
      assert a[0] in a && a[0] in b;
      var j :| 0 <= j < |b| && b[j] == a[0];
      Sorting.DropHead(a);
      Sorting.Without(b, j);
      BucketPermute(a[1..], b[..j] + b[j + 1..], slot);
      assert a == [a[0]] + a[1..];
      BucketConcat([a[0]], a[1..], slot);
      BucketMoved(b, j, slot);
    } else {
      assert b == [];
    }
  }

  lemma {:induction false} BucketMoved(b: seq<PackClaim>, j: nat, slot: Slot)
    requires j < |b|
    ensures multiset(Bucket(b, slot)) == multiset(Bucket([b[j]], slot)) + multiset(Bucket(b[..j] + b[j + 1..], slot))
  {
    hide Bucket;
    Sorting.Without(b, j);
    BucketConcat(b[..j], [b[j]] + b[j + 1..], slot);
    BucketConcat([b[j]], b[j + 1..], slot);
    BucketConcat(b[..j], b[j + 1..], slot);
  }

  lemma {:induction false} NoRepeatsSameElements<T>(a: seq<T>, b: seq<T>)
    requires NoRepeats(a) && NoRepeats(b) && forall x :: x in a <==> x in b
    ensures multiset(a) == multiset(b)
  {
    forall x: T ensures multiset(a)[x] == multiset(b)[x] {
      CountOnce(a, x);
      CountOnce(b, x);
      assert x in a <==> multiset(a)[x] > 0;
      assert x in b <==> multiset(b)[x] > 0;
    }
  }

  lemma {:induction false} SameEntries(claims: seq<PackClaim>, shuffled: seq<PackClaim>, slot: Slot)
    requires multiset(claims) == multiset(shuffled) && TiesAgree(claims)
    ensures SortedEntries(claims, slot) == SortedEntries(shuffled, slot)
  {
    hide EntryLe, Bucket, Sorting.Sort;
    var bucket := Bucket(claims, slot);
    BucketPermute(claims, shuffled, slot);
    EntryPreorder();
    forall x, y | x in bucket && y in bucket && EntryLe(x, y) && EntryLe(y, x) ensures x == y {
      EntryTies(x, y);
      BucketIff(claims, slot, x);
      BucketIff(claims, slot, y);
    }
    Sorting.SortCanonical(bucket, Bucket(shuffled, slot), EntryLe);
  }

  lemma {:induction false} SameOver(
      claims: seq<PackClaim>, shuffled: seq<PackClaim>, slots: seq<Slot>, functional: Functional)
    requires multiset(claims) == multiset(shuffled) && TiesAgree(claims)
    ensures ConflictsOver(claims, slots, functional) == ConflictsOver(shuffled, slots, functional)
  {
    hide SortedEntries, AllPairs, TiesAgree;
    if slots != [] {
      SameEntries(claims, shuffled, slots[0]);
      SameOver(claims, shuffled, slots[1..], functional);
    }
  }

  /** The list of conflicts does not depend on the order of the claims, when the sort key tells the
      claims of a group apart. */
  lemma {:induction false} OrderIrrelevant(claims: seq<PackClaim>, shuffled: seq<PackClaim>, functional: Functional)
    requires multiset(claims) == multiset(shuffled) && TiesAgree(claims)
    ensures GlobalConflicts(claims, functional) == GlobalConflicts(shuffled, functional)
  {
    hide SlotLe, Slots, ConflictsOver, TiesAgree, Sorting.Sort;
    Sorting.SameElements(claims, shuffled);
    SlotsLaws(claims);
    SlotsLaws(shuffled);
    NoRepeatsSameElements(Slots(claims), Slots(shuffled));
    SlotPreorder();
    Sorting.SortCanonical(Slots(claims), Slots(shuffled), SlotLe);
    SameOver(claims, shuffled, Sorting.Sort(Slots(claims), SlotLe), functional);
  }
}
