/** The counting and selection half of `get_most_used_items` in app.py: every named
    item seen on a matching hero is tallied per `(slot, name)` in a nested,
    insertion-ordered dictionary, and each slot then keeps its entry with the
    largest count, the earliest-inserted one on a tie.

    The inner dictionary `item_occurrences[slot]` is a sequence of entries in
    insertion order whose names are distinct; the outer one is a map from slot. */
module ItemTally {

  import opened Wrappers

  /** An item descriptor of the game-data API: its `name` (missing or empty means the
      item is not counted) and its other fields, carried along untouched. */
  datatype Item = Item(name: Option<string>, details: map<string, string>)

  /** One named item worn in one slot by one matching hero, in visiting order. */
  datatype Sighting = Sighting(slot: string, name: string, item: Item)

  /** `{"item": item, "count": count}` stored under `item_occurrences[slot][name]`. */
  datatype Entry = Entry(name: string, item: Item, count: nat)

  type Occurrences = map<string, seq<Entry>>

  predicate Matches(s: Sighting, slot: string, name: string) {
    s.slot == slot && s.name == name
  }

  /** How many sightings are of `name` in `slot`. */
  function Count(ss: seq<Sighting>, slot: string, name: string): nat
  {
    if ss == [] then 0
    else Count(ss[..|ss| - 1], slot, name) + if Matches(ss[|ss| - 1], slot, name) then 1 else 0
  }

  /** Counting is additive over concatenation. */
  lemma {:induction false} CountAppend(a: seq<Sighting>, b: seq<Sighting>, slot: string, name: string)
    ensures Count(a + b, slot, name) == Count(a, slot, name) + Count(b, slot, name)
  {
    if b == [] {
      assert a + b == a;
    } else {
      var init := b[..|b| - 1];
      CountAppend(a, init, slot, name);
      assert (a + b)[..|a + b| - 1] == a + init;
      assert (a + b)[|a + b| - 1] == b[|b| - 1];
    }
  }

  /** Position of the first sighting of `name` in `slot` (`|ss|` when there is none). */
  function FirstSeen(ss: seq<Sighting>, slot: string, name: string): (p: nat)
    ensures p <= |ss|
    ensures p < |ss| ==> Matches(ss[p], slot, name)
    ensures forall i :: 0 <= i < p ==> !Matches(ss[i], slot, name)
  {
    if ss == [] then 0
    else
      var p := FirstSeen(ss[..|ss| - 1], slot, name);
      if p < |ss| - 1 then p
      else if Matches(ss[|ss| - 1], slot, name) then |ss| - 1
      else |ss|
  }

  /** A name has count zero in a slot exactly when it was never sighted there. */
  lemma {:induction false} CountZeroIffUnseen(ss: seq<Sighting>, slot: string, name: string)
    ensures Count(ss, slot, name) == 0 <==> FirstSeen(ss, slot, name) == |ss|
  {
    if ss != [] {
      CountZeroIffUnseen(ss[..|ss| - 1], slot, name);
    }
  }

  /** Position of the entry called `name`, as the dictionary lookup `name in entries`. */
  function IndexOfName(es: seq<Entry>, name: string): (r: Option<nat>)
    ensures r.Some? ==> r.value < |es| && es[r.value].name == name
    ensures r.None? ==> forall j :: 0 <= j < |es| ==> es[j].name != name
  {
    if es == [] then None
    else if es[0].name == name then Some(0)
    else match IndexOfName(es[1..], name)
      case None => None
      case Some(k) => Some(k + 1)
  }

  /** Counting one sighting: create the slot's dictionary and the name's entry when
      absent, then add one to the entry's count. */
  function Record(occ: Occurrences, s: Sighting): Occurrences
  {
    var es: seq<Entry> := if s.slot in occ then occ[s.slot] else [];
    match IndexOfName(es, s.name)
    case None => occ[s.slot := es + [Entry(s.name, s.item, 1)]]
    case Some(k) => occ[s.slot := es[k := es[k].(count := es[k].count + 1)]]
  }

  /** The nested dictionary after counting every sighting in order. */
  function Tally(ss: seq<Sighting>): (occ: Occurrences)
    ensures forall slot :: slot in occ ==> |occ[slot]| > 0
  {
    if ss == [] then map[] else Record(Tally(ss[..|ss| - 1]), ss[|ss| - 1])
  }

  lemma TallyStep(ss: seq<Sighting>, s: Sighting)
    ensures Tally(ss + [s]) == Record(Tally(ss), s)
  {
    assert (ss + [s])[..|ss|] == ss;
  }

  /** `occ[slot][name]["count"]`, or 0 when the slot or the name is absent. */
  function CountIn(occ: Occurrences, slot: string, name: string): nat {
    var es := SlotEntries(occ, slot);
    match IndexOfName(es, name)
    case None => 0
    case Some(k) => es[k].count
  }

  /** The lookup of a name depends only on the names of the entries. */
  lemma {:induction false} IndexOfNameByNames(es: seq<Entry>, fs: seq<Entry>, name: string)
    requires |es| == |fs| && forall j :: 0 <= j < |es| ==> es[j].name == fs[j].name
    ensures IndexOfName(es, name) == IndexOfName(fs, name)
  {
    if es != [] {
      IndexOfNameByNames(es[1..], fs[1..], name);
    }
  }

  /** An entry added at the end does not change the lookup of another name. */
  lemma {:induction false} IndexOfNameSnoc(es: seq<Entry>, e: Entry, name: string)
    requires e.name != name
    ensures IndexOfName(es + [e], name) == IndexOfName(es, name)
  {
    if es != [] {
      assert (es + [e])[1..] == es[1..] + [e];
      IndexOfNameSnoc(es[1..], e, name);
    }
  }

  /** What counting one sighting does: the count of its name in its slot goes up by
      one (from 0 when absent), every other count and every other slot stay as they
      were, and the slot's entries keep their names, items and insertion order. */
  lemma RecordCountsOne(occ: Occurrences, s: Sighting)
    ensures CountIn(Record(occ, s), s.slot, s.name) == CountIn(occ, s.slot, s.name) + 1
    ensures forall slot, name :: slot != s.slot || name != s.name ==>
      CountIn(Record(occ, s), slot, name) == CountIn(occ, slot, name)
    ensures forall slot :: slot != s.slot ==> SlotEntries(Record(occ, s), slot) == SlotEntries(occ, slot)
    ensures var es, es' := SlotEntries(occ, s.slot), SlotEntries(Record(occ, s), s.slot);
      && |es| <= |es'|
      && forall j :: 0 <= j < |es| ==> es'[j].name == es[j].name && es'[j].item == es[j].item
  {
    var es := SlotEntries(occ, s.slot);
    var es' := SlotEntries(Record(occ, s), s.slot);
    match IndexOfName(es, s.name) {
      case None =>
        var e := Entry(s.name, s.item, 1);
        assert es' == es + [e];
        assert es'[|es|] == e;
        forall name | name != s.name ensures IndexOfName(es', name) == IndexOfName(es, name) {
          IndexOfNameSnoc(es, e, name);
        }
        IndexOfNameNew(es, e);
      case Some(k) =>
        assert es' == es[k := es[k].(count := es[k].count + 1)];
        forall name ensures IndexOfName(es', name) == IndexOfName(es, name) {
          IndexOfNameByNames(es', es, name);
        }
    }
  }

  /** A name absent from the entries is found at the entry added for it. */
  lemma {:induction false} IndexOfNameNew(es: seq<Entry>, e: Entry)
    requires IndexOfName(es, e.name).None?
    ensures IndexOfName(es + [e], e.name) == Some(|es|)
  {
    if es != [] {
      assert (es + [e])[1..] == es[1..] + [e];
      IndexOfNameNew(es[1..], e);
    }
  }

  /** Python's `max(entries, key=count)`: the first entry whose count is largest. */
  function FirstMax(es: seq<Entry>): (k: nat)
    requires |es| > 0
    ensures k < |es|
    ensures forall j :: 0 <= j < |es| ==> es[j].count <= es[k].count
    ensures forall j :: 0 <= j < k ==> es[j].count < es[k].count
  {
    if |es| == 1 then 0
    else
      var k := FirstMax(es[..|es| - 1]);
      if es[|es| - 1].count > es[k].count then |es| - 1 else k
  }

  /** The dictionary comprehension that picks each slot's most used entry. */
  function MostUsed(occ: Occurrences): map<string, Entry>
    requires forall slot :: slot in occ ==> |occ[slot]| > 0
  {
    map slot | slot in occ :: occ[slot][FirstMax(occ[slot])]
  }

  /** Nothing sighted, nothing tallied and nothing selected. */
  lemma NothingTallied()
    ensures Tally([]) == map[] && MostUsed(Tally([])) == map[]
  {
    var none: map<string, seq<Entry>> := map[];
    assert Tally([]) == none;
  }

  /** The entry `e` of `slot` agrees with the sightings: its count is the number of
      sightings of its name in that slot, and its item is the one first seen. */
  ghost predicate EntryAccounts(ss: seq<Sighting>, slot: string, e: Entry) {
    var p := FirstSeen(ss, slot, e.name);
    e.count == Count(ss, slot, e.name) && p < |ss| && e.item == ss[p].item
  }

  /** The entries of one slot agree with the sightings and are in order of first sighting. */
  ghost predicate SlotAccounts(ss: seq<Sighting>, slot: string, es: seq<Entry>) {
    && (forall k :: 0 <= k < |es| ==> EntryAccounts(ss, slot, es[k]))
    && (forall a, b :: 0 <= a < b < |es| ==> FirstSeen(ss, slot, es[a].name) < FirstSeen(ss, slot, es[b].name))
  }

  /** Every sighting has its entry. */
  ghost predicate Covers(ss: seq<Sighting>, occ: Occurrences) {
    forall i :: 0 <= i < |ss| ==> ss[i].slot in occ && IndexOfName(occ[ss[i].slot], ss[i].name).Some?
  }

  /** The dictionary agrees with the sightings. */
  ghost predicate Accounts(ss: seq<Sighting>, occ: Occurrences) {
    && (forall slot :: slot in occ ==> |occ[slot]| > 0 && SlotAccounts(ss, slot, occ[slot]))
    && Covers(ss, occ)
  }

  lemma SnocFacts(ss: seq<Sighting>, s: Sighting, slot: string, name: string)
    ensures (ss + [s])[..|ss|] == ss
    ensures Count(ss + [s], slot, name) == Count(ss, slot, name) + if Matches(s, slot, name) then 1 else 0
    ensures FirstSeen(ss, slot, name) < |ss| ==> FirstSeen(ss + [s], slot, name) == FirstSeen(ss, slot, name)
    ensures FirstSeen(ss, slot, name) == |ss| && Matches(s, slot, name) ==> FirstSeen(ss + [s], slot, name) == |ss|
  {
    assert (ss + [s])[..|ss|] == ss;
  }

  lemma EntryUnaffected(ss: seq<Sighting>, s: Sighting, slot: string, e: Entry)
    requires EntryAccounts(ss, slot, e)
    requires !Matches(s, slot, e.name)
    ensures EntryAccounts(ss + [s], slot, e)
  {
    SnocFacts(ss, s, slot, e.name);
  }

  lemma SlotUnaffected(ss: seq<Sighting>, s: Sighting, slot: string, es: seq<Entry>)
    requires SlotAccounts(ss, slot, es)
    requires forall k :: 0 <= k < |es| ==> !Matches(s, slot, es[k].name)
    ensures SlotAccounts(ss + [s], slot, es)
  {
    forall k | 0 <= k < |es| ensures EntryAccounts(ss + [s], slot, es[k]) {
      EntryUnaffected(ss, s, slot, es[k]);
    }
    forall a, b | 0 <= a < b < |es|
      ensures FirstSeen(ss + [s], slot, es[a].name) < FirstSeen(ss + [s], slot, es[b].name)
    {
      SnocFacts(ss, s, slot, es[a].name);
      SnocFacts(ss, s, slot, es[b].name);
    }
  }

  /** A name first sighted by `s` gets an entry that agrees with the sightings. */
  lemma NewEntryAccounts(ss: seq<Sighting>, s: Sighting)
    requires FirstSeen(ss, s.slot, s.name) == |ss|
    ensures EntryAccounts(ss + [s], s.slot, Entry(s.name, s.item, 1))
    ensures FirstSeen(ss + [s], s.slot, s.name) == |ss|
  {
    SnocFacts(ss, s, s.slot, s.name);
    CountZeroIffUnseen(ss, s.slot, s.name);
  }

  /** A name that already has an entry was first sighted before `s`. */
  lemma EntrySeenBefore(ss: seq<Sighting>, s: Sighting, slot: string, e: Entry)
    requires EntryAccounts(ss, slot, e)
    ensures FirstSeen(ss + [s], slot, e.name) < |ss|
  {
    SnocFacts(ss, s, slot, e.name);
  }

  lemma SlotNewEntry(ss: seq<Sighting>, s: Sighting, es: seq<Entry>)
    requires SlotAccounts(ss, s.slot, es)
    requires forall k :: 0 <= k < |es| ==> es[k].name != s.name
    requires FirstSeen(ss, s.slot, s.name) == |ss|
    ensures SlotAccounts(ss + [s], s.slot, es + [Entry(s.name, s.item, 1)])
  {
    var es' := es + [Entry(s.name, s.item, 1)];
    SlotUnaffected(ss, s, s.slot, es);
    NewEntryAccounts(ss, s);
    forall k | 0 <= k < |es'| ensures EntryAccounts(ss + [s], s.slot, es'[k]) {
      if k < |es| {
        assert es'[k] == es[k];
      }
    }
    forall a, b | 0 <= a < b < |es'|
      ensures FirstSeen(ss + [s], s.slot, es'[a].name) < FirstSeen(ss + [s], s.slot, es'[b].name)
    {
      assert es'[a] == es[a];
      if b == |es| {
        EntrySeenBefore(ss, s, s.slot, es[a]);
      } else {
        assert es'[b] == es[b];
      }
    }
  }

  /** Sightings already accounted for keep the position of their first sighting. */
  lemma FirstSeenKept(ss: seq<Sighting>, s: Sighting, slot: string, e: Entry)
    requires EntryAccounts(ss, slot, e)
    ensures FirstSeen(ss + [s], slot, e.name) == FirstSeen(ss, slot, e.name)
  {
    SnocFacts(ss, s, slot, e.name);
  }

  /** Another sighting of an entry's name adds one to its count. */
  lemma BumpedEntryAccounts(ss: seq<Sighting>, s: Sighting, e: Entry)
    requires EntryAccounts(ss, s.slot, e)
    requires e.name == s.name
    ensures EntryAccounts(ss + [s], s.slot, e.(count := e.count + 1))
  {
    SnocFacts(ss, s, s.slot, e.name);
  }

  lemma SlotBump(ss: seq<Sighting>, s: Sighting, es: seq<Entry>, k: nat)
    requires SlotAccounts(ss, s.slot, es)
    requires k < |es| && es[k].name == s.name
    ensures SlotAccounts(ss + [s], s.slot, es[k := es[k].(count := es[k].count + 1)])
  {
    var es' := es[k := es[k].(count := es[k].count + 1)];
    forall j | 0 <= j < |es'| ensures EntryAccounts(ss + [s], s.slot, es'[j]) {
      if j == k {
        BumpedEntryAccounts(ss, s, es[k]);
      } else {
        assert FirstSeen(ss, s.slot, es[j].name) != FirstSeen(ss, s.slot, es[k].name);
        EntryUnaffected(ss, s, s.slot, es[j]);
      }
    }
    forall a, b | 0 <= a < b < |es'|
      ensures FirstSeen(ss + [s], s.slot, es'[a].name) < FirstSeen(ss + [s], s.slot, es'[b].name)
    {
      FirstSeenKept(ss, s, s.slot, es[a]);
      FirstSeenKept(ss, s, s.slot, es[b]);
    }
  }

  lemma CoversAfterRecord(ss: seq<Sighting>, occ: Occurrences, s: Sighting)
    requires Covers(ss, occ)
    ensures Covers(ss + [s], Record(occ, s))
  {
    var ss' := ss + [s];
    var occ': Occurrences := Record(occ, s);
    var es: seq<Entry> := if s.slot in occ then occ[s.slot] else [];
    match IndexOfName(es, s.name) {
      case None => assert occ'[s.slot][|es|].name == s.name;
      case Some(k) => assert occ'[s.slot][k].name == s.name;
    }
    forall i | 0 <= i < |ss'| ensures ss'[i].slot in occ' && IndexOfName(occ'[ss'[i].slot], ss'[i].name).Some? {
      if i < |ss| && ss[i].slot == s.slot {
        var j := IndexOfName(es, ss[i].name).value;
        assert occ'[s.slot][j].name == ss[i].name;
      }
    }
  }

  /** The entries of `slot`, `[]` when the slot is absent. */
  function SlotEntries(occ: Occurrences, slot: string): seq<Entry> {
    if slot in occ then occ[slot] else []
  }

  /** A name with no entry in its slot was never sighted there. */
  lemma UnrecordedIsUnseen(ss: seq<Sighting>, occ: Occurrences, s: Sighting)
    requires Covers(ss, occ)
    requires IndexOfName(SlotEntries(occ, s.slot), s.name).None?
    ensures FirstSeen(ss, s.slot, s.name) == |ss|
  {
  }

  /** The slot that receives a sighting still agrees with the sightings. */
  lemma RecordedSlotAccounts(ss: seq<Sighting>, occ: Occurrences, s: Sighting)
    requires SlotAccounts(ss, s.slot, SlotEntries(occ, s.slot))
    requires Covers(ss, occ)
    ensures s.slot in Record(occ, s)
    ensures SlotAccounts(ss + [s], s.slot, Record(occ, s)[s.slot])
  {
    var es := SlotEntries(occ, s.slot);
    match IndexOfName(es, s.name) {
      case None =>
        assert Record(occ, s)[s.slot] == es + [Entry(s.name, s.item, 1)];
        UnrecordedIsUnseen(ss, occ, s);
        SlotNewEntry(ss, s, es);
      case Some(k) =>
        assert Record(occ, s)[s.slot] == es[k := es[k].(count := es[k].count + 1)];
        SlotBump(ss, s, es, k);
    }
  }

  /** Counting one more sighting keeps the dictionary in agreement with the sightings. */
  lemma RecordAccounts(ss: seq<Sighting>, occ: Occurrences, s: Sighting)
    requires Accounts(ss, occ)
    ensures Accounts(ss + [s], Record(occ, s))
  {
    var occ': Occurrences := Record(occ, s);
    assert SlotAccounts(ss, s.slot, SlotEntries(occ, s.slot));
    RecordedSlotAccounts(ss, occ, s);
    forall slot | slot in occ' ensures |occ'[slot]| > 0 && SlotAccounts(ss + [s], slot, occ'[slot]) {
      if slot != s.slot {
        SlotUnaffected(ss, s, slot, occ[slot]);
      }
    }
    CoversAfterRecord(ss, occ, s);
  }

  lemma {:induction false} TallyAccounts(ss: seq<Sighting>)
    ensures Accounts(ss, Tally(ss))
  {
    if ss != [] {
      var init := ss[..|ss| - 1];
      TallyAccounts(init);
      RecordAccounts(init, Tally(init), ss[|ss| - 1]);
      assert init + [ss[|ss| - 1]] == ss;
    }
  }

  /** In a dictionary that agrees with the sightings, a slot is present exactly when
      something was sighted in it. */
  lemma SlotPresentIffSighted(ss: seq<Sighting>, occ: Occurrences, slot: string)
    requires Accounts(ss, occ)
    ensures slot in occ <==> exists i :: 0 <= i < |ss| && ss[i].slot == slot
  {
    if slot in occ {
      var e := occ[slot][0];
      assert EntryAccounts(ss, slot, e);
      var p := FirstSeen(ss, slot, e.name);
      assert ss[p].slot == slot;
    }
  }

  /** The first maximal entry of a slot's entries is a most seen name of that slot,
      first seen no later than any name seen as often. */
  lemma FirstMaxIsFirstSeenMaximum(ss: seq<Sighting>, slot: string, es: seq<Entry>)
    requires |es| > 0
    requires SlotAccounts(ss, slot, es)
    requires forall i :: 0 <= i < |ss| && ss[i].slot == slot ==> IndexOfName(es, ss[i].name).Some?
    ensures var e := es[FirstMax(es)];
      var p := FirstSeen(ss, slot, e.name);
      && p < |ss| && e.item == ss[p].item
      && e.count == Count(ss, slot, e.name) > 0
      && forall i :: 0 <= i < |ss| && ss[i].slot == slot ==>
           || Count(ss, slot, ss[i].name) < e.count
           || (Count(ss, slot, ss[i].name) == e.count && p <= FirstSeen(ss, slot, ss[i].name))
  {
    var k := FirstMax(es);
    var e := es[k];
    assert EntryAccounts(ss, slot, e);
    CountZeroIffUnseen(ss, slot, e.name);
    forall i | 0 <= i < |ss| && ss[i].slot == slot
      ensures || Count(ss, slot, ss[i].name) < e.count
              || (Count(ss, slot, ss[i].name) == e.count && FirstSeen(ss, slot, e.name) <= FirstSeen(ss, slot, ss[i].name))
    {
      var j := IndexOfName(es, ss[i].name).value;
      assert EntryAccounts(ss, slot, es[j]);
      assert es[j].count <= e.count;
      if j < k {
        assert es[j].count < e.count;
      } else if j > k {
        assert FirstSeen(ss, slot, es[k].name) < FirstSeen(ss, slot, es[j].name);
      }
    }
  }

  /** In a dictionary that agrees with the sightings, the first maximal entry of a slot
      is a most seen name of that slot, first seen no later than any name seen as often. */
  lemma SelectedEntryIsFirstSeenMaximum(ss: seq<Sighting>, occ: Occurrences, slot: string)
    requires Accounts(ss, occ)
    requires slot in occ
    ensures var e := occ[slot][FirstMax(occ[slot])];
      var p := FirstSeen(ss, slot, e.name);
      && p < |ss| && e.item == ss[p].item
      && e.count == Count(ss, slot, e.name) > 0
      && forall i :: 0 <= i < |ss| && ss[i].slot == slot ==>
           || Count(ss, slot, ss[i].name) < e.count
           || (Count(ss, slot, ss[i].name) == e.count && p <= FirstSeen(ss, slot, ss[i].name))
  {
    var es := occ[slot];
    forall i | 0 <= i < |ss| && ss[i].slot == slot ensures IndexOfName(es, ss[i].name).Some? {
      assert ss[i].slot in occ && IndexOfName(occ[ss[i].slot], ss[i].name).Some?;
    }
    FirstMaxIsFirstSeenMaximum(ss, slot, es);
  }

  /** What `get_most_used_items` keeps for `slot`, stated against the sightings alone.
      A slot has a result exactly when some named item was seen in it. The chosen
      entry's count is the number of sightings of its name in that slot, and its item
      is the one seen first. No name in the slot was seen more often, and a name seen
      as often was first seen no earlier than the chosen one. */
  ghost predicate IsFirstSeenMaximum(ss: seq<Sighting>, best: map<string, Entry>, slot: string) {
    && (slot in best <==> exists i :: 0 <= i < |ss| && ss[i].slot == slot)
    && (slot in best ==>
         var e := best[slot];
         var p := FirstSeen(ss, slot, e.name);
         && p < |ss| && e.item == ss[p].item
         && e.count == Count(ss, slot, e.name) > 0
         && forall i :: 0 <= i < |ss| && ss[i].slot == slot ==>
              || Count(ss, slot, ss[i].name) < e.count
              || (Count(ss, slot, ss[i].name) == e.count && p <= FirstSeen(ss, slot, ss[i].name)))
  }

  lemma MostUsedIsFirstSeenMaximum(ss: seq<Sighting>, slot: string)
    ensures IsFirstSeenMaximum(ss, MostUsed(Tally(ss)), slot)
  {
    var occ := Tally(ss);
    TallyAccounts(ss);
    SlotPresentIffSighted(ss, occ, slot);
    if slot in occ {
      SelectedEntryIsFirstSeenMaximum(ss, occ, slot);
    }
  }
}
