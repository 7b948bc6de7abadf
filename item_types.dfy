/** The item-type dropdown of `fetchItemTypes` (static/js/scripts.js): one option per
    distinct item-type name, the first item type with that name winning, in the order
    of the answer. */
module ItemTypes {

  /** An entry of the item-type list: its `id` becomes the option's value, its `name`
      the option's text and the key of the `uniqueItems` map. */
  datatype ItemType = ItemType(id: string, name: string)

  predicate HasName(ts: seq<ItemType>, name: string) {
    exists i :: 0 <= i < |ts| && ts[i].name == name
  }

  lemma HasNameSnoc(ts: seq<ItemType>, t: ItemType, name: string)
    ensures HasName(ts + [t], name) <==> HasName(ts, name) || t.name == name
  {
    if HasName(ts, name) {
      var i :| 0 <= i < |ts| && ts[i].name == name;
      assert (ts + [t])[i].name == name;
    }
    if HasName(ts + [t], name) {
      var i :| 0 <= i < |ts + [t]| && (ts + [t])[i].name == name;
      if i < |ts| {
        assert ts[i].name == name;
      }
    }
    assert (ts + [t])[|ts|] == t;
  }

  /** Position of the first item type named `name`. */
  function FirstWithName(ts: seq<ItemType>, name: string): (p: nat)
    requires HasName(ts, name)
    ensures p < |ts| && ts[p].name == name
    ensures forall i :: 0 <= i < p ==> ts[i].name != name
  {
    var init := ts[..|ts| - 1];
    HasNameSnoc(init, ts[|ts| - 1], name);
    assert init + [ts[|ts| - 1]] == ts;
    if HasName(init, name) then FirstWithName(init, name) else |ts| - 1
  }

  /** The options, as a function of the list: an item type is added when no earlier
      one has its name. */
  function Unique(ts: seq<ItemType>): seq<ItemType>
  {
    if ts == [] then []
    else
      var init := ts[..|ts| - 1];
      if HasName(init, ts[|ts| - 1].name) then Unique(init) else Unique(init) + [ts[|ts| - 1]]
  }

  lemma UniqueSnoc(ts: seq<ItemType>, t: ItemType)
    ensures Unique(ts + [t]) == if HasName(ts, t.name) then Unique(ts) else Unique(ts) + [t]
  {
    assert (ts + [t])[..|ts|] == ts;
  }

  lemma FirstWithNameSnoc(ts: seq<ItemType>, t: ItemType, name: string)
    requires HasName(ts, name)
    ensures HasName(ts + [t], name) && FirstWithName(ts + [t], name) == FirstWithName(ts, name)
  {
    HasNameSnoc(ts, t, name);
    assert (ts + [t])[..|ts|] == ts;
  }

  /** Every name of the list has an option, and no other name does. */
  lemma {:induction false} UniqueCoversNames(ts: seq<ItemType>, name: string)
    ensures HasName(Unique(ts), name) <==> HasName(ts, name)
  {
    if ts != [] {
      var init, t := ts[..|ts| - 1], ts[|ts| - 1];
      assert ts == init + [t];
      UniqueSnoc(init, t);
      UniqueCoversNames(init, name);
      HasNameSnoc(init, t, name);
      if !HasName(init, t.name) {
        HasNameSnoc(Unique(init), t, name);
      }
    }
  }

  /** No two options have the same name. */
  lemma {:induction false} UniqueNamesDistinct(ts: seq<ItemType>)
    ensures var r := Unique(ts); forall i, j :: 0 <= i < j < |r| ==> r[i].name != r[j].name
  {
    if ts != [] {
      var init, t := ts[..|ts| - 1], ts[|ts| - 1];
      assert ts == init + [t];
      UniqueSnoc(init, t);
      UniqueNamesDistinct(init);
      if !HasName(init, t.name) {
        var u := Unique(init);
        UniqueCoversNames(init, t.name);
        forall i | 0 <= i < |u| ensures u[i].name != t.name {
        }
      }
    }
  }

  /** Each option is the first item type with its name. */
  lemma {:induction false} UniqueTakesFirst(ts: seq<ItemType>)
    ensures var r := Unique(ts);
      forall k :: 0 <= k < |r| ==> HasName(ts, r[k].name) && r[k] == ts[FirstWithName(ts, r[k].name)]
  {
    if ts != [] {
      var init, t := ts[..|ts| - 1], ts[|ts| - 1];
      assert ts == init + [t];
      UniqueSnoc(init, t);
      UniqueTakesFirst(init);
      var u := Unique(init);
      forall k | 0 <= k < |u| ensures HasName(ts, u[k].name) && u[k] == ts[FirstWithName(ts, u[k].name)] {
        FirstWithNameSnoc(init, t, u[k].name);
      }
      if !HasName(init, t.name) {
        HasNameSnoc(init, t, t.name);
        assert FirstWithName(ts, t.name) == |init|;
      }
    }
  }

  /** The options come in the order in which their names first occur. */
  lemma {:induction false} UniqueKeepsOrder(ts: seq<ItemType>)
    ensures var r := Unique(ts);
      forall k1, k2 :: 0 <= k1 < k2 < |r| && HasName(ts, r[k1].name) && HasName(ts, r[k2].name) ==>
        FirstWithName(ts, r[k1].name) < FirstWithName(ts, r[k2].name)
  {
    if ts != [] {
      var init, t := ts[..|ts| - 1], ts[|ts| - 1];
      assert ts == init + [t];
      UniqueSnoc(init, t);
      UniqueKeepsOrder(init);
      UniqueTakesFirst(init);
      var u := Unique(init);
      forall k | 0 <= k < |u| ensures HasName(ts, u[k].name) && FirstWithName(ts, u[k].name) == FirstWithName(init, u[k].name) {
        FirstWithNameSnoc(init, t, u[k].name);
      }
      if !HasName(init, t.name) {
        HasNameSnoc(init, t, t.name);
        assert FirstWithName(ts, t.name) == |init|;
      }
    }
  }

  /** `m` holds, for each name of `ts`, the first item type with that name. */
  ghost predicate IndexesFirst(ts: seq<ItemType>, m: map<string, ItemType>) {
    && (forall name :: name in m <==> HasName(ts, name))
    && (forall name :: name in m ==> HasName(ts, name) && m[name] == ts[FirstWithName(ts, name)])
  }

  lemma IndexesFirstSnoc(ts: seq<ItemType>, t: ItemType, m: map<string, ItemType>)
    requires IndexesFirst(ts, m)
    ensures IndexesFirst(ts + [t], if t.name in m then m else m[t.name := t])
  {
    var m' := if t.name in m then m else m[t.name := t];
    forall name ensures name in m' <==> HasName(ts + [t], name) {
      HasNameSnoc(ts, t, name);
    }
    forall name | name in m' ensures HasName(ts + [t], name) && m'[name] == (ts + [t])[FirstWithName(ts + [t], name)] {
      if name in m {
        FirstWithNameSnoc(ts, t, name);
        assert (ts + [t])[FirstWithName(ts, name)] == ts[FirstWithName(ts, name)];
      } else {
        HasNameSnoc(ts, t, name);
        assert FirstWithName(ts + [t], name) == |ts|;
      }
    }
  }

  /** The `forEach` loop of `fetchItemTypes`: the options added to the dropdown, and
      the `uniqueItems` map from each name to the first item type with that name. */
  method UniqueItemTypes(itemTypes: seq<ItemType>) returns (options: seq<ItemType>, uniqueItems: map<string, ItemType>)
    ensures options == Unique(itemTypes)
    ensures IndexesFirst(itemTypes, uniqueItems)
  {
    options := [];
    uniqueItems := map[];
    for i := 0 to |itemTypes|
      invariant options == Unique(itemTypes[..i])
      invariant IndexesFirst(itemTypes[..i], uniqueItems)
    {
      var itemType := itemTypes[i];
      assert itemTypes[..i + 1] == itemTypes[..i] + [itemType];
      UniqueSnoc(itemTypes[..i], itemType);
      IndexesFirstSnoc(itemTypes[..i], itemType, uniqueItems);
      if itemType.name !in uniqueItems {
        uniqueItems := uniqueItems[itemType.name := itemType];
        options := options + [itemType];
      }
    }
    assert itemTypes[..|itemTypes|] == itemTypes;
  }
}
