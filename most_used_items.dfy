/** The fan-out half of `get_most_used_items` in app.py (route `/api/most_used_items`)
    and the two helpers it calls, `get_character_data` and `get_hero_items`.

    The route fetches the leaderboard of one season and class, visits its first 15
    rows, looks up each row's player, keeps the heroes of the leaderboard's class,
    fetches each such hero's items, and counts every named item per slot.

    Note: app.py defines `get_hero_items` twice. The second definition (the helper at
    app.py:439) rebinds the name of the route at app.py:157, so the aggregation calls
    the helper, whose URL is the one modelled here.

    The data API is a parameter: one function per endpoint from the request URL to
    what the GET answered (a `Wire`); `Normalize` turns that into `fetch_data`'s
    `(payload, status)` pair. */
module MostUsedItems {

  import opened Wrappers
  import opened Text
  import opened Upstream
  import opened LeaderboardData
  import opened ItemTally

  /** Rows of the leaderboard that are visited. */
  const SampleSize := 15
  const ApiRoot := "https://us.api.blizzard.com"
  const LocaleQuery := "?locale=en_US"

  /** One entry of a profile's `heroes` list. */
  datatype Hero = Hero(id: nat, classSlug: Option<string>)

  /** A player profile; `heroes` may be missing. */
  datatype Profile = Profile(heroes: Option<seq<Hero>>)

  /** A hero's items document: slot name to item, in document order. */
  type HeroItems = seq<(string, Item)>

  /** The data API, one lookup per endpoint. */
  datatype Api = Api(
    leaderboard: string -> Wire<Leaderboard>,
    profile: string -> Wire<Profile>,
    items: string -> Wire<HeroItems>)

  /** What the route answers. `InternalError` is the 500 that Flask sends when the
      handler raises (an empty `player` or `data` list makes the `[0]` lookups fail). */
  datatype Outcome =
    | Found(items: map<string, Entry>)
    | LeaderboardFailed(status: int)
    | InternalError

  /** The battle tag found in a leaderboard row by
      `row.get('player', [{}])[0].get('data', [{}])[0].get('string')`. */
  datatype TagLookup = Tag(tag: string) | NoTag | IndexFailure

  function LeaderboardUrl(seasonId: int, classSlug: string): string {
    ApiRoot + "/data/d3/season/" + IntString(seasonId) + "/leaderboard/" + classSlug + LocaleQuery
  }

  /** `battle_tag.replace("#", "-")`. */
  function FormatTag(tag: string): string {
    ReplaceAll(tag, '#', '-')
  }

  /** The formatted tag has the tag's length, no `#`, and every other character unchanged. */
  lemma FormatTagMeaning(tag: string)
    ensures var r := FormatTag(tag);
      && |r| == |tag| && '#' !in r
      && forall i :: 0 <= i < |tag| && tag[i] != '#' ==> r[i] == tag[i]
  {
  }

  function ProfileUrl(tag: string): string {
    ApiRoot + "/d3/profile/" + FormatTag(tag) + "/" + LocaleQuery
  }

  function HeroItemsUrl(tag: string, heroId: nat): string {
    ApiRoot + "/d3/profile/" + FormatTag(tag) + "/hero/" + DecimalString(heroId) + "/items" + LocaleQuery
  }

  /** `class_slug.split('-')[-1]`: the hero class a leaderboard is for. */
  function HeroClass(classSlug: string): string {
    LastSegment(classSlug, '-')
  }

  /** The hero class is the part of the slug after its last `-` (all of it without one). */
  lemma HeroClassMeaning(classSlug: string)
    ensures var r := HeroClass(classSlug);
      && '-' !in r
      && |r| <= |classSlug| && classSlug[|classSlug| - |r|..] == r
      && (|r| < |classSlug| ==> classSlug[|classSlug| - |r| - 1] == '-')
  {
  }

  function TagOf(row: Row): TagLookup {
    var players := if row.player.Some? then row.player.value else [Player(None)];
    if players == [] then IndexFailure
    else
      var cells := if players[0].data.Some? then players[0].data.value else [Cell("", None, None, None)];
      if cells == [] then IndexFailure
      else if cells[0].text.Some? && cells[0].text.value != "" then Tag(cells[0].text.value)
      else NoTag
  }

  /** The three outcomes of the lookup: an `IndexError` exactly when the row's player
      list or its first player's data list is present but empty; the first cell's
      string when that is present and non-empty; nothing otherwise (a missing list
      falls back to `[{}]`, whose one entry has no string). */
  lemma TagOfMeaning(row: Row)
    ensures TagOf(row).IndexFailure? <==>
      row.player == Some([]) || (row.player.Some? && row.player.value != [] && row.player.value[0].data == Some([]))
    ensures TagOf(row).Tag? <==>
      && row.player.Some? && row.player.value != []
      && row.player.value[0].data.Some? && row.player.value[0].data.value != []
      && row.player.value[0].data.value[0].text.Some? && row.player.value[0].data.value[0].text.value != ""
    ensures TagOf(row).Tag? ==> TagOf(row).tag == row.player.value[0].data.value[0].text.value
  {
  }

  /** `leaderboard_data.get('row', [])[:15]`. */
  function SampledRows(body: Body<Leaderboard>): seq<Row> {
    var all := if body.Data? && body.value.row.Some? then body.value.row.value else [];
    if |all| <= SampleSize then all else all[..SampleSize]
  }

  /** The visited rows are the first 15 of the answer's rows, all of them when there
      are fewer, and none when the answer has no `row` list. */
  lemma SampledRowsArePrefix(body: Body<Leaderboard>)
    ensures var rows := SampledRows(body);
      && |rows| <= SampleSize
      && (body.Data? && body.value.row.Some? ==>
            |rows| <= |body.value.row.value| && rows == body.value.row.value[..|rows|])
      && (body.Data? && body.value.row.Some? && |body.value.row.value| >= SampleSize ==> |rows| == SampleSize)
      && (!(body.Data? && body.value.row.Some?) ==> rows == [])
  {
  }

  /** `get_character_data`: the profile when the lookup answered 200, `{}` otherwise. */
  function CharacterData(api: Api, tag: string): (p: Profile)
    ensures Normalize(api.profile(ProfileUrl(tag))).status != StatusOk ==> p.heroes.None?
  {
    var r := Normalize(api.profile(ProfileUrl(tag)));
    if r.status == StatusOk && r.body.Data? then r.body.value else Profile(None)
  }

  /** `get_hero_items` (the helper): the items when the lookup answered 200, `{}` otherwise. */
  function HeroItemsOf(api: Api, tag: string, heroId: nat): (items: HeroItems)
    ensures Normalize(api.items(HeroItemsUrl(tag, heroId))).status != StatusOk ==> items == []
  {
    var r := Normalize(api.items(HeroItemsUrl(tag, heroId)));
    if r.status == StatusOk && r.body.Data? then r.body.value else []
  }

  /** The sightings of one document entry. */
  function EntrySightings(entry: (string, Item)): seq<Sighting> {
    var (slot, item) := entry;
    if item.name.Some? && item.name.value != "" then [Sighting(slot, item.name.value, item)] else []
  }

  /** The counted items of one items document, in order: those with a non-empty name. */
  function ItemSightings(items: HeroItems): (ss: seq<Sighting>)
    ensures |ss| <= |items|
  {
    if items == [] then [] else ItemSightings(items[..|items| - 1]) + EntrySightings(items[|items| - 1])
  }

  /** The sightings of one hero are exactly its items with a non-empty name: each
      sighting is one of the items under its own name, and each such item is seen. */
  lemma {:induction false} ItemSightingsMeaning(items: HeroItems)
    ensures forall j :: 0 <= j < |ItemSightings(items)| ==>
      && ItemSightings(items)[j].name != ""
      && ItemSightings(items)[j].item.name == Some(ItemSightings(items)[j].name)
      && (ItemSightings(items)[j].slot, ItemSightings(items)[j].item) in items
    ensures forall k :: 0 <= k < |items| && items[k].1.name.Some? && items[k].1.name.value != "" ==>
      Sighting(items[k].0, items[k].1.name.value, items[k].1) in ItemSightings(items)
  {
    if items != [] {
      var init := items[..|items| - 1];
      ItemSightingsMeaning(init);
      assert items == init + [items[|items| - 1]];
      forall k | 0 <= k < |items| - 1
        ensures items[k] == init[k]
      {
      }
      var before := ItemSightings(init);
      forall j | |before| <= j < |ItemSightings(items)|
        ensures (ItemSightings(items)[j].slot, ItemSightings(items)[j].item) == items[|items| - 1]
      {
      }
      forall j | 0 <= j < |before|
        ensures ItemSightings(items)[j] == before[j]
      {
      }
    }
  }

  /** An items document is a JSON object: no slot appears twice. */
  predicate DistinctSlots(items: HeroItems) {
    forall i, j :: 0 <= i < j < |items| ==> items[i].0 != items[j].0
  }

  /** The document has an item called `name` in `slot`. */
  predicate HasItem(items: HeroItems, slot: string, name: string) {
    exists k :: 0 <= k < |items| && items[k].0 == slot && items[k].1.name == Some(name)
  }

  lemma DistinctSlotsPrefix(items: HeroItems, n: nat)
    requires DistinctSlots(items) && n <= |items|
    ensures DistinctSlots(items[..n])
  {
    var init := items[..n];
    forall i, j | 0 <= i < j < |init| ensures init[i].0 != init[j].0 {
      assert init[i] == items[i] && init[j] == items[j];
    }
  }

  /** Holding an item in a longer document: in the shorter one, or in the last entry. */
  lemma HasItemSnoc(items: HeroItems, slot: string, name: string)
    requires items != []
    ensures var n := |items| - 1;
      HasItem(items, slot, name) <==>
        HasItem(items[..n], slot, name) || (items[n].0 == slot && items[n].1.name == Some(name))
  {
    var n := |items| - 1;
    if HasItem(items, slot, name) {
      var k :| 0 <= k < |items| && items[k].0 == slot && items[k].1.name == Some(name);
      if k < n {
        assert items[..n][k] == items[k];
      }
    }
    if HasItem(items[..n], slot, name) {
      var k :| 0 <= k < n && items[..n][k].0 == slot && items[..n][k].1.name == Some(name);
      assert items[k] == items[..n][k];
    }
  }

  /** The last slot of a document without repeated slots is not among the earlier ones. */
  lemma LastSlotIsNew(items: HeroItems, name: string)
    requires items != [] && DistinctSlots(items)
    ensures var n := |items| - 1; !HasItem(items[..n], items[n].0, name)
  {
    var n := |items| - 1;
    forall k | 0 <= k < n ensures items[..n][k].0 != items[n].0 {
      assert items[..n][k] == items[k];
    }
  }

  lemma EntrySightingsCount(entry: (string, Item), slot: string, name: string)
    requires name != ""
    ensures Count(EntrySightings(entry), slot, name) == if entry.0 == slot && entry.1.name == Some(name) then 1 else 0
  {
    var e := EntrySightings(entry);
    if e != [] {
      assert e[..0] == [];
    }
  }

  /** A hero's items document counts `name` in `slot` once when it holds that item and
      not at all otherwise. */
  lemma {:induction false} ItemSightingsCount(items: HeroItems, slot: string, name: string)
    requires DistinctSlots(items) && name != ""
    ensures Count(ItemSightings(items), slot, name) == if HasItem(items, slot, name) then 1 else 0
  {
    if items != [] {
      var n := |items| - 1;
      var init := items[..n];
      DistinctSlotsPrefix(items, n);
      ItemSightingsCount(init, slot, name);
      CountAppend(ItemSightings(init), EntrySightings(items[n]), slot, name);
      EntrySightingsCount(items[n], slot, name);
      HasItemSnoc(items, slot, name);
      LastSlotIsNew(items, name);
    }
  }

  /** How many of `heroes` are of class `cls` and hold `name` in `slot`. */
  function HeroesHolding(api: Api, tag: string, cls: string, heroes: seq<Hero>, slot: string, name: string): nat {
    if heroes == [] then 0
    else
      var hero := heroes[|heroes| - 1];
      HeroesHolding(api, tag, cls, heroes[..|heroes| - 1], slot, name)
        + if hero.classSlug == Some(cls) && HasItem(HeroItemsOf(api, tag, hero.id), slot, name) then 1 else 0
  }

  /** The counted items of a player's heroes of class `cls`, hero by hero. */
  function HeroesSightings(api: Api, tag: string, cls: string, heroes: seq<Hero>): seq<Sighting>
  {
    if heroes == [] then []
    else
      var hero := heroes[|heroes| - 1];
      HeroesSightings(api, tag, cls, heroes[..|heroes| - 1])
        + if hero.classSlug == Some(cls) then ItemSightings(HeroItemsOf(api, tag, hero.id)) else []
  }
  /** A player's count of `name` in `slot` is the number of their heroes of class `cls`
      whose items document holds that item. */
  lemma {:induction false} HeroesSightingsCount(api: Api, tag: string, cls: string, heroes: seq<Hero>, slot: string, name: string)
    requires name != ""
    requires forall h :: h in heroes ==> DistinctSlots(HeroItemsOf(api, tag, h.id))
    ensures Count(HeroesSightings(api, tag, cls, heroes), slot, name) == HeroesHolding(api, tag, cls, heroes, slot, name)
  {
    if heroes != [] {
      var init := heroes[..|heroes| - 1];
      var hero := heroes[|heroes| - 1];
      assert forall h :: h in init ==> h in heroes;
      HeroesSightingsCount(api, tag, cls, init, slot, name);
      var mine := if hero.classSlug == Some(cls) then ItemSightings(HeroItemsOf(api, tag, hero.id)) else [];
      CountAppend(HeroesSightings(api, tag, cls, init), mine, slot, name);
      if hero.classSlug == Some(cls) {
        ItemSightingsCount(HeroItemsOf(api, tag, hero.id), slot, name);
      }
    }
  }


  /** The counted items of one player; none when the profile has no `heroes`. */
  function PlayerSightings(api: Api, tag: string, cls: string): seq<Sighting> {
    match CharacterData(api, tag).heroes
    case None => []
    case Some(heroes) => HeroesSightings(api, tag, cls, heroes)
  }

  /** The counted items of the visited rows, row by row; `None` when a row makes the
      battle-tag lookup fail. */
  function RowsSightings(api: Api, cls: string, rows: seq<Row>): Option<seq<Sighting>>
  {
    if rows == [] then Some([])
    else
      match RowsSightings(api, cls, rows[..|rows| - 1])
      case None => None
      case Some(ss) =>
        match TagOf(rows[|rows| - 1])
        case IndexFailure => None
        case NoTag => Some(ss)
        case Tag(tag) => Some(ss + PlayerSightings(api, tag, cls))
  }

  /** The route as a function of the data API and its two query parameters. */
  function MostUsedItems(api: Api, seasonId: int, classSlug: string): Outcome
  {
    var board := Normalize(api.leaderboard(LeaderboardUrl(seasonId, classSlug)));
    if board.status != StatusOk then LeaderboardFailed(board.status)
    else
      match RowsSightings(api, HeroClass(classSlug), SampledRows(board.body))
      case None => InternalError
      case Some(ss) => Found(MostUsed(Tally(ss)))
  }

  /** Once a prefix of the rows has failed, the whole visit fails. */
  lemma {:induction false} IndexFailureIsFinal(api: Api, cls: string, rows: seq<Row>, i: nat)
    requires i <= |rows|
    requires RowsSightings(api, cls, rows[..i]) == None
    ensures RowsSightings(api, cls, rows) == None
    decreases |rows| - i
  {
    if i < |rows| {
      assert rows[..i + 1][..i] == rows[..i];
      IndexFailureIsFinal(api, cls, rows, i + 1);
    } else {
      assert rows[..i] == rows;
    }
  }

  lemma ItemSightingsStep(items: HeroItems, k: nat)
    requires k < |items|
    ensures ItemSightings(items[..k + 1]) == ItemSightings(items[..k])
      + if items[k].1.name.Some? && items[k].1.name.value != "" then [Sighting(items[k].0, items[k].1.name.value, items[k].1)] else []
  {
    assert items[..k + 1][..k] == items[..k];
  }

  lemma HeroesSightingsStep(api: Api, tag: string, cls: string, heroes: seq<Hero>, j: nat)
    requires j < |heroes|
    ensures HeroesSightings(api, tag, cls, heroes[..j + 1]) == HeroesSightings(api, tag, cls, heroes[..j])
      + if heroes[j].classSlug == Some(cls) then ItemSightings(HeroItemsOf(api, tag, heroes[j].id)) else []
  {
    assert heroes[..j + 1][..j] == heroes[..j];
  }

  /** The body of the innermost loop of `get_most_used_items`: create the slot's
      dictionary and the name's entry (count 0, this item) when missing, then add one
      to the entry's count. */
  method AddOccurrence(occurrences: Occurrences, slot: string, itemName: string, item: Item)
    returns (updated: Occurrences)
    ensures updated == Record(occurrences, Sighting(slot, itemName, item))
  {
    updated := occurrences;
    if slot !in updated {
      updated := updated[slot := []];
    }
    var entries := updated[slot];
    var at := IndexOfName(entries, itemName);
    if at.None? {
      entries := entries + [Entry(itemName, item, 0)];
      at := Some(|entries| - 1);
      assert entries[at.value := entries[at.value].(count := 1)] == entries[..at.value] + [Entry(itemName, item, 1)];
    }
    entries := entries[at.value := entries[at.value].(count := entries[at.value].count + 1)];
    updated := updated[slot := entries];
  }

  /** One iteration of the innermost loop, in terms of the tally of everything seen. */
  lemma CountItemStep(seen: seq<Sighting>, items: HeroItems, k: nat)
    requires k < |items|
    ensures var before := Tally(seen + ItemSightings(items[..k]));
      Tally(seen + ItemSightings(items[..k + 1])) ==
        if items[k].1.name.Some? && items[k].1.name.value != "" then
          Record(before, Sighting(items[k].0, items[k].1.name.value, items[k].1))
        else before
  {
    ItemSightingsStep(items, k);
    var prefix := seen + ItemSightings(items[..k]);
    if items[k].1.name.Some? && items[k].1.name.value != "" {
      var s := Sighting(items[k].0, items[k].1.name.value, items[k].1);
      assert seen + ItemSightings(items[..k + 1]) == prefix + [s];
      TallyStep(prefix, s);
    } else {
      assert seen + ItemSightings(items[..k + 1]) == prefix;
    }
  }

  /** The innermost loop of `get_most_used_items`: every item of one hero that has a
      name is counted into `item_occurrences`. */
  method CountHeroItems(occurrences: Occurrences, ghost seen: seq<Sighting>, heroItems: HeroItems)
    returns (updated: Occurrences)
    requires occurrences == Tally(seen)
    ensures updated == Tally(seen + ItemSightings(heroItems))
  {
    updated := occurrences;
    assert seen + ItemSightings(heroItems[..0]) == seen;
    var k := 0;
    while k < |heroItems|
      invariant 0 <= k <= |heroItems|
      invariant updated == Tally(seen + ItemSightings(heroItems[..k]))
    {
      var (slot, item) := heroItems[k];
      CountItemStep(seen, heroItems, k);
      if item.name.Some? && item.name.value != "" {
        updated := AddOccurrence(updated, slot, item.name.value, item);
      }
      k := k + 1;
    }
    assert heroItems[..k] == heroItems;
  }

  /** One iteration of the loop over a player's heroes, on the sightings seen so far. */
  lemma CountHeroStep(api: Api, tag: string, cls: string, seen: seq<Sighting>, heroes: seq<Hero>, j: nat)
    requires j < |heroes|
    ensures var counted := seen + HeroesSightings(api, tag, cls, heroes[..j]);
      seen + HeroesSightings(api, tag, cls, heroes[..j + 1]) ==
        if heroes[j].classSlug == Some(cls) then counted + ItemSightings(HeroItemsOf(api, tag, heroes[j].id))
        else counted
  {
    HeroesSightingsStep(api, tag, cls, heroes, j);
    var before := HeroesSightings(api, tag, cls, heroes[..j]);
    if heroes[j].classSlug == Some(cls) {
      var mine := ItemSightings(HeroItemsOf(api, tag, heroes[j].id));
      assert seen + (before + mine) == (seen + before) + mine;
    } else {
      assert before + [] == before;
    }
  }

  /** The loop over one player's heroes: the items of every hero of class `cls` are
      fetched and counted; an empty items document counts nothing. */
  method CountHeroes(api: Api, tag: string, cls: string, heroes: seq<Hero>, occurrences: Occurrences, ghost seen: seq<Sighting>)
    returns (updated: Occurrences)
    requires occurrences == Tally(seen)
    ensures updated == Tally(seen + HeroesSightings(api, tag, cls, heroes))
  {
    updated := occurrences;
    assert seen + HeroesSightings(api, tag, cls, heroes[..0]) == seen;
    for j := 0 to |heroes|
      invariant updated == Tally(seen + HeroesSightings(api, tag, cls, heroes[..j]))
    {
      ghost var counted := seen + HeroesSightings(api, tag, cls, heroes[..j]);
      CountHeroStep(api, tag, cls, seen, heroes, j);
      if heroes[j].classSlug == Some(cls) {
        var heroItems := HeroItemsOf(api, tag, heroes[j].id);
        if |heroItems| > 0 {
          updated := CountHeroItems(updated, counted, heroItems);
        } else {
          assert counted + ItemSightings(heroItems) == counted;
        }
      }
    }
    assert heroes[..|heroes|] == heroes;
  }

  /** One player of the loop over the visited rows: the profile is looked up, and
      nothing is counted when it has no `heroes`. */
  method CountPlayer(api: Api, tag: string, cls: string, occurrences: Occurrences, ghost seen: seq<Sighting>)
    returns (updated: Occurrences)
    requires occurrences == Tally(seen)
    ensures updated == Tally(seen + PlayerSightings(api, tag, cls))
  {
    var profile := CharacterData(api, tag);
    if profile.heroes.None? {
      assert seen + [] == seen;
      return occurrences;
    }
    updated := CountHeroes(api, tag, cls, profile.heroes.value, occurrences, seen);
  }

  /** One iteration of the loop over the visited rows. */
  lemma RowsSightingsStep(api: Api, cls: string, rows: seq<Row>, i: nat, seen: seq<Sighting>)
    requires i < |rows|
    requires RowsSightings(api, cls, rows[..i]) == Some(seen)
    ensures RowsSightings(api, cls, rows[..i + 1]) ==
      match TagOf(rows[i])
      case IndexFailure => None
      case NoTag => Some(seen)
      case Tag(tag) => Some(seen + PlayerSightings(api, tag, cls))
  {
    assert rows[..i + 1][..i] == rows[..i];
  }

  /** The loop over the visited rows of `get_most_used_items`: each row's player is
      looked up and counted; a row whose battle-tag lookup fails ends the visit. */
  method CountRows(api: Api, cls: string, rows: seq<Row>) returns (counted: Option<Occurrences>)
    ensures counted.None? <==> RowsSightings(api, cls, rows).None?
    ensures counted.Some? ==> counted.value == Tally(RowsSightings(api, cls, rows).value)
  {
    var occurrences: Occurrences := map[];
    ghost var seen: seq<Sighting> := [];
    assert rows[..0] == [];
    var i := 0;
    while i < |rows|
      invariant 0 <= i <= |rows|
      invariant RowsSightings(api, cls, rows[..i]) == Some(seen)
      invariant occurrences == Tally(seen)
    {
      RowsSightingsStep(api, cls, rows, i, seen);
      var lookup := TagOf(rows[i]);
      if lookup.IndexFailure? {
        IndexFailureIsFinal(api, cls, rows, i + 1);
        return None;
      }
      if lookup.Tag? {
        occurrences := CountPlayer(api, lookup.tag, cls, occurrences, seen);
        seen := seen + PlayerSightings(api, lookup.tag, cls);
      }
      i := i + 1;
    }
    assert rows[..i] == rows;
    counted := Some(occurrences);
  }

  /** `get_most_used_items`: fetch the leaderboard, visit its first 15 rows, count, then
      pick each slot's most used item. */
  method GetMostUsedItems(api: Api, seasonId: int, classSlug: string) returns (r: Outcome)
    ensures r == MostUsedItems(api, seasonId, classSlug)
  {
    var board := Normalize(api.leaderboard(LeaderboardUrl(seasonId, classSlug)));
    if board.status != StatusOk {
      return LeaderboardFailed(board.status);
    }
    var counted := CountRows(api, HeroClass(classSlug), SampledRows(board.body));
    if counted.None? {
      return InternalError;
    }
    r := Found(MostUsed(counted.value));
  }

  /** A leaderboard lookup that does not answer 200 is reported with its own status,
      whatever the profile and item lookups would have answered. */
  lemma LeaderboardFailureIsReported(api: Api, other: Api, seasonId: int, classSlug: string)
    requires other.leaderboard == api.leaderboard
    ensures var board := Normalize(api.leaderboard(LeaderboardUrl(seasonId, classSlug)));
      board.status != StatusOk ==>
        MostUsedItems(api, seasonId, classSlug) == LeaderboardFailed(board.status)
          == MostUsedItems(other, seasonId, classSlug)
  {
  }

  /** A leaderboard with no rows yields `{}`. */
  lemma EmptyLeaderboardFindsNothing(api: Api, seasonId: int, classSlug: string)
    requires Normalize(api.leaderboard(LeaderboardUrl(seasonId, classSlug))).status == StatusOk
    requires SampledRows(Normalize(api.leaderboard(LeaderboardUrl(seasonId, classSlug))).body) == []
    ensures MostUsedItems(api, seasonId, classSlug) == Found(map[])
  {
    var board := Normalize(api.leaderboard(LeaderboardUrl(seasonId, classSlug)));
    assert RowsSightings(api, HeroClass(classSlug), SampledRows(board.body)) == Some([]);
    NothingTallied();
  }

  /** A player whose profile lookup does not answer 200 contributes nothing. */
  lemma FailedProfileContributesNothing(api: Api, tag: string, cls: string)
    requires Normalize(api.profile(ProfileUrl(tag))).status != StatusOk
    ensures PlayerSightings(api, tag, cls) == []
  {
  }

  /** Heroes of other classes contribute nothing. */
  lemma {:induction false} OtherClassesContributeNothing(api: Api, tag: string, cls: string, heroes: seq<Hero>)
    requires forall j :: 0 <= j < |heroes| ==> heroes[j].classSlug != Some(cls)
    ensures HeroesSightings(api, tag, cls, heroes) == []
  {
    if heroes != [] {
      OtherClassesContributeNothing(api, tag, cls, heroes[..|heroes| - 1]);
    }
  }

  /** No `#` is left in the profile and hero-items URLs. */
  lemma UrlsHaveNoHash(tag: string, heroId: nat)
    ensures '#' !in ProfileUrl(tag)
    ensures '#' !in HeroItemsUrl(tag, heroId)
  {
    FormatTagMeaning(tag);
    var digits := DecimalString(heroId);
    assert '#' !in digits by {
      forall i | 0 <= i < |digits| ensures digits[i] != '#' {
        assert IsDigit(digits[i]);
      }
    }
  }

  /** The route's answer, when it finds items, is the first-seen maximum of every slot
      over the items counted from the visited rows. */
  lemma FoundIsFirstSeenMaximum(api: Api, seasonId: int, classSlug: string, slot: string)
    requires MostUsedItems(api, seasonId, classSlug).Found?
    ensures var board := Normalize(api.leaderboard(LeaderboardUrl(seasonId, classSlug)));
      var ss := RowsSightings(api, HeroClass(classSlug), SampledRows(board.body));
      && ss.Some?
      && MostUsedItems(api, seasonId, classSlug) == Found(MostUsed(Tally(ss.value)))
      && IsFirstSeenMaximum(ss.value, MostUsed(Tally(ss.value)), slot)
  {
    var board := Normalize(api.leaderboard(LeaderboardUrl(seasonId, classSlug)));
    var ss := RowsSightings(api, HeroClass(classSlug), SampledRows(board.body));
    assert ss.Some?;
    MostUsedIsFirstSeenMaximum(ss.value, slot);
  }
}
