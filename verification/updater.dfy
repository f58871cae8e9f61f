/**
 * `MetadataUpdater.Apply`: writes one game's mapping into the game record and
 * the library database, creating a category, tag or feature only when none of
 * that name exists and adding an id or link to the game only when absent.
 *
 * The database pools are sequences of named items; a new item takes the next
 * unused id (standing in for a fresh `Guid`). A null game, mapping or settings
 * object is `None`. The settings class shown has no `EnableFeatures` option,
 * so the updater takes that flag as a separate input.
 */
module Updater {
  import opened Common
  import opened Text
  import opened Domain
  import opened Settings
  import Processor

  /** A category, tag or feature in the library database. */
  datatype Item = Item(id: nat, name: string)

  /** The three pools, and the first id not yet handed out. */
  datatype Db = Db(categories: seq<Item>, tags: seq<Item>, features: seq<Item>, nextId: nat)

  datatype Link = Link(name: string, url: string)

  /** The parts of a game record `Apply` writes; each list may be null. */
  datatype Game = Game(
    categoryIds: Option<seq<nat>>,
    tagIds: Option<seq<nat>>,
    featureIds: Option<seq<nat>>,
    links: Option<seq<Link>>)

  /** `pool.FirstOrDefault(x => x.Name == name)`. */
  function FindByName(items: seq<Item>, name: string): (r: Option<Item>)
    ensures r.Some? ==> r.value in items && r.value.name == name
    ensures r.None? <==> forall i :: 0 <= i < |items| ==> items[i].name != name
  {
    if |items| == 0 then None
    else if items[0].name == name then Some(items[0])
    else
      var r := FindByName(items[1..], name);
      assert forall i :: 1 <= i < |items| ==> items[i] == items[1..][i - 1];
      r
  }

  /** What `FirstOrDefault` finds is the first item of that name: no earlier item has it. */
  lemma {:induction false} FindByNameIsFirst(items: seq<Item>, name: string)
    ensures FindByName(items, name).Some? ==>
      exists i :: 0 <= i < |items| && items[i] == FindByName(items, name).value && NoneNamedBefore(items, i, name)
    decreases |items|
  {
    if |items| > 0 {
      if items[0].name == name {
        assert NoneNamedBefore(items, 0, name);
      } else if FindByName(items, name).Some? {
        FindByNameIsFirst(items[1..], name);
        var i :| 0 <= i < |items[1..]| && items[1..][i] == FindByName(items[1..], name).value
                 && NoneNamedBefore(items[1..], i, name);
        FirstShifts(items, name);
        assert items[i + 1] == FindByName(items, name).value;
      }
    }
  }

  /** No item before position `i` carries `name`. */
  predicate NoneNamedBefore(items: seq<Item>, i: int, name: string)
    requires i <= |items|
  {
    forall j :: 0 <= j < i ==> items[j].name != name
  }

  /** A first match in the tail, behind a head of another name, is a first match in the whole sequence. */
  lemma FirstShifts(items: seq<Item>, name: string)
    requires |items| > 0 && items[0].name != name
    ensures forall i :: 0 <= i < |items| - 1 && NoneNamedBefore(items[1..], i, name) ==> NoneNamedBefore(items, i + 1, name)
  {
    forall i | 0 <= i < |items| - 1 && NoneNamedBefore(items[1..], i, name) ensures NoneNamedBefore(items, i + 1, name) {
      forall j | 0 <= j < i + 1 ensures items[j].name != name {
        if j > 0 {
          assert items[j] == items[1..][j - 1];
        }
      }
    }
  }

  /** Appending items never changes which item a name finds first, once it finds one. */
  lemma {:induction false} FindByNameAppend(items: seq<Item>, more: seq<Item>, name: string)
    ensures FindByName(items, name).Some? ==> FindByName(items + more, name) == FindByName(items, name)
    ensures FindByName(items, name).None? ==> FindByName(items + more, name) == FindByName(more, name)
    decreases |items|
  {
    if |items| > 0 {
      assert (items + more)[1..] == items[1..] + more;
      FindByNameAppend(items[1..], more, name);
    } else {
      assert items + more == more;
    }
  }

  /** One pool, the game's id list for it, and the id counter: what the add loop works on. */
  datatype Slot = Slot(items: seq<Item>, ids: Option<seq<nat>>, nextId: nat)

  /**
   * One pass of an add loop: find the named item or create it, then add its id to the game's list if
   * absent. A null list is created first when `createList` holds (tags and features); otherwise
   * (categories) nothing is added to a null list.
   */
  function AddOne(s: Slot, name: string, createList: bool): (r: Slot)
    ensures FindByName(r.items, name).Some?
    ensures r.items == s.items + (if FindByName(s.items, name).None? then [Item(s.nextId, name)] else [])
    ensures r.nextId >= s.nextId
  {
    var found := FindByName(s.items, name);
    var item := if found.Some? then found.value else Item(s.nextId, name);
    var items := if found.Some? then s.items else s.items + [item];
    var next := if found.Some? then s.nextId else s.nextId + 1;
    FindByNameAppend(s.items, [Item(s.nextId, name)], name);
    match s.ids
    case None => Slot(items, if createList then Some([item.id]) else None, next)
    case Some(ids) => Slot(items, Some(if item.id in ids then ids else ids + [item.id]), next)
  }

  /** The add loop over a list of names, in order; the counter never goes back. */
  function AddAll(s: Slot, names: seq<string>, createList: bool): (r: Slot)
    ensures s.nextId <= r.nextId
    decreases |names|
  {
    if |names| == 0 then s else AddAll(AddOne(s, names[0], createList), names[1..], createList)
  }

  /**
   * The counter is ahead of every id in the slot: in the pool and in the game's list. This is what
   * a fresh `Guid` guarantees for a new item in the library.
   */
  predicate SlotFresh(s: Slot) {
    && (forall i :: 0 <= i < |s.items| ==> s.items[i].id < s.nextId)
    && (s.ids.Some? ==> forall i :: 0 <= i < |s.ids.value| ==> s.ids.value[i] < s.nextId)
  }

  /** Moving the counter forward keeps a slot fresh. */
  lemma SlotFreshLater(s: Slot, next: nat)
    requires SlotFresh(s) && s.nextId <= next
    ensures SlotFresh(s.(nextId := next))
  {
  }

  /** On a fresh slot, a pass that creates an item appends that item's id to the game's list, or creates the list with it. */
  lemma AddOneFresh(s: Slot, name: string, createList: bool)
    requires SlotFresh(s)
    ensures var r := AddOne(s, name, createList);
      && SlotFresh(r)
      && (FindByName(s.items, name).None? ==>
            r.ids == (if s.ids.Some? then Some(s.ids.value + [s.nextId]) else if createList then Some([s.nextId]) else None))
  {
    var r := AddOne(s, name, createList);
    if FindByName(s.items, name).None? && s.ids.Some? {
      assert s.nextId !in s.ids.value;
    }
    forall i | 0 <= i < |r.items| ensures r.items[i].id < r.nextId {
      if i < |s.items| {
        assert r.items[i] == s.items[i];
      }
    }
  }

  /**
   * On a fresh slot the loop keeps the slot fresh, and every item it creates has an id the game did not
   * list before and lists afterwards (where the list exists or is created).
   */
  lemma {:induction false} AddAllFresh(s: Slot, names: seq<string>, createList: bool)
    requires SlotFresh(s)
    ensures var r := AddAll(s, names, createList);
      && SlotFresh(r)
      && (createList && |names| > 0 ==> r.ids.Some?)
      && forall k :: |s.items| <= k < |r.items| ==>
           && s.nextId <= r.items[k].id
           && (s.ids.Some? ==> r.items[k].id !in s.ids.value)
           && (r.ids.Some? ==> r.items[k].id in r.ids.value)
    decreases |names|
  {
    if |names| > 0 {
      var s1 := AddOne(s, names[0], createList);
      AddOneFresh(s, names[0], createList);
      AddAllFresh(s1, names[1..], createList);
      AddAllIds(s1, names[1..], createList);
      AddAllItems(s1, names[1..], createList);
      var r := AddAll(s1, names[1..], createList);
      forall k | |s.items| <= k < |r.items|
        ensures s.nextId <= r.items[k].id
        ensures s.ids.Some? ==> r.items[k].id !in s.ids.value
        ensures r.ids.Some? ==> r.items[k].id in r.ids.value
      {
        if k < |s1.items| {
          assert r.items[k] == s1.items[k] == Item(s.nextId, names[0]);
          if r.ids.Some? {
            assert s1.ids.Some?;
            var last := |s1.ids.value| - 1;
            assert s1.ids.value[last] == s.nextId;
            assert r.ids.value[last] == s1.ids.value[last];
          }
        }
      }
    }
  }

  /** `name` needs nothing more: its item exists and, where the game's list exists or would be created, holds its id. */
  predicate Settled(s: Slot, name: string, createList: bool) {
    var found := FindByName(s.items, name);
    found.Some? && (createList ==> s.ids.Some?) && (s.ids.Some? ==> found.value.id in s.ids.value)
  }

  /** A pass for a settled name changes nothing. */
  lemma AddOneSettled(s: Slot, name: string, createList: bool)
    requires Settled(s, name, createList)
    ensures AddOne(s, name, createList) == s
  {
  }

  /** After its pass a name is settled. */
  lemma AddOneSettles(s: Slot, name: string, createList: bool)
    ensures Settled(AddOne(s, name, createList), name, createList)
  {
    FindByNameAppend(s.items, [Item(s.nextId, name)], name);
  }

  /** A pass for one name keeps every other name settled. */
  lemma AddOneKeeps(s: Slot, name: string, other: string, createList: bool)
    requires Settled(s, other, createList)
    ensures Settled(AddOne(s, name, createList), other, createList)
  {
    FindByNameAppend(s.items, [Item(s.nextId, name)], other);
  }

  lemma {:induction false} AddAllKeeps(s: Slot, names: seq<string>, other: string, createList: bool)
    requires Settled(s, other, createList)
    ensures Settled(AddAll(s, names, createList), other, createList)
    decreases |names|
  {
    if |names| > 0 {
      AddOneKeeps(s, names[0], other, createList);
      AddAllKeeps(AddOne(s, names[0], createList), names[1..], other, createList);
    }
  }

  /** After the loop every name it was given is settled. */
  lemma {:induction false} AddAllSettles(s: Slot, names: seq<string>, createList: bool)
    ensures forall n :: n in names ==> Settled(AddAll(s, names, createList), n, createList)
    decreases |names|
  {
    if |names| > 0 {
      var s1 := AddOne(s, names[0], createList);
      AddOneSettles(s, names[0], createList);
      AddAllKeeps(s1, names[1..], names[0], createList);
      AddAllSettles(s1, names[1..], createList);
    }
  }

  /** The loop over names that are all settled changes nothing. */
  lemma {:induction false} AddAllSettled(s: Slot, names: seq<string>, createList: bool)
    requires forall n :: n in names ==> Settled(s, n, createList)
    ensures AddAll(s, names, createList) == s
    decreases |names|
  {
    if |names| > 0 {
      AddOneSettled(s, names[0], createList);
      AddAllSettled(s, names[1..], createList);
    }
  }

  /** Running the loop twice is running it once. */
  lemma AddAllIdempotent(s: Slot, names: seq<string>, createList: bool)
    ensures AddAll(AddAll(s, names, createList), names, createList) == AddAll(s, names, createList)
  {
    AddAllSettles(s, names, createList);
    AddAllSettled(AddAll(s, names, createList), names, createList);
  }

  /** `id` is the id of the item some name in `names` finds first in the pool. */
  predicate IdOfName(items: seq<Item>, names: seq<string>, id: nat) {
    exists n :: n in names && FindByName(items, n).Some? && FindByName(items, n).value.id == id
  }

  /** The length of a possibly null id list. */
  function Count(ids: Option<seq<nat>>): nat {
    if ids.Some? then |ids.value| else 0
  }

  /** The loop keeps the pool's items in place and appends only items named in `names`. */
  lemma {:induction false} AddAllItems(s: Slot, names: seq<string>, createList: bool)
    ensures var r := AddAll(s, names, createList);
      |s.items| <= |r.items| && r.items[..|s.items|] == s.items
      && forall k :: |s.items| <= k < |r.items| ==> r.items[k].name in names
    decreases |names|
  {
    if |names| > 0 {
      var s1 := AddOne(s, names[0], createList);
      AddAllItems(s1, names[1..], createList);
      var r := AddAll(s1, names[1..], createList);
      assert r.items[..|s.items|] == s.items by {
        assert r.items[..|s1.items|] == s1.items;
        assert s1.items[..|s.items|] == s.items;
      }
      forall k | |s.items| <= k < |r.items| ensures r.items[k].name in names {
        if k < |s1.items| {
          assert r.items[k] == s1.items[k];
        } else {
          assert r.items[k].name in names[1..];
        }
      }
    }
  }

  /** The loop keeps the game's ids in place; a null category list stays null. */
  lemma {:induction false} AddAllIds(s: Slot, names: seq<string>, createList: bool)
    ensures var r := AddAll(s, names, createList);
      && (s.ids.None? && !createList ==> r.ids.None?)
      && (s.ids.Some? ==> r.ids.Some? && |s.ids.value| <= |r.ids.value| && r.ids.value[..|s.ids.value|] == s.ids.value)
    decreases |names|
  {
    if |names| > 0 {
      var s1 := AddOne(s, names[0], createList);
      AddAllIds(s1, names[1..], createList);
      if s.ids.Some? {
        var r := AddAll(s1, names[1..], createList);
        assert r.ids.value[..|s1.ids.value|] == s1.ids.value;
        assert s1.ids.value[..|s.ids.value|] == s.ids.value;
      }
    }
  }

  /** A pass keeps every id that some name finds first. */
  lemma AddOneKeepsIdOfName(s: Slot, name: string, createList: bool, names: seq<string>, id: nat)
    requires IdOfName(s.items, names, id)
    ensures IdOfName(AddOne(s, name, createList).items, names, id)
  {
    var n :| n in names && FindByName(s.items, n).Some? && FindByName(s.items, n).value.id == id;
    FindByNameAppend(s.items, [Item(s.nextId, name)], n);
  }

  lemma {:induction false} AddAllKeepsIdOfName(s: Slot, names: seq<string>, createList: bool, others: seq<string>, id: nat)
    requires IdOfName(s.items, others, id)
    ensures IdOfName(AddAll(s, names, createList).items, others, id)
    decreases |names|
  {
    if |names| > 0 {
      AddOneKeepsIdOfName(s, names[0], createList, others, id);
      AddAllKeepsIdOfName(AddOne(s, names[0], createList), names[1..], createList, others, id);
    }
  }

  /** Every id the loop adds to the game is the id of the item one of `names` finds. */
  lemma {:induction false} AddAllNewIds(s: Slot, names: seq<string>, createList: bool)
    ensures var r := AddAll(s, names, createList);
      r.ids.Some? ==> forall k :: Count(s.ids) <= k < |r.ids.value| ==> IdOfName(r.items, names, r.ids.value[k])
    decreases |names|
  {
    if |names| > 0 {
      var s1 := AddOne(s, names[0], createList);
      AddAllNewIds(s1, names[1..], createList);
      AddAllIds(s1, names[1..], createList);
      var r := AddAll(s1, names[1..], createList);
      if r.ids.Some? {
        forall k | Count(s.ids) <= k < |r.ids.value| ensures IdOfName(r.items, names, r.ids.value[k]) {
          if k < Count(s1.ids) {
            assert r.ids.value[k] == s1.ids.value[k];
            assert IdOfName(s1.items, names, s1.ids.value[k]) by {
              assert names[0] in names;
            }
            AddAllKeepsIdOfName(s1, names[1..], createList, names, r.ids.value[k]);
          } else {
            assert IdOfName(r.items, names[1..], r.ids.value[k]);
            var n :| n in names[1..] && FindByName(r.items, n).Some? && FindByName(r.items, n).value.id == r.ids.value[k];
            assert n in names;
          }
        }
      }
    }
  }

  /** A Steam Deck category name: `"Steam Deck"` itself or one starting `"Steam Deck -"`. */
  predicate IsDeckCategory(name: string) {
    name == "Steam Deck" || StartsWith(name, "Steam Deck -")
  }

  /** A ProtonDB category name: `"ProtonDB"` itself or one starting `"ProtonDB -"`. */
  predicate IsProtonCategory(name: string) {
    name == "ProtonDB" || StartsWith(name, "ProtonDB -")
  }

  /** Whether the category loop goes on to add `name` rather than `continue`. */
  predicate CategoryAllowed(name: string, settings: Option<Settings>) {
    && (IsDeckCategory(name) ==> settings.Some? && settings.value.enableSteamDeckCategories)
    && (IsProtonCategory(name) ==> settings.Some? && settings.value.enableProtonDbCategories)
  }

  /** The category names the loop does not skip, in order. */
  function AllowedCategories(names: seq<string>, settings: Option<Settings>): (r: seq<string>)
    ensures forall n :: n in r <==> n in names && CategoryAllowed(n, settings)
  {
    if |names| == 0 then []
    else
      var rest := AllowedCategories(names[1..], settings);
      assert forall n :: n in names <==> n == names[0] || n in names[1..];
      if CategoryAllowed(names[0], settings) then [names[0]] + rest else rest
  }

  predicate TagsOn(settings: Option<Settings>) {
    settings.Some? && settings.value.enableTags
  }

  predicate FeaturesOn(settings: Option<Settings>, enableFeatures: bool) {
    settings.Some? && enableFeatures
  }

  predicate LinkOn(settings: Option<Settings>) {
    settings.Some? && settings.value.enableProtonDbLink
  }

  /** The name of every link `Apply` adds. */
  const LinkName: string := "ProtonDB"

  function AddCategories(g: Game, db: Db, r: MappingResult, settings: Option<Settings>): (Game, Db) {
    if |r.categories| == 0 then (g, db)
    else
      var s := AddAll(Slot(db.categories, g.categoryIds, db.nextId), AllowedCategories(r.categories, settings), false);
      (g.(categoryIds := s.ids), db.(categories := s.items, nextId := s.nextId))
  }

  function AddTags(g: Game, db: Db, r: MappingResult, settings: Option<Settings>): (Game, Db) {
    if |r.tags| == 0 || !TagsOn(settings) then (g, db)
    else
      var s := AddAll(Slot(db.tags, g.tagIds, db.nextId), r.tags, true);
      (g.(tagIds := s.ids), db.(tags := s.items, nextId := s.nextId))
  }

  function AddFeatures(g: Game, db: Db, r: MappingResult, settings: Option<Settings>, enableFeatures: bool): (Game, Db) {
    if |r.features| == 0 || !FeaturesOn(settings, enableFeatures) then (g, db)
    else
      var s := AddAll(Slot(db.features, g.featureIds, db.nextId), r.features, true);
      (g.(featureIds := s.ids), db.(features := s.items, nextId := s.nextId))
  }

  function AddLink(g: Game, r: MappingResult, settings: Option<Settings>): Game {
    if r.protonDbUrl.None? || r.protonDbUrl.value == "" || !LinkOn(settings) then g
    else
      var link := Link(LinkName, r.protonDbUrl.value);
      match g.links
      case None => g.(links := Some([link]))
      case Some(links) => if link in links then g else g.(links := Some(links + [link]))
  }

  /**
   * `Apply(game, result, dryRun)`: categories, then tags, then features, then the link. A game stays
   * present or absent, and the id counter never goes back.
   */
  function Apply(game: Option<Game>, db: Db, result: Option<MappingResult>, dryRun: bool,
                 settings: Option<Settings>, enableFeatures: bool): (r: (Option<Game>, Db))
    ensures r.0.Some? <==> game.Some?
    ensures db.nextId <= r.1.nextId
  {
    if game.None? || result.None? || dryRun then (game, db)
    else
      var r := result.value;
      var (g1, db1) := AddCategories(game.value, db, r, settings);
      var (g2, db2) := AddTags(g1, db1, r, settings);
      var (g3, db3) := AddFeatures(g2, db2, r, settings, enableFeatures);
      (Some(AddLink(g3, r, settings)), db3)
  }

  /** A null game, a null mapping or a dry run changes neither the game nor the database. */
  lemma ApplyNoOp(game: Option<Game>, db: Db, result: Option<MappingResult>, dryRun: bool,
                  settings: Option<Settings>, enableFeatures: bool)
    requires game.None? || result.None? || dryRun
    ensures Apply(game, db, result, dryRun, settings, enableFeatures) == (game, db)
  {
  }

  /** The category slot of a game and database. */
  function CategorySlot(g: Game, db: Db): Slot {
    Slot(db.categories, g.categoryIds, db.nextId)
  }

  function TagSlot(g: Game, db: Db): Slot {
    Slot(db.tags, g.tagIds, db.nextId)
  }

  function FeatureSlot(g: Game, db: Db): Slot {
    Slot(db.features, g.featureIds, db.nextId)
  }

  /** The counter is ahead of every id in the three pools and in the game's three lists. */
  predicate Fresh(g: Game, db: Db) {
    SlotFresh(CategorySlot(g, db)) && SlotFresh(TagSlot(g, db)) && SlotFresh(FeatureSlot(g, db))
  }

  /** `id` was not in the game's list `before`, and is in `after` wherever that list exists. */
  predicate NewlyListed(id: nat, before: Option<seq<nat>>, after: Option<seq<nat>>) {
    (before.Some? ==> id !in before.value) && (after.Some? ==> id in after.value)
  }

  /** The category step keeps a game and database fresh and lists each category it creates. */
  lemma AddCategoriesFresh(g: Game, db: Db, r: MappingResult, settings: Option<Settings>)
    requires Fresh(g, db)
    ensures var t := AddCategories(g, db, r, settings);
      && Fresh(t.0, t.1)
      && (forall k :: |db.categories| <= k < |t.1.categories| ==>
            NewlyListed(t.1.categories[k].id, g.categoryIds, t.0.categoryIds))
  {
    var t := AddCategories(g, db, r, settings);
    if |r.categories| > 0 {
      AddAllFresh(CategorySlot(g, db), AllowedCategories(r.categories, settings), false);
    }
    assert TagSlot(t.0, t.1) == TagSlot(g, db).(nextId := t.1.nextId);
    assert FeatureSlot(t.0, t.1) == FeatureSlot(g, db).(nextId := t.1.nextId);
    SlotFreshLater(TagSlot(g, db), t.1.nextId);
    SlotFreshLater(FeatureSlot(g, db), t.1.nextId);
  }

  /** The tag step keeps a game and database fresh and lists each tag it creates. */
  lemma AddTagsFresh(g: Game, db: Db, r: MappingResult, settings: Option<Settings>)
    requires Fresh(g, db)
    ensures var t := AddTags(g, db, r, settings);
      && Fresh(t.0, t.1)
      && (|db.tags| < |t.1.tags| ==> t.0.tagIds.Some?)
      && (forall k :: |db.tags| <= k < |t.1.tags| ==> NewlyListed(t.1.tags[k].id, g.tagIds, t.0.tagIds))
  {
    var t := AddTags(g, db, r, settings);
    if |r.tags| > 0 && TagsOn(settings) {
      AddAllFresh(TagSlot(g, db), r.tags, true);
    }
    assert CategorySlot(t.0, t.1) == CategorySlot(g, db).(nextId := t.1.nextId);
    assert FeatureSlot(t.0, t.1) == FeatureSlot(g, db).(nextId := t.1.nextId);
    SlotFreshLater(CategorySlot(g, db), t.1.nextId);
    SlotFreshLater(FeatureSlot(g, db), t.1.nextId);
  }

  /** The feature step keeps a game and database fresh and lists each feature it creates. */
  lemma AddFeaturesFresh(g: Game, db: Db, r: MappingResult, settings: Option<Settings>, enableFeatures: bool)
    requires Fresh(g, db)
    ensures var t := AddFeatures(g, db, r, settings, enableFeatures);
      && Fresh(t.0, t.1)
      && (|db.features| < |t.1.features| ==> t.0.featureIds.Some?)
      && (forall k :: |db.features| <= k < |t.1.features| ==>
            NewlyListed(t.1.features[k].id, g.featureIds, t.0.featureIds))
  {
    var t := AddFeatures(g, db, r, settings, enableFeatures);
    if |r.features| > 0 && FeaturesOn(settings, enableFeatures) {
      AddAllFresh(FeatureSlot(g, db), r.features, true);
    }
    assert CategorySlot(t.0, t.1) == CategorySlot(g, db).(nextId := t.1.nextId);
    assert TagSlot(t.0, t.1) == TagSlot(g, db).(nextId := t.1.nextId);
    SlotFreshLater(CategorySlot(g, db), t.1.nextId);
    SlotFreshLater(TagSlot(g, db), t.1.nextId);
  }

  /** One item the tag step creates: its id is new to the game's tag list and in it afterwards. */
  lemma AddTagsListsNew(g: Game, db: Db, r: MappingResult, settings: Option<Settings>, k: int)
    requires Fresh(g, db) && |db.tags| <= k < |AddTags(g, db, r, settings).1.tags|
    ensures var t := AddTags(g, db, r, settings);
      NewlyListed(t.1.tags[k].id, g.tagIds, t.0.tagIds)
  {
    AddTagsFresh(g, db, r, settings);
  }

  /** One item the feature step creates: its id is new to the game's feature list and in it afterwards. */
  lemma AddFeaturesListsNew(g: Game, db: Db, r: MappingResult, settings: Option<Settings>, enableFeatures: bool, k: int)
    requires Fresh(g, db) && |db.features| <= k < |AddFeatures(g, db, r, settings, enableFeatures).1.features|
    ensures var t := AddFeatures(g, db, r, settings, enableFeatures);
      NewlyListed(t.1.features[k].id, g.featureIds, t.0.featureIds)
  {
    AddFeaturesFresh(g, db, r, settings, enableFeatures);
  }

  /** One item the category step creates: its id is new to the game's category list and in it afterwards. */
  lemma AddCategoriesListsNew(g: Game, db: Db, r: MappingResult, settings: Option<Settings>, k: int)
    requires Fresh(g, db) && |db.categories| <= k < |AddCategories(g, db, r, settings).1.categories|
    ensures var t := AddCategories(g, db, r, settings);
      NewlyListed(t.1.categories[k].id, g.categoryIds, t.0.categoryIds)
  {
    AddCategoriesFresh(g, db, r, settings);
  }

  /** Every category `db2` has beyond `db` carries an id that `game` did not list and `g` lists, where it has a list. */
  predicate CategoriesListed(game: Game, db: Db, g: Game, db2: Db) {
    forall k :: |db.categories| <= k < |db2.categories| ==>
      NewlyListed(db2.categories[k].id, game.categoryIds, g.categoryIds)
  }

  /** Every tag `db2` has beyond `db` carries an id that `game` did not list and `g` lists. */
  predicate TagsListed(game: Game, db: Db, g: Game, db2: Db) {
    && (|db.tags| < |db2.tags| ==> g.tagIds.Some?)
    && forall k :: |db.tags| <= k < |db2.tags| ==> NewlyListed(db2.tags[k].id, game.tagIds, g.tagIds)
  }

  /** Every feature `db2` has beyond `db` carries an id that `game` did not list and `g` lists. */
  predicate FeaturesListed(game: Game, db: Db, g: Game, db2: Db) {
    && (|db.features| < |db2.features| ==> g.featureIds.Some?)
    && forall k :: |db.features| <= k < |db2.features| ==> NewlyListed(db2.features[k].id, game.featureIds, g.featureIds)
  }

  /**
   * `g` and `db2` are fresh, and every category, tag or feature `db2` has beyond `db` carries an id
   * that `game` did not list and `g` lists. Tags and features always have a list to go in; a category
   * goes in only where the game has one.
   */
  predicate FreshAfter(game: Game, db: Db, g: Game, db2: Db) {
    Fresh(g, db2) && CategoriesListed(game, db, g, db2) && TagsListed(game, db, g, db2) && FeaturesListed(game, db, g, db2)
  }

  /** The four steps of `Apply` on a game and database. */
  function Steps(game: Game, db: Db, r: MappingResult, settings: Option<Settings>, enableFeatures: bool): (Game, Db) {
    var ta := AddCategories(game, db, r, settings);
    var tb := AddTags(ta.0, ta.1, r, settings);
    var tc := AddFeatures(tb.0, tb.1, r, settings, enableFeatures);
    (AddLink(tc.0, r, settings), tc.1)
  }

  lemma StepsKeepFresh(game: Game, db: Db, r: MappingResult, settings: Option<Settings>, enableFeatures: bool)
    requires Fresh(game, db)
    ensures var t := Steps(game, db, r, settings, enableFeatures); Fresh(t.0, t.1)
  {
    var ta := AddCategories(game, db, r, settings);
    var tb := AddTags(ta.0, ta.1, r, settings);
    var tc := AddFeatures(tb.0, tb.1, r, settings, enableFeatures);
    var gd := AddLink(tc.0, r, settings);
    AddCategoriesFresh(game, db, r, settings);
    AddTagsFresh(ta.0, ta.1, r, settings);
    AddFeaturesFresh(tb.0, tb.1, r, settings, enableFeatures);
    assert CategorySlot(gd, tc.1) == CategorySlot(tc.0, tc.1) && TagSlot(gd, tc.1) == TagSlot(tc.0, tc.1)
      && FeatureSlot(gd, tc.1) == FeatureSlot(tc.0, tc.1);
  }

  lemma StepsListCategories(game: Game, db: Db, r: MappingResult, settings: Option<Settings>, enableFeatures: bool)
    requires Fresh(game, db)
    ensures var t := Steps(game, db, r, settings, enableFeatures); CategoriesListed(game, db, t.0, t.1)
  {
    var ta := AddCategories(game, db, r, settings);
    var t := Steps(game, db, r, settings, enableFeatures);
    // The later steps leave the category pool and the game's category list alone.
    assert t.1.categories == ta.1.categories && t.0.categoryIds == ta.0.categoryIds;
    forall k | |db.categories| <= k < |t.1.categories|
      ensures NewlyListed(t.1.categories[k].id, game.categoryIds, t.0.categoryIds)
    {
      AddCategoriesListsNew(game, db, r, settings, k);
    }
  }

  lemma StepsListTags(game: Game, db: Db, r: MappingResult, settings: Option<Settings>, enableFeatures: bool)
    requires Fresh(game, db)
    ensures var t := Steps(game, db, r, settings, enableFeatures); TagsListed(game, db, t.0, t.1)
  {
    var ta := AddCategories(game, db, r, settings);
    var tb := AddTags(ta.0, ta.1, r, settings);
    var t := Steps(game, db, r, settings, enableFeatures);
    AddCategoriesFresh(game, db, r, settings);
    AddTagsFresh(ta.0, ta.1, r, settings);
    // The category step leaves the tags alone, and the steps after the tag step do too.
    assert ta.1.tags == db.tags && ta.0.tagIds == game.tagIds;
    assert t.1.tags == tb.1.tags && t.0.tagIds == tb.0.tagIds;
    forall k | |db.tags| <= k < |t.1.tags| ensures NewlyListed(t.1.tags[k].id, game.tagIds, t.0.tagIds) {
      AddTagsListsNew(ta.0, ta.1, r, settings, k);
    }
  }

  lemma StepsListFeatures(game: Game, db: Db, r: MappingResult, settings: Option<Settings>, enableFeatures: bool)
    requires Fresh(game, db)
    ensures var t := Steps(game, db, r, settings, enableFeatures); FeaturesListed(game, db, t.0, t.1)
  {
    var ta := AddCategories(game, db, r, settings);
    var tb := AddTags(ta.0, ta.1, r, settings);
    var tc := AddFeatures(tb.0, tb.1, r, settings, enableFeatures);
    var t := Steps(game, db, r, settings, enableFeatures);
    AddCategoriesFresh(game, db, r, settings);
    AddTagsFresh(ta.0, ta.1, r, settings);
    AddFeaturesFresh(tb.0, tb.1, r, settings, enableFeatures);
    // The steps before the feature step leave the features alone, and the link does too.
    assert tb.1.features == db.features && tb.0.featureIds == game.featureIds;
    assert t.1 == tc.1 && t.0.featureIds == tc.0.featureIds;
    forall k | |db.features| <= k < |t.1.features| ensures NewlyListed(t.1.features[k].id, game.featureIds, t.0.featureIds) {
      AddFeaturesListsNew(tb.0, tb.1, r, settings, enableFeatures, k);
    }
  }

  /**
   * On a fresh game and database, `Apply` keeps them fresh, and every category, tag or feature it
   * creates gets an id the game did not list before and lists afterwards.
   */
  lemma ApplyKeepsFresh(game: Game, db: Db, r: MappingResult, settings: Option<Settings>, enableFeatures: bool)
    requires Fresh(game, db)
    ensures var t := Apply(Some(game), db, Some(r), false, settings, enableFeatures);
      t.0.Some? && FreshAfter(game, db, t.0.value, t.1)
  {
    var t := Steps(game, db, r, settings, enableFeatures);
    assert Apply(Some(game), db, Some(r), false, settings, enableFeatures) == (Some(t.0), t.1);
    StepsKeepFresh(game, db, r, settings, enableFeatures);
    StepsListCategories(game, db, r, settings, enableFeatures);
    StepsListTags(game, db, r, settings, enableFeatures);
    StepsListFeatures(game, db, r, settings, enableFeatures);
  }

  /** Every name a step would process is settled in its slot. */
  predicate AllSettled(s: Slot, names: seq<string>, createList: bool) {
    forall n :: n in names ==> Settled(s, n, createList)
  }

  /** Settledness does not depend on the id counter. */
  lemma AllSettledAnyCounter(s: Slot, names: seq<string>, createList: bool, next: nat)
    requires AllSettled(s, names, createList)
    ensures AllSettled(s.(nextId := next), names, createList)
  {
    assert forall n :: Settled(s, n, createList) == Settled(s.(nextId := next), n, createList);
  }

  /** The category step leaves every allowed category settled, and again changes nothing. */
  lemma AddCategoriesSettles(g: Game, db: Db, r: MappingResult, settings: Option<Settings>)
    ensures var (g1, db1) := AddCategories(g, db, r, settings);
      AddCategories(g1, db1, r, settings) == (g1, db1)
      && (|r.categories| > 0 ==> AllSettled(CategorySlot(g1, db1), AllowedCategories(r.categories, settings), false))
  {
    if |r.categories| > 0 {
      var names := AllowedCategories(r.categories, settings);
      AddAllSettles(CategorySlot(g, db), names, false);
      var (g1, db1) := AddCategories(g, db, r, settings);
      assert CategorySlot(g1, db1) == AddAll(CategorySlot(g, db), names, false);
      AddAllSettled(CategorySlot(g1, db1), names, false);
    }
  }

  /** The category step changes nothing where the allowed categories are already settled. */
  lemma AddCategoriesSettled(g: Game, db: Db, r: MappingResult, settings: Option<Settings>)
    requires |r.categories| > 0 ==> AllSettled(CategorySlot(g, db), AllowedCategories(r.categories, settings), false)
    ensures AddCategories(g, db, r, settings) == (g, db)
  {
    if |r.categories| > 0 {
      AddAllSettled(CategorySlot(g, db), AllowedCategories(r.categories, settings), false);
    }
  }

  lemma AddTagsSettles(g: Game, db: Db, r: MappingResult, settings: Option<Settings>)
    ensures var (g1, db1) := AddTags(g, db, r, settings);
      |r.tags| > 0 && TagsOn(settings) ==> AllSettled(TagSlot(g1, db1), r.tags, true)
  {
    if |r.tags| > 0 && TagsOn(settings) {
      AddAllSettles(TagSlot(g, db), r.tags, true);
    }
  }

  lemma AddTagsSettled(g: Game, db: Db, r: MappingResult, settings: Option<Settings>)
    requires |r.tags| > 0 && TagsOn(settings) ==> AllSettled(TagSlot(g, db), r.tags, true)
    ensures AddTags(g, db, r, settings) == (g, db)
  {
    if |r.tags| > 0 && TagsOn(settings) {
      AddAllSettled(TagSlot(g, db), r.tags, true);
    }
  }

  lemma AddFeaturesSettles(g: Game, db: Db, r: MappingResult, settings: Option<Settings>, enableFeatures: bool)
    ensures var (g1, db1) := AddFeatures(g, db, r, settings, enableFeatures);
      |r.features| > 0 && FeaturesOn(settings, enableFeatures) ==> AllSettled(FeatureSlot(g1, db1), r.features, true)
  {
    if |r.features| > 0 && FeaturesOn(settings, enableFeatures) {
      AddAllSettles(FeatureSlot(g, db), r.features, true);
    }
  }

  lemma AddFeaturesSettled(g: Game, db: Db, r: MappingResult, settings: Option<Settings>, enableFeatures: bool)
    requires |r.features| > 0 && FeaturesOn(settings, enableFeatures) ==> AllSettled(FeatureSlot(g, db), r.features, true)
    ensures AddFeatures(g, db, r, settings, enableFeatures) == (g, db)
  {
    if |r.features| > 0 && FeaturesOn(settings, enableFeatures) {
      AddAllSettled(FeatureSlot(g, db), r.features, true);
    }
  }

  /** Adding the link twice is adding it once. */
  lemma AddLinkIdempotent(g: Game, r: MappingResult, settings: Option<Settings>)
    ensures AddLink(AddLink(g, r, settings), r, settings) == AddLink(g, r, settings)
  {
  }

  /** Applying the same mapping twice leaves the game and the database as applying it once. */
  lemma ApplyIdempotent(game: Game, db: Db, result: MappingResult, settings: Option<Settings>, enableFeatures: bool)
    ensures var (g1, db1) := Apply(Some(game), db, Some(result), false, settings, enableFeatures);
      Apply(g1, db1, Some(result), false, settings, enableFeatures) == (g1, db1)
  {
    var r := result;
    var cats := AllowedCategories(r.categories, settings);
    var (ga, dba) := AddCategories(game, db, r, settings);
    var (gb, dbb) := AddTags(ga, dba, r, settings);
    var (gc, dbc) := AddFeatures(gb, dbb, r, settings, enableFeatures);
    var gd := AddLink(gc, r, settings);
    AddCategoriesSettles(game, db, r, settings);
    AddTagsSettles(ga, dba, r, settings);
    AddFeaturesSettles(gb, dbb, r, settings, enableFeatures);
    // The later steps leave each earlier step's slot as it was, apart from the id counter.
    if |r.categories| > 0 {
      assert CategorySlot(gd, dbc) == CategorySlot(ga, dba).(nextId := dbc.nextId);
      AllSettledAnyCounter(CategorySlot(ga, dba), cats, false, dbc.nextId);
    }
    AddCategoriesSettled(gd, dbc, r, settings);
    if |r.tags| > 0 && TagsOn(settings) {
      assert TagSlot(gd, dbc) == TagSlot(gb, dbb).(nextId := dbc.nextId);
      AllSettledAnyCounter(TagSlot(gb, dbb), r.tags, true, dbc.nextId);
    }
    AddTagsSettled(gd, dbc, r, settings);
    AddFeaturesSettled(gd, dbc, r, settings, enableFeatures);
    AddLinkIdempotent(gc, r, settings);
  }

  /** The steps after the category step leave the category pool and the game's category list alone. */
  lemma LaterStepsKeepCategories(g: Game, db: Db, r: MappingResult, settings: Option<Settings>, enableFeatures: bool)
    ensures var (gb, dbb) := AddTags(g, db, r, settings);
      var (gc, dbc) := AddFeatures(gb, dbb, r, settings, enableFeatures);
      AddLink(gc, r, settings).categoryIds == g.categoryIds && dbc.categories == db.categories
  {
  }

  /**
   * The category step only adds, and only what the switches allow: the pool keeps its items and gains
   * only allowed names, a null game list stays null, and every id the game gains is that of an
   * allowed name's item.
   */
  lemma AddCategoriesRespectsSwitches(game: Game, db: Db, r: MappingResult, settings: Option<Settings>)
    ensures var (g, db2) := AddCategories(game, db, r, settings);
      var cats := AllowedCategories(r.categories, settings);
      && |db.categories| <= |db2.categories| && db2.categories[..|db.categories|] == db.categories
      && (forall k :: |db.categories| <= k < |db2.categories| ==> CategoryAllowed(db2.categories[k].name, settings))
      && (game.categoryIds.None? ==> g.categoryIds.None?)
      && (game.categoryIds.Some? ==>
            g.categoryIds.Some? && |game.categoryIds.value| <= |g.categoryIds.value|
            && g.categoryIds.value[..|game.categoryIds.value|] == game.categoryIds.value
            && forall k :: |game.categoryIds.value| <= k < |g.categoryIds.value| ==>
                 IdOfName(db2.categories, cats, g.categoryIds.value[k]))
  {
    var cats := AllowedCategories(r.categories, settings);
    var s := CategorySlot(game, db);
    var (ga, dba) := AddCategories(game, db, r, settings);
    if |r.categories| > 0 {
      AddAllItems(s, cats, false);
      AddAllIds(s, cats, false);
      AddAllNewIds(s, cats, false);
      assert CategorySlot(ga, dba) == AddAll(s, cats, false);
      forall k | |db.categories| <= k < |dba.categories| ensures CategoryAllowed(dba.categories[k].name, settings) {
        assert dba.categories[k].name in cats;
      }
    } else {
      assert dba.categories[..|db.categories|] == db.categories;
      assert game.categoryIds.Some? ==> ga.categoryIds.value[..|game.categoryIds.value|] == game.categoryIds.value;
    }
  }

  /**
   * Each switch gates its part of `Apply`: with tags off the game's tags and the tag pool stay as they
   * were, likewise features, and the links with the link switch off; new category items carry only
   * names the category switches allow.
   */
  lemma ApplyRespectsSwitches(game: Game, db: Db, r: MappingResult, settings: Option<Settings>, enableFeatures: bool)
    ensures var (g, db2) := Apply(Some(game), db, Some(r), false, settings, enableFeatures);
      && (!TagsOn(settings) ==> g.value.tagIds == game.tagIds && db2.tags == db.tags)
      && (!FeaturesOn(settings, enableFeatures) ==> g.value.featureIds == game.featureIds && db2.features == db.features)
      && (!LinkOn(settings) ==> g.value.links == game.links)
      && |db.categories| <= |db2.categories| && db2.categories[..|db.categories|] == db.categories
      && (forall k :: |db.categories| <= k < |db2.categories| ==> CategoryAllowed(db2.categories[k].name, settings))
      && (game.categoryIds.None? ==> g.value.categoryIds.None?)
  {
    AddCategoriesRespectsSwitches(game, db, r, settings);
    var (ga, dba) := AddCategories(game, db, r, settings);
    LaterStepsKeepCategories(ga, dba, r, settings, enableFeatures);
  }

  /**
   * Everything allowed is applied: each allowed category has an item whose id the game lists (when the
   * game has a category list), each mapped tag and feature likewise when its switch is on, and the
   * ProtonDB link is present when there is a non-empty address and the link switch is on.
   */
  lemma ApplyAddsEverything(game: Game, db: Db, r: MappingResult, settings: Option<Settings>, enableFeatures: bool)
    ensures var (g, db2) := Apply(Some(game), db, Some(r), false, settings, enableFeatures);
      && (forall n :: n in r.categories && CategoryAllowed(n, settings) ==>
            Settled(CategorySlot(g.value, db2), n, false))
      && (TagsOn(settings) ==> forall n :: n in r.tags ==> Settled(TagSlot(g.value, db2), n, true))
      && (FeaturesOn(settings, enableFeatures) ==> forall n :: n in r.features ==> Settled(FeatureSlot(g.value, db2), n, true))
      && (LinkOn(settings) && r.protonDbUrl.Some? && r.protonDbUrl.value != "" ==>
            g.value.links.Some? && Link(LinkName, r.protonDbUrl.value) in g.value.links.value)
  {
    var cats := AllowedCategories(r.categories, settings);
    var (ga, dba) := AddCategories(game, db, r, settings);
    var (gb, dbb) := AddTags(ga, dba, r, settings);
    var (gc, dbc) := AddFeatures(gb, dbb, r, settings, enableFeatures);
    var gd := AddLink(gc, r, settings);
    AddCategoriesSettles(game, db, r, settings);
    AddTagsSettles(ga, dba, r, settings);
    AddFeaturesSettles(gb, dbb, r, settings, enableFeatures);
    if |r.categories| > 0 {
      assert CategorySlot(gd, dbc) == CategorySlot(ga, dba).(nextId := dbc.nextId);
      AllSettledAnyCounter(CategorySlot(ga, dba), cats, false, dbc.nextId);
    }
    if |r.tags| > 0 && TagsOn(settings) {
      assert TagSlot(gd, dbc) == TagSlot(gb, dbb).(nextId := dbc.nextId);
      AllSettledAnyCounter(TagSlot(gb, dbb), r.tags, true, dbc.nextId);
    }
  }

  /** Every category the mapping produces is a Steam Deck or a ProtonDB category. */
  lemma MapCategoriesAreGated(appId: int, deck: SteamDeckCompatibility, proton: Option<ProtonDbResult>)
    ensures forall n :: n in Processor.Map(appId, deck, proton).categories ==> IsDeckCategory(n) || IsProtonCategory(n)
  {
    Processor.MapSpec(appId, deck, proton);
    if deck != SteamDeckCompatibility.Unknown {
      var n := "Steam Deck - " + DeckName(deck);
      assert n[..|"Steam Deck -"|] == "Steam Deck -";
    }
    var tier := Processor.TierOf(proton);
    if tier != ProtonDbTier.Unknown {
      var n := "ProtonDB - " + TierName(tier);
      assert n[..|"ProtonDB -"|] == "ProtonDB -";
    }
  }

  /** Without a settings object, applying a mapping changes neither the game nor the database. */
  lemma NullSettingsChangeNothing(game: Game, db: Db, appId: int, deck: SteamDeckCompatibility,
                                  proton: Option<ProtonDbResult>, enableFeatures: bool)
    ensures Apply(Some(game), db, Some(Processor.Map(appId, deck, proton)), false, None, enableFeatures)
            == (Some(game), db)
  {
    var r := Processor.Map(appId, deck, proton);
    MapCategoriesAreGated(appId, deck, proton);
    var cats := AllowedCategories(r.categories, None);
    if |cats| > 0 {
      assert cats[0] in cats;
    }
  }
}
