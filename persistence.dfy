/** The stored form of the goal lists: the configuration entries the data
    managers write and read, the JSON codec as an abstract encode/decode
    pair, and the projections between the store and the stored form. */
module Persistence {
  import opened Lists
  import opened Goals
  import opened Decimal

  const KEY_VALUE: string := "value"
  const KEY_ITEMIDS: string := "itemIds"
  const KEY_GROUPS: string := "groups"

  /** What the JSON library writes for an empty list. */
  const EMPTY_JSON: string := "[]"

  /** The numeric state of the client's login screen; a lower state means
      the client is still starting up. */
  const LOGIN_SCREEN: int := 10

  /** The stored record of one group. */
  datatype GroupData = GroupData(name: string, collapsed: bool, items: seq<int>)

  /** toJson / fromJson for the two stored list types; a failing fromJson
      (an exception in the code) is None. */
  datatype Codec = Codec(encodeIds: seq<int> -> string,
                         decodeIds: string -> Option<seq<int>>,
                         encodeGroups: seq<GroupData> -> string,
                         decodeGroups: string -> Option<seq<GroupData>>)

  /** Decoding inverts encoding, and an empty list encodes as "[]". */
  ghost predicate Inverts(c: Codec)
  {
    && (forall ids :: c.decodeIds(c.encodeIds(ids)) == Some(ids))
    && (forall gs :: c.decodeGroups(c.encodeGroups(gs)) == Some(gs))
    && c.encodeIds([]) == EMPTY_JSON
    && c.encodeGroups([]) == EMPTY_JSON
  }

  /** The configuration manager's entries of the plugin's group. */
  class ConfigStore {
    var entries: map<string, string>

    constructor(entries: map<string, string>)
      ensures this.entries == entries
    {
      this.entries := entries;
    }
  }

  /** getConfiguration: the stored text, or null (None) when there is none. */
  function Lookup(entries: map<string, string>, key: string): (r: Option<string>)
    ensures r.Some? <==> key in entries
    ensures r.Some? ==> r.value == entries[key]
  {
    if key in entries then Some(entries[key]) else None
  }

  /** The item ids of a list, in list order. */
  function Ids(items: seq<Item>): (r: seq<int>)
    ensures |r| == |items|
    ensures forall i :: 0 <= i < |items| ==> r[i] == items[i].itemId
  {
    seq(|items|, i requires 0 <= i < |items| => items[i].itemId)
  }

  /** The stored record of each group, in group order. */
  function Records(groups: seq<Group>): (r: seq<GroupData>)
    ensures |r| == |groups|
    ensures forall i :: 0 <= i < |groups| ==>
      r[i] == GroupData(groups[i].name, groups[i].collapsed, Ids(groups[i].items))
  {
    seq(|groups|, i requires 0 <= i < |groups| =>
      GroupData(groups[i].name, groups[i].collapsed, Ids(groups[i].items)))
  }

  /** The entries after a save of the value, the top-level ids and the
      group records. */
  function SavedEntries(entries: map<string, string>, c: Codec, value: int,
                        items: seq<Item>, groups: seq<Group>): (r: map<string, string>)
    ensures Lookup(r, KEY_VALUE) == Some(ValueOf(value))
    ensures Lookup(r, KEY_ITEMIDS) == Some(c.encodeIds(Ids(items)))
    ensures Lookup(r, KEY_GROUPS) == Some(c.encodeGroups(Records(groups)))
    ensures forall k :: k !in {KEY_VALUE, KEY_ITEMIDS, KEY_GROUPS} ==> Lookup(r, k) == Lookup(entries, k)
  {
    entries[KEY_VALUE := ValueOf(value)]
           [KEY_ITEMIDS := c.encodeIds(Ids(items))]
           [KEY_GROUPS := c.encodeGroups(Records(groups))]
  }

  /** The entries after a save of the value and the top-level ids only. */
  function SavedItemEntries(entries: map<string, string>, c: Codec, value: int,
                            items: seq<Item>): (r: map<string, string>)
    ensures Lookup(r, KEY_VALUE) == Some(ValueOf(value))
    ensures Lookup(r, KEY_ITEMIDS) == Some(c.encodeIds(Ids(items)))
    ensures forall k :: k !in {KEY_VALUE, KEY_ITEMIDS} ==> Lookup(r, k) == Lookup(entries, k)
  {
    entries[KEY_VALUE := ValueOf(value)][KEY_ITEMIDS := c.encodeIds(Ids(items))]
  }

  /** The ids a load recovers from the items field: none for a missing
      field, for "[]" and for text that does not decode. */
  function LoadedIds(c: Codec, field: Option<string>): (r: seq<int>)
    ensures field.None? || field.value == EMPTY_JSON ==> r == []
    ensures field.Some? && field.value != EMPTY_JSON && c.decodeIds(field.value).None? ==> r == []
    ensures field.Some? && field.value != EMPTY_JSON && c.decodeIds(field.value).Some? ==>
      r == c.decodeIds(field.value).value
  {
    if field.None? || field.value == EMPTY_JSON then []
    else
      match c.decodeIds(field.value)
      case None => []
      case Some(ids) => ids
  }

  /** The group records a load recovers from the groups field, with the
      same fallbacks. */
  function LoadedGroups(c: Codec, field: Option<string>): (r: seq<GroupData>)
    ensures field.None? || field.value == EMPTY_JSON ==> r == []
    ensures field.Some? && field.value != EMPTY_JSON && c.decodeGroups(field.value).None? ==> r == []
    ensures field.Some? && field.value != EMPTY_JSON && c.decodeGroups(field.value).Some? ==>
      r == c.decodeGroups(field.value).value
  {
    if field.None? || field.value == EMPTY_JSON then []
    else
      match c.decodeGroups(field.value)
      case None => []
      case Some(gs) => gs
  }

  /** convertIdToItem: the item's name comes from the item lookup and its
      price is 0 until prices are refreshed. */
  function ToItem(id: int, name: int -> string): (it: Item)
    ensures Ids([it]) == [id]
    ensures it.name == name(id) && it.gePrice == 0
  {
    Item(name(id), id, 0)
  }

  function ToItems(ids: seq<int>, name: int -> string): (r: seq<Item>)
    ensures |r| == |ids|
    ensures forall i :: 0 <= i < |ids| ==> r[i] == ToItem(ids[i], name)
  {
    seq(|ids|, i requires 0 <= i < |ids| => ToItem(ids[i], name))
  }

  function ToGroups(records: seq<GroupData>, name: int -> string): (r: seq<Group>)
    ensures |r| == |records|
    ensures forall i :: 0 <= i < |records| ==>
      r[i] == Group(records[i].name, records[i].collapsed, ToItems(records[i].items, name))
  {
    seq(|records|, i requires 0 <= i < |records| =>
      Group(records[i].name, records[i].collapsed, ToItems(records[i].items, name)))
  }

  /** The value field is present and Long.parseLong accepts it. */
  predicate ValueParses(entries: map<string, string>)
  {
    KEY_VALUE in entries && ParseLong(entries[KEY_VALUE]).Some?
  }

  /** Rebuilt items keep the stored ids in order, take their names from
      the lookup and have price 0. */
  lemma ToItemsKeepsIds(ids: seq<int>, name: int -> string)
    ensures Ids(ToItems(ids, name)) == ids
    ensures forall i :: 0 <= i < |ids| ==>
      ToItems(ids, name)[i].name == name(ids[i]) && ToItems(ids, name)[i].gePrice == 0
  {
    assert forall i :: 0 <= i < |ids| ==> Ids(ToItems(ids, name))[i] == ids[i];
  }

  /** Rebuilt groups keep name, collapsed flag and id order. */
  lemma ToGroupsKeepsRecords(records: seq<GroupData>, name: int -> string)
    ensures Records(ToGroups(records, name)) == records
  {
    var gs := ToGroups(records, name);
    forall i | 0 <= i < |records| ensures Records(gs)[i] == records[i] {
      ToItemsKeepsIds(records[i].items, name);
    }
  }

  /** A price refresh changes no id, name or flag. */
  lemma RepriceKeepsProjection(items: seq<Item>, groups: seq<Group>, price: int -> int)
    ensures Ids(Repriced(items, price)) == Ids(items)
    ensures Records(RepricedGroups(groups, price)) == Records(groups)
  {
    var rg := RepricedGroups(groups, price);
    forall i | 0 <= i < |groups| ensures Records(rg)[i] == Records(groups)[i] {
      assert Ids(rg[i].items) == Ids(groups[i].items);
    }
  }

  /** The items field read back after a save gives the saved ids, also
      when the list was empty and "[]" was written. */
  lemma IdsRoundTrip(c: Codec, ids: seq<int>)
    requires Inverts(c)
    ensures LoadedIds(c, Some(c.encodeIds(ids))) == ids
  {
    if c.encodeIds(ids) == EMPTY_JSON {
      assert c.decodeIds(c.encodeIds([])) == Some([]);
    }
  }

  lemma GroupsRoundTrip(c: Codec, gs: seq<GroupData>)
    requires Inverts(c)
    ensures LoadedGroups(c, Some(c.encodeGroups(gs))) == gs
  {
    if c.encodeGroups(gs) == EMPTY_JSON {
      assert c.decodeGroups(c.encodeGroups([])) == Some([]);
    }
  }

  /** Save then load: the value, the top-level id sequence and every
      group's name, flag and id sequence come back, whatever the prices. */
  lemma SaveLoadRoundTrip(entries: map<string, string>, c: Codec, value: int,
                          items: seq<Item>, groups: seq<Group>,
                          name: int -> string, price: int -> int)
    requires Inverts(c) && IsLong(value)
    ensures var saved := SavedEntries(entries, c, value, items, groups);
      && ValueParses(saved)
      && ParseLong(saved[KEY_VALUE]) == Some(value)
      && Ids(Repriced(ToItems(LoadedIds(c, Lookup(saved, KEY_ITEMIDS)), name), price)) == Ids(items)
      && Records(RepricedGroups(ToGroups(LoadedGroups(c, Lookup(saved, KEY_GROUPS)), name), price))
         == Records(groups)
  {
    var saved := SavedEntries(entries, c, value, items, groups);
    ParseValueOf(value);
    IdsRoundTrip(c, Ids(items));
    GroupsRoundTrip(c, Records(groups));
    var loadedItems := ToItems(Ids(items), name);
    var loadedGroups := ToGroups(Records(groups), name);
    ToItemsKeepsIds(Ids(items), name);
    ToGroupsKeepsRecords(Records(groups), name);
    RepriceKeepsProjection(loadedItems, loadedGroups, price);
  }

  /** The items-only save and load of the earlier data manager: the value
      and the top-level id sequence come back. */
  lemma ItemsOnlyRoundTrip(entries: map<string, string>, c: Codec, value: int,
                           items: seq<Item>, name: int -> string)
    requires Inverts(c) && IsLong(value)
    ensures var saved := SavedItemEntries(entries, c, value, items);
      && ValueParses(saved)
      && ParseLong(saved[KEY_VALUE]) == Some(value)
      && Ids(ToItems(LoadedIds(c, Lookup(saved, KEY_ITEMIDS)), name)) == Ids(items)
  {
    ParseValueOf(value);
    IdsRoundTrip(c, Ids(items));
    ToItemsKeepsIds(Ids(items), name);
  }
}
