/** The data manager of the data package: saves the account value, the
    top-level item ids and the group records to the configuration entries,
    and loads them back into the plugin once the client is past startup. */
module Data {
  import opened Lists
  import opened Goals
  import opened Decimal
  import opened Persistence
  import opened PurchaseProgress

  class DataManager {
    const plugin: Plugin
    const config: ConfigStore
    const codec: Codec
    /** Working lists the manager clears and refills on every save and load. */
    var itemIds: seq<int>
    var groups: seq<GroupData>

    constructor(plugin: Plugin, config: ConfigStore, codec: Codec)
      ensures this.plugin == plugin && this.config == config && this.codec == codec
      ensures itemIds == [] && groups == []
    {
      this.plugin := plugin;
      this.config := config;
      this.codec := codec;
      itemIds := [];
      groups := [];
    }

    /** saveData: writes the value as decimal text, the top-level ids in
        list order and one record per group in group order. */
    method SaveData()
      modifies this, config
      ensures config.entries == SavedEntries(old(config.entries), codec, plugin.value, plugin.items, plugin.groups)
      ensures itemIds == Ids(plugin.items) && groups == Records(plugin.groups)
    {
      config.entries := config.entries[KEY_VALUE := ValueOf(plugin.value)];
      itemIds := ItemIds(plugin.items);
      config.entries := config.entries[KEY_ITEMIDS := codec.encodeIds(itemIds)];
      groups := GroupRecords(plugin.groups);
      config.entries := config.entries[KEY_GROUPS := codec.encodeGroups(groups)];
    }

    /** The id loops of saveData: the ids of a list of items, in order. */
    static method ItemIds(items: seq<Item>) returns (ids: seq<int>)
      ensures ids == Ids(items)
    {
      ids := [];
      var i := 0;
      while i < |items|
        invariant 0 <= i <= |items|
        invariant |ids| == i
        invariant forall k :: 0 <= k < i ==> ids[k] == items[k].itemId
      {
        ids := ids + [items[i].itemId];
        i := i + 1;
      }
    }

    /** The group loop of saveData: one record per group, in order. */
    static method GroupRecords(groups: seq<Group>) returns (records: seq<GroupData>)
      ensures records == Records(groups)
    {
      records := [];
      var j := 0;
      while j < |groups|
        invariant 0 <= j <= |groups|
        invariant |records| == j
        invariant forall m :: 0 <= m < j ==> records[m] == Records(groups)[m]
      {
        var group := groups[j];
        var groupItems := ItemIds(group.items);
        records := records + [GroupData(group.name, group.collapsed, groupItems)];
        j := j + 1;
      }
    }

    /** loadData: below the login screen nothing happens and the result is
        false. Otherwise the value is parsed (the caller guarantees it
        parses), each list field falls back to empty on its own, items come
        back with price 0 and then the prices are refreshed. */
    method LoadData(gameState: int, name: int -> string, price: int -> int) returns (loaded: bool)
      requires gameState >= LOGIN_SCREEN ==> ValueParses(config.entries)
      modifies this, plugin
      ensures loaded <==> gameState >= LOGIN_SCREEN
      ensures !loaded ==> unchanged(this, plugin)
      ensures loaded ==>
        && plugin.value == ParseLong(config.entries[KEY_VALUE]).value
        && itemIds == LoadedIds(codec, Lookup(config.entries, KEY_ITEMIDS))
        && groups == LoadedGroups(codec, Lookup(config.entries, KEY_GROUPS))
        && plugin.items == Repriced(ToItems(itemIds, name), price)
        && plugin.groups == RepricedGroups(ToGroups(groups, name), price)
        && plugin.saves == old(plugin.saves)
    {
      if gameState < LOGIN_SCREEN {
        return false;
      }

      plugin.value := ParseLong(config.entries[KEY_VALUE]).value;

      itemIds := [];
      var itemsJson := Lookup(config.entries, KEY_ITEMIDS);
      if itemsJson.None? || itemsJson.value == EMPTY_JSON {
        plugin.items := [];
      } else {
        match codec.decodeIds(itemsJson.value)
        case None =>
          plugin.items := [];
        case Some(ids) =>
          itemIds := ids;
          ConvertItems(name);
      }

      groups := [];
      var groupsJson := Lookup(config.entries, KEY_GROUPS);
      if groupsJson.None? || groupsJson.value == EMPTY_JSON {
        plugin.groups := [];
      } else {
        match codec.decodeGroups(groupsJson.value)
        case None =>
          plugin.groups := [];
        case Some(gs) =>
          groups := gs;
          ConvertGroups(name);
      }

      plugin.UpdateItemPrices(price);
      return true;
    }

    /** convertItems: one item per stored id, in order. */
    method ConvertItems(name: int -> string)
      modifies plugin
      ensures plugin.items == ToItems(itemIds, name)
      ensures plugin.groups == old(plugin.groups) && plugin.value == old(plugin.value)
      ensures plugin.saves == old(plugin.saves)
    {
      var progressItems: seq<Item> := [];
      var i := 0;
      while i < |itemIds|
        invariant 0 <= i <= |itemIds|
        invariant |progressItems| == i
        invariant forall k :: 0 <= k < i ==> progressItems[k] == ToItem(itemIds[k], name)
      {
        progressItems := progressItems + [ToItem(itemIds[i], name)];
        i := i + 1;
      }
      plugin.items := progressItems;
    }

    /** convertGroups: one group per stored record, in order, with its
        items rebuilt from their ids. */
    method ConvertGroups(name: int -> string)
      modifies plugin
      ensures plugin.groups == ToGroups(groups, name)
      ensures plugin.items == old(plugin.items) && plugin.value == old(plugin.value)
      ensures plugin.saves == old(plugin.saves)
    {
      var progressGroups: seq<Group> := [];
      var j := 0;
      while j < |groups|
        invariant 0 <= j <= |groups|
        invariant |progressGroups| == j
        invariant forall m :: 0 <= m < j ==> progressGroups[m] == ToGroups(groups, name)[m]
      {
        var group := groups[j];
        var groupItems: seq<Item> := [];
        var k := 0;
        while k < |group.items|
          invariant 0 <= k <= |group.items|
          invariant |groupItems| == k
          invariant forall n :: 0 <= n < k ==> groupItems[n] == ToItem(group.items[n], name)
        {
          groupItems := groupItems + [ToItem(group.items[k], name)];
          k := k + 1;
        }
        progressGroups := progressGroups + [Group(group.name, group.collapsed, groupItems)];
        j := j + 1;
      }
      plugin.groups := progressGroups;
    }
  }
}
