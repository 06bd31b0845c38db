/** The earlier data manager of the plugin's root package: it stores the
    account value and the top-level item ids only, loads without waiting
    for the login screen and does not refresh prices after a load. */
module Legacy {
  import opened Lists
  import opened Goals
  import opened Decimal
  import opened Persistence
  import opened PurchaseProgress
  import Data

  class DataManager {
    const plugin: Plugin
    const config: ConfigStore
    const codec: Codec
    var itemIds: seq<int>

    constructor(plugin: Plugin, config: ConfigStore, codec: Codec)
      ensures this.plugin == plugin && this.config == config && this.codec == codec
      ensures itemIds == []
    {
      this.plugin := plugin;
      this.config := config;
      this.codec := codec;
      itemIds := [];
    }

    /** loadData: the value is parsed first (the caller guarantees it
        parses); the items field falls back to empty when missing, "[]" or
        undecodable. Groups and prices are left as they were. */
    method LoadData(name: int -> string)
      requires ValueParses(config.entries)
      modifies this, plugin
      ensures plugin.value == ParseLong(config.entries[KEY_VALUE]).value
      ensures itemIds == LoadedIds(codec, Lookup(config.entries, KEY_ITEMIDS))
      ensures plugin.items == ToItems(itemIds, name)
      ensures plugin.groups == old(plugin.groups) && plugin.saves == old(plugin.saves)
    {
      plugin.value := ParseLong(config.entries[KEY_VALUE]).value;

      itemIds := [];
      var itemsJson := Lookup(config.entries, KEY_ITEMIDS);
      if itemsJson.None? || itemsJson.value == EMPTY_JSON {
        plugin.items := [];
      } else {
        match codec.decodeIds(itemsJson.value)
        case None =>
          plugin.items := [];
        case Some(ids) =>
          itemIds := ids;
          ConvertIds(name);
      }
    }

    /** saveData: the value as decimal text and the top-level ids in list
        order; no group is stored. */
    method SaveData()
      modifies this, config
      ensures config.entries == SavedItemEntries(old(config.entries), codec, plugin.value, plugin.items)
      ensures itemIds == Ids(plugin.items)
    {
      config.entries := config.entries[KEY_VALUE := ValueOf(plugin.value)];

      itemIds := Data.DataManager.ItemIds(plugin.items);
      config.entries := config.entries[KEY_ITEMIDS := codec.encodeIds(itemIds)];
    }

    /** convertIds: one item per stored id, in order, named by the item
        lookup and priced 0. */
    method ConvertIds(name: int -> string)
      modifies plugin
      ensures plugin.items == ToItems(itemIds, name)
      ensures plugin.groups == old(plugin.groups) && plugin.value == old(plugin.value)
      ensures plugin.saves == old(plugin.saves)
    {
      var progressItems: seq<Item> := [];
      var i := 0;
      while i < |itemIds|
        invariant 0 <= i <= |itemIds|
        invariant |progressItems| == i
        invariant forall k :: 0 <= k < i ==> progressItems[k] == Item(name(itemIds[k]), itemIds[k], 0)
      {
        var progressItem := Item(name(itemIds[i]), itemIds[i], 0);
        progressItems := progressItems + [progressItem];
        i := i + 1;
      }
      plugin.items := progressItems;
    }
  }
}
