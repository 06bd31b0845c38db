# Purchase Progress — a verified model of the plugin's core

Purchase Progress is a RuneLite plugin. It tracks items a player wants to buy and compares their
Grand Exchange prices with the player's wealth. This project models the plugin's three stateful
parts in Dafny and proves what they promise.

- **Wealth valuation** (`Bank`, file `bank.dfy`). It models `BankCalculation`:
  - coins, plus 1000 per platinum token, held in the inventory and the bank;
  - optionally, the appraised value of one bank tab or of the whole bank;
  - that appraisal is memoised on a hash of the tab's id→quantity map, in the fields `hash` and
    `bankValue`.

  `BankCalculation` is a class with those two fields. Three ghost fields record the window and
  prices of the last recompute and every price lookup, so the memo's behaviour can be stated.
- **Goal-list store** (`PurchaseProgress`, file `plugin.dfy`). `PurchaseProgress.Plugin` holds the
  top-level item list, the group list and the account value. It has one method per list operation.
  The operations the panel triggers are bodies posted to the client thread; the price refresh is
  also a task the client schedules every five minutes. Each runs as one atomic step. Every
  operation keeps the store invariant that no item is tracked twice (`Goals.StoreNoDup`), under
  the equality laws its proof needs.
  - Items and groups are values (`Goals.Item`, `Goals.Group`).
  - The store-level facts are functions and lemmas in `Goals` (`goals.dfy`): tracked-item
    membership, the tracked multiset, moving items by name, group names, the price refresh and
    the sort order.
  - The Java `List` semantics the store relies on are in `Lists` (`lists.dfy`): `indexOf`,
    `contains`, `remove(Object)` and the two `set` calls of a swap.
  - The stable `List.sort` is in `Sorting` (`sorting.dfy`). It is specified by a functional
    insertion sort, with permutation, order and stability proved.
- **Persistence** (`Persistence`, `Decimal`, `Data`, `Legacy`). The data managers write the value
  as decimal text (`String.valueOf(long)`, modelled in `Decimal` with `Long.parseLong`), the
  top-level item ids and the group records to the configuration entries, and load them back.
  - `Data.DataManager` models the manager of the `data` package. It stores
    `(name, collapsed, ids)` group records, waits for the login screen, and refreshes prices after
    a load.
  - `Legacy.DataManager` models the earlier root-package manager. It stores items only.
  - The JSON library is an abstract `Persistence.Codec` (an encode/decode pair). The round trips
    are proved under `Persistence.Inverts`: decoding inverts encoding, and an empty list encodes as
    `[]`.

Several source behaviours become explicit parameters or hypotheses:

- **Item and group equality.** The equality of the item and group classes (their `equals`) and
  the items' natural order (`compareTo`) are constants of the plugin: `same`, `sameGroup` and
  `compare`. The classes that define them are not part of this model.
- **Properties that need those laws.** Where a property holds only if they obey the Java
  contracts, the contract says so. Examples: reflexive equality (`Lists.Reflexive`), name equality
  of groups (`Goals.EqualByName`), an item equality that ignores the price (`Goals.IgnoresPrice`), and a `compareTo` whose sign flips with its arguments and whose "at most" is a total preorder (`Goals.ValidCompare`).
- **External inputs.** Prices, item names, the tab-count varbits, the game state and the user's
  dialog input are method parameters.

Two choices where the source and the intended behaviour differ:

- **Revision.** The source mixes two revisions. The plugin imports the `data` manager but calls
  the root manager's four-argument constructor. The `data` package's group record file lacks the
  `collapsed` field that its manager reads and writes. The model takes the `data` manager, with
  three-field group records, as the current revision. The root manager is modelled separately, as
  `Legacy`.
- **Memo and prices.** The memo is meant to be a pure optimisation. As written, a hit returns the
  value computed at the prices of the last recompute, even when prices have changed since. A hash
  collision also counts as a hit. The model follows the code:
  - `Bank.BankCalculation.CalculateItemValues` returns the stored value on a hit;
  - `Bank.MemoMatchesRecompute` proves that the memo agrees with a recompute when the contents are
    the same and the prices are unchanged.

## Model

| member | source | states |
|---|---|---|
| `Bank.Count` | src/main/java/com/brastasauce/purchaseprogress/BankCalculation.java:78-79 | a container holding no entry with the id counts 0, and non-negative quantities count non-negatively |
| `Bank.Currency` | src/main/java/com/brastasauce/purchaseprogress/BankCalculation.java:78-89 | a container with neither coins nor platinum tokens is worth 0, and non-negative quantities give a non-negative worth |
| `Bank.InventoryCurrency` | src/main/java/com/brastasauce/purchaseprogress/BankCalculation.java:76-80 | an absent inventory (null container) adds nothing; a present one adds its currency |
| `Bank.Window` | src/main/java/com/brastasauce/purchaseprogress/BankCalculation.java:100-115 | tab 0 appraises the whole bank; tab t appraises `count_t` slots starting at `TabStart` (the counts of tabs 1..t-1 added up) |
| `Bank.AdjacentTabsAreContiguous` | src/main/java/com/brastasauce/purchaseprogress/BankCalculation.java:102-109 | tab t+1 starts exactly where tab t ends, so numbered tabs tile the bank without gaps or overlaps |
| `Bank.ItemMap` | src/main/java/com/brastasauce/purchaseprogress/BankCalculation.java:160-164 | the hashed map has a key for every entry's id, zero quantities and non-positive ids included |
| `Bank.ItemMapLastWriteWins` | src/main/java/com/brastasauce/purchaseprogress/BankCalculation.java:161-164 | an entry with no later entry of the same id determines that id's quantity |
| `Bank.ItemMapOfConsistent` | src/main/java/com/brastasauce/purchaseprogress/BankCalculation.java:158-167 | when ids determine quantities, the map records each entry's quantity under its id |
| `Bank.ItemMapIgnoresOrder` | src/main/java/com/brastasauce/purchaseprogress/BankCalculation.java:158-167 | permuting the entries (ids determining quantities) leaves the hashed map unchanged |
| `Bank.Priced` | src/main/java/com/brastasauce/purchaseprogress/BankCalculation.java:137-151 | an entry the appraisal prices is never also counted as coins or tokens, so nothing is counted twice |
| `Bank.EntryValue` | src/main/java/com/brastasauce/purchaseprogress/BankCalculation.java:134-150 | empty and placeholder slots (id <= 0 or quantity 0), coins and tokens add 0; every other entry adds its price times its quantity |
| `Bank.Appraise` | src/main/java/com/brastasauce/purchaseprogress/BankCalculation.java:130-152 | a window with no priced entry appraises to 0, and non-negative prices and quantities give a non-negative value |
| `Bank.PricedIds` | src/main/java/com/brastasauce/purchaseprogress/BankCalculation.java:137-150 | at most one lookup per entry, and never for a placeholder id, coins or platinum tokens |
| `Bank.AppraiseStep` | src/main/java/com/brastasauce/purchaseprogress/BankCalculation.java:132-151 | one more entry adds its value to the appraisal and its id, if priced, to the end of the lookups |
| `Bank.AppraiseIgnoresOrder` | src/main/java/com/brastasauce/purchaseprogress/BankCalculation.java:132-152 | a recompute's value does not depend on the order of the entries |
| `Bank.AppraiseReadsOnlyPricedIds` | src/main/java/com/brastasauce/purchaseprogress/BankCalculation.java:137-151 | only the prices of looked-up ids (positive id, non-zero quantity, not coins or tokens) affect the value |
| `Bank.Hit` | src/main/java/com/brastasauce/purchaseprogress/BankCalculation.java:124 | a hit exactly when a value is stored and the new hash equals the stored one; with no stored value every window misses |
| `Bank.MemoMatchesRecompute` | src/main/java/com/brastasauce/purchaseprogress/BankCalculation.java:122-127 | after a recompute over w0, a window with the same contents hits the memo, and the stored value equals a fresh appraisal at the same prices |
| `Bank.BankCalculation.constructor` | src/main/java/com/brastasauce/purchaseprogress/BankCalculation.java:44-45 | the memo starts empty (`bankValue` null), so the first appraisal always recomputes |
| `Bank.BankCalculation.HashItems` | src/main/java/com/brastasauce/purchaseprogress/BankCalculation.java:158-167 | the loop's map is `ItemMap` of the window, and the result is its hash |
| `Bank.BankCalculation.CalculateItemValues` | src/main/java/com/brastasauce/purchaseprogress/BankCalculation.java:120-156 | a hit returns the stored value, with no lookup and no state change; a miss returns the appraisal, looks up exactly the priced ids in order, and stores the new hash and value; the memo invariant is kept |
| `Bank.BankCalculation.AppraiseItems` | src/main/java/com/brastasauce/purchaseprogress/BankCalculation.java:130-152 | the recompute loop gives `Appraise` of the window and looks up exactly `PricedIds`, in order |
| `Bank.BankCalculation.StartIndex` | src/main/java/com/brastasauce/purchaseprogress/BankCalculation.java:102-107 | the backwards loop's sum is the start of the selected tab |
| `Bank.BankCalculation.CalculateValue` | src/main/java/com/brastasauce/purchaseprogress/BankCalculation.java:68-118 | no bank: inventory currency only; include-tab off: plus bank currency, with no lookup and no state change; otherwise plus the window's memoised or recomputed appraisal |
| `Lists.FirstWhere` | src/main/java/com/brastasauce/purchaseprogress/PurchaseProgressPlugin.java:220 | the index of the first element that satisfies the filter, or -1 exactly when none does |
| `Lists.IndexOf` | src/main/java/com/brastasauce/purchaseprogress/PurchaseProgressPlugin.java:167 | the first position whose element is equal to x, or -1 exactly when the list does not contain x |
| `Lists.RemoveFirst` | src/main/java/com/brastasauce/purchaseprogress/PurchaseProgressPlugin.java:142 | `remove(Object)`: no change when absent; otherwise exactly the first equal element is dropped, and the rest keep their order |
| `Lists.Swapped` | src/main/java/com/brastasauce/purchaseprogress/PurchaseProgressPlugin.java:298-307 | two `set` calls exchange two positions, and every other position keeps its element |
| `Lists.IndexOfOwnElement` | src/main/java/com/brastasauce/purchaseprogress/PurchaseProgressPlugin.java:232 | in a duplicate-free list, removing one of its own elements removes that very position |
| `Lists.RemoveFirstKeepsNoDup` | src/main/java/com/brastasauce/purchaseprogress/PurchaseProgressPlugin.java:142 | removing an element keeps a duplicate-free list duplicate-free |
| `Lists.NoDupOfSubMultiset` | src/main/java/com/brastasauce/purchaseprogress/PurchaseProgressPlugin.java:118-137 | a list holding no more copies of anything than a duplicate-free list is duplicate-free, so no reordering, removal or move between lists can create a duplicate |
| `Lists.SwapTwiceRestores` | src/main/java/com/brastasauce/purchaseprogress/PurchaseProgressPlugin.java:292-312 | repeating a shift at the same two positions undoes it |
| `Sorting.InsertPermutes` | src/main/java/com/brastasauce/purchaseprogress/PurchaseProgressPlugin.java:279 | inserting adds exactly the inserted element |
| `Sorting.InsertKeepsSorted` | src/main/java/com/brastasauce/purchaseprogress/PurchaseProgressPlugin.java:279 | inserting into a sorted list keeps it sorted |
| `Sorting.InsertTied` | src/main/java/com/brastasauce/purchaseprogress/PurchaseProgressPlugin.java:279 | inserting puts the element in front of the elements it is tied with |
| `Sorting.SortPermutes` | src/main/java/com/brastasauce/purchaseprogress/PurchaseProgressPlugin.java:279 | the sorted list is a permutation of the input |
| `Sorting.SortSorts` | src/main/java/com/brastasauce/purchaseprogress/PurchaseProgressPlugin.java:279 | the sorted list is ordered by the comparator |
| `Sorting.SortIsStable` | src/main/java/com/brastasauce/purchaseprogress/PurchaseProgressPlugin.java:279 | elements ranked equal keep their relative order |
| `Sorting.StableSort` | src/main/java/com/brastasauce/purchaseprogress/PurchaseProgressPlugin.java:277-284 | permutation, order and stability together |
| `Sorting.ReversedPreorder` | src/main/java/com/brastasauce/purchaseprogress/PurchaseProgressPlugin.java:283 | reversing a valid order gives a valid order |
| `Goals.InSomeGroupIffInGroupItems` | src/main/java/com/brastasauce/purchaseprogress/PurchaseProgressPlugin.java:339-345 | the group-by-group test agrees with membership in the concatenated group lists |
| `Goals.TrackedIffInAll` | src/main/java/com/brastasauce/purchaseprogress/PurchaseProgressPlugin.java:337-347 | `containsItem` is membership in the flat list of all tracked items |
| `Goals.AddKeepsNoDup` | src/main/java/com/brastasauce/purchaseprogress/PurchaseProgressPlugin.java:122-124 | appending an untracked item keeps all tracked items free of duplicates |
| `Goals.AddedItemIsTracked` | src/main/java/com/brastasauce/purchaseprogress/PurchaseProgressPlugin.java:118-137 | after an add the item is tracked, so a second add changes nothing |
| `Goals.TopLevelKeepsNoDup` | src/main/java/com/brastasauce/purchaseprogress/PurchaseProgressPlugin.java:139-146 | removing from or reordering the top-level list (removeItem, sort, shiftItem) keeps the store free of duplicates |
| `Goals.RemoveGroupKeepsNoDup` | src/main/java/com/brastasauce/purchaseprogress/PurchaseProgressPlugin.java:204-213 | deleting the given group after moving its items to the top level keeps the store free of duplicates |
| `Goals.MoveItemsKeepsNoDup` | src/main/java/com/brastasauce/purchaseprogress/PurchaseProgressPlugin.java:215-227 | the corrected name-by-name move keeps the store free of duplicates under a reflexive equality |
| `Goals.RemoveFromGroupKeepsNoDup` | src/main/java/com/brastasauce/purchaseprogress/PurchaseProgressPlugin.java:229-237 | moving one of a group's own items to the top level keeps the store free of duplicates |
| `Goals.ReorderGroupKeepsNoDup` | src/main/java/com/brastasauce/purchaseprogress/PurchaseProgressPlugin.java:314-335 | reordering one group's list keeps the store free of duplicates |
| `Goals.SwapInGroupKeepsStore` | src/main/java/com/brastasauce/purchaseprogress/PurchaseProgressPlugin.java:314-335 | swapping two positions inside one group keeps the tracked multiset and keeps the store free of duplicates |
| `Goals.RelabelGroupKeepsAll` | src/main/java/com/brastasauce/purchaseprogress/PurchaseProgressPlugin.java:176-202 | renaming a group or flipping its flag leaves the list of all tracked items unchanged |
| `Goals.AppendEmptyGroupKeepsAll` | src/main/java/com/brastasauce/purchaseprogress/PurchaseProgressPlugin.java:148-174 | appending a new, empty group leaves the list of all tracked items unchanged |
| `Goals.GroupItemsWithout` | src/main/java/com/brastasauce/purchaseprogress/PurchaseProgressPlugin.java:209 | deleting a group takes exactly its items out of the groups' items |
| `Goals.RemoveGroupKeepsTracked` | src/main/java/com/brastasauce/purchaseprogress/PurchaseProgressPlugin.java:204-213 | moving a group's items to the top level and deleting it keeps the multiset of tracked items |
| `Goals.RemoveFromGroupKeepsTracked` | src/main/java/com/brastasauce/purchaseprogress/PurchaseProgressPlugin.java:229-237 | moving a group's own item back to the top level keeps the multiset of tracked items |
| `Goals.FirstNamed` | src/main/java/com/brastasauce/purchaseprogress/PurchaseProgressPlugin.java:220 | the first top-level item with the name, or -1 exactly when no item has it |
| `Goals.MoveNamed` | src/main/java/com/brastasauce/purchaseprogress/PurchaseProgressPlugin.java:220-222 | the corrected step: a name with no top-level match changes nothing; a matched name appends one item with that name to the end of the group, keeping the group's earlier items |
| `Goals.MoveAllNamed` | src/main/java/com/brastasauce/purchaseprogress/PurchaseProgressPlugin.java:218-223 | the corrected loop: the group only grows at its end, by at most one item per name, and every item it gains has one of the names |
| `Goals.MoveNamedAsWritten` | src/main/java/com/brastasauce/purchaseprogress/PurchaseProgressPlugin.java:220-222 | the step as written: every name grows the group by exactly one entry, which is null exactly when no top-level item has the name |
| `Goals.MoveAllNamedKeepsItems` | src/main/java/com/brastasauce/purchaseprogress/PurchaseProgressPlugin.java:215-227 | moving items by name keeps the union of the two lists, and keeps the top-level list duplicate-free |
| `Goals.MoveItemsKeepsTracked` | src/main/java/com/brastasauce/purchaseprogress/PurchaseProgressPlugin.java:215-227 | moving items into a group by name keeps the multiset of tracked items |
| `Goals.ReorderGroupKeepsTracked` | src/main/java/com/brastasauce/purchaseprogress/PurchaseProgressPlugin.java:314-335 | reordering inside a group keeps the multiset of tracked items |
| `Goals.UnmatchedNameAppendsNull` | src/main/java/com/brastasauce/purchaseprogress/PurchaseProgressPlugin.java:218-223 | as written, a name with no match leaves the top-level list as it is and appends a null to the group |
| `Goals.GroupName` | src/main/java/com/brastasauce/purchaseprogress/PurchaseProgressPlugin.java:153-161 | null or empty input gives no name; otherwise a non-empty prefix of at most 50 characters, the whole input when it fits |
| `Goals.RenameKeepsNamesDistinct` | src/main/java/com/brastasauce/purchaseprogress/PurchaseProgressPlugin.java:193-200 | a rename that passes the name check keeps names distinct, and exactly the renamed group carries the new name |
| `Goals.AppendKeepsNamesDistinct` | src/main/java/com/brastasauce/purchaseprogress/PurchaseProgressPlugin.java:165-172 | with name equality, appending only a group not yet present keeps names distinct |
| `Goals.DistinctNamesLocateGroup` | src/main/java/com/brastasauce/purchaseprogress/PurchaseProgressPlugin.java:209 | with name equality and distinct names, `groups.remove(group)` removes that very group |
| `Goals.Repriced` | src/main/java/com/brastasauce/purchaseprogress/PurchaseProgressPlugin.java:264-267 | each item keeps name and id, and takes the price of its id |
| `Goals.RepricedGroups` | src/main/java/com/brastasauce/purchaseprogress/PurchaseProgressPlugin.java:255-261 | each group keeps name and flag, and its items are repriced |
| `Goals.RepriceIdempotent` | src/main/java/com/brastasauce/purchaseprogress/PurchaseProgressPlugin.java:252-268 | refreshing twice with unchanged prices gives what refreshing once gives |
| `Goals.GroupItemsRepriced` | src/main/java/com/brastasauce/purchaseprogress/PurchaseProgressPlugin.java:254-267 | repricing every group reprices the concatenation of their items |
| `Goals.RepriceKeepsNoDup` | src/main/java/com/brastasauce/purchaseprogress/PurchaseProgressPlugin.java:252-270 | under an equality that ignores prices, the refresh keeps the store free of duplicates |
| `Goals.ReverseOrderIsPreorder` | src/main/java/com/brastasauce/purchaseprogress/PurchaseProgressPlugin.java:283 | the reverse of a valid natural order is a valid order |
| `Goals.OrderForIsPreorder` | src/main/java/com/brastasauce/purchaseprogress/PurchaseProgressPlugin.java:277-284 | both orders `sort` can use are valid orders |
| `Goals.StrictTestIsConverse` | src/main/java/com/brastasauce/purchaseprogress/PurchaseProgressPlugin.java:277-284 | under a valid `compareTo`, the sort's "less than 0" test in either direction is "not at most" in the order handed to the sort, so the stable sort of that order is the only result |
| `PurchaseProgress.Plugin.constructor` | src/main/java/com/brastasauce/purchaseprogress/PurchaseProgressPlugin.java:75-83 | the store starts with no items, no groups and value 0 |
| `PurchaseProgress.Plugin.ContainsItem` | src/main/java/com/brastasauce/purchaseprogress/PurchaseProgressPlugin.java:337-347 | true exactly when some group's list or the top-level list holds an equal item |
| `PurchaseProgress.Plugin.AddItem` | src/main/java/com/brastasauce/purchaseprogress/PurchaseProgressPlugin.java:118-137 | appends and saves exactly when the item is tracked nowhere, otherwise nothing changes; it keeps the store duplicate-free |
| `PurchaseProgress.Plugin.RemoveItem` | src/main/java/com/brastasauce/purchaseprogress/PurchaseProgressPlugin.java:139-146 | the first equal top-level item is dropped (a no-op when absent); groups untouched; always saves; no item becomes tracked twice |
| `PurchaseProgress.Plugin.AddGroup` | src/main/java/com/brastasauce/purchaseprogress/PurchaseProgressPlugin.java:148-174 | no name: nothing; otherwise an empty group under the cut name is appended and saved unless an equal group exists; with name equality, names stay distinct; the tracked items are unchanged, so no item is tracked twice afterwards if none was before |
| `PurchaseProgress.Plugin.EditGroup` | src/main/java/com/brastasauce/purchaseprogress/PurchaseProgressPlugin.java:176-202 | renames the group in place exactly when the name is non-empty and no group, itself included, has it; names stay distinct; the tracked items are unchanged, so no item is tracked twice afterwards if none was before |
| `PurchaseProgress.Plugin.RemoveGroup` | src/main/java/com/brastasauce/purchaseprogress/PurchaseProgressPlugin.java:204-213 | the group's items are appended in order, the first equal group is deleted, and, when that is the given group, the tracked multiset and the no-duplicate invariant are kept |
| `PurchaseProgress.Plugin.AddItemsToGroup` | src/main/java/com/brastasauce/purchaseprogress/PurchaseProgressPlugin.java:215-227 | the loop moves, name by name, the first top-level item with the name to the end of the group (corrected: unmatched names are skipped); other groups are untouched, and under a reflexive equality the tracked multiset and the no-duplicate invariant are kept |
| `PurchaseProgress.Plugin.MoveByName` | src/main/java/com/brastasauce/purchaseprogress/PurchaseProgressPlugin.java:218-223 | the loop over the names gives `MoveAllNamed` of the two lists, and keeps their union when the item equality is reflexive and the top-level list has no two equal items |
| `PurchaseProgress.Plugin.RemoveItemFromGroup` | src/main/java/com/brastasauce/purchaseprogress/PurchaseProgressPlugin.java:229-237 | the first equal item leaves the group, and the item is appended to the top level unconditionally; for the group's own item the tracked multiset and the no-duplicate invariant are kept |
| `PurchaseProgress.Plugin.SwitchGroupCollapse` | src/main/java/com/brastasauce/purchaseprogress/PurchaseProgressPlugin.java:239-246 | flips that group's flag and changes nothing else; the tracked items are unchanged, so no item is tracked twice afterwards if none was before |
| `PurchaseProgress.Plugin.UpdateItemPrices` | src/main/java/com/brastasauce/purchaseprogress/PurchaseProgressPlugin.java:252-270 | every grouped and top-level item takes the current price of its id; nothing is saved; under an equality that ignores prices no item becomes tracked twice |
| `PurchaseProgress.Plugin.RepriceList` | src/main/java/com/brastasauce/purchaseprogress/PurchaseProgressPlugin.java:264-267 | the loop over one list sets every item's price from its id |
| `PurchaseProgress.Plugin.Sort` | src/main/java/com/brastasauce/purchaseprogress/PurchaseProgressPlugin.java:272-290 | an empty list: nothing; otherwise a stable, ordered permutation by the natural or the reversed order; groups untouched; the no-duplicate invariant is kept |
| `PurchaseProgress.Plugin.ShiftItem` | src/main/java/com/brastasauce/purchaseprogress/PurchaseProgressPlugin.java:292-312 | swaps position i with i-1 (up) or i+1 (down) and keeps every other position, the multiset and the no-duplicate invariant |
| `PurchaseProgress.Plugin.ShiftItemInGroup` | src/main/java/com/brastasauce/purchaseprogress/PurchaseProgressPlugin.java:314-335 | the same swap inside one group; other groups, the tracked multiset and the no-duplicate invariant unchanged |
| `Decimal.NatToString` | src/main/java/com/brastasauce/purchaseprogress/data/PurchaseProgressDataManager.java:136 | digits without a leading zero, denoting the number |
| `Decimal.ValueOf` | src/main/java/com/brastasauce/purchaseprogress/data/PurchaseProgressDataManager.java:136 | a minus sign exactly for negatives, then the digits of the magnitude |
| `Decimal.ParseLong` | src/main/java/com/brastasauce/purchaseprogress/data/PurchaseProgressDataManager.java:83 | only in-range values are accepted; empty text and a lone sign are rejected |
| `Decimal.ParseValueOf` | src/main/java/com/brastasauce/purchaseprogress/data/PurchaseProgressDataManager.java:82-83 | parsing the saved text of a long gives that long back |
| `Decimal.CanonicalDigitsRoundTrip` | src/main/java/com/brastasauce/purchaseprogress/data/PurchaseProgressDataManager.java:83 | digits without a leading zero print back as themselves |
| `Decimal.ValueOfParse` | src/main/java/com/brastasauce/purchaseprogress/data/PurchaseProgressDataManager.java:81-82 | value text in `String.valueOf` form that parses prints back as itself, so a load followed by a save rewrites the same text |
| `Persistence.Lookup` | src/main/java/com/brastasauce/purchaseprogress/data/PurchaseProgressDataManager.java:88 | `getConfiguration` gives the stored text, or null exactly when there is none |
| `Persistence.Ids` | src/main/java/com/brastasauce/purchaseprogress/data/PurchaseProgressDataManager.java:139-144 | the item ids in list order |
| `Persistence.Records` | src/main/java/com/brastasauce/purchaseprogress/data/PurchaseProgressDataManager.java:150-161 | one record per group, in order: name, flag, item ids in order |
| `Persistence.SavedEntries` | src/main/java/com/brastasauce/purchaseprogress/data/PurchaseProgressDataManager.java:133-165 | after a save, the three keys hold the value text, the encoded ids and the encoded records; other entries are unchanged |
| `Persistence.SavedItemEntries` | src/main/java/com/brastasauce/purchaseprogress/PurchaseProgressDataManager.java:92-104 | after an earlier-revision save, two keys hold the value text and the encoded ids; other entries are unchanged |
| `Persistence.LoadedIds` | src/main/java/com/brastasauce/purchaseprogress/data/PurchaseProgressDataManager.java:86-105 | missing, `[]` or undecodable text gives no ids; otherwise the decoded ids |
| `Persistence.LoadedGroups` | src/main/java/com/brastasauce/purchaseprogress/data/PurchaseProgressDataManager.java:108-127 | the same fallbacks for the group records, independently of the items field |
| `Persistence.ToItem` | src/main/java/com/brastasauce/purchaseprogress/data/PurchaseProgressDataManager.java:197-202 | a rebuilt item carries the stored id, takes its name from the item lookup and has price 0 until prices are refreshed |
| `Persistence.ToItems` | src/main/java/com/brastasauce/purchaseprogress/data/PurchaseProgressDataManager.java:167-177 | one rebuilt item per id, in order |
| `Persistence.ToGroups` | src/main/java/com/brastasauce/purchaseprogress/data/PurchaseProgressDataManager.java:179-195 | one rebuilt group per record, in order |
| `Persistence.ToItemsKeepsIds` | src/main/java/com/brastasauce/purchaseprogress/data/PurchaseProgressDataManager.java:197-202 | rebuilt items keep the stored ids in order, are named by the lookup, and are priced 0 |
| `Persistence.ToGroupsKeepsRecords` | src/main/java/com/brastasauce/purchaseprogress/data/PurchaseProgressDataManager.java:179-195 | rebuilt groups project back onto the stored records |
| `Persistence.RepriceKeepsProjection` | src/main/java/com/brastasauce/purchaseprogress/data/PurchaseProgressDataManager.java:129 | the refresh after a load changes no id, name or flag |
| `Persistence.IdsRoundTrip` | src/main/java/com/brastasauce/purchaseprogress/data/PurchaseProgressDataManager.java:88-98 | the saved ids load back, including the empty list stored as `[]` |
| `Persistence.GroupsRoundTrip` | src/main/java/com/brastasauce/purchaseprogress/data/PurchaseProgressDataManager.java:110-120 | the saved group records load back, including `[]` |
| `Persistence.SaveLoadRoundTrip` | src/main/java/com/brastasauce/purchaseprogress/data/PurchaseProgressDataManager.java:73-165 | a save followed by a load gives back the value, the top-level ids in order, and every group's name, flag and ids in order |
| `Persistence.ItemsOnlyRoundTrip` | src/main/java/com/brastasauce/purchaseprogress/PurchaseProgressDataManager.java:65-104 | the earlier revision's save followed by its load gives back the value and the top-level ids in order |
| `Data.DataManager.constructor` | src/main/java/com/brastasauce/purchaseprogress/data/PurchaseProgressDataManager.java:57-71 | the manager is bound to the plugin, the entries and the codec, with empty working lists |
| `Data.DataManager.SaveData` | src/main/java/com/brastasauce/purchaseprogress/data/PurchaseProgressDataManager.java:133-165 | the working lists become the top-level ids and the group records, and the entries become `SavedEntries` of the store |
| `Data.DataManager.ItemIds` | src/main/java/com/brastasauce/purchaseprogress/data/PurchaseProgressDataManager.java:141-144 | the loop collects the ids of a list of items, in list order (also the inner loop at 155-158 and the earlier manager's loop) |
| `Data.DataManager.GroupRecords` | src/main/java/com/brastasauce/purchaseprogress/data/PurchaseProgressDataManager.java:152-161 | the loop builds one record per group, in order, with the group's name, flag and item ids |
| `Data.DataManager.LoadData` | src/main/java/com/brastasauce/purchaseprogress/data/PurchaseProgressDataManager.java:73-131 | below the login screen: false, nothing changes; otherwise: true, the parsed value, each list rebuilt from its own field with its own fallback, then repriced |
| `Data.DataManager.ConvertItems` | src/main/java/com/brastasauce/purchaseprogress/data/PurchaseProgressDataManager.java:167-177 | the loop sets the plugin's items to one rebuilt item per stored id |
| `Data.DataManager.ConvertGroups` | src/main/java/com/brastasauce/purchaseprogress/data/PurchaseProgressDataManager.java:179-195 | the nested loops set the plugin's groups to one rebuilt group per record |
| `Legacy.DataManager.constructor` | src/main/java/com/brastasauce/purchaseprogress/PurchaseProgressDataManager.java:54-63 | the manager is bound to the plugin, the entries and the codec, with an empty id list |
| `Legacy.DataManager.LoadData` | src/main/java/com/brastasauce/purchaseprogress/PurchaseProgressDataManager.java:65-90 | no game-state gate: the parsed value, then the items from their field with the fallbacks; groups and prices untouched |
| `Legacy.DataManager.SaveData` | src/main/java/com/brastasauce/purchaseprogress/PurchaseProgressDataManager.java:92-104 | the id list becomes the ids of the top-level items, and the entries become `SavedItemEntries` of the store |
| `Legacy.DataManager.ConvertIds` | src/main/java/com/brastasauce/purchaseprogress/PurchaseProgressDataManager.java:106-121 | the loop sets the plugin's items to one item per id, in order, named by the lookup and priced 0 |

## Left out

- Threading is not modelled. The client-thread and Swing queues are left out, and each posted body is one atomic method call. Panel refreshes, warnings and logging are left out as well.
- The Swing panels, icons and images are not part of this model. This includes their floating-point percentages and the cap on search results.
- The dialogs of `addGroup` and `editGroup` are a parameter. The entered text is passed as `Option<string>`, with `None` standing for a cancelled dialog.
- Saving from the plugin is a ghost counter. The plugin and its data manager reference each other, so the plugin's `saveData` calls are recorded in the ghost field `saves` rather than made. `Data.DataManager.SaveData` states what each save writes.
- `onScriptPostFired`, `startUp`, `shutDown` and the configuration interface are not modelled. The configuration's tab range 0..9 and its flag are the domains of `CalculateValue`'s parameters.
- The configuration manager and the item manager are an entry map and parameters. The item manager supplies prices and names as functions of the id.
- The JSON library is the abstract `Codec`, and a decode exception is `None`.
- `Data.DataManager.LoadData`: a decode that returns null without throwing is not modelled, nor are the failures that follow it. Gson returns null for the stored text `null` or an empty string. The working list then stays null: rebuilding the items or groups fails inside the try, so the plugin's list falls back to empty, and the next `saveData` throws on clearing that list after it has written the value. `Persistence.LoadedIds` and `Persistence.LoadedGroups` treat every decode as either a list or `None`.
- `HashMap.hashCode` is an arbitrary function of the map, so collisions are possible.
- Items and groups are values addressed by position. The panel always passes a group taken from the list, and the model receives its index. Object identity and aliasing between lists are not modelled.
- `PurchaseProgress.Plugin.AddGroup`: the group class is not part of this model. A new group is taken to start expanded (`collapsed` false).
- `Bank.BankCalculation.CalculateValue`: does not model 64-bit overflow of the long sum (the item's price is widened to a long before it is multiplied by the quantity), nor 32-bit overflow of `startIndex + itemCount`. Integers are unbounded.
- `Bank.BankCalculation.CalculateValue`: requires the selected tab to lie inside the bank array. Beyond it, `copyOfRange` pads with nulls, which `hashItems` then dereferences, or it throws.
- `PurchaseProgress.Plugin.AddItemsToGroup`: models the corrected loop, which skips a name with no match; the skip happens in `PurchaseProgress.Plugin.MoveByName` (through `Goals.MoveNamed`). The code as written appends null; see Findings.
- `Goals.GroupName`: the length test and the cut at 50 count Unicode characters, not UTF-16 code units as `String.length` and `substring` do. A name with characters outside the Basic Multilingual Plane is therefore cut at a different point, and a cut that splits a surrogate pair cannot be represented. The same holds for `PurchaseProgress.Plugin.AddGroup` and `PurchaseProgress.Plugin.EditGroup`, which use it.
- `PurchaseProgress.Plugin.ShiftItem`: requires the bound that the item panels check before calling.
- `PurchaseProgress.Plugin.ShiftItemInGroup`: requires the same bound, checked by the group item panel.
- `PurchaseProgress.Plugin.Sort`: requires a valid natural order (the sign of `compareTo` flips with its arguments, and "at most" is a total preorder). `List.sort` may throw on a comparator that breaks its contract.
- `Data.DataManager.LoadData`: requires the value entry to be present and to parse. The source parses it unguarded, and a failure escapes the load.
- `Legacy.DataManager.LoadData`: the same precondition on the value entry.
- `Decimal.ParseLong`: accepts ASCII digits only. `Long.parseLong` also accepts other Unicode decimal digits.

## Findings

| source | as written | input that shows it | evidently intended | confidence | as-written member | corrected member |
|---|---|---|---|---|---|---|
| src/main/java/com/brastasauce/purchaseprogress/PurchaseProgressPlugin.java:220-222 | a name with no top-level match appends `null` (the `orElse(null)` result) to the group; the next save then dereferences it | `addItemsToGroup(g, ["X"])` with no top-level item named "X" | skip names that match no item | not executed | `Goals.UnmatchedNameAppendsNull` | `Goals.MoveItemsKeepsTracked` |
