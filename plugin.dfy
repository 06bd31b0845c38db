/** The plugin's goal-list store: the top-level item list, the group list and
    the account value, with the list operations the side panel triggers.
    Each operation runs as a single step (a body posted to the client
    thread, or the scheduled price refresh); saving is counted by the ghost
    field saves, and the panel refresh is not modelled. */
module PurchaseProgress {
  import opened Lists
  import opened Sorting
  import opened Goals

  class Plugin {
    var items: seq<Item>
    var groups: seq<Group>
    var value: int
    /** How many times the store has been handed to the data manager's save. */
    ghost var saves: nat

    /** equals of the item class, equals of the group class and the items'
        natural order (compareTo); these classes are not part of the model. */
    const same: (Item, Item) -> bool
    const sameGroup: (Group, Group) -> bool
    const compare: (Item, Item) -> int

    constructor(same: (Item, Item) -> bool, sameGroup: (Group, Group) -> bool,
                compare: (Item, Item) -> int)
      ensures items == [] && groups == [] && value == 0 && saves == 0
      ensures this.same == same && this.sameGroup == sameGroup && this.compare == compare
    {
      this.same := same;
      this.sameGroup := sameGroup;
      this.compare := compare;
      items := [];
      groups := [];
      value := 0;
      saves := 0;
    }

    /** containsItem: whether some group's list or the top-level list holds
        an item equal to newItem. */
    method ContainsItem(newItem: Item) returns (b: bool)
      ensures b <==> Tracked(items, groups, newItem, same)
      ensures b <==> Contains(AllItems(items, groups), newItem, same)
    {
      TrackedIffInAll(items, groups, newItem, same);
      var j := 0;
      while j < |groups|
        invariant 0 <= j <= |groups|
        invariant forall m :: 0 <= m < j ==> !Contains(groups[m].items, newItem, same)
      {
        if Contains(groups[j].items, newItem, same) {
          return true;
        }
        j := j + 1;
      }
      b := Contains(items, newItem, same);
    }

    /** addItem: appends the item exactly when it is tracked nowhere yet. */
    method AddItem(item: Item)
      modifies this
      ensures Tracked(old(items), old(groups), item, same) ==> items == old(items) && saves == old(saves)
      ensures !Tracked(old(items), old(groups), item, same) ==>
        items == old(items) + [item] && saves == old(saves) + 1
      ensures groups == old(groups) && value == old(value)
      ensures Tracked(items, groups, item, same) || !Reflexive(same)
      ensures Symmetric(same) && StoreNoDup(old(items), old(groups), same) ==> StoreNoDup(items, groups, same)
    {
      var present := ContainsItem(item);
      if !present {
        if Symmetric(same) && NoDup(AllItems(items, groups), same) {
          AddKeepsNoDup(items, groups, item, same);
        }
        if Reflexive(same) {
          AddedItemIsTracked(items, groups, item, same);
        }
        items := items + [item];
        saves := saves + 1;
      }
    }

    /** removeItem: drops the first equal item of the top-level list, if any;
        groups are untouched and the store is saved either way. */
    method RemoveItem(item: Item)
      modifies this
      ensures items == RemoveFirst(old(items), item, same)
      ensures !Contains(old(items), item, same) ==> items == old(items)
      ensures Contains(old(items), item, same) ==>
        multiset(items) + multiset{old(items)[IndexOf(old(items), item, same)]} == multiset(old(items))
      ensures NoDup(old(items), same) ==> NoDup(items, same)
      ensures StoreNoDup(old(items), old(groups), same) ==> StoreNoDup(items, groups, same)
      ensures groups == old(groups) && value == old(value) && saves == old(saves) + 1
    {
      if NoDup(items, same) {
        RemoveFirstKeepsNoDup(items, item, same);
      }
      assert multiset(RemoveFirst(items, item, same)) <= multiset(items);
      TopLevelKeepsNoDup(items, RemoveFirst(items, item, same), groups, same);
      items := RemoveFirst(items, item, same);
      saves := saves + 1;
    }

    /** addGroup with the name the user entered (None for a cancelled
        dialog): an empty group under the cut name is appended unless an
        equal group exists. */
    method AddGroup(input: Option<string>)
      modifies this
      ensures GroupName(input).None? ==> groups == old(groups) && saves == old(saves)
      ensures GroupName(input).Some? ==>
        var g := Group(GroupName(input).value, false, []);
        if Contains(old(groups), g, sameGroup) then groups == old(groups) && saves == old(saves)
        else groups == old(groups) + [g] && saves == old(saves) + 1
      ensures items == old(items) && value == old(value)
      ensures EqualByName(sameGroup) && DistinctNames(old(groups)) ==> DistinctNames(groups)
      ensures AllItems(items, groups) == AllItems(old(items), old(groups))
      ensures StoreNoDup(old(items), old(groups), same) ==> StoreNoDup(items, groups, same)
    {
      var name := GroupName(input);
      if name.None? {
        return;
      }
      var group := Group(name.value, false, []);
      if !Contains(groups, group, sameGroup) {
        AppendEmptyGroupKeepsAll(items, groups, group);
        if EqualByName(sameGroup) && DistinctNames(groups) {
          AppendKeepsNamesDistinct(groups, group, sameGroup);
        }
        groups := groups + [group];
        saves := saves + 1;
      }
    }

    /** editGroup on the group at gi: renames it in place unless the name is
        empty or some group, this one included, already has it. */
    method EditGroup(gi: nat, input: Option<string>)
      requires gi < |groups|
      modifies this
      ensures GroupName(input).None? || HasGroupNamed(old(groups), GroupName(input).value) ==>
        groups == old(groups) && saves == old(saves)
      ensures GroupName(input).Some? && !HasGroupNamed(old(groups), GroupName(input).value) ==>
        groups == old(groups)[gi := old(groups)[gi].(name := GroupName(input).value)]
        && saves == old(saves) + 1
      ensures items == old(items) && value == old(value)
      ensures DistinctNames(old(groups)) ==> DistinctNames(groups)
      ensures AllItems(items, groups) == AllItems(old(items), old(groups))
      ensures StoreNoDup(old(items), old(groups), same) ==> StoreNoDup(items, groups, same)
    {
      var name := GroupName(input);
      if name.None? {
        return;
      }
      if !HasGroupNamed(groups, name.value) {
        RelabelGroupKeepsAll(items, groups, gi, groups[gi].(name := name.value));
        if DistinctNames(groups) {
          RenameKeepsNamesDistinct(groups, gi, name.value);
        }
        groups := groups[gi := groups[gi].(name := name.value)];
        saves := saves + 1;
      }
    }

    /** removeGroup on the group at gi: its items go to the end of the
        top-level list, then the first group equal to it is deleted. */
    method RemoveGroup(gi: nat)
      requires gi < |groups|
      modifies this
      ensures items == old(items) + old(groups)[gi].items
      ensures groups == RemoveFirst(old(groups), old(groups)[gi], sameGroup)
      ensures IndexOf(old(groups), old(groups)[gi], sameGroup) == gi ==>
        && |groups| == |old(groups)| - 1
        && multiset(AllItems(items, groups)) == multiset(AllItems(old(items), old(groups)))
      ensures EqualByName(sameGroup) && DistinctNames(old(groups)) ==>
        IndexOf(old(groups), old(groups)[gi], sameGroup) == gi
      ensures IndexOf(old(groups), old(groups)[gi], sameGroup) == gi && StoreNoDup(old(items), old(groups), same) ==>
        StoreNoDup(items, groups, same)
      ensures value == old(value) && saves == old(saves) + 1
    {
      var group := groups[gi];
      if IndexOf(groups, group, sameGroup) == gi {
        RemoveGroupKeepsTracked(items, groups, gi, sameGroup);
        RemoveGroupKeepsNoDup(items, groups, gi, sameGroup, same);
      }
      if EqualByName(sameGroup) && DistinctNames(groups) {
        DistinctNamesLocateGroup(groups, gi, sameGroup);
      }
      items := items + group.items;
      groups := RemoveFirst(groups, group, sameGroup);
      saves := saves + 1;
    }

    /** addItemsToGroup on the group at gi, name by name: the first
        top-level item with the name moves to the end of the group. A name
        with no match is skipped (see MoveNamedAsWritten for the code as
        written). */
    method AddItemsToGroup(gi: nat, names: seq<string>)
      requires gi < |groups|
      modifies this
      ensures |groups| == |old(groups)|
      ensures (items, groups[gi].items) == MoveAllNamed(old(items), old(groups)[gi].items, names, same)
      ensures groups == old(groups)[gi := old(groups)[gi].(items := groups[gi].items)]
      ensures Reflexive(same) && NoDup(old(items), same) ==>
        && multiset(AllItems(items, groups)) == multiset(AllItems(old(items), old(groups)))
        && NoDup(items, same)
      ensures Reflexive(same) && StoreNoDup(old(items), old(groups), same) ==> StoreNoDup(items, groups, same)
      ensures value == old(value) && saves == old(saves) + 1
    {
      if Reflexive(same) {
        MoveItemsKeepsNoDup(items, groups, gi, names, same);
      }
      var moved, groupItems := MoveByName(items, groups[gi].items, names, same);
      if Reflexive(same) && NoDup(items, same) {
        MoveItemsKeepsTracked(items, groups, gi, names, same);
        MoveAllNamedKeepsItems(items, groups[gi].items, names, same);
      }
      items := moved;
      groups := groups[gi := groups[gi].(items := groupItems)];
      saves := saves + 1;
    }

    /** The loop of addItemsToGroup over the names, on the top-level list
        and the group's own list. */
    static method MoveByName(items: seq<Item>, groupItems: seq<Item>, names: seq<string>,
                             same: (Item, Item) -> bool)
      returns (newItems: seq<Item>, newGroupItems: seq<Item>)
      ensures (newItems, newGroupItems) == MoveAllNamed(items, groupItems, names, same)
      ensures multiset(newItems) + multiset(newGroupItems) == multiset(items) + multiset(groupItems)
        || !Reflexive(same) || !NoDup(items, same)
    {
      newItems, newGroupItems := items, groupItems;
      var k := 0;
      while k < |names|
        invariant 0 <= k <= |names|
        invariant (newItems, newGroupItems) == MoveAllNamed(items, groupItems, names[..k], same)
      {
        MoveAllNamedStep(items, groupItems, names, k, same);
        var p := FirstNamed(newItems, names[k]);
        if p != -1 {
          var item := newItems[p];
          newGroupItems := newGroupItems + [item];
          newItems := RemoveFirst(newItems, item, same);
        }
        k := k + 1;
      }
      assert names[..k] == names;
      if Reflexive(same) && NoDup(items, same) {
        MoveAllNamedKeepsItems(items, groupItems, names, same);
      }
    }

    /** removeItemFromGroup on the group at gi: the first equal item leaves
        the group and the item is appended to the top-level list, whether or
        not the group held it. */
    method RemoveItemFromGroup(gi: nat, item: Item)
      requires gi < |groups|
      modifies this
      ensures groups == old(groups)[gi := old(groups)[gi].(items := RemoveFirst(old(groups)[gi].items, item, same))]
      ensures items == old(items) + [item]
      ensures Reflexive(same) && NoDup(old(groups)[gi].items, same) && item in old(groups)[gi].items ==>
        multiset(AllItems(items, groups)) == multiset(AllItems(old(items), old(groups)))
      ensures Reflexive(same) && item in old(groups)[gi].items && StoreNoDup(old(items), old(groups), same) ==>
        StoreNoDup(items, groups, same)
      ensures value == old(value) && saves == old(saves) + 1
    {
      if Reflexive(same) && item in groups[gi].items {
        RemoveFromGroupKeepsNoDup(items, groups, gi, item, same);
      }
      if Reflexive(same) && NoDup(groups[gi].items, same) && item in groups[gi].items {
        var p :| 0 <= p < |groups[gi].items| && groups[gi].items[p] == item;
        RemoveFromGroupKeepsTracked(items, groups, gi, p, same);
      }
      groups := groups[gi := groups[gi].(items := RemoveFirst(groups[gi].items, item, same))];
      items := items + [item];
      saves := saves + 1;
    }

    /** switchGroupCollapse on the group at gi: flips its collapsed flag only. */
    method SwitchGroupCollapse(gi: nat)
      requires gi < |groups|
      modifies this
      ensures |groups| == |old(groups)|
      ensures groups[gi].collapsed == !old(groups)[gi].collapsed
      ensures groups[gi].name == old(groups)[gi].name && groups[gi].items == old(groups)[gi].items
      ensures forall j :: 0 <= j < |groups| && j != gi ==> groups[j] == old(groups)[j]
      ensures items == old(items) && value == old(value) && saves == old(saves) + 1
      ensures AllItems(items, groups) == AllItems(old(items), old(groups))
      ensures StoreNoDup(old(items), old(groups), same) ==> StoreNoDup(items, groups, same)
    {
      RelabelGroupKeepsAll(items, groups, gi, groups[gi].(collapsed := !groups[gi].collapsed));
      groups := groups[gi := groups[gi].(collapsed := !groups[gi].collapsed)];
      saves := saves + 1;
    }

    /** updateItemPrices: every item, in the groups and at top level, takes
        the current price of its id; nothing is saved. */
    method UpdateItemPrices(price: int -> int)
      modifies this
      ensures groups == RepricedGroups(old(groups), price)
      ensures items == Repriced(old(items), price)
      ensures IgnoresPrice(same) && StoreNoDup(old(items), old(groups), same) ==> StoreNoDup(items, groups, same)
      ensures value == old(value) && saves == old(saves)
    {
      var j := 0;
      while j < |groups|
        invariant 0 <= j <= |groups| == |old(groups)|
        invariant forall m :: 0 <= m < j ==> groups[m] == RepricedGroups(old(groups), price)[m]
        invariant forall m :: j <= m < |groups| ==> groups[m] == old(groups)[m]
        invariant items == old(items) && value == old(value) && saves == old(saves)
      {
        var repriced := RepriceList(groups[j].items, price);
        groups := groups[j := groups[j].(items := repriced)];
        j := j + 1;
      }
      items := RepriceList(items, price);
      if IgnoresPrice(same) && StoreNoDup(old(items), old(groups), same) {
        RepriceKeepsNoDup(old(items), old(groups), price, same);
      }
    }

    /** The loop over one list: sets each item's price from its id. */
    static method RepriceList(s: seq<Item>, price: int -> int) returns (r: seq<Item>)
      ensures r == Repriced(s, price)
    {
      r := s;
      var m := 0;
      while m < |r|
        invariant 0 <= m <= |r| == |s|
        invariant forall i :: 0 <= i < m ==> r[i] == s[i].(gePrice := price(s[i].itemId))
        invariant forall i :: m <= i < |r| ==> r[i] == s[i]
      {
        r := r[m := r[m].(gePrice := price(r[m].itemId))];
        m := m + 1;
      }
    }

    /** sort: nothing happens on an empty list; otherwise the top-level list
        is stably sorted by the natural order (ascending) or its reverse, and
        saved. */
    method Sort(ascending: bool)
      requires ValidCompare(compare)
      modifies this
      ensures old(items) == [] ==> items == [] && saves == old(saves)
      ensures old(items) != [] ==>
        items == InsertionSort(old(items), OrderFor(compare, ascending)) && saves == old(saves) + 1
      ensures multiset(items) == multiset(old(items))
      ensures Sorted(items, OrderFor(compare, ascending))
      ensures forall x :: TiedWith(items, x, OrderFor(compare, ascending))
                       == TiedWith(old(items), x, OrderFor(compare, ascending))
      ensures StoreNoDup(old(items), old(groups), same) ==> StoreNoDup(items, groups, same)
      ensures groups == old(groups) && value == old(value)
    {
      if items != [] {
        var le := OrderFor(compare, ascending);
        OrderForIsPreorder(compare, ascending);
        StableSort(items, le);
        TopLevelKeepsNoDup(items, InsertionSort(items, le), groups, same);
        items := InsertionSort(items, le);
        saves := saves + 1;
      }
    }

    /** shiftItem: swaps the item at index with its upper or lower
        neighbour; the panel only offers moves that stay inside the list. */
    method ShiftItem(index: int, up: bool)
      requires up ==> 1 <= index < |items|
      requires !up ==> 0 <= index < |items| - 1
      modifies this
      ensures var other := if up then index - 1 else index + 1;
        && |items| == |old(items)|
        && items[index] == old(items)[other] && items[other] == old(items)[index]
        && (forall k :: 0 <= k < |items| && k != index && k != other ==> items[k] == old(items)[k])
      ensures multiset(items) == multiset(old(items))
      ensures StoreNoDup(old(items), old(groups), same) ==> StoreNoDup(items, groups, same)
      ensures groups == old(groups) && value == old(value) && saves == old(saves) + 1
    {
      var other := if up then index - 1 else index + 1;
      var shifted := items[index];
      items := items[index := items[other]];
      items := items[other := shifted];
      assert items == Swapped(old(items), index, other);
      assert multiset(items) == multiset(old(items));
      TopLevelKeepsNoDup(old(items), items, groups, same);
      saves := saves + 1;
    }

    /** shiftItemInGroup: the same swap inside the list of the group at gi. */
    method ShiftItemInGroup(gi: nat, index: int, up: bool)
      requires gi < |groups|
      requires up ==> 1 <= index < |groups[gi].items|
      requires !up ==> 0 <= index < |groups[gi].items| - 1
      modifies this
      ensures var other := if up then index - 1 else index + 1;
        groups == old(groups)[gi := old(groups)[gi].(items := Swapped(old(groups)[gi].items, index, other))]
      ensures forall j :: 0 <= j < |groups| && j != gi ==> groups[j] == old(groups)[j]
      ensures multiset(AllItems(items, groups)) == multiset(AllItems(old(items), old(groups)))
      ensures StoreNoDup(old(items), old(groups), same) ==> StoreNoDup(items, groups, same)
      ensures items == old(items) && value == old(value) && saves == old(saves) + 1
    {
      var other := if up then index - 1 else index + 1;
      var groupItems := groups[gi].items;
      var shifted := groupItems[index];
      groupItems := groupItems[index := groupItems[other]];
      groupItems := groupItems[other := shifted];
      assert groupItems == Swapped(old(groups)[gi].items, index, other);
      groups := groups[gi := groups[gi].(items := groupItems)];
      SwapInGroupKeepsStore(items, old(groups), gi, index, other, same);
      saves := saves + 1;
    }
  }
}
