/** The goal items and goal groups, and the store-level facts the plugin's
    list operations rely on: membership across the top-level list and the
    groups, the tracked multiset, moving items into and out of groups, group
    names, price refresh and the items' order. */
module Goals {
  import opened Lists
  import opened Sorting

  const MAX_GROUP_NAME_LENGTH: nat := 50

  /** A goal item; the icon image is not modelled. */
  datatype Item = Item(name: string, itemId: int, gePrice: int)

  /** A goal group: a name, a collapsed flag and its own ordered items. */
  datatype Group = Group(name: string, collapsed: bool, items: seq<Item>)

  /** The items of all groups, group after group. */
  function GroupItems(groups: seq<Group>): seq<Item>
  {
    if groups == [] then [] else groups[0].items + GroupItems(groups[1..])
  }

  /** Every tracked item: the groups' items, then the top-level items. */
  function AllItems(items: seq<Item>, groups: seq<Group>): seq<Item>
  {
    GroupItems(groups) + items
  }

  predicate InSomeGroup(groups: seq<Group>, x: Item, same: (Item, Item) -> bool)
  {
    exists j :: 0 <= j < |groups| && Contains(groups[j].items, x, same)
  }

  /** containsItem: some group's list or the top-level list contains x. */
  predicate Tracked(items: seq<Item>, groups: seq<Group>, x: Item, same: (Item, Item) -> bool)
  {
    InSomeGroup(groups, x, same) || Contains(items, x, same)
  }

  lemma ContainsAppend<T>(a: seq<T>, b: seq<T>, x: T, eq: (T, T) -> bool)
    ensures Contains(a + b, x, eq) <==> Contains(a, x, eq) || Contains(b, x, eq)
  {
    if Contains(a + b, x, eq) {
      var i :| 0 <= i < |a + b| && eq(x, (a + b)[i]);
      if i >= |a| {
        assert b[i - |a|] == (a + b)[i];
      }
    }
    if Contains(a, x, eq) {
      var i :| 0 <= i < |a| && eq(x, a[i]);
      assert (a + b)[i] == a[i];
    }
    if Contains(b, x, eq) {
      var i :| 0 <= i < |b| && eq(x, b[i]);
      assert (a + b)[|a| + i] == b[i];
    }
  }

  lemma {:induction false} InSomeGroupIffInGroupItems(groups: seq<Group>, x: Item, same: (Item, Item) -> bool)
    ensures InSomeGroup(groups, x, same) <==> Contains(GroupItems(groups), x, same)
  {
    if groups != [] {
      InSomeGroupIffInGroupItems(groups[1..], x, same);
      ContainsAppend(groups[0].items, GroupItems(groups[1..]), x, same);
      if InSomeGroup(groups, x, same) {
        var j :| 0 <= j < |groups| && Contains(groups[j].items, x, same);
        if j > 0 {
          assert groups[1..][j - 1] == groups[j];
        }
      }
      if InSomeGroup(groups[1..], x, same) {
        var j :| 0 <= j < |groups[1..]| && Contains(groups[1..][j].items, x, same);
        assert groups[j + 1] == groups[1..][j];
      }
    }
  }

  /** The two-level membership test agrees with membership in the flat list
      of all tracked items. */
  lemma TrackedIffInAll(items: seq<Item>, groups: seq<Group>, x: Item, same: (Item, Item) -> bool)
    ensures Tracked(items, groups, x, same) <==> Contains(AllItems(items, groups), x, same)
  {
    InSomeGroupIffInGroupItems(groups, x, same);
    ContainsAppend(GroupItems(groups), items, x, same);
  }

  /** Appending an item that is not tracked keeps the tracked items free of
      duplicates. */
  lemma AddKeepsNoDup(items: seq<Item>, groups: seq<Group>, x: Item, same: (Item, Item) -> bool)
    requires Symmetric(same)
    requires NoDup(AllItems(items, groups), same)
    requires !Tracked(items, groups, x, same)
    ensures NoDup(AllItems(items + [x], groups), same)
  {
    TrackedIffInAll(items, groups, x, same);
    var all := AllItems(items, groups);
    assert AllItems(items + [x], groups) == all + [x];
    var r := all + [x];
    forall i, j | 0 <= i < |r| && 0 <= j < |r| && i != j ensures !same(r[i], r[j]) {
      if i == |all| {
        assert !same(x, all[j]);
      } else if j == |all| {
        assert !same(x, all[i]);
      }
    }
  }

  /** After x is added, x is tracked, so adding it again changes nothing. */
  lemma AddedItemIsTracked(items: seq<Item>, groups: seq<Group>, x: Item, same: (Item, Item) -> bool)
    requires Reflexive(same)
    ensures Tracked(items + [x], groups, x, same)
  {
    assert same(x, (items + [x])[|items|]);
  }

  lemma {:induction false} GroupItemsAppend(a: seq<Group>, b: seq<Group>)
    ensures GroupItems(a + b) == GroupItems(a) + GroupItems(b)
  {
    if a == [] {
      assert a + b == b;
    } else {
      var ab := a + b;
      assert ab[0] == a[0] && ab[1..] == a[1..] + b;
      GroupItemsAppend(a[1..], b);
      var x, y, z := a[0].items, GroupItems(a[1..]), GroupItems(b);
      assert GroupItems(ab) == x + (y + z);
      assert GroupItems(a) == x + y;
      assert x + (y + z) == (x + y) + z;
    }
  }

  /** The groups' items are those before group gi, then gi's, then those after. */
  lemma GroupItemsSplit(groups: seq<Group>, gi: nat)
    requires gi < |groups|
    ensures GroupItems(groups)
         == GroupItems(groups[..gi]) + groups[gi].items + GroupItems(groups[gi + 1..])
  {
    var tail := groups[gi..];
    assert groups == groups[..gi] + tail;
    GroupItemsAppend(groups[..gi], tail);
    assert tail != [] && tail[0] == groups[gi] && tail[1..] == groups[gi + 1..];
    assert GroupItems(tail) == groups[gi].items + GroupItems(groups[gi + 1..]);
    calc {
      GroupItems(groups);
      GroupItems(groups[..gi]) + GroupItems(tail);
      GroupItems(groups[..gi]) + (groups[gi].items + GroupItems(groups[gi + 1..]));
    }
  }

  /** Removing the group at gi takes exactly its items out of the groups. */
  lemma GroupItemsWithout(groups: seq<Group>, gi: nat)
    requires gi < |groups|
    ensures multiset(GroupItems(groups[..gi] + groups[gi + 1..])) + multiset(groups[gi].items)
         == multiset(GroupItems(groups))
  {
    GroupItemsSplit(groups, gi);
    GroupItemsAppend(groups[..gi], groups[gi + 1..]);
    var l, m, r := GroupItems(groups[..gi]), groups[gi].items, GroupItems(groups[gi + 1..]);
    assert multiset(l + m + r) == multiset(l) + multiset(m) + multiset(r);
    assert multiset(l + r) == multiset(l) + multiset(r);
  }

  /** Replacing the group at gi swaps its items for the new group's items. */
  lemma GroupItemsUpdate(groups: seq<Group>, gi: nat, g: Group)
    requires gi < |groups|
    ensures multiset(GroupItems(groups[gi := g])) + multiset(groups[gi].items)
         == multiset(GroupItems(groups)) + multiset(g.items)
  {
    var updated := groups[gi := g];
    GroupItemsSplit(groups, gi);
    GroupItemsSplit(updated, gi);
    assert updated[..gi] == groups[..gi] && updated[gi + 1..] == groups[gi + 1..];
    var l, m, r := GroupItems(groups[..gi]), groups[gi].items, GroupItems(groups[gi + 1..]);
    assert multiset(l + m + r) == multiset(l) + multiset(m) + multiset(r);
    assert multiset(l + g.items + r) == multiset(l) + multiset(g.items) + multiset(r);
  }

  /** removeGroup moves the group's items to the end of the top-level list
      and deletes the group: when the group removed is the one at gi, the
      multiset of tracked items is unchanged. */
  lemma RemoveGroupKeepsTracked(items: seq<Item>, groups: seq<Group>, gi: nat,
                                sameGroup: (Group, Group) -> bool)
    requires gi < |groups| && IndexOf(groups, groups[gi], sameGroup) == gi
    ensures multiset(AllItems(items + groups[gi].items, RemoveFirst(groups, groups[gi], sameGroup)))
         == multiset(AllItems(items, groups))
  {
    var rest := RemoveFirst(groups, groups[gi], sameGroup);
    assert rest == groups[..gi] + groups[gi + 1..];
    GroupItemsWithout(groups, gi);
  }

  /** removeItemFromGroup: when the item is in the group and the group holds
      no other item equal to it, the tracked multiset is unchanged. */
  lemma RemoveFromGroupKeepsTracked(items: seq<Item>, groups: seq<Group>, gi: nat, p: nat,
                                    same: (Item, Item) -> bool)
    requires Reflexive(same)
    requires gi < |groups| && p < |groups[gi].items|
    requires NoDup(groups[gi].items, same)
    ensures var g := groups[gi];
      var item := g.items[p];
      multiset(AllItems(items + [item], groups[gi := g.(items := RemoveFirst(g.items, item, same))]))
        == multiset(AllItems(items, groups))
  {
    var g := groups[gi];
    var item := g.items[p];
    IndexOfOwnElement(g.items, p, same);
    var r := RemoveFirst(g.items, item, same);
    var updated := groups[gi := g.(items := r)];
    GroupItemsUpdate(groups, gi, g.(items := r));
    var a, b := GroupItems(updated), GroupItems(groups);
    Rebalance(multiset(a), multiset(b), multiset(r), multiset(g.items), multiset{item}, multiset(items));
    assert AllItems(items + [item], updated) == a + items + [item];
    assert AllItems(items, groups) == b + items;
  }

  /** Multiset bookkeeping: a list g split into r and i, and a + g == b + r. */
  lemma Rebalance<T>(a: multiset<T>, b: multiset<T>, r: multiset<T>, g: multiset<T>, i: multiset<T>, x: multiset<T>)
    requires g == r + i && a + g == b + r
    ensures a + x + i == b + x
  {
    forall z ensures (a + x + i)[z] == (b + x)[z] {
      assert (a + g)[z] == (b + r)[z];
    }
  }

  /** Position of the first item with this display name, or -1. */
  function FirstNamed(items: seq<Item>, name: string): (k: int)
    ensures -1 <= k < |items|
    ensures k == -1 <==> forall i :: 0 <= i < |items| ==> items[i].name != name
    ensures 0 <= k ==> items[k].name == name && forall i :: 0 <= i < k ==> items[i].name != name
  {
    FirstWhere(items, (it: Item) => it.name == name)
  }

  /** One name of addItemsToGroup, as the plugin runs it: the first
      top-level item with that name is appended to the group and removed from
      the top-level list; a name without a match changes nothing. */
  function MoveNamed(items: seq<Item>, groupItems: seq<Item>, name: string,
                     same: (Item, Item) -> bool): (r: (seq<Item>, seq<Item>))
    ensures FirstNamed(items, name) == -1 ==> r == (items, groupItems)
    ensures FirstNamed(items, name) != -1 ==>
      |r.1| == |groupItems| + 1 && r.1[..|groupItems|] == groupItems && r.1[|groupItems|].name == name
  {
    var k := FirstNamed(items, name);
    if k == -1 then (items, groupItems)
    else (RemoveFirst(items, items[k], same), groupItems + [items[k]])
  }

  /** addItemsToGroup over all names, in order. */
  function MoveAllNamed(items: seq<Item>, groupItems: seq<Item>, names: seq<string>,
                        same: (Item, Item) -> bool): (r: (seq<Item>, seq<Item>))
    // the group only grows at its end, by at most one item per name, and
    // every item it gains carries one of the names
    ensures |groupItems| <= |r.1| <= |groupItems| + |names|
    ensures r.1[..|groupItems|] == groupItems
    ensures forall j :: |groupItems| <= j < |r.1| ==> r.1[j].name in names
  {
    if names == [] then (items, groupItems)
    else
      var (i', g') := MoveAllNamed(items, groupItems, names[..|names| - 1], same);
      MoveNamed(i', g', names[|names| - 1], same)
  }

  /** One more name: its move applies to the lists the earlier names left. */
  lemma MoveAllNamedStep(items: seq<Item>, groupItems: seq<Item>, names: seq<string>, k: nat,
                         same: (Item, Item) -> bool)
    requires k < |names|
    ensures var moved := MoveAllNamed(items, groupItems, names[..k], same);
      MoveAllNamed(items, groupItems, names[..k + 1], same) == MoveNamed(moved.0, moved.1, names[k], same)
  {
    assert names[..k + 1][..k] == names[..k];
  }

  /** Moving items by name keeps the union of the two lists and keeps the
      top-level list free of duplicates. */
  lemma {:induction false} MoveAllNamedKeepsItems(items: seq<Item>, groupItems: seq<Item>, names: seq<string>,
                                                  same: (Item, Item) -> bool)
    requires Reflexive(same) && NoDup(items, same)
    ensures var (i', g') := MoveAllNamed(items, groupItems, names, same);
      && multiset(i') + multiset(g') == multiset(items) + multiset(groupItems)
      && NoDup(i', same)
  {
    if names != [] {
      var (i1, g1) := MoveAllNamed(items, groupItems, names[..|names| - 1], same);
      MoveAllNamedKeepsItems(items, groupItems, names[..|names| - 1], same);
      var k := FirstNamed(i1, names[|names| - 1]);
      if k != -1 {
        IndexOfOwnElement(i1, k, same);
        RemoveFirstKeepsNoDup(i1, i1[k], same);
      }
    }
  }

  /** addItemsToGroup at store level: the tracked multiset is unchanged. */
  lemma MoveItemsKeepsTracked(items: seq<Item>, groups: seq<Group>, gi: nat, names: seq<string>,
                              same: (Item, Item) -> bool)
    requires Reflexive(same) && NoDup(items, same) && gi < |groups|
    ensures var moved := MoveAllNamed(items, groups[gi].items, names, same);
      multiset(AllItems(moved.0, groups[gi := groups[gi].(items := moved.1)])) == multiset(AllItems(items, groups))
  {
    var moved := MoveAllNamed(items, groups[gi].items, names, same);
    var i', g' := moved.0, moved.1;
    MoveAllNamedKeepsItems(items, groups[gi].items, names, same);
    var updated := groups[gi := groups[gi].(items := g')];
    GroupItemsUpdate(groups, gi, groups[gi].(items := g'));
    var a, b := GroupItems(updated), GroupItems(groups);
    Exchange(multiset(a), multiset(b), multiset(groups[gi].items), multiset(g'), multiset(items), multiset(i'));
    assert AllItems(i', updated) == a + i';
    assert AllItems(items, groups) == b + items;
  }

  /** Multiset bookkeeping: items move between two lists and between a
      group and the rest. */
  lemma Exchange<T>(a: multiset<T>, b: multiset<T>, g: multiset<T>, g': multiset<T>, s: multiset<T>, s': multiset<T>)
    requires a + g == b + g' && s' + g' == s + g
    ensures a + s' == b + s
  {
    forall z ensures (a + s')[z] == (b + s)[z] {
      assert (a + g)[z] == (b + g')[z] && (s' + g')[z] == (s + g)[z];
    }
  }

  /** Reordering the items inside one group leaves the tracked multiset
      unchanged. */
  lemma ReorderGroupKeepsTracked(items: seq<Item>, groups: seq<Group>, gi: nat, s: seq<Item>)
    requires gi < |groups| && multiset(s) == multiset(groups[gi].items)
    ensures multiset(AllItems(items, groups[gi := groups[gi].(items := s)])) == multiset(AllItems(items, groups))
  {
    var updated := groups[gi := groups[gi].(items := s)];
    GroupItemsUpdate(groups, gi, groups[gi].(items := s));
    var a, b := GroupItems(updated), GroupItems(groups);
    Exchange(multiset(a), multiset(b), multiset(groups[gi].items), multiset(s), multiset(items), multiset(items));
    assert AllItems(items, updated) == a + items;
    assert AllItems(items, groups) == b + items;
  }

  /** One name of addItemsToGroup exactly as written: a name without a
      match appends null (None) to the group; items.remove(null) then finds
      nothing, as the top-level list holds no null. */
  function MoveNamedAsWritten(items: seq<Item>, groupItems: seq<Option<Item>>, name: string,
                              same: (Item, Item) -> bool): (r: (seq<Item>, seq<Option<Item>>))
    // as written every name grows the group by exactly one entry
    ensures |r.1| == |groupItems| + 1 && r.1[..|groupItems|] == groupItems
    ensures r.1[|groupItems|].Some? <==> FirstNamed(items, name) != -1
  {
    var k := FirstNamed(items, name);
    if k == -1 then (items, groupItems + [None])
    else (RemoveFirst(items, items[k], same), groupItems + [Some(items[k])])
  }

  /** The discrepancy: an unmatched name leaves the top-level list as it was
      but grows the group by a null entry, which is not a tracked item (the
      next save dereferences it). */
  lemma UnmatchedNameAppendsNull(items: seq<Item>, groupItems: seq<Option<Item>>, name: string,
                                 same: (Item, Item) -> bool)
    requires forall i :: 0 <= i < |items| ==> items[i].name != name
    ensures var (i', g') := MoveNamedAsWritten(items, groupItems, name, same);
      i' == items && |g'| == |groupItems| + 1 && g'[|groupItems|] == None
  {
  }

  /** The name addGroup and editGroup act on: nothing for a null or empty
      input, otherwise the input cut to its first 50 characters. */
  function GroupName(input: Option<string>): (r: Option<string>)
    ensures r.None? <==> input.None? || input.value == ""
    ensures r.Some? ==>
      && 0 < |r.value| <= MAX_GROUP_NAME_LENGTH
      && r.value <= input.value
      && (|input.value| <= MAX_GROUP_NAME_LENGTH ==> r.value == input.value)
  {
    match input
    case None => None
    case Some(name) =>
      if name == "" then None
      else if |name| > MAX_GROUP_NAME_LENGTH then Some(name[..MAX_GROUP_NAME_LENGTH])
      else Some(name)
  }

  predicate HasGroupNamed(groups: seq<Group>, name: string)
  {
    exists j :: 0 <= j < |groups| && groups[j].name == name
  }

  predicate DistinctNames(groups: seq<Group>)
  {
    forall i, j :: 0 <= i < |groups| && 0 <= j < |groups| && i != j ==> groups[i].name != groups[j].name
  }

  /** A rename that editGroup lets through keeps group names distinct, and
      afterwards exactly the renamed group has the new name. */
  lemma RenameKeepsNamesDistinct(groups: seq<Group>, gi: nat, name: string)
    requires gi < |groups| && DistinctNames(groups) && !HasGroupNamed(groups, name)
    ensures var renamed := groups[gi := groups[gi].(name := name)];
      && DistinctNames(renamed)
      && forall j :: 0 <= j < |renamed| ==> (renamed[j].name == name <==> j == gi)
  {
  }

  /** updateItemPrices for one list: every item takes the price of its id. */
  function Repriced(s: seq<Item>, price: int -> int): (r: seq<Item>)
    ensures |r| == |s|
    ensures forall i :: 0 <= i < |s| ==>
      r[i].name == s[i].name && r[i].itemId == s[i].itemId && r[i].gePrice == price(s[i].itemId)
  {
    seq(|s|, i requires 0 <= i < |s| => s[i].(gePrice := price(s[i].itemId)))
  }

  function RepricedGroups(groups: seq<Group>, price: int -> int): (r: seq<Group>)
    ensures |r| == |groups|
    ensures forall i :: 0 <= i < |groups| ==>
      r[i].name == groups[i].name && r[i].collapsed == groups[i].collapsed
      && r[i].items == Repriced(groups[i].items, price)
  {
    seq(|groups|, i requires 0 <= i < |groups| => groups[i].(items := Repriced(groups[i].items, price)))
  }

  /** The price refresh is idempotent: running it twice with unchanged
      prices gives what running it once gives. */
  lemma RepriceIdempotent(items: seq<Item>, groups: seq<Group>, price: int -> int)
    ensures Repriced(Repriced(items, price), price) == Repriced(items, price)
    ensures RepricedGroups(RepricedGroups(groups, price), price) == RepricedGroups(groups, price)
  {
    var g1 := RepricedGroups(groups, price);
    forall i | 0 <= i < |groups|
      ensures RepricedGroups(g1, price)[i] == g1[i]
    {
      assert Repriced(g1[i].items, price) == g1[i].items;
    }
  }

  /** No item is tracked twice: the store invariant addItem keeps. The
      lemmas below carry it through the other list operations. */
  predicate StoreNoDup(items: seq<Item>, groups: seq<Group>, same: (Item, Item) -> bool)
  {
    NoDup(AllItems(items, groups), same)
  }

  /** Reordering or shrinking the top-level list keeps the invariant. */
  lemma TopLevelKeepsNoDup(items: seq<Item>, s: seq<Item>, groups: seq<Group>, same: (Item, Item) -> bool)
    requires multiset(s) <= multiset(items)
    ensures StoreNoDup(items, groups, same) ==> StoreNoDup(s, groups, same)
  {
    if StoreNoDup(items, groups, same) {
      assert AllItems(s, groups) == GroupItems(groups) + s;
      assert AllItems(items, groups) == GroupItems(groups) + items;
      NoDupOfSubMultiset(AllItems(items, groups), AllItems(s, groups), same);
    }
  }

  /** removeGroup keeps the invariant when it deletes the group it was given. */
  lemma RemoveGroupKeepsNoDup(items: seq<Item>, groups: seq<Group>, gi: nat,
                              sameGroup: (Group, Group) -> bool, same: (Item, Item) -> bool)
    requires gi < |groups| && IndexOf(groups, groups[gi], sameGroup) == gi
    ensures StoreNoDup(items, groups, same) ==>
      StoreNoDup(items + groups[gi].items, RemoveFirst(groups, groups[gi], sameGroup), same)
  {
    if StoreNoDup(items, groups, same) {
      RemoveGroupKeepsTracked(items, groups, gi, sameGroup);
      NoDupOfSubMultiset(AllItems(items, groups),
        AllItems(items + groups[gi].items, RemoveFirst(groups, groups[gi], sameGroup)), same);
    }
  }

  /** The corrected addItemsToGroup keeps the invariant. */
  lemma MoveItemsKeepsNoDup(items: seq<Item>, groups: seq<Group>, gi: nat, names: seq<string>,
                            same: (Item, Item) -> bool)
    requires Reflexive(same) && gi < |groups|
    ensures var moved := MoveAllNamed(items, groups[gi].items, names, same);
      StoreNoDup(items, groups, same) ==> StoreNoDup(moved.0, groups[gi := groups[gi].(items := moved.1)], same)
  {
    if StoreNoDup(items, groups, same) {
      var all := AllItems(items, groups);
      assert all == GroupItems(groups) + items;
      NoDupOfSubMultiset(all, items, same);
      MoveItemsKeepsTracked(items, groups, gi, names, same);
      var moved := MoveAllNamed(items, groups[gi].items, names, same);
      NoDupOfSubMultiset(all, AllItems(moved.0, groups[gi := groups[gi].(items := moved.1)]), same);
    }
  }

  /** removeItemFromGroup on an item of that group keeps the invariant. */
  lemma RemoveFromGroupKeepsNoDup(items: seq<Item>, groups: seq<Group>, gi: nat, item: Item,
                                  same: (Item, Item) -> bool)
    requires Reflexive(same) && gi < |groups| && item in groups[gi].items
    ensures var g := groups[gi];
      StoreNoDup(items, groups, same) ==>
      StoreNoDup(items + [item], groups[gi := g.(items := RemoveFirst(g.items, item, same))], same)
  {
    if StoreNoDup(items, groups, same) {
      var all := AllItems(items, groups);
      GroupItemsSplit(groups, gi);
      assert all == GroupItems(groups[..gi]) + groups[gi].items + GroupItems(groups[gi + 1..]) + items;
      NoDupOfSubMultiset(all, groups[gi].items, same);
      var p :| 0 <= p < |groups[gi].items| && groups[gi].items[p] == item;
      RemoveFromGroupKeepsTracked(items, groups, gi, p, same);
      var g := groups[gi];
      NoDupOfSubMultiset(all, AllItems(items + [item], groups[gi := g.(items := RemoveFirst(g.items, item, same))]), same);
    }
  }

  /** Reordering one group's list keeps the invariant. */
  lemma ReorderGroupKeepsNoDup(items: seq<Item>, groups: seq<Group>, gi: nat, s: seq<Item>,
                               same: (Item, Item) -> bool)
    requires gi < |groups| && multiset(s) == multiset(groups[gi].items)
    ensures StoreNoDup(items, groups, same) ==> StoreNoDup(items, groups[gi := groups[gi].(items := s)], same)
  {
    if StoreNoDup(items, groups, same) {
      ReorderGroupKeepsTracked(items, groups, gi, s);
      NoDupOfSubMultiset(AllItems(items, groups), AllItems(items, groups[gi := groups[gi].(items := s)]), same);
    }
  }

  /** Swapping two positions inside one group keeps the tracked multiset
      and the invariant. */
  lemma SwapInGroupKeepsStore(items: seq<Item>, groups: seq<Group>, gi: nat, i: nat, j: nat,
                              same: (Item, Item) -> bool)
    requires gi < |groups| && i < |groups[gi].items| && j < |groups[gi].items|
    ensures var swapped := groups[gi := groups[gi].(items := Swapped(groups[gi].items, i, j))];
      && multiset(AllItems(items, swapped)) == multiset(AllItems(items, groups))
      && (StoreNoDup(items, groups, same) ==> StoreNoDup(items, swapped, same))
  {
    var s := Swapped(groups[gi].items, i, j);
    ReorderGroupKeepsTracked(items, groups, gi, s);
    ReorderGroupKeepsNoDup(items, groups, gi, s, same);
  }

  /** Renaming a group or flipping its collapsed flag leaves the list of
      tracked items itself unchanged. */
  lemma RelabelGroupKeepsAll(items: seq<Item>, groups: seq<Group>, gi: nat, g: Group)
    requires gi < |groups| && g.items == groups[gi].items
    ensures AllItems(items, groups[gi := g]) == AllItems(items, groups)
  {
    var updated := groups[gi := g];
    GroupItemsSplit(groups, gi);
    GroupItemsSplit(updated, gi);
    assert updated[..gi] == groups[..gi] && updated[gi + 1..] == groups[gi + 1..];
  }

  /** Appending an empty group leaves the list of tracked items unchanged. */
  lemma AppendEmptyGroupKeepsAll(items: seq<Item>, groups: seq<Group>, g: Group)
    requires g.items == []
    ensures AllItems(items, groups + [g]) == AllItems(items, groups)
  {
    GroupItemsAppend(groups, [g]);
    assert GroupItems([g]) == [];
  }

  /** Item equality does not look at the price (items are equal by what
      they are, not by what they currently cost). */
  ghost predicate IgnoresPrice(same: (Item, Item) -> bool)
  {
    forall a: Item, b: Item :: same(a, b) <==> same(Item(a.name, a.itemId, 0), Item(b.name, b.itemId, 0))
  }

  lemma RepricedAppend(a: seq<Item>, b: seq<Item>, price: int -> int)
    ensures Repriced(a + b, price) == Repriced(a, price) + Repriced(b, price)
  {
    var r := Repriced(a + b, price);
    forall i | 0 <= i < |r| ensures r[i] == (Repriced(a, price) + Repriced(b, price))[i] {
      if i >= |a| { assert (a + b)[i] == b[i - |a|]; }
    }
  }

  /** Repricing the groups reprices the concatenation of their items. */
  lemma {:induction false} GroupItemsRepriced(groups: seq<Group>, price: int -> int)
    ensures GroupItems(RepricedGroups(groups, price)) == Repriced(GroupItems(groups), price)
  {
    if groups != [] {
      var rg := RepricedGroups(groups, price);
      assert rg[1..] == RepricedGroups(groups[1..], price);
      GroupItemsRepriced(groups[1..], price);
      RepricedAppend(groups[0].items, GroupItems(groups[1..]), price);
    }
  }

  /** Under an equality that ignores prices, the price refresh keeps the
      tracked items free of duplicates. */
  lemma RepriceKeepsNoDup(items: seq<Item>, groups: seq<Group>, price: int -> int,
                          same: (Item, Item) -> bool)
    requires IgnoresPrice(same) && StoreNoDup(items, groups, same)
    ensures StoreNoDup(Repriced(items, price), RepricedGroups(groups, price), same)
  {
    var all := AllItems(items, groups);
    GroupItemsRepriced(groups, price);
    RepricedAppend(GroupItems(groups), items, price);
    var r := Repriced(all, price);
    forall i, j | 0 <= i < |r| && 0 <= j < |r| && i != j ensures !same(r[i], r[j]) {
      assert !same(all[i], all[j]);
      assert Item(r[i].name, r[i].itemId, 0) == Item(all[i].name, all[i].itemId, 0);
      assert Item(r[j].name, r[j].itemId, 0) == Item(all[j].name, all[j].itemId, 0);
    }
  }

  /** The natural order of items: a.compareTo(b) <= 0. */
  function NaturalOrder(compare: (Item, Item) -> int): (Item, Item) -> bool
  {
    (a: Item, b: Item) => compare(a, b) <= 0
  }

  /** Comparator.reverseOrder(): b.compareTo(a) <= 0. */
  function ReverseOrder(compare: (Item, Item) -> int): (Item, Item) -> bool
  {
    (a: Item, b: Item) => compare(b, a) <= 0
  }

  /** compareTo honours the Comparable contract: the sign flips when the
      arguments are swapped, and "at most" is a total preorder. */
  ghost predicate ValidCompare(compare: (Item, Item) -> int)
  {
    && (forall a, b :: compare(a, b) < 0 <==> compare(b, a) > 0)
    && TotalPreorder(NaturalOrder(compare))
  }

  /** List.sort only asks whether compare(a, b) < 0 in either direction;
      under a valid compareTo that test is "b is not at most a" in the
      order handed to it, so the stable sort of that order is the only
      result it can give. */
  lemma StrictTestIsConverse(compare: (Item, Item) -> int, ascending: bool, a: Item, b: Item)
    requires ValidCompare(compare)
    ensures (if ascending then compare(a, b) else compare(b, a)) < 0
        <==> !OrderFor(compare, ascending)(b, a)
  {
  }

  lemma ReverseOrderIsPreorder(compare: (Item, Item) -> int)
    requires ValidCompare(compare)
    ensures TotalPreorder(ReverseOrder(compare))
  {
    ReversedPreorder(NaturalOrder(compare), ReverseOrder(compare));
  }

  /** The order sort(ascending) hands to List.sort. */
  function OrderFor(compare: (Item, Item) -> int, ascending: bool): (Item, Item) -> bool
  {
    if ascending then NaturalOrder(compare) else ReverseOrder(compare)
  }

  lemma OrderForIsPreorder(compare: (Item, Item) -> int, ascending: bool)
    requires ValidCompare(compare)
    ensures TotalPreorder(OrderFor(compare, ascending))
  {
    if !ascending {
      ReverseOrderIsPreorder(compare);
    }
  }

  /** Two groups are equal exactly when their names are. */
  ghost predicate EqualByName(sameGroup: (Group, Group) -> bool)
  {
    forall a: Group, b: Group :: sameGroup(a, b) <==> a.name == b.name
  }

  /** addGroup under name equality: a group is appended only when no group
      has its name, so group names stay distinct. */
  lemma AppendKeepsNamesDistinct(groups: seq<Group>, g: Group, sameGroup: (Group, Group) -> bool)
    requires EqualByName(sameGroup) && DistinctNames(groups) && !Contains(groups, g, sameGroup)
    ensures DistinctNames(groups + [g])
  {
    var r := groups + [g];
    forall i, j | 0 <= i < |r| && 0 <= j < |r| && i != j ensures r[i].name != r[j].name {
      if i == |groups| {
        assert !sameGroup(g, groups[j]);
      } else if j == |groups| {
        assert !sameGroup(g, groups[i]);
      }
    }
  }

  /** Under name equality and distinct names, the group removeGroup deletes
      is the one it was given. */
  lemma DistinctNamesLocateGroup(groups: seq<Group>, gi: nat, sameGroup: (Group, Group) -> bool)
    requires EqualByName(sameGroup) && DistinctNames(groups) && gi < |groups|
    ensures IndexOf(groups, groups[gi], sameGroup) == gi
  {
    assert sameGroup(groups[gi], groups[gi]);
  }
}
