/** Wealth valuation: coins and platinum tokens held in the inventory and the
    bank, plus, when configured, the appraised value of one bank tab (or the
    whole bank), memoised on a hash of the appraised window's id-to-quantity
    map. */
module Bank {
  import opened Lists

  const COINS_995: int := 995
  const PLATINUM_TOKEN: int := 13204
  /** One platinum token is worth 1000 coins. */
  const PLATINUM_TOKEN_VALUE: int := 1000
  /** Number of numbered bank tabs, each with a count varbit. */
  const TAB_COUNT: nat := 9
  /** The bank-tab setting ranges over 0..9; 0 selects the whole bank. */
  const MAX_BANK_TAB: int := 9

  /** One slot of an item container: item id and quantity. */
  datatype ItemStack = ItemStack(id: int, quantity: int)

  /** ItemContainer.count(id): the total quantity held under that id. */
  function Count(c: seq<ItemStack>, id: int): (n: int)
    ensures (forall i :: 0 <= i < |c| ==> c[i].id != id) ==> n == 0
    ensures (forall i :: 0 <= i < |c| ==> c[i].quantity >= 0) ==> n >= 0
  {
    if c == [] then 0
    else (if c[0].id == id then c[0].quantity else 0) + Count(c[1..], id)
  }

  /** Coins plus 1000 per platinum token held in a container. */
  function Currency(c: seq<ItemStack>): (v: int)
    ensures (forall i :: 0 <= i < |c| ==> c[i].id != COINS_995 && c[i].id != PLATINUM_TOKEN) ==> v == 0
    ensures (forall i :: 0 <= i < |c| ==> c[i].quantity >= 0) ==> v >= 0
  {
    Count(c, COINS_995) + Count(c, PLATINUM_TOKEN) * PLATINUM_TOKEN_VALUE
  }

  /** An absent inventory contributes nothing. */
  function InventoryCurrency(inventory: Option<seq<ItemStack>>): (v: int)
    ensures inventory.None? ==> v == 0
    ensures inventory.Some? ==> v == Currency(inventory.value)
  {
    if inventory.Some? then Currency(inventory.value) else 0
  }

  function Sum(s: seq<int>): (r: int)
    ensures (forall i :: 0 <= i < |s| ==> s[i] >= 0) ==> r >= 0
  {
    if s == [] then 0 else s[0] + Sum(s[1..])
  }

  lemma {:induction false} SumSnoc(s: seq<int>, k: nat)
    requires k < |s|
    ensures Sum(s[..k + 1]) == Sum(s[..k]) + s[k]
  {
    if k > 0 {
      SumSnoc(s[1..], k - 1);
      assert s[1..][..k] == s[..k + 1][1..];
      assert s[1..][..k - 1] == s[..k][1..];
    }
  }

  /** Position of the first slot of numbered tab `tab` in the bank's flat
      item array: the counts of tabs 1 .. tab-1 added up. */
  function TabStart(counts: seq<int>, tab: int): int
    requires 1 <= tab <= |counts|
  {
    Sum(counts[..tab - 1])
  }

  /** The tab-count varbits: nine non-negative values. */
  predicate ValidTabCounts(counts: seq<int>)
  {
    |counts| == TAB_COUNT && forall i :: 0 <= i < |counts| ==> counts[i] >= 0
  }

  /** The setting is in 0..9 and the selected tab lies inside the bank
      (beyond it Arrays.copyOfRange pads with null, and the hashing then
      dereferences null). */
  predicate WindowInRange(bankSize: int, tab: int, counts: seq<int>)
  {
    && 0 <= tab <= MAX_BANK_TAB
    && ValidTabCounts(counts)
    && (tab != 0 ==> TabStart(counts, tab) + counts[tab - 1] <= bankSize)
  }

  /** The slice of the bank that gets appraised. */
  function Window(bank: seq<ItemStack>, tab: int, counts: seq<int>): (w: seq<ItemStack>)
    requires WindowInRange(|bank|, tab, counts)
    ensures tab == 0 ==> w == bank
    ensures tab != 0 ==>
      && |w| == counts[tab - 1]
      && forall i :: 0 <= i < |w| ==> w[i] == bank[TabStart(counts, tab) + i]
  {
    if tab == 0 then bank
    else
      var start := TabStart(counts, tab);
      bank[start..start + counts[tab - 1]]
  }

  /** Tab t + 1 begins right where tab t ends, so the numbered tabs tile the
      front of the bank without gaps or overlaps. */
  lemma AdjacentTabsAreContiguous(counts: seq<int>, t: int)
    requires |counts| == TAB_COUNT && 1 <= t < TAB_COUNT
    ensures TabStart(counts, t + 1) == TabStart(counts, t) + counts[t - 1]
  {
    SumSnoc(counts, t - 1);
  }

  /** An entry is priced when its id is positive, its quantity non-zero, and
      it is neither coins nor platinum tokens (those are counted separately). */
  predicate Priced(e: ItemStack): (b: bool)
    // what the appraisal prices is never also counted as currency
    ensures b ==> Currency([e]) == 0
  {
    e.id > 0 && e.quantity != 0 && e.id != COINS_995 && e.id != PLATINUM_TOKEN
  }

  function EntryValue(e: ItemStack, price: int -> int): (v: int)
    ensures e.id <= 0 || e.quantity == 0 ==> v == 0
    ensures e.id == COINS_995 || e.id == PLATINUM_TOKEN ==> v == 0
    ensures Priced(e) ==> v == price(e.id) * e.quantity
  {
    if Priced(e) then price(e.id) * e.quantity else 0
  }

  /** The value a recompute assigns to a window. */
  function Appraise(w: seq<ItemStack>, price: int -> int): (v: int)
    ensures (forall i :: 0 <= i < |w| ==> !Priced(w[i])) ==> v == 0
    ensures (forall id :: price(id) >= 0) && (forall i :: 0 <= i < |w| ==> w[i].quantity >= 0) ==> v >= 0
  {
    if w == [] then 0 else Appraise(w[..|w| - 1], price) + EntryValue(w[|w| - 1], price)
  }

  /** The ids a recompute looks up a price for, in order. */
  function PricedIds(w: seq<ItemStack>): (ids: seq<int>)
    ensures |ids| <= |w|
    // no price is looked up for a placeholder, coins or platinum tokens
    ensures forall k :: 0 <= k < |ids| ==> ids[k] > 0 && ids[k] != COINS_995 && ids[k] != PLATINUM_TOKEN
  {
    if w == [] then []
    else PricedIds(w[..|w| - 1]) + (if Priced(w[|w| - 1]) then [w[|w| - 1].id] else [])
  }

  /** One more entry of a window: its value and its lookup come last. */
  lemma AppraiseStep(items: seq<ItemStack>, i: nat, price: int -> int)
    requires i < |items|
    ensures Appraise(items[..i + 1], price) == Appraise(items[..i], price) + EntryValue(items[i], price)
    ensures PricedIds(items[..i + 1]) == PricedIds(items[..i]) + (if Priced(items[i]) then [items[i].id] else [])
  {
    var w := items[..i + 1];
    assert w[..i] == items[..i] && w[i] == items[i];
  }

  /** The id-to-quantity map that hashItems builds: every entry's id is a
      key (zero quantities and non-positive ids included), and a later entry
      overwrites an earlier one with the same id. */
  function ItemMap(w: seq<ItemStack>): (m: map<int, int>)
    ensures forall id :: id in m <==> HasId(w, id)
  {
    if w == [] then map[]
    else ItemMap(w[..|w| - 1])[w[|w| - 1].id := w[|w| - 1].quantity]
  }

  /** Some entry of w carries this id. */
  predicate HasId(w: seq<ItemStack>, id: int)
  {
    exists i :: 0 <= i < |w| && w[i].id == id
  }

  /** Last write wins: an entry with no later entry of the same id sets the
      quantity recorded for its id. */
  lemma {:induction false} ItemMapLastWriteWins(w: seq<ItemStack>, k: nat)
    requires k < |w|
    requires forall j :: k < j < |w| ==> w[j].id != w[k].id
    ensures ItemMap(w)[w[k].id] == w[k].quantity
  {
    if k < |w| - 1 {
      var front := w[..|w| - 1];
      ItemMapLastWriteWins(front, k);
    }
  }

  /** Every id stands for a single quantity within the window (true when ids
      are distinct, and when repeated ids carry equal quantities). */
  predicate IdsDetermineQuantities(w: seq<ItemStack>)
  {
    forall i, j :: 0 <= i < |w| && 0 <= j < |w| && w[i].id == w[j].id ==> w[i].quantity == w[j].quantity
  }

  /** Two windows hold the same entries, in any order, and ids determine
      quantities. */
  predicate SameContents(w: seq<ItemStack>, w0: seq<ItemStack>)
  {
    multiset(w) == multiset(w0) && IdsDetermineQuantities(w0)
  }

  lemma {:induction false} ItemMapOfConsistent(w: seq<ItemStack>)
    requires IdsDetermineQuantities(w)
    ensures forall i :: 0 <= i < |w| ==> ItemMap(w)[w[i].id] == w[i].quantity
  {
    if w != [] {
      var front := w[..|w| - 1];
      assert IdsDetermineQuantities(front) by {
        forall i, j | 0 <= i < |front| && 0 <= j < |front| && front[i].id == front[j].id
          ensures front[i].quantity == front[j].quantity
        {
          assert front[i] == w[i] && front[j] == w[j];
        }
      }
      ItemMapOfConsistent(front);
      forall i | 0 <= i < |w| ensures ItemMap(w)[w[i].id] == w[i].quantity {
        if i < |w| - 1 {
          assert front[i] == w[i];
        }
      }
    }
  }

  /** An entry of one of two windows with the same multiset occurs in the other. */
  lemma OccursInPermutation(w: seq<ItemStack>, w0: seq<ItemStack>, i: nat)
    requires multiset(w) == multiset(w0) && i < |w|
    ensures exists j :: 0 <= j < |w0| && w0[j] == w[i]
  {
    assert w[i] in multiset(w0);
  }

  lemma SameContentsSymmetric(w: seq<ItemStack>, w0: seq<ItemStack>)
    requires SameContents(w, w0)
    ensures SameContents(w0, w)
  {
    forall i, i' | 0 <= i < |w| && 0 <= i' < |w| && w[i].id == w[i'].id
      ensures w[i].quantity == w[i'].quantity
    {
      OccursInPermutation(w, w0, i);
      OccursInPermutation(w, w0, i');
    }
  }

  /** The hashed map does not depend on the order of the entries. */
  lemma ItemMapIgnoresOrder(w: seq<ItemStack>, w0: seq<ItemStack>)
    requires SameContents(w, w0)
    ensures ItemMap(w) == ItemMap(w0)
  {
    SameContentsSymmetric(w, w0);
    ItemMapOfConsistent(w);
    ItemMapOfConsistent(w0);
    var m, m0 := ItemMap(w), ItemMap(w0);
    forall id | id in m ensures id in m0 && m[id] == m0[id] {
      var i :| 0 <= i < |w| && w[i].id == id;
      OccursInPermutation(w, w0, i);
      var j :| 0 <= j < |w0| && w0[j] == w[i];
      assert HasId(w0, id);
    }
    forall id | id in m0 ensures id in m {
      var j :| 0 <= j < |w0| && w0[j].id == id;
      OccursInPermutation(w0, w, j);
      var i :| 0 <= i < |w| && w[i] == w0[j];
      assert HasId(w, id);
    }
  }

  lemma {:induction false} AppraiseAppend(a: seq<ItemStack>, b: seq<ItemStack>, price: int -> int)
    ensures Appraise(a + b, price) == Appraise(a, price) + Appraise(b, price)
  {
    if b == [] {
      assert a + b == a;
    } else {
      var b' := b[..|b| - 1];
      AppraiseAppend(a, b', price);
      var ab := a + b;
      assert ab[..|ab| - 1] == a + b';
      assert ab[|ab| - 1] == b[|b| - 1];
      assert Appraise(ab, price) == Appraise(ab[..|ab| - 1], price) + EntryValue(ab[|ab| - 1], price);
    }
  }

  /** The appraisal does not depend on the order of the entries. */
  lemma {:induction false} AppraiseIgnoresOrder(w: seq<ItemStack>, w0: seq<ItemStack>, price: int -> int)
    requires multiset(w) == multiset(w0)
    ensures Appraise(w, price) == Appraise(w0, price)
  {
    if w != [] {
      var x := w[|w| - 1];
      var front := w[..|w| - 1];
      assert w == front + [x];
      assert x in multiset(w0);
      var k :| 0 <= k < |w0| && w0[k] == x;
      var rest := w0[..k] + w0[k + 1..];
      assert w0 == w0[..k] + [x] + w0[k + 1..];
      assert multiset(front) == multiset(w) - multiset{x};
      assert multiset(rest) == multiset(w0) - multiset{x};
      AppraiseIgnoresOrder(front, rest, price);
      AppraiseAppend(w0[..k] + [x], w0[k + 1..], price);
      AppraiseAppend(w0[..k], [x], price);
      AppraiseAppend(w0[..k], w0[k + 1..], price);
      assert Appraise([x], price) == EntryValue(x, price);
    }
  }

  /** Only the prices of the looked-up ids matter: two price sources that
      agree on them give the same appraisal. */
  lemma {:induction false} AppraiseReadsOnlyPricedIds(w: seq<ItemStack>, p: int -> int, q: int -> int)
    requires forall i :: 0 <= i < |PricedIds(w)| ==> p(PricedIds(w)[i]) == q(PricedIds(w)[i])
    ensures Appraise(w, p) == Appraise(w, q)
  {
    if w != [] {
      var front := w[..|w| - 1];
      assert forall i :: 0 <= i < |PricedIds(front)| ==> PricedIds(w)[i] == PricedIds(front)[i];
      AppraiseReadsOnlyPricedIds(front, p, q);
      if Priced(w[|w| - 1]) {
        assert PricedIds(w)[|PricedIds(front)|] == w[|w| - 1].id;
      }
    }
  }

  /** A hit on the memo: a value is stored and the new window hashes to the
      stored hash. */
  predicate Hit(hash: int, bankValue: Option<int>, newHash: int): (b: bool)
    // before the first recompute nothing is stored and every window misses
    ensures b <==> bankValue.Some? && newHash == hash
  {
    bankValue.Some? && hash == newHash
  }

  /** The appraisal part of BankCalculation, with its memo. */
  class BankCalculation {
    var hash: int
    var bankValue: Option<int>
    /** HashMap.hashCode, an arbitrary function of the map: collisions possible. */
    const hashOf: map<int, int> -> int
    /** The ids whose price has been looked up so far, in order. */
    ghost var priceLookups: seq<int>
    /** The window and the prices of the last recompute. */
    ghost var appraised: seq<ItemStack>
    ghost var pricedWith: int -> int

    /** A stored value is the appraisal of the window whose hash is stored. */
    ghost predicate Valid()
      reads this
    {
      bankValue.Some? ==>
        && hash == hashOf(ItemMap(appraised))
        && bankValue.value == Appraise(appraised, pricedWith)
    }

    constructor (hashOf: map<int, int> -> int)
      ensures Valid() && this.hashOf == hashOf
      ensures hash == 0 && bankValue == None && priceLookups == []
    {
      this.hashOf := hashOf;
      hash := 0;
      bankValue := None;
      priceLookups := [];
      appraised := [];
      pricedWith := _ => 0;
    }

    /** hashItems: builds the id-to-quantity map and hashes it. */
    method HashItems(items: seq<ItemStack>) returns (h: int)
      ensures h == hashOf(ItemMap(items))
    {
      var mapCheck: map<int, int> := map[];
      for i := 0 to |items|
        invariant mapCheck == ItemMap(items[..i])
      {
        assert items[..i + 1][..i] == items[..i];
        mapCheck := mapCheck[items[i].id := items[i].quantity];
      }
      assert items[..|items|] == items;
      h := hashOf(mapCheck);
    }

    /** calculateItemValues: returns the stored value on a hit, otherwise
        appraises the window and stores its hash and value. */
    method CalculateItemValues(items: seq<ItemStack>, price: int -> int) returns (v: int)
      requires Valid()
      modifies this
      ensures Valid()
      ensures Hit(old(hash), old(bankValue), hashOf(ItemMap(items))) ==>
        v == old(bankValue).value && unchanged(this)
      ensures !Hit(old(hash), old(bankValue), hashOf(ItemMap(items))) ==>
        && v == Appraise(items, price)
        && hash == hashOf(ItemMap(items)) && bankValue == Some(v)
        && priceLookups == old(priceLookups) + PricedIds(items)
        && appraised == items && pricedWith == price
      // A repeat of the last window, in any order, is answered from the memo,
      // with the prices of the last recompute.
      ensures old(bankValue).Some? && SameContents(items, old(appraised)) ==>
        v == Appraise(items, old(pricedWith))
    {
      var newHash := HashItems(items);
      if bankValue.Some? && hash == newHash {
        if SameContents(items, appraised) {
          AppraiseIgnoresOrder(items, appraised, pricedWith);
        }
        v := bankValue.value;
        return;
      }
      if bankValue.Some? && SameContents(items, appraised) {
        ItemMapIgnoresOrder(items, appraised);
      }

      hash := newHash;
      var value;
      ghost var lookups;
      value, lookups := AppraiseItems(items, price);
      priceLookups := priceLookups + lookups;
      bankValue := Some(value);
      appraised := items;
      pricedWith := price;
      v := value;
    }

    /** The recompute loop of calculateItemValues: skips empty and
        placeholder slots, coins and platinum tokens, and adds price times
        quantity for every other entry; lookups are the ids priced, in order. */
    static method AppraiseItems(items: seq<ItemStack>, price: int -> int)
      returns (value: int, ghost lookups: seq<int>)
      ensures value == Appraise(items, price) && lookups == PricedIds(items)
    {
      value := 0;
      lookups := [];
      for i := 0 to |items|
        invariant value == Appraise(items[..i], price)
        invariant lookups == PricedIds(items[..i])
      {
        AppraiseStep(items, i, price);
        var qty := items[i].quantity;
        var id := items[i].id;
        if id <= 0 || qty == 0 {
          // empty or placeholder slot
        } else if id == COINS_995 || id == PLATINUM_TOKEN {
          // already counted by calculateValue
        } else {
          value := value + price(id) * qty;
          lookups := lookups + [id];
        }
      }
      assert items[..|items|] == items;
    }

    /** The loop of calculateValue that adds up the counts of the tabs before
        the selected one, from the nearest tab back to tab 1. */
    static method StartIndex(tabCounts: seq<int>, lootTab: int) returns (startIndex: int)
      requires 1 <= lootTab <= |tabCounts|
      ensures startIndex == TabStart(tabCounts, lootTab)
    {
      startIndex := 0;
      var i := lootTab - 1;
      while i > 0
        invariant 0 <= i <= lootTab - 1
        invariant startIndex == Sum(tabCounts[i..lootTab - 1])
      {
        assert tabCounts[i - 1..lootTab - 1][1..] == tabCounts[i..lootTab - 1];
        startIndex := startIndex + tabCounts[i - 1];
        i := i - 1;
      }
      assert tabCounts[0..lootTab - 1] == tabCounts[..lootTab - 1];
    }

    /** calculateValue: inventory and bank currency, plus the selected tab's
        appraisal when the bank is open and the option is on. */
    method CalculateValue(inventory: Option<seq<ItemStack>>, bank: Option<seq<ItemStack>>,
                          includeBankTab: bool, bankTab: int, tabCounts: seq<int>,
                          price: int -> int) returns (value: int)
      requires Valid()
      requires bank.Some? && includeBankTab ==> WindowInRange(|bank.value|, bankTab, tabCounts)
      modifies this
      ensures Valid()
      ensures bank.None? ==> value == InventoryCurrency(inventory) && unchanged(this)
      ensures bank.Some? && !includeBankTab ==>
        value == InventoryCurrency(inventory) + Currency(bank.value) && unchanged(this)
      ensures bank.Some? && includeBankTab ==>
        var w := Window(bank.value, bankTab, tabCounts);
        var hit := Hit(old(hash), old(bankValue), hashOf(ItemMap(w)));
        && value == InventoryCurrency(inventory) + Currency(bank.value)
                    + (if hit then old(bankValue).value else Appraise(w, price))
        && (hit ==> unchanged(this))
        && (!hit ==> hash == hashOf(ItemMap(w)) && bankValue == Some(Appraise(w, price))
                     && priceLookups == old(priceLookups) + PricedIds(w))
    {
      value := 0;
      if inventory.Some? {
        value := value + Count(inventory.value, COINS_995);
        value := value + Count(inventory.value, PLATINUM_TOKEN) * PLATINUM_TOKEN_VALUE;
      }
      if bank.None? {
        return;
      }
      value := value + Count(bank.value, COINS_995);
      value := value + Count(bank.value, PLATINUM_TOKEN) * PLATINUM_TOKEN_VALUE;
      assert value == InventoryCurrency(inventory) + Currency(bank.value);
      if !includeBankTab {
        return;
      }

      var items := bank.value;
      var lootTab := bankTab;
      var tabValue;
      if lootTab != 0 {
        var startIndex := StartIndex(tabCounts, lootTab);
        var itemCount := tabCounts[lootTab - 1];
        assert items[startIndex..startIndex + itemCount] == Window(items, lootTab, tabCounts);
        tabValue := CalculateItemValues(items[startIndex..startIndex + itemCount], price);
      } else {
        assert items == Window(items, lootTab, tabCounts);
        tabValue := CalculateItemValues(items, price);
      }
      value := value + tabValue;
    }
  }

  /** The memo is sound while contents and prices stay the same: after a
      recompute over w0, a window holding the same entries in any order hits,
      and the stored value equals a fresh appraisal at the same prices. */
  lemma MemoMatchesRecompute(hashOf: map<int, int> -> int, w0: seq<ItemStack>, w: seq<ItemStack>,
                             p: int -> int, q: int -> int)
    requires SameContents(w, w0)
    requires forall id :: p(id) == q(id)
    ensures Hit(hashOf(ItemMap(w0)), Some(Appraise(w0, p)), hashOf(ItemMap(w)))
    ensures Appraise(w0, p) == Appraise(w, q)
  {
    ItemMapIgnoresOrder(w, w0);
    AppraiseIgnoresOrder(w, w0, p);
    forall i | 0 <= i < |PricedIds(w)| ensures p(PricedIds(w)[i]) == q(PricedIds(w)[i]) {
      var id := PricedIds(w)[i];
      assert p(id) == q(id);
    }
    AppraiseReadsOnlyPricedIds(w, p, q);
  }
}
