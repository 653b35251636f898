/** The dashboard's aggregates over the current items: number of items,
    total units, number of items low on stock, the most-stocked item, and the
    per-category summary (count of items and units per category). */
module Dashboard {
  import opened Inventory
  import Seqs
  import Sorting
  import Text

  const NoCategory := "Sin Categoría"

  /** `items.reduce((sum, item) => sum + item.quantity, 0)` */
  function TotalQuantity(items: seq<Item>): (total: int)
    ensures (forall i :: 0 <= i < |items| ==> items[i].quantity >= 0) ==>
              total >= 0 && forall i :: 0 <= i < |items| ==> items[i].quantity <= total
  {
    if items == [] then 0 else TotalQuantity(items[..|items| - 1]) + items[|items| - 1].quantity
  }

  /** `items.filter(item => typeof item.lowStockThreshold === 'number'
      && item.quantity < item.lowStockThreshold).length` */
  function LowStockItemsCount(items: seq<Item>): (n: nat)
    ensures n <= |items|
    ensures n == 0 <==> forall i :: 0 <= i < |items| ==> !IsLowStock(items[i])
  {
    var low := Seqs.Filter(items, IsLowStock);
    assert low != [] ==> low[0] in items;
    assert (exists i :: 0 <= i < |items| && IsLowStock(items[i])) ==> low != [] by {
      if i :| 0 <= i < |items| && IsLowStock(items[i]) {
        assert items[i] in low;
      }
    }
    |low|
  }

  /** `(item.price || 0) * item.quantity`: an item without a price is worth
      nothing. */
  function ItemValue(item: Item): (v: real)
    ensures item.price.Some? && item.price.value >= 0.0 && item.quantity >= 0 ==> v >= 0.0
    ensures item.price.None? ==> v == 0.0
  {
    (if item.price.Some? then item.price.value else 0.0) * item.quantity as real
  }

  /** `totalInventoryValue`: `items.reduce((sum, item) => sum + value, 0)`. */
  function TotalInventoryValue(items: seq<Item>): (total: real)
    ensures (forall i :: 0 <= i < |items| ==> ItemValue(items[i]) >= 0.0) ==> total >= 0.0
  {
    if items == [] then 0.0 else TotalInventoryValue(items[..|items| - 1]) + ItemValue(items[|items| - 1])
  }

  /** Each total over two runs of items is the sum of the totals over each
      run: the reductions add up item by item. */
  lemma {:induction false} TotalsAppend(a: seq<Item>, b: seq<Item>)
    ensures TotalQuantity(a + b) == TotalQuantity(a) + TotalQuantity(b)
    ensures TotalInventoryValue(a + b) == TotalInventoryValue(a) + TotalInventoryValue(b)
    ensures LowStockItemsCount(a + b) == LowStockItemsCount(a) + LowStockItemsCount(b)
    decreases |b|
  {
    Seqs.FilterAppend(a, b, IsLowStock);
    if b == [] {
      assert a + b == a;
    } else {
      var b' := b[..|b| - 1];
      assert (a + b)[..|a + b| - 1] == a + b';
      TotalsAppend(a, b');
    }
  }

  /** Over a single item the totals are its quantity, its value, and one or
      none for the low-stock count. With `TotalsAppend` this fixes every
      total exactly. */
  lemma OneItemTotals(x: Item)
    ensures TotalQuantity([x]) == x.quantity
    ensures TotalInventoryValue([x]) == ItemValue(x)
    ensures LowStockItemsCount([x]) == if IsLowStock(x) then 1 else 0
  {
    assert [x][..0] == [];
  }

  /** `k` is the first index holding a largest quantity of `s`. */
  predicate EarliestMax(s: seq<Item>, k: int) {
    && 0 <= k < |s|
    && (forall j :: 0 <= j < |s| ==> s[j].quantity <= s[k].quantity)
    && (forall j :: 0 <= j < k ==> s[j].quantity < s[k].quantity)
  }

  /** The reduction `(max, item) => item.quantity > max.quantity ? item : max`
      over `rest`, starting from `max`. */
  function MaxByQuantity(max: Item, rest: seq<Item>): Item
    decreases |rest|
  {
    if rest == [] then max
    else MaxByQuantity(if rest[0].quantity > max.quantity then rest[0] else max, rest[1..])
  }

  /** Because the comparison is strict, the reduction keeps the first of the
      items with the largest quantity; `k` is where it sits. */
  lemma {:induction false} MaxByQuantityPosition(max: Item, rest: seq<Item>) returns (k: int)
    ensures EarliestMax([max] + rest, k) && ([max] + rest)[k] == MaxByQuantity(max, rest)
    decreases |rest|
  {
    var s := [max] + rest;
    if rest == [] {
      k := 0;
      assert EarliestMax(s, 0);
    } else {
      var next := if rest[0].quantity > max.quantity then rest[0] else max;
      var m := MaxByQuantity(next, rest[1..]);
      assert MaxByQuantity(max, rest) == m;
      var k' := MaxByQuantityPosition(next, rest[1..]);
      var s' := [next] + rest[1..];
      if rest[0].quantity > max.quantity {
        assert s' == rest;
        EarliestMaxBehindSmaller(max, rest, k');
        k := k' + 1;
        assert s[k] == m;
      } else {
        EarliestMaxAfterSmaller(max, rest[0], rest[1..], k');
        assert [max, rest[0]] + rest[1..] == s;
        if k' == 0 {
          k := 0;
          assert s[0] == m;
        } else {
          k := k' + 1;
          assert s[k] == s'[k'];
        }
      }
    }
  }

  /** An item smaller than the earliest maximum, put in front, shifts it. */
  lemma EarliestMaxBehindSmaller(x: Item, t: seq<Item>, k: int)
    requires EarliestMax(t, k) && x.quantity < t[0].quantity
    ensures EarliestMax([x] + t, k + 1)
  {
    var s := [x] + t;
    assert t[0].quantity <= t[k].quantity;
    forall j | 0 <= j < |s| ensures s[j].quantity <= s[k + 1].quantity && (j < k + 1 ==> s[j].quantity < s[k + 1].quantity) {
      if j > 0 {
        assert s[j] == t[j - 1];
      }
    }
  }

  /** An item no larger than the first, put second, keeps a first-place
      maximum and shifts any other. */
  lemma EarliestMaxAfterSmaller(y: Item, x: Item, u: seq<Item>, k: int)
    requires EarliestMax([y] + u, k) && x.quantity <= y.quantity
    ensures k == 0 ==> EarliestMax([y, x] + u, 0)
    ensures k > 0 ==> EarliestMax([y, x] + u, k + 1)
  {
    var t := [y] + u;
    var s := [y, x] + u;
    assert t[0] == y && t[0].quantity <= t[k].quantity;
    forall j | 2 <= j < |s| ensures s[j] == t[j - 1] {
    }
    if k == 0 {
      forall j | 0 <= j < |s| ensures s[j].quantity <= s[0].quantity {
        if j >= 2 {
          assert s[j] == t[j - 1];
        }
      }
    } else {
      assert s[k + 1] == t[k];
      assert t[0].quantity < t[k].quantity;
      forall j | 0 <= j < |s| ensures s[j].quantity <= s[k + 1].quantity && (j < k + 1 ==> s[j].quantity < s[k + 1].quantity) {
        if j >= 2 {
          assert s[j] == t[j - 1];
        }
      }
    }
  }

  /** The reduction starts from `items[0]` and then visits `items[0]` again;
      the repeated first element does not move the earliest maximum. */
  lemma DropLeadingCopy(items: seq<Item>, k: int)
    requires items != [] && EarliestMax([items[0]] + items, k)
    ensures k == 0 ==> EarliestMax(items, 0)
    ensures k > 0 ==> EarliestMax(items, k - 1) && items[k - 1] == ([items[0]] + items)[k]
  {
    var s := [items[0]] + items;
    assert forall j :: 0 <= j < |items| ==> s[j + 1] == items[j];
    if k == 0 {
      assert forall j :: 0 <= j < |items| ==> items[j].quantity <= s[0].quantity by {
        forall j | 0 <= j < |items| ensures items[j].quantity <= s[0].quantity {
          assert s[j + 1].quantity <= s[0].quantity;
        }
      }
    } else {
      forall j | 0 <= j < |items| ensures items[j].quantity <= s[k].quantity {
        assert s[j + 1].quantity <= s[k].quantity;
      }
      forall j | 0 <= j < k - 1 ensures items[j].quantity < s[k].quantity {
        assert s[j + 1].quantity < s[k].quantity;
      }
    }
  }

  /** The reduction over a non-empty list lands on its earliest maximum. */
  lemma MostStockedWitness(items: seq<Item>)
    requires items != []
    ensures exists k :: EarliestMax(items, k) && items[k] == MaxByQuantity(items[0], items)
  {
    var k := MaxByQuantityPosition(items[0], items);
    DropLeadingCopy(items, k);
    if k == 0 {
      assert EarliestMax(items, 0) && items[0] == MaxByQuantity(items[0], items);
    } else {
      assert EarliestMax(items, k - 1) && items[k - 1] == MaxByQuantity(items[0], items);
    }
  }

  /** `mostStockedItem`: null without items, otherwise the first item with
      the largest quantity. */
  function MostStockedItem(items: seq<Item>): (r: Option<Item>)
    ensures r.None? <==> items == []
    ensures r.Some? ==> exists k :: EarliestMax(items, k) && items[k] == r.value
  {
    if |items| == 0 then None
    else
      MostStockedWitness(items);
      Some(MaxByQuantity(items[0], items))
  }

  // ---------------------------------------------------------------------
  // Per-category summary

  datatype CategoryRow = CategoryRow(categoryName: string, uniqueItems: int, totalQuantity: int, totalValue: real)

  /** `item.category || 'Sin Categoría'` */
  function CategoryOf(item: Item): string {
    if item.category == "" then NoCategory else item.category
  }

  /** The category of every item, in item order. */
  function Categories(items: seq<Item>): (r: seq<string>)
    ensures |r| == |items|
    ensures forall i :: 0 <= i < |items| ==> r[i] == CategoryOf(items[i])
  {
    seq(|items|, i requires 0 <= i < |items| => CategoryOf(items[i]))
  }

  /** Sum of `weight` over the items of category `c`. */
  function Tally(items: seq<Item>, c: string, weight: Item -> int): int {
    if items == [] then 0
    else Tally(items[..|items| - 1], c, weight)
         + (if CategoryOf(items[|items| - 1]) == c then weight(items[|items| - 1]) else 0)
  }

  /** The weight under which a tally counts items. */
  function One(item: Item): int { 1 }

  /** The weight under which a tally sums units. */
  function Units(item: Item): int { item.quantity }

  /** Number of items of category `c`. */
  function CountIn(items: seq<Item>, c: string): int {
    Tally(items, c, One)
  }

  /** Units held in items of category `c`. */
  function QuantityIn(items: seq<Item>, c: string): int {
    Tally(items, c, Units)
  }

  /** Value held in items of category `c`. */
  function ValueIn(items: seq<Item>, c: string): real {
    if items == [] then 0.0
    else ValueIn(items[..|items| - 1], c)
         + (if CategoryOf(items[|items| - 1]) == c then ItemValue(items[|items| - 1]) else 0.0)
  }

  function Names(rows: seq<CategoryRow>): (r: seq<string>)
    ensures |r| == |rows|
    ensures forall i :: 0 <= i < |rows| ==> r[i] == rows[i].categoryName
  {
    seq(|rows|, i requires 0 <= i < |rows| => rows[i].categoryName)
  }

  lemma TallyOfAbsent(items: seq<Item>, c: string, weight: Item -> int)
    requires c !in Categories(items)
    ensures Tally(items, c, weight) == 0
  {
    if items != [] {
      var p := items[..|items| - 1];
      assert forall i :: 0 <= i < |p| ==> Categories(p)[i] == Categories(items)[i];
      TallyOfAbsent(p, c, weight);
    }
  }

  lemma ValueOfAbsent(items: seq<Item>, c: string)
    requires c !in Categories(items)
    ensures ValueIn(items, c) == 0.0
  {
    if items != [] {
      var p := items[..|items| - 1];
      assert forall i :: 0 <= i < |p| ==> Categories(p)[i] == Categories(items)[i];
      ValueOfAbsent(p, c);
    }
  }

  /** The row of category `c` counts the items, the units and the value of `c`. */
  predicate RowFor(items: seq<Item>, r: CategoryRow) {
    && r.uniqueItems == CountIn(items, r.categoryName)
    && r.totalQuantity == QuantityIn(items, r.categoryName)
    && r.totalValue == ValueIn(items, r.categoryName)
  }

  /** Extending the prefix by one item adds that item's weight to its own
      category and to no other. */
  lemma TallyStep(items: seq<Item>, i: int, weight: Item -> int)
    requires 0 <= i < |items|
    ensures forall c ::
      Tally(items[..i + 1], c, weight) == Tally(items[..i], c, weight) + (if CategoryOf(items[i]) == c then weight(items[i]) else 0)
  {
    assert items[..i + 1][..i] == items[..i];
  }

  lemma ValueStep(items: seq<Item>, i: int)
    requires 0 <= i < |items|
    ensures forall c ::
      ValueIn(items[..i + 1], c) == ValueIn(items[..i], c) + (if CategoryOf(items[i]) == c then ItemValue(items[i]) else 0.0)
  {
    assert items[..i + 1][..i] == items[..i];
  }

  /** Count, units and value of category `c`. */
  function Totals(items: seq<Item>, c: string): (int, int, real) {
    (CountIn(items, c), QuantityIn(items, c), ValueIn(items, c))
  }

  /** `summary` holds the totals of `items` under each of its keys. */
  predicate Tabulated(items: seq<Item>, summary: map<string, (int, int, real)>) {
    forall c :: c in summary ==> summary[c] == Totals(items, c)
  }

  /** One round of the `forEach`: open the category at zero if it is new,
      then add the item to it. */
  function Record(summary: map<string, (int, int, real)>, item: Item): map<string, (int, int, real)> {
    var category := CategoryOf(item);
    var (count, units, value) := if category in summary then summary[category] else (0, 0, 0.0);
    summary[category := (count + 1, units + item.quantity, value + ItemValue(item))]
  }

  lemma RecordStep(items: seq<Item>, i: int, summary: map<string, (int, int, real)>)
    requires 0 <= i < |items|
    requires Tabulated(items[..i], summary)
    requires CategoryOf(items[i]) !in summary ==> CategoryOf(items[i]) !in Categories(items[..i])
    ensures Tabulated(items[..i + 1], Record(summary, items[i]))
  {
    var category := CategoryOf(items[i]);
    var next := Record(summary, items[i]);
    TallyStep(items, i, One);
    TallyStep(items, i, Units);
    ValueStep(items, i);
    if category !in summary {
      TallyOfAbsent(items[..i], category, One);
      TallyOfAbsent(items[..i], category, Units);
      ValueOfAbsent(items[..i], category);
    }
    forall c | c in next
      ensures next[c] == Totals(items[..i + 1], c)
    {
      if c != category {
        assert next[c] == summary[c];
      }
    }
  }

  /** The `forEach` that fills the `Record<string, {uniqueItems, totalQuantity, totalValue}>`:
      `keys` lists its properties in insertion order, as `Object.entries`
      returns them. */
  method Tabulate(items: seq<Item>) returns (summary: map<string, (int, int, real)>, keys: seq<string>)
    ensures Seqs.NoDuplicates(keys)
    ensures forall c :: c in keys <==> c in Categories(items)
    ensures forall c :: c in summary <==> c in keys
    ensures Tabulated(items, summary)
  {
    summary, keys := map[], [];
    var i := 0;
    while i < |items|
      invariant 0 <= i <= |items|
      invariant Seqs.NoDuplicates(keys)
      invariant forall c :: c in keys <==> c in Categories(items[..i])
      invariant forall c :: c in summary <==> c in keys
      invariant Tabulated(items[..i], summary)
    {
      var category := CategoryOf(items[i]);
      assert Categories(items[..i + 1]) == Categories(items[..i]) + [category];
      RecordStep(items, i, summary);
      if category !in summary {
        keys := keys + [category];
      }
      summary := Record(summary, items[i]);
      i := i + 1;
    }
    assert items[..i] == items;
  }

  /** Orders category rows by name, as `localeCompare` on the names does. */
  function ByName(x: CategoryRow, y: CategoryRow): int {
    Text.StrCompare(x.categoryName, y.categoryName)
  }

  /** `.sort((a, b) => a.categoryName.localeCompare(b.categoryName))` on a
      fresh array of rows with distinct names: the rows come out in strictly
      increasing name order and are the same rows. */
  method SortRowsByName(entries: seq<CategoryRow>) returns (rows: seq<CategoryRow>)
    requires Seqs.NoDuplicates(Names(entries))
    ensures multiset(rows) == multiset(entries)
    ensures Seqs.NoDuplicates(Names(rows))
    ensures forall i :: 0 < i < |rows| ==> Text.StrCompare(rows[i - 1].categoryName, rows[i].categoryName) < 0
  {
    var a := new CategoryRow[|entries|](k requires 0 <= k < |entries| => entries[k]);
    assert a[..] == entries;
    forall x: CategoryRow, y: CategoryRow
      ensures ByName(x, y) > 0 ==> ByName(y, x) <= 0
    {
      Text.StrCompareAntisymmetric(x.categoryName, y.categoryName);
    }
    Sorting.Sort(a, ByName);
    rows := a[..];
    assert Seqs.DistinctKeys(entries, (r: CategoryRow) => r.categoryName) by {
      forall i, j | 0 <= i < j < |entries| ensures entries[i].categoryName != entries[j].categoryName {
        assert Names(entries)[i] != Names(entries)[j];
      }
    }
    Seqs.PermutationKeepsDistinctKeys(rows, entries, (r: CategoryRow) => r.categoryName);
    forall i, j | 0 <= i < j < |rows| ensures Names(rows)[i] != Names(rows)[j] {
      assert rows[i].categoryName != rows[j].categoryName;
    }
  }

  /** Reordering rows keeps the set of their names. */
  lemma PermutationKeepsNames(rows: seq<CategoryRow>, entries: seq<CategoryRow>)
    requires multiset(rows) == multiset(entries)
    ensures forall c :: c in Names(rows) <==> c in Names(entries)
  {
    forall c ensures c in Names(rows) ==> c in Names(entries) {
      if c in Names(rows) {
        var j :| 0 <= j < |rows| && Names(rows)[j] == c;
        assert rows[j] in multiset(entries);
        var k :| 0 <= k < |entries| && entries[k] == rows[j];
        assert Names(entries)[k] == c;
      }
    }
    forall c ensures c in Names(entries) ==> c in Names(rows) {
      if c in Names(entries) {
        var j :| 0 <= j < |entries| && Names(entries)[j] == c;
        assert entries[j] in multiset(rows);
        var k :| 0 <= k < |rows| && rows[k] == entries[j];
        assert Names(rows)[k] == c;
      }
    }
  }

  /** `Object.entries(summary).map(...)`: one row per key, in key order. */
  function Entries(summary: map<string, (int, int, real)>, keys: seq<string>): (entries: seq<CategoryRow>)
    requires forall c :: c in keys ==> c in summary
    ensures Names(entries) == keys
    ensures forall i :: 0 <= i < |keys| ==>
      entries[i].uniqueItems == summary[keys[i]].0 && entries[i].totalQuantity == summary[keys[i]].1
      && entries[i].totalValue == summary[keys[i]].2
  {
    seq(|keys|, k requires 0 <= k < |keys| => CategoryRow(keys[k], summary[keys[k]].0, summary[keys[k]].1, summary[keys[k]].2))
  }

  /** `Object.entries(summary).map(...).sort(...)`: one row per key of a
      tabulation of `items`, carrying that key's totals, sorted by name. */
  method SortedRows(items: seq<Item>, summary: map<string, (int, int, real)>, keys: seq<string>)
    returns (rows: seq<CategoryRow>)
    requires Seqs.NoDuplicates(keys)
    requires forall c :: c in summary <==> c in keys
    requires Tabulated(items, summary)
    ensures forall c :: c in Names(rows) <==> c in keys
    ensures Seqs.NoDuplicates(Names(rows))
    ensures forall i :: 0 <= i < |rows| ==> RowFor(items, rows[i])
    ensures forall i :: 0 < i < |rows| ==> Text.StrCompare(rows[i - 1].categoryName, rows[i].categoryName) < 0
  {
    var entries := Entries(summary, keys);
    assert forall j :: 0 <= j < |entries| ==> RowFor(items, entries[j]) by {
      forall j | 0 <= j < |entries| ensures RowFor(items, entries[j]) {
        assert entries[j].categoryName == keys[j];
        assert summary[keys[j]] == Totals(items, keys[j]);
      }
    }
    rows := SortRowsByName(entries);
    PermutationKeepsNames(rows, entries);
    forall i | 0 <= i < |rows| ensures RowFor(items, rows[i]) {
      assert rows[i] in multiset(entries);
    }
  }

  /** `categorySummary` on a summary object without inherited members (a
      `Map`, or `Object.create(null)`): one row per distinct category,
      sorted by name, with the number of items, the units and the value of
      that category. */
  method CategorySummary(items: seq<Item>) returns (rows: seq<CategoryRow>)
    ensures items == [] ==> rows == []
    ensures forall c :: c in Names(rows) <==> c in Categories(items)
    ensures Seqs.NoDuplicates(Names(rows))
    ensures forall i :: 0 <= i < |rows| ==> RowFor(items, rows[i])
    ensures forall i :: 0 < i < |rows| ==> Text.StrCompare(rows[i - 1].categoryName, rows[i].categoryName) < 0
  {
    if |items| == 0 {
      return [];
    }
    var summary, keys := Tabulate(items);
    rows := SortedRows(items, summary, keys);
  }

  // ---------------------------------------------------------------------
  // The summary as written, on a plain `{}`

  /** The properties every plain object inherits from `Object.prototype`.
      Reading `summary[c]` for one of these names finds the inherited
      member, a function or the prototype itself, and never `undefined`. */
  const InheritedNames: set<string> := {
    "constructor", "__proto__", "__defineGetter__", "__defineSetter__",
    "__lookupGetter__", "__lookupSetter__", "hasOwnProperty", "isPrototypeOf",
    "propertyIsEnumerable", "toLocaleString", "toString", "valueOf"}

  /** An item whose category opens no own entry leaves the totals of every
      own entry as they were. */
  lemma SkipStep(items: seq<Item>, i: int, summary: map<string, (int, int, real)>)
    requires 0 <= i < |items|
    requires Tabulated(items[..i], summary)
    requires CategoryOf(items[i]) !in summary
    ensures Tabulated(items[..i + 1], summary)
  {
    TallyStep(items, i, One);
    TallyStep(items, i, Units);
    ValueStep(items, i);
  }

  /** The `forEach` as written. For a category named like an inherited
      member, `!summary[category]` is false, so no own entry is opened and
      the `+=` lines write onto the inherited member; `Object.entries` then
      lists own entries only, so that category has no key. */
  method TabulateAsWritten(items: seq<Item>) returns (summary: map<string, (int, int, real)>, keys: seq<string>)
    ensures Seqs.NoDuplicates(keys)
    ensures forall c :: c in keys <==> c in Categories(items) && c !in InheritedNames
    ensures forall c :: c in summary <==> c in keys
    ensures Tabulated(items, summary)
  {
    summary, keys := map[], [];
    var i := 0;
    while i < |items|
      invariant 0 <= i <= |items|
      invariant Seqs.NoDuplicates(keys)
      invariant forall c :: c in keys <==> c in Categories(items[..i]) && c !in InheritedNames
      invariant forall c :: c in summary <==> c in keys
      invariant Tabulated(items[..i], summary)
    {
      var category := CategoryOf(items[i]);
      assert Categories(items[..i + 1]) == Categories(items[..i]) + [category];
      if category in InheritedNames {
        SkipStep(items, i, summary);
      } else {
        RecordStep(items, i, summary);
        if category !in summary {
          keys := keys + [category];
        }
        summary := Record(summary, items[i]);
      }
      i := i + 1;
    }
    assert items[..i] == items;
  }

  /** `categorySummary` as written: the rows of `CategorySummary`, except
      that categories named like inherited members have none. */
  method CategorySummaryAsWritten(items: seq<Item>) returns (rows: seq<CategoryRow>)
    ensures items == [] ==> rows == []
    ensures forall c :: c in Names(rows) <==> c in Categories(items) && c !in InheritedNames
    ensures Seqs.NoDuplicates(Names(rows))
    ensures forall i :: 0 <= i < |rows| ==> RowFor(items, rows[i])
    ensures forall i :: 0 < i < |rows| ==> Text.StrCompare(rows[i - 1].categoryName, rows[i].categoryName) < 0
  {
    if |items| == 0 {
      return [];
    }
    var summary, keys := TabulateAsWritten(items);
    rows := SortedRows(items, summary, keys);
  }

  lemma FirstRowNamed(rows: seq<CategoryRow>)
    requires rows != []
    ensures rows[0].categoryName in Names(rows)
  {
    assert Names(rows)[0] == rows[0].categoryName;
  }

  /** Items that all sit in inherited categories (one item filed under
      "constructor", say) get no row at all as written, so the rows'
      `uniqueItems` add up to 0 instead of `items.length`. */
  lemma AsWrittenLosesInheritedCategories(items: seq<Item>, rows: seq<CategoryRow>)
    requires items != []
    requires forall i :: 0 <= i < |items| ==> CategoryOf(items[i]) in InheritedNames
    requires forall c :: c in Names(rows) <==> c in Categories(items) && c !in InheritedNames
    ensures rows == []
    ensures SumUniqueItems(rows) == 0 < |items|
  {
    if rows != [] {
      FirstRowNamed(rows);
      assert false;
    }
  }

  // ---------------------------------------------------------------------
  // The summary accounts for every item and every unit

  function SumUniqueItems(rows: seq<CategoryRow>): int {
    if rows == [] then 0 else rows[0].uniqueItems + SumUniqueItems(rows[1..])
  }

  function SumTotalQuantity(rows: seq<CategoryRow>): int {
    if rows == [] then 0 else rows[0].totalQuantity + SumTotalQuantity(rows[1..])
  }

  function SumTotalValue(rows: seq<CategoryRow>): real {
    if rows == [] then 0.0 else rows[0].totalValue + SumTotalValue(rows[1..])
  }

  /** Sum of the values of the categories `names`. */
  function ValueOver(items: seq<Item>, names: seq<string>): real {
    if names == [] then 0.0 else ValueIn(items, names[0]) + ValueOver(items, names[1..])
  }

  /** Sum of the tallies of the categories `names`. */
  function TallyOver(items: seq<Item>, names: seq<string>, weight: Item -> int): int {
    if names == [] then 0 else Tally(items, names[0], weight) + TallyOver(items, names[1..], weight)
  }

  /** Sum of `weight` over all items. */
  function Weight(items: seq<Item>, weight: Item -> int): int {
    if items == [] then 0 else Weight(items[..|items| - 1], weight) + weight(items[|items| - 1])
  }

  /** How many times `c` occurs in `names`. */
  function Occurrences(names: seq<string>, c: string): nat {
    if names == [] then 0 else (if names[0] == c then 1 else 0) + Occurrences(names[1..], c)
  }

  lemma {:induction false} OccursOnce(names: seq<string>, c: string)
    requires Seqs.NoDuplicates(names) && c in names
    ensures Occurrences(names, c) == 1
  {
    if names[0] == c {
      OccursNever(names[1..], c);
    } else {
      OccursOnce(names[1..], c);
    }
  }

  lemma {:induction false} OccursNever(names: seq<string>, c: string)
    requires c !in names
    ensures Occurrences(names, c) == 0
  {
    if names != [] {
      OccursNever(names[1..], c);
    }
  }

  /** Removing the last item takes its weight off every category it is
      listed under. */
  lemma {:induction false} TallyOverLast(items: seq<Item>, names: seq<string>, weight: Item -> int)
    requires items != []
    ensures TallyOver(items, names, weight)
      == TallyOver(items[..|items| - 1], names, weight)
         + Occurrences(names, CategoryOf(items[|items| - 1])) * weight(items[|items| - 1])
  {
    if names != [] {
      TallyOverLast(items, names[1..], weight);
      var last := items[|items| - 1];
      var w := weight(last);
      var o := if names[0] == CategoryOf(last) then 1 else 0;
      var n := Occurrences(names[1..], CategoryOf(last));
      assert Occurrences(names, CategoryOf(last)) == o + n;
      assert Tally(items, names[0], weight) == Tally(items[..|items| - 1], names[0], weight) + o * w;
      assert (o + n) * w == o * w + n * w;
    }
  }

  /** Over a duplicate-free list of names that covers every item's category,
      the tallies add up to the total weight. */
  lemma {:induction false} TallyOverCovers(items: seq<Item>, names: seq<string>, weight: Item -> int)
    requires Seqs.NoDuplicates(names)
    requires forall i :: 0 <= i < |items| ==> CategoryOf(items[i]) in names
    ensures TallyOver(items, names, weight) == Weight(items, weight)
  {
    if items == [] {
      TallyOverEmpty(names, weight);
    } else {
      var p := items[..|items| - 1];
      assert forall i :: 0 <= i < |p| ==> p[i] == items[i];
      TallyOverCovers(p, names, weight);
      TallyOverLast(items, names, weight);
      OccursOnce(names, CategoryOf(items[|items| - 1]));
    }
  }

  lemma {:induction false} ValueOverLast(items: seq<Item>, names: seq<string>)
    requires items != []
    ensures ValueOver(items, names)
      == ValueOver(items[..|items| - 1], names)
         + Repeated(Occurrences(names, CategoryOf(items[|items| - 1])), ItemValue(items[|items| - 1]))
  {
    if names != [] {
      ValueOverLast(items, names[1..]);
      var last := items[|items| - 1];
      if names[0] == CategoryOf(last) {
        assert Occurrences(names, CategoryOf(last)) == 1 + Occurrences(names[1..], CategoryOf(last));
      }
    }
  }

  /** `v` added up `n` times. */
  function Repeated(n: nat, v: real): real {
    if n == 0 then 0.0 else v + Repeated(n - 1, v)
  }

  lemma {:induction false} ValueOverCovers(items: seq<Item>, names: seq<string>)
    requires Seqs.NoDuplicates(names)
    requires forall i :: 0 <= i < |items| ==> CategoryOf(items[i]) in names
    ensures ValueOver(items, names) == TotalInventoryValue(items)
  {
    if items == [] {
      ValueOverEmpty(names);
    } else {
      var p := items[..|items| - 1];
      assert forall i :: 0 <= i < |p| ==> p[i] == items[i];
      ValueOverCovers(p, names);
      ValueOverLast(items, names);
      OccursOnce(names, CategoryOf(items[|items| - 1]));
    }
  }

  lemma {:induction false} ValueOverEmpty(names: seq<string>)
    ensures ValueOver([], names) == 0.0
  {
    if names != [] {
      ValueOverEmpty(names[1..]);
    }
  }

  lemma {:induction false} TallyOverEmpty(names: seq<string>, weight: Item -> int)
    ensures TallyOver([], names, weight) == 0
  {
    if names != [] {
      TallyOverEmpty(names[1..], weight);
    }
  }

  lemma {:induction false} WeightOfUnits(items: seq<Item>)
    ensures Weight(items, Units) == TotalQuantity(items)
  {
    if items != [] {
      WeightOfUnits(items[..|items| - 1]);
    }
  }

  lemma {:induction false} WeightOfOne(items: seq<Item>)
    ensures Weight(items, One) == |items|
  {
    if items != [] {
      WeightOfOne(items[..|items| - 1]);
    }
  }

  lemma {:induction false} RowSums(items: seq<Item>, rows: seq<CategoryRow>)
    requires forall i :: 0 <= i < |rows| ==> RowFor(items, rows[i])
    ensures SumUniqueItems(rows) == TallyOver(items, Names(rows), One)
    ensures SumTotalQuantity(rows) == TallyOver(items, Names(rows), Units)
    ensures SumTotalValue(rows) == ValueOver(items, Names(rows))
  {
    if rows != [] {
      assert Names(rows[1..]) == Names(rows)[1..];
      RowSums(items, rows[1..]);
    }
  }

  /** The category summary accounts for every item once, for every unit and
      for all the value: its item counts add up to the number of items, its
      unit totals to the dashboard's total quantity and its values to the
      total inventory value. */
  lemma SummaryAddsUp(items: seq<Item>, rows: seq<CategoryRow>)
    requires forall c :: c in Names(rows) <==> c in Categories(items)
    requires Seqs.NoDuplicates(Names(rows))
    requires forall i :: 0 <= i < |rows| ==> RowFor(items, rows[i])
    ensures SumUniqueItems(rows) == |items|
    ensures SumTotalQuantity(rows) == TotalQuantity(items)
    ensures SumTotalValue(rows) == TotalInventoryValue(items)
  {
    forall i | 0 <= i < |items| ensures CategoryOf(items[i]) in Names(rows) {
      assert Categories(items)[i] == CategoryOf(items[i]);
    }
    RowSums(items, rows);
    TallyOverCovers(items, Names(rows), One);
    TallyOverCovers(items, Names(rows), Units);
    ValueOverCovers(items, Names(rows));
    WeightOfOne(items);
    WeightOfUnits(items);
  }
}
