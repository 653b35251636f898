/** The inventory table: the category choices, the searched, filtered and
    sorted list, the header clicks that choose the order, the low-stock
    badge and the CSV export of the listed items. */
module InventoryList {
  import opened Inventory
  import Seqs
  import Sorting
  import Text
  import Csv
  import InventoryStore

  /** The category filter's "all categories" choice. */
  const AllCategories := "all_qmd_categories_filter_value"

  // ---------------------------------------------------------------------
  // Category choices

  /** `uniqueCategories`: every non-empty category once, sorted; nothing
      before the store has loaded. */
  method UniqueCategories(items: seq<Item>, isInitialized: bool) returns (r: seq<string>)
    ensures !isInitialized ==> r == []
    ensures isInitialized ==>
      forall c :: c in r <==> c != "" && exists i :: 0 <= i < |items| && items[i].category == c
    ensures Seqs.NoDuplicates(r)
    ensures forall i :: 0 < i < |r| ==> Text.StrCompare(r[i - 1], r[i]) < 0
  {
    if !isInitialized {
      return [];
    }
    var distinct := NonEmptyCategories(items);
    forall x: string, y: string
      ensures Text.StrCompare(x, y) > 0 ==> Text.StrCompare(y, x) <= 0
    {
      Text.StrCompareAntisymmetric(x, y);
    }
    r := Sorting.SortedCopy(distinct, Text.StrCompare);
    Seqs.PermutationKeepsNoDuplicates(r, distinct);
    Seqs.SameMembers(r, distinct);
  }

  /** `Array.from(new Set(items.map(item => item.category).filter(Boolean)))` */
  function NonEmptyCategories(items: seq<Item>): (r: seq<string>)
    ensures forall c :: c in r <==> c != "" && exists i :: 0 <= i < |items| && items[i].category == c
    ensures Seqs.NoDuplicates(r)
  {
    var categories := seq(|items|, i requires 0 <= i < |items| => items[i].category);
    assert forall c :: c in categories <==> exists i :: 0 <= i < |items| && items[i].category == c by {
      forall c ensures c in categories <==> exists i :: 0 <= i < |items| && items[i].category == c {
        if c in categories {
          var i :| 0 <= i < |categories| && categories[i] == c;
          assert items[i].category == c;
        }
        if i :| 0 <= i < |items| && items[i].category == c {
          assert categories[i] == c;
        }
      }
    }
    Seqs.Dedup(Seqs.Filter(categories, (c: string) => c != ""))
  }

  // ---------------------------------------------------------------------
  // Search and category filter

  /** The search box: an empty term keeps everything; otherwise the lower-
      cased term must occur in the lower-cased name, or in the description
      or category when they are not empty. */
  predicate MatchesSearch(term: string, item: Item) {
    var t := Text.ToLower(term);
    || term == ""
    || Text.Contains(Text.ToLower(item.name), t)
    || (item.description != "" && Text.Contains(Text.ToLower(item.description), t))
    || (item.category != "" && Text.Contains(Text.ToLower(item.category), t))
  }

  /** The category filter: an empty choice or the "all" choice keeps
      everything, any other keeps the items of exactly that category. */
  predicate InCategory(filter: string, item: Item) {
    filter == "" || filter == AllCategories || item.category == filter
  }

  /** The search does not depend on the case of the term. */
  lemma SearchIgnoresCase(term: string, item: Item)
    ensures MatchesSearch(Text.ToLower(term), item) == MatchesSearch(term, item)
  {
    Text.ToLowerIdempotent(term);
    assert Text.ToLower(term) == "" <==> term == "";
  }

  // ---------------------------------------------------------------------
  // Sorting

  datatype SortKey =
    | ById | ByName | ByDescription | ByQuantity | ByPrice | ByCategory
    | ByDateAdded | ByLastUpdated | ByLowStockThreshold
    | Unsorted

  datatype SortDirection = Asc | Desc

  function RealSign(x: real): (s: int)
    ensures s == -1 || s == 0 || s == 1
    ensures s < 0 <==> x < 0.0
    ensures s > 0 <==> x > 0.0
  {
    if x < 0.0 then -1 else if x > 0.0 then 1 else 0
  }

  /** The sign of `comparison` in the sort callback, before the direction is
      applied. A missing price stands for +Infinity when ascending and
      -Infinity when descending; two missing prices give `NaN`, which the
      sort treats as 0. A missing threshold meets none of the typed branches
      and falls to the `undefined` branches. */
  function Comparison(key: SortKey, dir: SortDirection, a: Item, b: Item): int {
    match key
    case ById => Text.StrCompare(a.id, b.id)
    case ByName => Text.StrCompare(a.name, b.name)
    case ByDescription => Text.StrCompare(a.description, b.description)
    case ByCategory => Text.StrCompare(a.category, b.category)
    case ByQuantity => Sorting.Sign(a.quantity - b.quantity)
    case ByDateAdded => Sorting.Sign(a.dateAdded - b.dateAdded)
    case ByLastUpdated => Sorting.Sign(a.lastUpdated - b.lastUpdated)
    case ByPrice =>
      if a.price.Some? && b.price.Some? then RealSign(a.price.value - b.price.value)
      else if a.price.Some? then (if dir == Asc then -1 else 1)
      else if b.price.Some? then (if dir == Asc then 1 else -1)
      else 0
    case ByLowStockThreshold =>
      if a.lowStockThreshold.Some? && b.lowStockThreshold.Some? then
        Sorting.Sign(a.lowStockThreshold.value - b.lowStockThreshold.value)
      else if a.lowStockThreshold.None? && b.lowStockThreshold.Some? then (if dir == Asc then 1 else -1)
      else if a.lowStockThreshold.Some? && b.lowStockThreshold.None? then (if dir == Asc then -1 else 1)
      else 0
    case Unsorted => 0
  }

  /** The sort callback: `sortDirection === 'asc' ? comparison : -comparison`. */
  function ItemCompare(key: SortKey, dir: SortDirection, a: Item, b: Item): int {
    if dir == Asc then Comparison(key, dir, a, b) else -Comparison(key, dir, a, b)
  }

  /** Swapping the arguments negates the callback's answer, so the
      comparator is fit for sorting. */
  lemma ItemCompareAntisymmetric(key: SortKey, dir: SortDirection, a: Item, b: Item)
    ensures ItemCompare(key, dir, a, b) == -ItemCompare(key, dir, b, a)
  {
    match key
    case ById => Text.StrCompareAntisymmetric(a.id, b.id);
    case ByName => Text.StrCompareAntisymmetric(a.name, b.name);
    case ByDescription => Text.StrCompareAntisymmetric(a.description, b.description);
    case ByCategory => Text.StrCompareAntisymmetric(a.category, b.category);
    case _ =>
  }

  /** Under the price order, in either direction, an item without a price
      never comes before an item with one. */
  lemma {:induction false} UnpricedLast(r: seq<Item>, dir: SortDirection)
    requires Sorting.Sorted(r, ByKey(ByPrice, dir))
    ensures forall i, j :: 0 <= i < j < |r| && r[i].price.None? ==> r[j].price.None?
  {
    if |r| > 1 {
      var tail := r[1..];
      assert Sorting.Sorted(tail, ByKey(ByPrice, dir)) by {
        forall k | 0 < k < |tail| ensures ItemCompare(ByPrice, dir, tail[k - 1], tail[k]) <= 0 {
          assert tail[k - 1] == r[k] && tail[k] == r[k + 1];
        }
      }
      UnpricedLast(tail, dir);
      assert ItemCompare(ByPrice, dir, r[0], r[1]) <= 0;
      forall i, j | 0 <= i < j < |r| && r[i].price.None? ensures r[j].price.None? {
        if i == 0 {
          assert r[1].price.None?;
          if j > 1 {
            assert tail[0].price.None? && tail[j - 1] == r[j];
          }
        } else {
          assert tail[i - 1] == r[i] && tail[j - 1] == r[j];
        }
      }
    }
  }

  /** Under the threshold order, in either direction, an item without a
      threshold never comes before an item with one. */
  lemma {:induction false} NoThresholdLast(r: seq<Item>, dir: SortDirection)
    requires Sorting.Sorted(r, ByKey(ByLowStockThreshold, dir))
    ensures forall i, j :: 0 <= i < j < |r| && r[i].lowStockThreshold.None? ==> r[j].lowStockThreshold.None?
  {
    if |r| > 1 {
      var tail := r[1..];
      assert Sorting.Sorted(tail, ByKey(ByLowStockThreshold, dir)) by {
        forall k | 0 < k < |tail| ensures ItemCompare(ByLowStockThreshold, dir, tail[k - 1], tail[k]) <= 0 {
          assert tail[k - 1] == r[k] && tail[k] == r[k + 1];
        }
      }
      NoThresholdLast(tail, dir);
      assert ItemCompare(ByLowStockThreshold, dir, r[0], r[1]) <= 0;
      forall i, j | 0 <= i < j < |r| && r[i].lowStockThreshold.None? ensures r[j].lowStockThreshold.None? {
        if i == 0 {
          assert r[1].lowStockThreshold.None?;
          if j > 1 {
            assert tail[0].lowStockThreshold.None? && tail[j - 1] == r[j];
          }
        } else {
          assert tail[i - 1] == r[i] && tail[j - 1] == r[j];
        }
      }
    }
  }

  function SearchFilter(term: string): Item -> bool {
    (x: Item) => MatchesSearch(term, x)
  }

  function CategoryFilter(filter: string): Item -> bool {
    (x: Item) => InCategory(filter, x)
  }

  function Kept(term: string, filter: string): Item -> bool {
    (x: Item) => MatchesSearch(term, x) && InCategory(filter, x)
  }

  /** The search filter, applied only when a term is set. */
  function Searched(items: seq<Item>, term: string): seq<Item> {
    if term != "" then Seqs.Filter(items, SearchFilter(term)) else items
  }

  /** The category filter, applied only when a category is chosen. */
  function OfCategory(items: seq<Item>, filter: string): seq<Item> {
    if filter != "" && filter != AllCategories then Seqs.Filter(items, CategoryFilter(filter)) else items
  }

  /** The two filters of `filteredAndSortedItems`, each applied only when
      it is set, keep in store order exactly the items that pass both. */
  lemma TwoFilters(items: seq<Item>, term: string, filter: string)
    ensures OfCategory(Searched(items, term), filter) == Seqs.Filter(items, Kept(term, filter))
  {
    var searched := Searched(items, term);
    assert searched == Seqs.Filter(items, SearchFilter(term)) by {
      if term == "" {
        Seqs.FilterAll(items, SearchFilter(term));
      }
    }
    assert OfCategory(searched, filter) == Seqs.Filter(searched, CategoryFilter(filter)) by {
      if !(filter != "" && filter != AllCategories) {
        Seqs.FilterAll(searched, CategoryFilter(filter));
      }
    }
    Seqs.FilterTwice(items, SearchFilter(term), CategoryFilter(filter), Kept(term, filter));
  }

  function ByKey(key: SortKey, dir: SortDirection): (Item, Item) -> int {
    (a: Item, b: Item) => ItemCompare(key, dir, a, b)
  }

  /** `filteredAndSortedItems`: the items that pass the search and the
      category filter, sorted by the chosen key (kept in store order when no
      key is chosen); nothing before the store has loaded. */
  method FilteredAndSortedItems(items: seq<Item>, isInitialized: bool, searchTerm: string,
                                categoryFilter: string, key: SortKey, dir: SortDirection)
    returns (r: seq<Item>)
    ensures !isInitialized ==> r == []
    ensures forall x :: x in r <==>
      isInitialized && x in items && MatchesSearch(searchTerm, x) && InCategory(categoryFilter, x)
    ensures multiset(r) <= multiset(items)
    ensures isInitialized ==> multiset(r) == multiset(Seqs.Filter(items, Kept(searchTerm, categoryFilter)))
    ensures key != Unsorted ==> Sorting.Sorted(r, ByKey(key, dir))
    ensures isInitialized && key == Unsorted ==> r == Seqs.Filter(items, Kept(searchTerm, categoryFilter))
  {
    if !isInitialized {
      return [];
    }
    r := OfCategory(Searched(items, searchTerm), categoryFilter);
    TwoFilters(items, searchTerm, categoryFilter);
    if key != Unsorted {
      forall x: Item, y: Item ensures ByKey(key, dir)(x, y) > 0 ==> ByKey(key, dir)(y, x) <= 0 {
        ItemCompareAntisymmetric(key, dir, x, y);
      }
      var kept := r;
      r := Sorting.SortedCopy(kept, ByKey(key, dir));
      Seqs.SameMembers(r, kept);
    }
  }

  // ---------------------------------------------------------------------
  // Header clicks

  /** `handleSort(key)`: the current key flips the direction; another key
      is chosen in ascending order. */
  function AfterClick(current: SortKey, dir: SortDirection, clicked: SortKey): (r: (SortKey, SortDirection))
    ensures r.0 == clicked
  {
    if current == clicked then (clicked, if dir == Asc then Desc else Asc) else (clicked, Asc)
  }

  /** Two clicks on the same header restore the direction; two clicks on a
      new header leave it descending. */
  lemma ClickTwice(current: SortKey, dir: SortDirection, clicked: SortKey)
    ensures current == clicked ==> AfterClick(clicked, AfterClick(current, dir, clicked).1, clicked) == (current, dir)
    ensures current != clicked ==> AfterClick(clicked, AfterClick(current, dir, clicked).1, clicked) == (clicked, Desc)
  {
  }

  /** The list's view state: search term, category filter and order. */
  class ListView {
    var searchTerm: string
    var categoryFilter: string
    var sortKey: SortKey
    var sortDirection: SortDirection

    /** The initial state: no search, all categories, by name ascending. */
    constructor ()
      ensures searchTerm == "" && categoryFilter == AllCategories
      ensures sortKey == ByName && sortDirection == Asc
    {
      searchTerm := "";
      categoryFilter := AllCategories;
      sortKey := ByName;
      sortDirection := Asc;
    }

    method HandleSort(key: SortKey)
      modifies this`sortKey, this`sortDirection
      ensures (sortKey, sortDirection) == AfterClick(old(sortKey), old(sortDirection), key)
    {
      if sortKey == key {
        sortDirection := if sortDirection == Asc then Desc else Asc;
      } else {
        sortKey := key;
        sortDirection := Asc;
      }
    }
  }

  // ---------------------------------------------------------------------
  // Low-stock badge

  /** The badge next to an item's name. */
  function LowStockBadge(item: Item): (shown: bool)
    ensures shown <==> InventoryStore.Level(item.quantity, item.lowStockThreshold) == InventoryStore.Below
    ensures shown ==> item.quantity < item.lowStockThreshold.value
  {
    IsLowStock(item)
  }

  // ---------------------------------------------------------------------
  // CSV export

  const Headers: seq<string> := ["ID", "Nombre", "Descripción", "Cantidad", "Precio",
                                 "Categoría", "Fecha de Alta", "Última Actualización", "Umbral Stock Bajo"]

  function HeaderCells(): (r: seq<Csv.Cell>)
    ensures Csv.Texts(r) == Headers
  {
    seq(|Headers|, i requires 0 <= i < |Headers| => Csv.Bare(Headers[i]))
  }

  /** `item.price !== undefined ? item.price.toFixed(2) : ''`, with the
      number formatting given. */
  function PriceText(item: Item, formatPrice: real -> string): string {
    if item.price.Some? then formatPrice(item.price.value) else ""
  }

  /** `item.lowStockThreshold !== undefined ? item.lowStockThreshold : ''` */
  function ThresholdText(item: Item): string {
    if item.lowStockThreshold.Some? then Text.IntToString(item.lowStockThreshold.value) else ""
  }

  /** The text of each exported column, in header order. */
  function RowTexts(item: Item, formatPrice: real -> string, formatDate: Timestamp -> string): (r: seq<string>)
    ensures |r| == |Headers|
  {
    [item.id, item.name, item.description, Text.IntToString(item.quantity), PriceText(item, formatPrice),
     item.category, formatDate(item.dateAdded), formatDate(item.lastUpdated), ThresholdText(item)]
  }

  /** The row as the export writes it: name, description and category are
      quoted, the two dates (`toLocaleString('es-ES')`, which renders as
      "19/10/2026, 14:03:05") are written bare. It carries the same nine
      texts as the corrected row and differs from it only in the two date
      cells, which are bare. */
  function RowCellsAsWritten(item: Item, formatPrice: real -> string, formatDate: Timestamp -> string): (r: seq<Csv.Cell>)
    ensures Csv.Texts(r) == RowTexts(item, formatPrice, formatDate)
    ensures forall i :: 0 <= i < |r| && i != 6 && i != 7 ==> r[i] == RowCells(item, formatPrice, formatDate)[i]
    ensures r[6].Bare? && r[7].Bare? && RowCells(item, formatPrice, formatDate)[6].Quoted?
      && RowCells(item, formatPrice, formatDate)[7].Quoted?
  {
    [Csv.Bare(item.id), Csv.Quoted(item.name), Csv.Quoted(item.description),
     Csv.Bare(Text.IntToString(item.quantity)), Csv.Bare(PriceText(item, formatPrice)),
     Csv.Quoted(item.category), Csv.Bare(formatDate(item.dateAdded)), Csv.Bare(formatDate(item.lastUpdated)),
     Csv.Bare(ThresholdText(item))]
  }

  /** As written, a date rendered with a comma (es-ES renders
      "19/10/2026, 14:03:05") splits its cell in two: the row reads back with
      eleven cells under nine headers, and every column after the first
      date is shifted. */
  lemma AsWrittenDatesSplitRow(item: Item, formatPrice: real -> string, formatDate: Timestamp -> string,
                               d1: string, d2: string, e1: string, e2: string)
    requires formatDate(item.dateAdded) == d1 + "," + d2
    requires formatDate(item.lastUpdated) == e1 + "," + e2
    requires Csv.Plain(d1) && Csv.Plain(d2) && Csv.Plain(e1) && Csv.Plain(e2)
    requires Csv.Plain(item.id) && Csv.Plain(PriceText(item, formatPrice))
    ensures Csv.ReadRecord(Csv.EncodeRecord(RowCellsAsWritten(item, formatPrice, formatDate)))
      == Some(([item.id, item.name, item.description, Text.IntToString(item.quantity), PriceText(item, formatPrice),
                item.category, d1, d2, e1, e2, ThresholdText(item)], ""))
    ensures |Headers| == 9
  {
    var cells := SplitCells(item, formatPrice, d1, d2, e1, e2);
    WrittenAsSplitCells(item, formatPrice, formatDate, d1, d2, e1, e2);
    SplitCellsEncodable(item, formatPrice, d1, d2, e1, e2);
    Csv.ReadRecordEncoded(cells, "");
    assert Csv.EncodeRecord(cells) + "" == Csv.EncodeRecord(cells);
  }

  /** The eleven cells a row with comma-rendered dates reads back as. */
  function SplitCells(item: Item, formatPrice: real -> string, d1: string, d2: string, e1: string, e2: string)
    : (r: seq<Csv.Cell>)
    ensures Csv.Texts(r) == [item.id, item.name, item.description, Text.IntToString(item.quantity),
      PriceText(item, formatPrice), item.category, d1, d2, e1, e2, ThresholdText(item)]
  {
    [Csv.Bare(item.id), Csv.Quoted(item.name), Csv.Quoted(item.description),
     Csv.Bare(Text.IntToString(item.quantity)), Csv.Bare(PriceText(item, formatPrice)),
     Csv.Quoted(item.category), Csv.Bare(d1), Csv.Bare(d2), Csv.Bare(e1), Csv.Bare(e2),
     Csv.Bare(ThresholdText(item))]
  }

  lemma WrittenAsSplitCells(item: Item, formatPrice: real -> string, formatDate: Timestamp -> string,
                            d1: string, d2: string, e1: string, e2: string)
    requires formatDate(item.dateAdded) == d1 + "," + d2
    requires formatDate(item.lastUpdated) == e1 + "," + e2
    ensures Csv.EncodeRecord(RowCellsAsWritten(item, formatPrice, formatDate))
      == Csv.EncodeRecord(SplitCells(item, formatPrice, d1, d2, e1, e2))
  {
    var pre := [Csv.Bare(item.id), Csv.Quoted(item.name), Csv.Quoted(item.description),
                Csv.Bare(Text.IntToString(item.quantity)), Csv.Bare(PriceText(item, formatPrice)),
                Csv.Quoted(item.category)];
    var last := [Csv.Bare(ThresholdText(item))];
    var pre' := pre + [Csv.Bare(d1), Csv.Bare(d2)];
    var e := formatDate(item.lastUpdated);
    assert RowCellsAsWritten(item, formatPrice, formatDate) == pre + [Csv.Bare(d1 + "," + d2)] + ([Csv.Bare(e)] + last);
    Csv.SplitBareCell(pre, d1, d2, [Csv.Bare(e)] + last);
    assert pre + [Csv.Bare(d1), Csv.Bare(d2)] + ([Csv.Bare(e)] + last) == pre' + [Csv.Bare(e1 + "," + e2)] + last;
    Csv.SplitBareCell(pre', e1, e2, last);
    assert pre' + [Csv.Bare(e1), Csv.Bare(e2)] + last == SplitCells(item, formatPrice, d1, d2, e1, e2);
  }

  lemma SplitCellsEncodable(item: Item, formatPrice: real -> string, d1: string, d2: string, e1: string, e2: string)
    requires Csv.Plain(d1) && Csv.Plain(d2) && Csv.Plain(e1) && Csv.Plain(e2)
    requires Csv.Plain(item.id) && Csv.Plain(PriceText(item, formatPrice))
    ensures Csv.AllEncodable(SplitCells(item, formatPrice, d1, d2, e1, e2))
  {
    IntToStringPlain(item.quantity);
    if item.lowStockThreshold.Some? {
      IntToStringPlain(item.lowStockThreshold.value);
    }
  }

  /** The row with the two date cells quoted as well. */
  function RowCells(item: Item, formatPrice: real -> string, formatDate: Timestamp -> string): (r: seq<Csv.Cell>)
    ensures Csv.Texts(r) == RowTexts(item, formatPrice, formatDate)
  {
    [Csv.Bare(item.id), Csv.Quoted(item.name), Csv.Quoted(item.description),
     Csv.Bare(Text.IntToString(item.quantity)), Csv.Bare(PriceText(item, formatPrice)),
     Csv.Quoted(item.category), Csv.Quoted(formatDate(item.dateAdded)), Csv.Quoted(formatDate(item.lastUpdated)),
     Csv.Bare(ThresholdText(item))]
  }

  lemma IntToStringPlain(n: int)
    ensures Csv.Plain(Text.IntToString(n))
  {
  }

  /** The rows the export writes: the header and one row per listed item. */
  function Table(listed: seq<Item>, formatPrice: real -> string, formatDate: Timestamp -> string): seq<seq<Csv.Cell>> {
    [HeaderCells()] + seq(|listed|, i requires 0 <= i < |listed| => RowCells(listed[i], formatPrice, formatDate))
  }

  /** `handleExportToCSV`: nothing for an empty list; otherwise the header
      row and one row per listed item, joined by line feeds. When ids and
      formatted prices hold no separator or quote (a UUID and `toFixed(2)`
      never do), reading the file back yields the header and each item's
      column texts, in order. */
  method ExportToCsv(listed: seq<Item>, formatPrice: real -> string, formatDate: Timestamp -> string)
    returns (csv: Option<string>)
    ensures csv.None? <==> listed == []
    ensures csv.Some? ==> csv.value == Csv.EncodeDocument(Table(listed, formatPrice, formatDate))
    ensures csv.Some? && (forall i :: 0 <= i < |listed| ==>
                            Csv.Plain(listed[i].id) && Csv.Plain(PriceText(listed[i], formatPrice))) ==>
      Csv.ReadDocument(csv.value) == Some([Headers]
        + seq(|listed|, i requires 0 <= i < |listed| => RowTexts(listed[i], formatPrice, formatDate)))
  {
    if |listed| == 0 {
      return None;
    }
    var table := Table(listed, formatPrice, formatDate);
    var csvRows := [Csv.EncodeRecord(HeaderCells())];
    var i := 0;
    while i < |listed|
      invariant 0 <= i <= |listed|
      invariant |csvRows| == i + 1
      invariant forall k :: 0 <= k <= i ==> csvRows[k] == Csv.EncodeRecord(table[k])
    {
      csvRows := csvRows + [Csv.EncodeRecord(RowCells(listed[i], formatPrice, formatDate))];
      i := i + 1;
    }
    assert csvRows == seq(|table|, k requires 0 <= k < |table| => Csv.EncodeRecord(table[k]));
    csv := Some(Csv.JoinWith(csvRows, '\n'));
    if forall i :: 0 <= i < |listed| ==> Csv.Plain(listed[i].id) && Csv.Plain(PriceText(listed[i], formatPrice)) {
      TableReadsBack(listed, formatPrice, formatDate);
    }
  }

  /** The exported table reads back as the headers and each item's column
      texts when no id or formatted price holds a separator or a quote. */
  lemma TableReadsBack(listed: seq<Item>, formatPrice: real -> string, formatDate: Timestamp -> string)
    requires forall i :: 0 <= i < |listed| ==> Csv.Plain(listed[i].id) && Csv.Plain(PriceText(listed[i], formatPrice))
    ensures Csv.ReadDocument(Csv.EncodeDocument(Table(listed, formatPrice, formatDate))) == Some([Headers]
      + seq(|listed|, i requires 0 <= i < |listed| => RowTexts(listed[i], formatPrice, formatDate)))
  {
    var table := Table(listed, formatPrice, formatDate);
    TableEncodable(listed, formatPrice, formatDate);
    Csv.ReadDocumentEncoded(table);
    TableTexts(listed, formatPrice, formatDate);
  }

  lemma TableEncodable(listed: seq<Item>, formatPrice: real -> string, formatDate: Timestamp -> string)
    requires forall i :: 0 <= i < |listed| ==> Csv.Plain(listed[i].id) && Csv.Plain(PriceText(listed[i], formatPrice))
    ensures Csv.Writable(Table(listed, formatPrice, formatDate))
  {
    var table := Table(listed, formatPrice, formatDate);
    forall r | 0 <= r < |table| ensures table[r] != [] && Csv.AllEncodable(table[r]) {
      if r > 0 {
        var item := listed[r - 1];
        assert table[r] == RowCells(item, formatPrice, formatDate);
        IntToStringPlain(item.quantity);
        if item.lowStockThreshold.Some? {
          IntToStringPlain(item.lowStockThreshold.value);
        }
      } else {
        HeadersPlain();
        assert table[0] == HeaderCells();
      }
    }
  }

  lemma TableTexts(listed: seq<Item>, formatPrice: real -> string, formatDate: Timestamp -> string)
    ensures var table := Table(listed, formatPrice, formatDate);
      Csv.AllTexts(table) == [Headers] + seq(|listed|, i requires 0 <= i < |listed| => RowTexts(listed[i], formatPrice, formatDate))
  {
    var table := Table(listed, formatPrice, formatDate);
    var texts := Csv.AllTexts(table);
    var expected := [Headers] + seq(|listed|, i requires 0 <= i < |listed| => RowTexts(listed[i], formatPrice, formatDate));
    forall r | 0 <= r < |table| ensures texts[r] == expected[r] {
      if r > 0 {
        assert table[r] == RowCells(listed[r - 1], formatPrice, formatDate);
      }
    }
  }

  lemma HeadersPlain()
    ensures forall i :: 0 <= i < |Headers| ==> Csv.Plain(Headers[i])
  {
    forall i | 0 <= i < |Headers| ensures Csv.Plain(Headers[i]) {
      HeaderPlain(i);
    }
  }

  /** Each header is free of commas, quotes and line feeds. */
  lemma HeaderPlain(i: int)
    requires 0 <= i < |Headers|
    ensures Csv.Plain(Headers[i])
  {
    if i < 3 {
      FirstHeadersPlain();
    } else if i < 6 {
      MiddleHeadersPlain();
    } else if i == 6 {
      Csv.PlainWithoutSeparators("Fecha de Alta");
    } else if i == 7 {
      LastUpdatedHeaderPlain();
    } else {
      Csv.PlainWithoutSeparators("Umbral Stock Bajo");
    }
  }

  lemma FirstHeadersPlain()
    ensures forall i :: 0 <= i < 3 ==> Csv.Plain(Headers[i])
  {
    Csv.PlainWithoutSeparators("ID");
    Csv.PlainWithoutSeparators("Nombre");
    Csv.PlainWithoutSeparators("Descripción");
  }

  lemma MiddleHeadersPlain()
    ensures forall i :: 3 <= i < 6 ==> Csv.Plain(Headers[i])
  {
    Csv.PlainWithoutSeparators("Cantidad");
    Csv.PlainWithoutSeparators("Precio");
    Csv.PlainWithoutSeparators("Categoría");
  }

  lemma LastUpdatedHeaderPlain()
    ensures Csv.Plain("Última Actualización")
  {
    Csv.PlainWithoutSeparators("Última Actualización");
  }
}
