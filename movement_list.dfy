/** The movement history table: search, type filter, the order chosen by
    header clicks, and whether a movement's item still exists. */
module MovementList {
  import opened Inventory
  import Seqs
  import Sorting
  import Text
  import InventoryStore

  /** The type filter's "all types" choice. */
  const AllMovementTypes := "all_qmd_movement_types"

  /** The search box: an empty term keeps everything; otherwise the lower-
      cased term must occur in the lower-cased item name or reason. */
  predicate MatchesSearch(term: string, m: Movement) {
    var t := Text.ToLower(term);
    || term == ""
    || Text.Contains(Text.ToLower(m.itemName), t)
    || Text.Contains(Text.ToLower(m.reason), t)
  }

  /** The type filter: an empty choice or the "all" choice keeps everything,
      any other keeps the movements whose type is exactly that string. */
  predicate OfType(filter: string, m: Movement) {
    filter == "" || filter == AllMovementTypes || TypeName(m.kind) == filter
  }

  function SearchFilter(term: string): Movement -> bool {
    (m: Movement) => MatchesSearch(term, m)
  }

  function TypeFilter(filter: string): Movement -> bool {
    (m: Movement) => OfType(filter, m)
  }

  function Kept(term: string, filter: string): Movement -> bool {
    (m: Movement) => MatchesSearch(term, m) && OfType(filter, m)
  }

  function Searched(ms: seq<Movement>, term: string): seq<Movement> {
    if term != "" then Seqs.Filter(ms, SearchFilter(term)) else ms
  }

  function OfTypeOnly(ms: seq<Movement>, filter: string): seq<Movement> {
    if filter != "" && filter != AllMovementTypes then Seqs.Filter(ms, TypeFilter(filter)) else ms
  }

  /** The two filters, each applied only when it is set, keep in history
      order exactly the movements that pass both. */
  lemma TwoFilters(ms: seq<Movement>, term: string, filter: string)
    ensures OfTypeOnly(Searched(ms, term), filter) == Seqs.Filter(ms, Kept(term, filter))
  {
    var searched := Searched(ms, term);
    assert searched == Seqs.Filter(ms, SearchFilter(term)) by {
      if term == "" {
        Seqs.FilterAll(ms, SearchFilter(term));
      }
    }
    assert OfTypeOnly(searched, filter) == Seqs.Filter(searched, TypeFilter(filter)) by {
      if !(filter != "" && filter != AllMovementTypes) {
        Seqs.FilterAll(searched, TypeFilter(filter));
      }
    }
    Seqs.FilterTwice(ms, SearchFilter(term), TypeFilter(filter), Kept(term, filter));
  }

  /** A type filter naming neither type keeps nothing; naming one keeps
      exactly the movements of that direction. */
  lemma TypeFilterSelectsKind(filter: string, m: Movement)
    requires filter != "" && filter != AllMovementTypes
    ensures OfType(filter, m) <==> (filter == "entrada" && m.kind == Entrada) || (filter == "salida" && m.kind == Salida)
  {
  }

  // ---------------------------------------------------------------------
  // Sorting

  datatype SortKey = ByDate | ById | ByItemId | ByItemName | ByType | ByQuantityChanged | ByReason | Unsorted

  datatype SortDirection = Asc | Desc

  /** The sign of `comparison` before the direction is applied: dates by
      time, text fields by `localeCompare`, the magnitude numerically. */
  function Comparison(key: SortKey, a: Movement, b: Movement): int {
    match key
    case ByDate => Sorting.Sign(a.date - b.date)
    case ById => Text.StrCompare(a.id, b.id)
    case ByItemId => Text.StrCompare(a.itemId, b.itemId)
    case ByItemName => Text.StrCompare(a.itemName, b.itemName)
    case ByType => Text.StrCompare(TypeName(a.kind), TypeName(b.kind))
    case ByReason => Text.StrCompare(a.reason, b.reason)
    case ByQuantityChanged => Sorting.Sign(a.quantityChanged - b.quantityChanged)
    case Unsorted => 0
  }

  function MovementCompare(key: SortKey, dir: SortDirection, a: Movement, b: Movement): int {
    if dir == Asc then Comparison(key, a, b) else -Comparison(key, a, b)
  }

  function ByKey(key: SortKey, dir: SortDirection): (Movement, Movement) -> int {
    (a: Movement, b: Movement) => MovementCompare(key, dir, a, b)
  }

  lemma MovementCompareAntisymmetric(key: SortKey, dir: SortDirection, a: Movement, b: Movement)
    ensures MovementCompare(key, dir, a, b) == -MovementCompare(key, dir, b, a)
  {
    match key
    case ById => Text.StrCompareAntisymmetric(a.id, b.id);
    case ByItemId => Text.StrCompareAntisymmetric(a.itemId, b.itemId);
    case ByItemName => Text.StrCompareAntisymmetric(a.itemName, b.itemName);
    case ByType => Text.StrCompareAntisymmetric(TypeName(a.kind), TypeName(b.kind));
    case ByReason => Text.StrCompareAntisymmetric(a.reason, b.reason);
    case _ =>
  }

  /** In the default order (date, descending) the newest movement comes
      first: every movement is at least as recent as all that follow it. */
  lemma {:induction false} NewestFirst(r: seq<Movement>)
    requires Sorting.Sorted(r, ByKey(ByDate, Desc))
    ensures forall i, j :: 0 <= i < j < |r| ==> r[i].date >= r[j].date
  {
    if |r| > 1 {
      var tail := r[1..];
      assert Sorting.Sorted(tail, ByKey(ByDate, Desc)) by {
        forall k | 0 < k < |tail| ensures MovementCompare(ByDate, Desc, tail[k - 1], tail[k]) <= 0 {
          assert tail[k - 1] == r[k] && tail[k] == r[k + 1];
        }
      }
      NewestFirst(tail);
      assert MovementCompare(ByDate, Desc, r[0], r[1]) <= 0;
      forall i, j | 0 <= i < j < |r| ensures r[i].date >= r[j].date {
        if i == 0 {
          if j > 1 {
            assert tail[0] == r[1] && tail[j - 1] == r[j];
          }
        } else {
          assert tail[i - 1] == r[i] && tail[j - 1] == r[j];
        }
      }
    }
  }

  /** `filteredAndSortedMovements`: the movements that pass the search and
      the type filter, sorted by the chosen key (in history order when none
      is chosen); nothing before the store has loaded. */
  method FilteredAndSortedMovements(movements: seq<Movement>, isInitialized: bool, searchTerm: string,
                                    typeFilter: string, key: SortKey, dir: SortDirection)
    returns (r: seq<Movement>)
    ensures !isInitialized ==> r == []
    ensures forall m :: m in r <==>
      isInitialized && m in movements && MatchesSearch(searchTerm, m) && OfType(typeFilter, m)
    ensures multiset(r) <= multiset(movements)
    ensures isInitialized ==> multiset(r) == multiset(Seqs.Filter(movements, Kept(searchTerm, typeFilter)))
    ensures key != Unsorted ==> Sorting.Sorted(r, ByKey(key, dir))
    ensures isInitialized && key == Unsorted ==> r == Seqs.Filter(movements, Kept(searchTerm, typeFilter))
  {
    if !isInitialized {
      return [];
    }
    r := OfTypeOnly(Searched(movements, searchTerm), typeFilter);
    TwoFilters(movements, searchTerm, typeFilter);
    if key != Unsorted {
      forall x: Movement, y: Movement ensures ByKey(key, dir)(x, y) > 0 ==> ByKey(key, dir)(y, x) <= 0 {
        MovementCompareAntisymmetric(key, dir, x, y);
      }
      var kept := r;
      r := Sorting.SortedCopy(kept, ByKey(key, dir));
      Seqs.SameMembers(r, kept);
    }
  }

  // ---------------------------------------------------------------------
  // Header clicks

  /** `handleSort(key)`: the current key flips the direction; another key
      starts ascending, except the date, which starts descending. */
  function AfterClick(current: SortKey, dir: SortDirection, clicked: SortKey): (r: (SortKey, SortDirection))
    ensures r.0 == clicked
  {
    if current == clicked then (clicked, if dir == Asc then Desc else Asc)
    else (clicked, if clicked == ByDate then Desc else Asc)
  }

  /** Two clicks on the same header restore the direction; returning to
      the date column from any other restores the default order. */
  lemma ClickTwice(current: SortKey, dir: SortDirection, clicked: SortKey, other: SortKey)
    ensures current == clicked ==> AfterClick(clicked, AfterClick(current, dir, clicked).1, clicked) == (current, dir)
    ensures other != ByDate ==> AfterClick(other, dir, ByDate) == (ByDate, Desc)
  {
  }

  /** The history's view state. */
  class MovementListView {
    var searchTerm: string
    var typeFilter: string
    var sortKey: SortKey
    var sortDirection: SortDirection

    /** The initial state: no search, all types, newest first. */
    constructor ()
      ensures searchTerm == "" && typeFilter == AllMovementTypes
      ensures sortKey == ByDate && sortDirection == Desc
    {
      searchTerm := "";
      typeFilter := AllMovementTypes;
      sortKey := ByDate;
      sortDirection := Desc;
    }

    method HandleSort(key: SortKey)
      modifies this`sortKey, this`sortDirection
      ensures (sortKey, sortDirection) == AfterClick(old(sortKey), old(sortDirection), key)
    {
      if sortKey == key {
        sortDirection := if sortDirection == Asc then Desc else Asc;
      } else {
        sortKey := key;
        sortDirection := Asc;
        if key == ByDate {
          sortDirection := Desc;
        }
      }
    }
  }

  // ---------------------------------------------------------------------
  // Deleted items

  /** `doesItemExist(itemId)`: `items.some(item => item.id === itemId)`. */
  function DoesItemExist(items: seq<Item>, itemId: string): (r: bool)
    ensures r <==> exists i :: 0 <= i < |items| && items[i].id == itemId
  {
    if items == [] then false
    else items[0].id == itemId || DoesItemExist(items[1..], itemId)
  }

  /** A movement links to its item exactly when the store can look that
      item up; once the item is deleted, its movements show it as deleted. */
  lemma ExistsIffFound(items: seq<Item>, itemId: string)
    ensures DoesItemExist(items, itemId) <==> InventoryStore.FindItem(items, itemId).Some?
    ensures !DoesItemExist(InventoryStore.RemoveById(items, itemId), itemId)
  {
  }
}
