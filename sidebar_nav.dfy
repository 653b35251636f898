/** The sidebar menu: its fixed entries and which of them is highlighted
    for the current path. */
module SidebarNav {
  import Text

  datatype NavItem = NavItem(href: string, caption: string)

  const DashboardPath := "/dashboard"
  const InventoryPath := "/inventario"
  const NewItemPath := "/inventario/nuevo"
  /** Editing an item keeps the inventory entry highlighted. */
  const EditPrefix := "/inventario/editar/"

  /** `navItems`, in menu order. */
  function NavItems(): (r: seq<NavItem>)
    ensures |r| == 3
    ensures r[0].href == DashboardPath && r[1].href == InventoryPath && r[2].href == NewItemPath
  {
    [NavItem(DashboardPath, "Dashboard"), NavItem(InventoryPath, "Inventario"), NavItem(NewItemPath, "Añadir Artículo")]
  }

  /** `itemIsActive` for an entry and a path: the inventory entry also
      covers the edit pages; an entry the chain does not name is never
      active. */
  predicate ItemIsActive(href: string, pathname: string) {
    if href == DashboardPath then pathname == href
    else if href == InventoryPath then pathname == href || Text.StartsWith(pathname, EditPrefix)
    else if href == NewItemPath then pathname == href
    else false
  }

  /** The highlight of every menu entry, in menu order. */
  function ActiveFlags(pathname: string): (r: seq<bool>)
    ensures |r| == |NavItems()|
    ensures forall i :: 0 <= i < |r| ==> r[i] == ItemIsActive(NavItems()[i].href, pathname)
  {
    var items := NavItems();
    seq(|items|, i requires 0 <= i < |items| => ItemIsActive(items[i].href, pathname))
  }

  /** Each entry's rule, read off the chain. */
  lemma EntryRules(pathname: string)
    ensures ActiveFlags(pathname)[0] <==> pathname == DashboardPath
    ensures ActiveFlags(pathname)[1] <==> pathname == InventoryPath || Text.StartsWith(pathname, EditPrefix)
    ensures ActiveFlags(pathname)[2] <==> pathname == NewItemPath
  {
  }

  /** A path that starts with the edit prefix is at least that long and
      agrees with it there, so it is neither of the other two paths. */
  lemma EditPagesAreDistinct(pathname: string)
    requires Text.StartsWith(pathname, EditPrefix)
    ensures pathname != DashboardPath && pathname != NewItemPath && pathname != InventoryPath
  {
    assert |EditPrefix| == 19;
    assert pathname[..|EditPrefix|] == EditPrefix;
  }

  /** For every path at most one entry is highlighted. */
  lemma AtMostOneActive(pathname: string)
    ensures forall i, j :: 0 <= i < j < |ActiveFlags(pathname)| ==>
      !(ActiveFlags(pathname)[i] && ActiveFlags(pathname)[j])
  {
    if Text.StartsWith(pathname, EditPrefix) {
      EditPagesAreDistinct(pathname);
    }
  }

  /** Each menu entry's own path highlights that entry and no other. */
  lemma OwnPathHighlightsOnlyItself(k: int)
    requires 0 <= k < |NavItems()|
    ensures ActiveFlags(NavItems()[k].href)[k]
    ensures forall i :: 0 <= i < |NavItems()| && i != k ==> !ActiveFlags(NavItems()[k].href)[i]
  {
    AtMostOneActive(NavItems()[k].href);
  }
}
