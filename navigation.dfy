/** The bottom navigation bar (src/components/BottomNavigation.tsx): four
    fixed destinations, each highlighted when the current location lies
    under its path. */
module Navigation {
  import opened JsText

  datatype NavItem = NavItem(id: string, caption: string, path: string)

  /** `navigationItems`, in the order the bar shows them. */
  const Items: seq<NavItem> :=
    [ NavItem("goals", "Goals", "/goals"),
      NavItem("tasks", "Tasks", "/tasks"),
      NavItem("chat", "Chat", "/chat"),
      NavItem("analytics", "Analytics", "/analytics") ]

  /** The bar's items: four of them, none at the root, and no path a prefix
      of another. */
  function NavigationItems(): (items: seq<NavItem>)
    ensures items == Items && |items| == 4
    ensures forall i, j :: 0 <= i < j < |items| ==> items[i].id != items[j].id
    ensures forall i :: 0 <= i < |items| ==> items[i].path != "/" && |items[i].path| > 1
    ensures forall i, j :: 0 <= i < |items| && 0 <= j < |items| && i != j ==>
      !StartsWith(items[i].path, items[j].path)
  {
    ItemsDiffer();
    Items
  }

  /** The four ids part ways at their first character, the four paths at
      their second. */
  lemma ItemsDiffer()
    ensures forall i, j :: 0 <= i < j < |Items| ==> Items[i].id != Items[j].id
    ensures forall i, j :: 0 <= i < |Items| && 0 <= j < |Items| && i != j ==>
      !StartsWith(Items[i].path, Items[j].path)
  {
    assert Items[0].path[1] == 'g' && Items[1].path[1] == 't';
    assert Items[2].path[1] == 'c' && Items[3].path[1] == 'a';
    assert Items[0].id[0] == 'g' && Items[1].id[0] == 't';
    assert Items[2].id[0] == 'c' && Items[3].id[0] == 'a';
    forall i, j | 0 <= i < j < |Items|
      ensures Items[i].id != Items[j].id
    {
      assert Items[i].id[0] != Items[j].id[0];
    }
    forall i, j | 0 <= i < |Items| && 0 <= j < |Items| && i != j
      ensures !StartsWith(Items[i].path, Items[j].path)
    {
      assert Items[i].path[1] != Items[j].path[1];
    }
  }

  /** `isActive(path)` for the current `location.pathname`: the root is
      active only on itself, any other path on every location under it. */
  predicate IsActive(pathname: string, path: string): (b: bool)
    ensures path == "/" ==> (b <==> pathname == "/")
    ensures path != "/" ==> (b <==> exists rest :: pathname == path + rest)
  {
    if path == "/" then pathname == "/" else StartsWith(pathname, path)
  }

  /** Being at an item's path, or anywhere under it, highlights that item;
      the root path highlights only at the root. */
  lemma IsActiveUnder(path: string, rest: string)
    ensures IsActive(path + rest, path) <==> path != "/" || rest == ""
  {
    if path != "/" {
      assert (path + rest)[..|path|] == path;
    } else if rest != "" {
      assert |path + rest| > 1;
    }
  }

  /** Whatever the location, at most one item of the bar is highlighted. */
  lemma {:induction false} AtMostOneActive(pathname: string)
    ensures forall i, j :: 0 <= i < j < |NavigationItems()| ==>
      !(IsActive(pathname, NavigationItems()[i].path) && IsActive(pathname, NavigationItems()[j].path))
  {
    var items := NavigationItems();
    forall i, j | 0 <= i < j < |items|
      ensures !(IsActive(pathname, items[i].path) && IsActive(pathname, items[j].path))
    {
      if IsActive(pathname, items[i].path) && IsActive(pathname, items[j].path) {
        PrefixesAreNested(pathname, items[i].path, items[j].path);
        assert false;
      }
    }
  }

  /** On each item's own page exactly that item is highlighted. */
  lemma OwnPageHighlightsOnlyItself(k: nat)
    requires k < |NavigationItems()|
    ensures forall i :: 0 <= i < |NavigationItems()| ==>
      (IsActive(NavigationItems()[k].path, NavigationItems()[i].path) <==> i == k)
  {
    var items := NavigationItems();
    IsActiveUnder(items[k].path, "");
    assert items[k].path + "" == items[k].path;
  }
}
