/** The sidebar's active menu item: among the items whose url starts the current
    path, the one with the longest url, the earliest of equally long ones (the
    items are sorted by decreasing url length with a stable sort and the first is
    taken). */
module NavMain {
  import opened Wrappers
  import opened Text

  datatype NavItem = NavItem(title: string, url: string)

  predicate Matches(pathname: string, item: NavItem)
  {
    StartsWith(pathname, item.url)
  }

  /** The position of the active item, or -1 when no url is a prefix of the path. */
  function ActiveIndex(items: seq<NavItem>, pathname: string): (k: int)
    ensures -1 <= k < |items|
    ensures k == -1 <==> forall j :: 0 <= j < |items| ==> !Matches(pathname, items[j])
    ensures k >= 0 ==> Matches(pathname, items[k])
    ensures k >= 0 ==> forall j :: 0 <= j < |items| && Matches(pathname, items[j]) ==> |items[j].url| <= |items[k].url|
    ensures k >= 0 ==> forall j :: 0 <= j < k && Matches(pathname, items[j]) ==> |items[j].url| < |items[k].url|
  {
    if items == [] then -1
    else
      var rest := ActiveIndex(items[1..], pathname);
      assert forall j :: 1 <= j < |items| ==> items[1..][j - 1] == items[j];
      if Matches(pathname, items[0]) && (rest == -1 || |items[1..][rest].url| <= |items[0].url|) then 0
      else if rest == -1 then -1
      else rest + 1
  }

  /** `activeItem`: `undefined` when nothing matches. */
  function ActiveItem(items: seq<NavItem>, pathname: string): (r: Option<NavItem>)
    ensures r.None? <==> forall j :: 0 <= j < |items| ==> !Matches(pathname, items[j])
    ensures r.Some? ==> r.value in items && StartsWith(pathname, r.value.url)
  {
    var k := ActiveIndex(items, pathname);
    if k == -1 then None else Some(items[k])
  }

  /** `activeItem?.url === item.url`. */
  predicate IsActive(items: seq<NavItem>, pathname: string, item: NavItem): (b: bool)
    ensures b ==> StartsWith(pathname, item.url)
    ensures b ==> exists j :: 0 <= j < |items| && items[j].url == item.url && Matches(pathname, items[j])
  {
    ActiveItem(items, pathname).Some? && ActiveItem(items, pathname).value.url == item.url
  }

  /** No matching item has a longer url than the active one, so a highlighted item's
      url is a longest matching prefix of the path. */
  lemma HighlightedIsLongest(items: seq<NavItem>, pathname: string, item: NavItem)
    requires item in items && IsActive(items, pathname, item)
    ensures StartsWith(pathname, item.url)
    ensures forall j :: 0 <= j < |items| && Matches(pathname, items[j]) ==> |items[j].url| <= |item.url|
  {
  }

  /** Matching is character-wise: `/dashboard` is active on `/dashboards`. */
  lemma PrefixNotSegment()
    ensures var items := [NavItem("Dashboard", "/dashboard")];
            ActiveItem(items, "/dashboards") == Some(items[0])
  {
    var items := [NavItem("Dashboard", "/dashboard")];
    assert "/dashboards"[..10] == "/dashboard";
    assert Matches("/dashboards", items[0]);
  }

  /** The more specific of two nested urls wins, whatever their order. */
  lemma NestedUrlWins(parent: NavItem, child: NavItem, pathname: string)
    requires StartsWith(pathname, child.url) && StartsWith(child.url, parent.url) && |parent.url| < |child.url|
    ensures ActiveItem([parent, child], pathname) == Some(child)
    ensures ActiveItem([child, parent], pathname) == Some(child)
  {
    var a, b := [parent, child], [child, parent];
    assert a[1] == child && b[0] == child;
  }
}
