/** The application sidebar: its two fixed lists of routes and the rule that
    decides which item is highlighted for the current path. Prefix matching
    is on raw characters (`String.prototype.startsWith`), which Dafny's `<=`
    on sequences is. */
module Sidebar {

  datatype NavItem = NavItem(href: string, caption: string)

  const DashboardHref := "/dashboard"

  const MainNav: seq<NavItem> := [
    NavItem("/dashboard", "Dashboard"),
    NavItem("/scanner", "Vulnerability Scanner"),
    NavItem("/simulator", "Transaction Simulator"),
    NavItem("/gas-estimator", "Gas Estimator"),
    NavItem("/address-reputation", "Address Reputation"),
    NavItem("/alerts", "Alerts"),
    NavItem("/visualizations", "Visualizations")
  ]

  const BottomNav: seq<NavItem> := [
    NavItem("/settings", "Settings"),
    NavItem("/support", "Support")
  ]

  const HighlightedClass := "bg-sidebar-primary text-sidebar-primary-foreground hover:bg-sidebar-primary/90 hover:text-sidebar-primary-foreground"
  const PlainClass := "hover:bg-sidebar-accent hover:text-sidebar-accent-foreground"

  /** A main item is active on its own path and, except for the dashboard,
      on every path it is a character prefix of. */
  predicate IsMainActive(pathname: string, href: string)
  {
    pathname == href || (href != DashboardHref && href <= pathname)
  }

  /** A bottom item is active only on its own path. */
  predicate IsBottomActive(pathname: string, href: string)
  {
    pathname == href
  }

  /** What one rendered menu button carries: its active flag and its classes. */
  datatype Button = Button(href: string, isActive: bool, className: string)

  function ClassFor(highlighted: bool): string
  {
    "justify-start " + (if highlighted then HighlightedClass else PlainClass)
  }

  /** A main-list button. The source writes the activity test twice, once for
      `isActive` and once for the classes; both copies are kept here. */
  function MainButton(pathname: string, item: NavItem): (b: Button)
    ensures b.isActive <==> IsMainActive(pathname, item.href)
    ensures b.className == ClassFor(true) <==> b.isActive
  {
    Button(item.href,
           pathname == item.href || (item.href != DashboardHref && item.href <= pathname),
           ClassFor(pathname == item.href || (item.href != "/dashboard" && item.href <= pathname)))
  }

  /** A bottom-list button, with the same two copies of its exact-match test. */
  function BottomButton(pathname: string, item: NavItem): (b: Button)
    ensures b.isActive <==> pathname == item.href
    ensures b.className == ClassFor(true) <==> b.isActive
  {
    var active := IsBottomActive(pathname, item.href);
    Button(item.href, active, ClassFor(active))
  }

  /** The main items active for a path, in menu order. */
  function ActiveMainItems(pathname: string, items: seq<NavItem>): (active: seq<NavItem>)
    ensures forall x :: x in active <==> x in items && IsMainActive(pathname, x.href)
  {
    if items == [] then []
    else
      var rest := ActiveMainItems(pathname, items[1..]);
      if IsMainActive(pathname, items[0].href) then [items[0]] + rest else rest
  }

  /** The dashboard is highlighted only on "/dashboard" itself. */
  lemma DashboardOnlyOnExactMatch(pathname: string)
    ensures IsMainActive(pathname, DashboardHref) <==> pathname == DashboardHref
  {
  }

  /** Matching is by characters, not path segments: "/scanner-x" highlights
      the scanner. */
  lemma PrefixMatchIsByCharacters()
    ensures IsMainActive("/scanner-x", "/scanner")
    ensures !IsMainActive("/scanner-x", "/simulator")
  {
    assert "/simulator"[2] != "/scanner-x"[2];
  }

  /** The dashboard never matches a deeper path, so the testing analyzer at
      "/dashboard/testing-type" highlights no main item at all. */
  lemma TestingTypePathHighlightsNothing()
    ensures ActiveMainItems("/dashboard/testing-type", MainNav) == []
  {
    var p := "/dashboard/testing-type";
    forall i | 1 <= i < |MainNav|
      ensures !IsMainActive(p, MainNav[i].href)
    {
      assert MainNav[i].href[1] != p[1];
    }
    assert !IsMainActive(p, MainNav[0].href);
    NoneActive(p, MainNav);
  }

  /** Two prefixes of one sequence are prefixes of one another. */
  lemma PrefixesAreComparable(a: string, b: string, s: string)
    requires a <= s && b <= s
    ensures a <= b || b <= a
  {
    if |a| <= |b| {
      assert a == s[..|a|] == b[..|a|];
    } else {
      assert b == s[..|b|] == a[..|b|];
    }
  }

  /** No main href is a prefix of another. */
  lemma MainHrefsArePrefixFree(i: int, j: int)
    requires 0 <= i < |MainNav| && 0 <= j < |MainNav| && i != j
    ensures !(MainNav[i].href <= MainNav[j].href)
  {
    var a, b := MainNav[i].href, MainNav[j].href;
    if |a| <= |b| {
      assert a[1] != b[1] || a[2] != b[2];
    }
  }

  /** Two distinct main items are never active together. */
  lemma {:induction false} ActiveMainItemsExclude(pathname: string, i: int, j: int)
    requires 0 <= i < |MainNav| && 0 <= j < |MainNav| && i != j
    ensures !(IsMainActive(pathname, MainNav[i].href) && IsMainActive(pathname, MainNav[j].href))
  {
    var a, b := MainNav[i].href, MainNav[j].href;
    MainHrefsArePrefixFree(i, j);
    MainHrefsArePrefixFree(j, i);
    if IsMainActive(pathname, a) && IsMainActive(pathname, b) {
      assert a <= pathname && b <= pathname;
      PrefixesAreComparable(a, b, pathname);
      assert false;
    }
  }

  lemma {:induction false} NoneActive(pathname: string, items: seq<NavItem>)
    requires forall i :: 0 <= i < |items| ==> !IsMainActive(pathname, items[i].href)
    ensures ActiveMainItems(pathname, items) == []
  {
    if items != [] {
      NoneActive(pathname, items[1..]);
    }
  }

  /** A list whose items are pairwise never active together has at most one
      active item. */
  lemma {:induction false} PairwiseExclusiveAtMostOne(pathname: string, items: seq<NavItem>)
    requires forall i, j :: 0 <= i < j < |items| ==>
               !(IsMainActive(pathname, items[i].href) && IsMainActive(pathname, items[j].href))
    ensures |ActiveMainItems(pathname, items)| <= 1
  {
    if items != [] {
      if IsMainActive(pathname, items[0].href) {
        forall k | 0 <= k < |items[1..]|
          ensures !IsMainActive(pathname, items[1..][k].href)
        {
          assert items[1..][k] == items[k + 1];
        }
        NoneActive(pathname, items[1..]);
      } else {
        PairwiseExclusiveAtMostOne(pathname, items[1..]);
      }
    }
  }

  /** At most one main item is highlighted, whatever the path. */
  lemma AtMostOneMainItemActive(pathname: string)
    ensures |ActiveMainItems(pathname, MainNav)| <= 1
  {
    forall i, j | 0 <= i < j < |MainNav|
      ensures !(IsMainActive(pathname, MainNav[i].href) && IsMainActive(pathname, MainNav[j].href))
    {
      ActiveMainItemsExclude(pathname, i, j);
    }
    PairwiseExclusiveAtMostOne(pathname, MainNav);
  }

  /** Bottom items need an exact match: a deeper path activates none of them. */
  lemma BottomItemsExactOnly(pathname: string, item: NavItem)
    requires item in BottomNav
    requires pathname != item.href
    ensures !BottomButton(pathname, item).isActive
  {
  }
}
