/** The sidebar of the layout: the navigation table, its permission filter and the active-item test. */
module Navigation {

  import opened Wrappers
  import opened Types
  import Text
  import Lists
  import Auth

  datatype NavItem = NavItem(name: string, href: string)

  /** The fifteen sidebar entries, in display order. */
  const NavigationTable: seq<NavItem> := [
    NavItem("Dashboard", "/dashboard"),
    NavItem("AssetLib", "/assets/library"),
    NavItem("Ingest", "/assets/ingest"),
    NavItem("OnboardReady", "/assets/onboard"),
    NavItem("AssureQC", "/assets/qc"),
    NavItem("MediaReady", "/assets/delivery"),
    NavItem("EncodeX", "/assets/encodex"),
    NavItem("QuickHighlights", "/assets/highlights"),
    NavItem("LinguaX", "/assets/linguax"),
    NavItem("FlowWorks", "/assets/flowworks"),
    NavItem("Restore", "/assets/restore"),
    NavItem("Review", "/assets/review"),
    NavItem("Tagging", "/assets/tagging"),
    NavItem("Subtitles", "/assets/subtitles"),
    NavItem("Permissions", "/admin/permissions")
  ]

  predicate IsAdminRoute(item: NavItem) {
    Text.Contains(item.href, "/admin/")
  }

  /** The filter callback: admin routes need `users`/`read`, every other item is shown. */
  predicate Shown(user: Option<User>, item: NavItem) {
    if IsAdminRoute(item) then Auth.HasPermission(user, "users", "read") else true
  }

  function ShownTo(user: Option<User>): NavItem -> bool {
    item => Shown(user, item)
  }

  /** `navigation.filter(...)` over any table of items. */
  function FilterItems(items: seq<NavItem>, user: Option<User>): (r: seq<NavItem>)
    ensures Lists.IsSubsequence(r, items)
    ensures forall i :: 0 <= i < |items| && !IsAdminRoute(items[i]) ==> items[i] in r
    ensures forall i :: 0 <= i < |items| && IsAdminRoute(items[i]) ==>
              (items[i] in r <==> Auth.HasPermission(user, "users", "read"))
    ensures forall i :: 0 <= i < |r| ==> r[i] in items
  {
    Lists.FilterIsSubsequence(ShownTo(user), items);
    Lists.Filter(ShownTo(user), items)
  }

  /** `filteredNavigation`: the sidebar entries the signed-in user sees. */
  function FilteredNavigation(user: Option<User>): seq<NavItem> {
    FilterItems(NavigationTable, user)
  }

  /** A link is highlighted exactly when the current path is its `href`, character for character. */
  predicate IsActive(pathname: string, item: NavItem) {
    pathname == item.href
  }

  /** Only the last entry of the table is an admin route. */
  lemma OnlyPermissionsIsAdmin()
    ensures |NavigationTable| == 15
    ensures forall i :: 0 <= i < 14 ==> !IsAdminRoute(NavigationTable[i])
    ensures IsAdminRoute(NavigationTable[14])
  {
    EarlyHrefsLackM();
    forall i | 0 <= i < 14 ensures !IsAdminRoute(NavigationTable[i]) {
      WithoutMNotAdmin(NavigationTable[i]);
    }
    assert Text.OccursAt(NavigationTable[14].href, "/admin/", 0);
  }

  /** The hrefs of the first fourteen entries, listed on their own so the proofs can reason about them as plain strings. */
  const EarlyHrefs: seq<string> := [
    "/dashboard",
    "/assets/library",
    "/assets/ingest",
    "/assets/onboard",
    "/assets/qc",
    "/assets/delivery",
    "/assets/encodex",
    "/assets/highlights",
    "/assets/linguax",
    "/assets/flowworks",
    "/assets/restore",
    "/assets/review",
    "/assets/tagging",
    "/assets/subtitles"
  ]

  lemma EarlyHrefsListed()
    ensures forall i :: 0 <= i < 14 ==> NavigationTable[i].href == EarlyHrefs[i]
  {
  }

  /** None of the first fourteen hrefs has the letter `m`. */
  lemma EarlyHrefsLackM()
    ensures forall i :: 0 <= i < 14 ==> 'm' !in NavigationTable[i].href
  {
    EarlyHrefsListed();
    PlainHrefsLackM();
  }

  lemma PlainHrefsLackM()
    ensures forall i :: 0 <= i < 14 ==> 'm' !in EarlyHrefs[i]
  {
  }

  /** An href without the letter `m` cannot contain "/admin/". */
  lemma WithoutMNotAdmin(item: NavItem)
    requires 'm' !in item.href
    ensures !IsAdminRoute(item)
  {
    if IsAdminRoute(item) {
      Text.ContainedCharsOccur(item.href, "/admin/", 'm');
    }
  }

  /** In a table whose only admin route is its last entry, the filter drops at most that entry. */
  lemma {:induction false} SizeWithLastAdmin(items: seq<NavItem>, user: Option<User>)
    requires |items| > 0
    requires forall i :: 0 <= i < |items| - 1 ==> !IsAdminRoute(items[i])
    requires IsAdminRoute(items[|items| - 1])
    ensures |FilterItems(items, user)| == if Auth.HasPermission(user, "users", "read") then |items| else |items| - 1
  {
    var shown := ShownTo(user);
    var n := |items| - 1;
    assert items == items[..n] + [items[n]];
    Lists.FilterAppend(shown, items[..n], [items[n]]);
    assert Lists.Filter(shown, items[..n]) == items[..n];
  }

  /** A user who may read users sees all fifteen entries; anyone else sees fourteen. */
  lemma FilteredNavigationSize(user: Option<User>)
    ensures |FilteredNavigation(user)| == if Auth.HasPermission(user, "users", "read") then 15 else 14
  {
    OnlyPermissionsIsAdmin();
    SizeWithLastAdmin(NavigationTable, user);
  }

  /** No two entries share an `href`, so at most one entry is active for any path. */
  lemma AtMostOneActive(pathname: string, i: nat, j: nat)
    requires i < j < |NavigationTable|
    requires IsActive(pathname, NavigationTable[i])
    ensures !IsActive(pathname, NavigationTable[j])
  {
  }
}
