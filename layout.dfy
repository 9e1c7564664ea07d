/** The frame around every page: the navigation entries a user may see, the
    active entry, the header title and the brand and avatar texts. */
module Layout {
  import opened Wrappers
  import opened Types
  import opened Seqs

  datatype NavItem = NavItem(name: string, path: string, permission: Permission)

  /** The five entries, one per permission, in the order they are shown. */
  const AllNavItems: seq<NavItem> := [
    NavItem("Dashboard", "/", DashboardArea),
    NavItem("Shops", "/shops", ShopsArea),
    NavItem("Rent", "/rent", RentArea),
    NavItem("Maintenance", "/maintenance", MaintenanceArea),
    NavItem("Settings", "/settings", SettingsArea)
  ]

  /** Where a permission's entry stands in the fixed list. */
  function Rank(p: Permission): nat
  {
    match p
    case DashboardArea => 0
    case ShopsArea => 1
    case RentArea => 2
    case MaintenanceArea => 3
    case SettingsArea => 4
  }

  /** `user?.permissions.includes(item.permission)`: no user shows nothing. */
  predicate Permitted(user: Option<User>, item: NavItem)
  {
    user.Some? && item.permission in user.value.permissions
  }

  /** `allNavItems.filter(item => user?.permissions.includes(item.permission))` */
  function NavItems(user: Option<User>): (items: seq<NavItem>)
    ensures forall x :: x in items <==> x in AllNavItems && Permitted(user, x)
    ensures |items| <= 5
  {
    Filter(AllNavItems, (x: NavItem) => Permitted(user, x))
  }

  /** Entries strictly ordered by their place in the fixed list. */
  predicate InListOrder(items: seq<NavItem>)
  {
    forall i, j :: 0 <= i < j < |items| ==> Rank(items[i].permission) < Rank(items[j].permission)
  }

  /** The entries a user sees keep the fixed order, each at most once. */
  lemma NavItemsInOrder(user: Option<User>)
    ensures InListOrder(NavItems(user))
  {
    AllNavItemsInOrder();
    FilterKeepsOrder(AllNavItems, (x: NavItem) => Permitted(user, x));
  }

  lemma AllNavItemsInOrder()
    ensures InListOrder(AllNavItems)
  {
    forall i, j | 0 <= i < j < |AllNavItems|
      ensures Rank(AllNavItems[i].permission) < Rank(AllNavItems[j].permission)
    {
      assert forall k :: 0 <= k < 5 ==> Rank(AllNavItems[k].permission) == k;
    }
  }

  lemma {:induction false} FilterKeepsOrder(s: seq<NavItem>, p: NavItem -> bool)
    requires InListOrder(s)
    ensures InListOrder(Filter(s, p))
  {
    if s != [] {
      FilterKeepsOrder(s[1..], p);
      var rest := Filter(s[1..], p);
      forall x | x in rest
        ensures Rank(s[0].permission) < Rank(x.permission)
      {
        var k :| 0 <= k < |s[1..]| && s[1..][k] == x;
        assert s[k + 1] == x;
      }
    }
  }

  /** Without a signed-in user there is no navigation. */
  lemma NoUserNoNav()
    ensures NavItems(None) == []
  {
    FilterNone(AllNavItems, (x: NavItem) => Permitted(None, x));
  }

  /** A user holding all five permissions sees all five entries. */
  lemma AllPermissionsSeeAll(u: User)
    requires forall p: Permission :: p in u.permissions
    ensures NavItems(Some(u)) == AllNavItems
  {
    FilterKeepsAll(AllNavItems, (x: NavItem) => Permitted(Some(u), x));
  }

  /** `navItems.slice(0, 5)`: the bottom bar on small screens. */
  function MobileNav(items: seq<NavItem>): (shown: seq<NavItem>)
    ensures |shown| <= 5 && |shown| <= |items|
    ensures shown == items[..|shown|]
    ensures |items| <= 5 ==> shown == items
  {
    Take(items, 5)
  }

  /** The five-entry cap of the bottom bar never hides an entry. */
  lemma MobileNavShowsAll(user: Option<User>)
    ensures MobileNav(NavItems(user)) == NavItems(user)
  {
  }

  /** `location.pathname === path` */
  predicate IsActive(pathname: string, path: string)
  {
    pathname == path
  }

  /** `navItems.find(i => isActive(i.path))`, as the position of the first
      entry for the current path. */
  function FindActive(items: seq<NavItem>, pathname: string): (found: Option<nat>)
    ensures found.None? <==> forall i :: 0 <= i < |items| ==> !IsActive(pathname, items[i].path)
    ensures found.Some? ==> found.value < |items| && IsActive(pathname, items[found.value].path)
    ensures found.Some? ==> forall j :: 0 <= j < found.value ==> !IsActive(pathname, items[j].path)
  {
    if items == [] then None
    else if IsActive(pathname, items[0].path) then Some(0)
    else match FindActive(items[1..], pathname)
      case None => None
      case Some(k) => Some(k + 1)
  }

  /** `navItems.find(...)?.label || 'Plaza Manager'` */
  function HeaderTitle(items: seq<NavItem>, pathname: string): (title: string)
    ensures (forall i :: 0 <= i < |items| ==> !IsActive(pathname, items[i].path)) ==> title == "Plaza Manager"
    ensures FindActive(items, pathname).Some? ==>
              var first := items[FindActive(items, pathname).value];
              title == (if first.name == "" then "Plaza Manager" else first.name)
    ensures title != ""
  {
    match FindActive(items, pathname)
    case None => "Plaza Manager"
    case Some(k) => if items[k].name == "" then "Plaza Manager" else items[k].name
  }

  /** On each page the user may open, the header shows that page's name. */
  lemma HeaderNamesPermittedPage(user: Option<User>, item: NavItem)
    requires item in AllNavItems && Permitted(user, item)
    ensures HeaderTitle(NavItems(user), item.path) == item.name
  {
    var items := NavItems(user);
    assert item in items;
    var found := FindActive(items, item.path);
    NavItemIdentified(items[found.value], item);
  }

  /** The five entries have distinct paths and non-empty names. */
  lemma NavItemIdentified(x: NavItem, y: NavItem)
    requires x in AllNavItems && y in AllNavItems && x.path == y.path
    ensures x == y && x.name != ""
  {
    var i :| 0 <= i < 5 && AllNavItems[i] == x;
    var j :| 0 <= j < 5 && AllNavItems[j] == y;
    assert |AllNavItems[i].path| == |AllNavItems[j].path|;
  }

  /** `settings.plazaName || 'Plaza Manager'` in the sidebar. */
  function SidebarBrand(plazaName: string): (brand: string)
    ensures brand != ""
    ensures plazaName != "" ==> brand == plazaName
    ensures plazaName == "" ==> brand == "Plaza Manager"
  {
    if plazaName == "" then "Plaza Manager" else plazaName
  }

  /** `settings.plazaName || 'Plaza'` in the small-screen header. */
  function MobileBrand(plazaName: string): (brand: string)
    ensures brand != ""
    ensures plazaName != "" ==> brand == plazaName
    ensures plazaName == "" ==> brand == "Plaza"
  {
    if plazaName == "" then "Plaza" else plazaName
  }

  /** `user?.displayName?.[0] || 'U'`: the avatar letter. */
  function AvatarInitial(user: Option<User>): (initial: string)
    ensures |initial| == 1
    ensures user.Some? && user.value.displayName != "" ==> initial == [user.value.displayName[0]]
    ensures user.None? || user.value.displayName == "" ==> initial == "U"
  {
    if user.Some? && user.value.displayName != "" then [user.value.displayName[0]] else "U"
  }
}
