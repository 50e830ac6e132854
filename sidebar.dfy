/**
 * The navigation sidebar (src/components/layout/Sidebar.tsx): the menu
 * each role gets, which item is highlighted, and what a click forwards.
 */
module Sidebar {
  import opened Wrappers
  import opened Users
  import Lists
  import AdminDashboard

  /** A menu entry (its `label` is `caption` here); the icon is presentation only and left out. */
  datatype MenuItem = MenuItem(caption: string, value: string)

  /** `getMenuItems`: a switch on the role string. */
  function MenuItems(role: string): seq<MenuItem>
  {
    if role == "admin" then
      [MenuItem("Doctors", "doctors"), MenuItem("Departments", "departments")]
    else if role == "doctor" then
      [MenuItem("Appointments", "appointments"), MenuItem("Medical Records", "records")]
    else if role == "patient" then
      [MenuItem("Book Appointment", "book"), MenuItem("Reports", "reports"), MenuItem("Profile", "profile")]
    else []
  }

  /** The item values of a menu, in order. */
  function Values(items: seq<MenuItem>): (vs: seq<string>)
    ensures |vs| == |items|
    ensures forall i :: 0 <= i < |items| ==> vs[i] == items[i].value
  {
    Lists.Map(items, (item: MenuItem) => item.value)
  }

  /** The number of items rendered highlighted: those whose value is `activeTab`. */
  function Highlighted(items: seq<MenuItem>, activeTab: string): nat
  {
    Lists.Count(items, (item: MenuItem) => item.value == activeTab)
  }

  /** `handleMenuClick`: the tab forwarded to `onTabChange`, when there is a callback. */
  function MenuClick(value: string, hasOnTabChange: bool): Option<string>
  {
    if hasOnTabChange then Some(value) else None
  }

  /** The menu of each role, and the empty menu for any other role string. */
  lemma MenuPerRole(role: string)
    ensures role == "admin" ==> Values(MenuItems(role)) == ["doctors", "departments"]
    ensures role == "doctor" ==> Values(MenuItems(role)) == ["appointments", "records"]
    ensures role == "patient" ==> Values(MenuItems(role)) == ["book", "reports", "profile"]
    ensures RoleNamed(role) == None ==> MenuItems(role) == []
  {
  }

  /** In a menu with distinct values at most one item matches any tab. */
  lemma {:induction false} DistinctValuesHighlightAtMostOne(items: seq<MenuItem>, activeTab: string)
    requires Lists.NoDuplicates(Values(items))
    ensures Highlighted(items, activeTab) <= 1
  {
    if items != [] {
      var rest := items[1..];
      assert Values(rest) == Values(items)[1..];
      DistinctValuesHighlightAtMostOne(rest, activeTab);
      if items[0].value == activeTab {
        Lists.FilterNone(rest, (item: MenuItem) => item.value == activeTab);
      }
    }
  }

  /** Each role's menu values are distinct, so at most one item is highlighted. */
  lemma AtMostOneHighlighted(role: string, activeTab: string)
    ensures Lists.NoDuplicates(Values(MenuItems(role)))
    ensures Highlighted(MenuItems(role), activeTab) <= 1
  {
    MenuPerRole(role);
    DistinctValuesHighlightAtMostOne(MenuItems(role), activeTab);
  }

  /**
   * Clicking item `i` of a role's menu hands its value to `onTabChange`, and
   * once the parent makes that the active tab, that item and no other is
   * highlighted; without a callback nothing is forwarded.
   */
  lemma ClickHighlightsClickedItem(role: string, i: nat, hasOnTabChange: bool)
    requires i < |MenuItems(role)|
    ensures MenuClick(MenuItems(role)[i].value, hasOnTabChange).Some? <==> hasOnTabChange
    ensures hasOnTabChange ==>
              var tab := MenuClick(MenuItems(role)[i].value, true).value;
              && tab == MenuItems(role)[i].value
              && Highlighted(MenuItems(role), tab) == 1
              && forall j :: 0 <= j < |MenuItems(role)| && MenuItems(role)[j].value == tab ==> j == i
  {
    var items := MenuItems(role);
    var tab := items[i].value;
    Lists.CountRemove(items, i, (item: MenuItem) => item.value == tab);
    AtMostOneHighlighted(role, tab);
    forall j | 0 <= j < |items| && items[j].value == tab
      ensures j == i
    {
      assert Values(items)[j] == Values(items)[i];
    }
  }

  /** The admin menu offers exactly the admin dashboard's tabs, in order. */
  lemma AdminMenuMatchesTabs()
    ensures Values(MenuItems(Admin.Name())) == AdminDashboard.Tabs
  {
    MenuPerRole("admin");
  }
}
