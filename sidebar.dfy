/**
 The sidebar: four category menu items, the selected category (highlighted,
 and shown as a heading with its "top20" prefix removed), the list of entries
 fetched for that category, and the logout action.
 */
module Sidebar {
  import opened Wrappers
  import opened Strings
  import opened Browser
  import opened Context

  datatype MenuItem = MenuItem(title: string, key: string)

  /** A partial quote as the sidebar endpoint returns it. */
  datatype Entry = Entry(name: string, livePrice: int)

  /** The sidebar endpoint's response: one list of entries per category key. */
  type SidebarData = map<string, seq<Entry>>

  /** What the list area shows: the entries, or the "No data available" placeholder. */
  datatype Listing = Entries(entries: seq<Entry>) | NoData

  const MenuItems: seq<MenuItem> := [
    MenuItem("High Volumes", "top20High_Volumes"),
    MenuItem("Low Volumes", "top20Low_Volumes"),
    MenuItem("Highest Prices", "top20Highest_Prices"),
    MenuItem("Low Prices", "top20Lowest_Prices")
  ]

  const DefaultCategory := "top20High_Volumes"

  predicate IsMenuKey(key: string)
  {
    exists i :: 0 <= i < |MenuItems| && MenuItems[i].key == key
  }

  /** The item's class list carries the highlight. */
  predicate Highlighted(item: MenuItem, selected: string)
  {
    selected == item.key
  }

  /** For a menu key, exactly one menu item is highlighted. */
  lemma ExactlyOneHighlighted(selected: string)
    requires IsMenuKey(selected)
    ensures exists i :: 0 <= i < |MenuItems| && Highlighted(MenuItems[i], selected)
    ensures forall i, j :: 0 <= i < j < |MenuItems| ==>
      !(Highlighted(MenuItems[i], selected) && Highlighted(MenuItems[j], selected))
  {
  }

  /** `selectedCategory.replace("top20", "")`. */
  function Heading(category: string): string
  {
    ReplaceFirst(category, "top20", "")
  }

  /** Every menu key starts with "top20", so its heading is the rest of the key. */
  lemma HeadingOfMenuKey(i: nat)
    requires i < |MenuItems|
    ensures Heading(MenuItems[i].key) == MenuItems[i].key[5..]
  {
    var key := MenuItems[i].key;
    assert IsPrefix("top20", key);
  }

  lemma DefaultHeading()
    ensures Heading(DefaultCategory) == "High_Volumes"
  {
    HeadingOfMenuKey(0);
  }

  /** A category without "top20" keeps its name as heading. */
  lemma HeadingWithoutPrefix(category: string)
    requires !Contains(category, "top20")
    ensures Heading(category) == category
  {
    ReplaceFirstAbsent(category, "top20", "");
  }

  /** `sidebarData[selectedCategory]?.length > 0 ? ... : placeholder`. */
  function Shown(data: SidebarData, category: string): (l: Listing)
    ensures l.Entries? <==> category in data && |data[category]| > 0
    ensures l.Entries? ==> l.entries == data[category]
  {
    if category in data && |data[category]| > 0 then Entries(data[category]) else NoData
  }

  class SidebarView {
    var sidebarData: SidebarData
    var selectedCategory: string

    ghost predicate Valid()
      reads this
    {
      IsMenuKey(selectedCategory)
    }

    constructor ()
      ensures Valid()
      ensures sidebarData == map[] && selectedCategory == DefaultCategory
    {
      sidebarData := map[];
      selectedCategory := DefaultCategory;
      assert MenuItems[0].key == DefaultCategory;
    }

    /** The data effect: a truthy response (`None` models null) replaces the data wholesale. */
    method OnData(data: Option<SidebarData>)
      requires Valid()
      modifies this
      ensures Valid()
      ensures sidebarData == if data.Some? then data.value else old(sidebarData)
      ensures selectedCategory == old(selectedCategory)
    {
      if data.Some? {
        sidebarData := data.value;
      }
    }

    /** A click on a menu item selects that item's key. */
    method HandleMenuClick(item: MenuItem)
      requires item in MenuItems
      modifies this
      ensures Valid()
      ensures selectedCategory == item.key && sidebarData == old(sidebarData)
    {
      selectedCategory := item.key;
    }

    function Listed(): Listing
      reads this
    {
      Shown(sidebarData, selectedCategory)
    }
  }

  /**
   `handleClickLogout`: removes the known keys one by one, then clears the
   whole store, and navigates to "/signin". The in-memory context is left as
   it was.
   */
  method HandleClickLogout(store: LocalStorage) returns (nav: string)
    modifies store
    ensures store.items == map[]
    ensures nav == "/signin"
  {
    store.RemoveItem("token");
    store.RemoveItem("encoded_token");
    store.RemoveItem("public_token");
    store.RemoveItem("userRole");
    store.RemoveItem("disclaimerAgreed");
    store.Clear();
    nav := "/signin";
  }

  /** After logout, a fresh context starts without token or role. */
  lemma ReloadAfterLogout()
    ensures InitialSession(map[]) == Session(None, None, "", map[])
    ensures !Authenticated(InitialSession(map[]))
  {
  }
}
