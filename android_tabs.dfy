/** The Android app's bottom navigation: five tabs, the selected one, and
    the posts list the feed and the create form share. */
module AndroidTabs {
  import opened Common
  import opened ClientData
  import ClientApp

  datatype AndroidTab = Feed | Favourites | Create | Map | Profile

  const AllTabs: seq<AndroidTab> := [Feed, Favourites, Create, Map, Profile]

  function TabLabel(tab: AndroidTab): string {
    match tab
    case Feed => "Feed"
    case Favourites => "Favourites"
    case Create => "Create"
    case Map => "Map"
    case Profile => "Profile"
  }

  /** The five tabs read five different labels. */
  lemma TabLabelInjective(a: AndroidTab, b: AndroidTab)
    ensures TabLabel(a) == TabLabel(b) ==> a == b
  {
  }

  datatype Glyph = HomeGlyph | FavoriteGlyph | AddCircleGlyph | MapGlyph | PersonGlyph
  datatype IconStyle = Filled | Outlined
  datatype TabIcon = TabIcon(glyph: Glyph, style: IconStyle)

  function GlyphOf(tab: AndroidTab): Glyph {
    match tab
    case Feed => HomeGlyph
    case Favourites => FavoriteGlyph
    case Create => AddCircleGlyph
    case Map => MapGlyph
    case Profile => PersonGlyph
  }

  /** The icon a tab is drawn with: its own glyph, filled exactly when it is
      the selected tab. */
  function IconFor(tab: AndroidTab, selected: AndroidTab): (icon: TabIcon)
    ensures icon.style == Filled <==> tab == selected
    ensures icon.glyph == GlyphOf(tab)
  {
    TabIcon(GlyphOf(tab), if selected == tab then Filled else Outlined)
  }

  /** The navigation bar lists the five tabs once each; exactly one of them
      is filled, the selected one, and no two share a glyph. */
  lemma OneFilledTab(selected: AndroidTab)
    ensures |AllTabs| == 5 && NoDuplicates(AllTabs) && selected in AllTabs
    ensures forall i :: 0 <= i < |AllTabs| ==> (IconFor(AllTabs[i], selected).style == Filled <==> AllTabs[i] == selected)
    ensures forall t, u :: GlyphOf(t) == GlyphOf(u) ==> t == u
  {
    match selected
    case Feed => assert AllTabs[0] == selected;
    case Favourites => assert AllTabs[1] == selected;
    case Create => assert AllTabs[2] == selected;
    case Map => assert AllTabs[3] == selected;
    case Profile => assert AllTabs[4] == selected;
  }

  class AndroidApp {
    var selectedTab: AndroidTab
    var posts: seq<ClientPost>

    ghost predicate Valid()
      reads this
    {
      ClientApp.SequentialIds(posts)
    }

    constructor()
      ensures selectedTab == Feed && posts == ClientApp.FakePosts()
      ensures Valid()
    {
      selectedTab := Feed;
      posts := ClientApp.FakePosts();
    }

    /** A click on a navigation item selects its tab, whichever is shown. */
    method ClickTab(tab: AndroidTab)
      modifies this
      ensures selectedTab == tab && posts == old(posts)
    {
      selectedTab := tab;
    }

    method OnAccept(id: int)
      requires Valid() && selectedTab == Feed
      modifies this
      ensures Valid()
      ensures posts == ClientApp.Accept(old(posts), id) && selectedTab == old(selectedTab)
    {
      ClientApp.AcceptKeepsIds(posts, id);
      posts := ClientApp.Accept(posts, id);
    }

    method OnCreatePost()
      requires selectedTab == Feed
      modifies this
      ensures selectedTab == Create && posts == old(posts)
    {
      selectedTab := Create;
    }

    method OnSubmit(title: string, desc: string, tags: seq<ClientTag>, location: string)
      requires Valid() && selectedTab == Create
      modifies this
      ensures Valid()
      ensures posts == ClientApp.AppendSubmitted(old(posts), title, desc, tags, location)
      ensures selectedTab == Feed
    {
      ClientApp.AppendKeepsSequentialIds(posts, title, desc, tags, location);
      posts := ClientApp.AppendSubmitted(posts, title, desc, tags, location);
      selectedTab := Feed;
    }

    method OnCancel()
      requires selectedTab == Create
      modifies this
      ensures selectedTab == Feed && posts == old(posts)
    {
      selectedTab := Feed;
    }

    /** The map's back action. */
    method OnMapBack()
      requires selectedTab == Map
      modifies this
      ensures selectedTab == Feed && posts == old(posts)
    {
      selectedTab := Feed;
    }
  }
}
