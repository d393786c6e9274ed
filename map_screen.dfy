/** The Android map: eight marker categories with a set of selected ones,
    the locations that pass it, marker colours, the highlighted location and
    the bottom sheet. Positions are carried as plain latitude and longitude;
    the camera is not modelled. */
module MapScreen {
  import opened Common

  datatype MapCategory =
    | Recycling | ClothesRecycling | PetSitting | Chores | Tutoring | ElderlyHelp | MovingHelp | BikeRental

  const AllCategories: set<MapCategory> :=
    {Recycling, ClothesRecycling, PetSitting, Chores, Tutoring, ElderlyHelp, MovingHelp, BikeRental}

  lemma AllCategoriesComplete()
    ensures forall c: MapCategory :: c in AllCategories
  {
    forall c: MapCategory ensures c in AllCategories {
      match c
      case Recycling =>
      case ClothesRecycling =>
      case PetSitting =>
      case Chores =>
      case Tutoring =>
      case ElderlyHelp =>
      case MovingHelp =>
      case BikeRental =>
    }
  }

  /** The chip text of a category. */
  function CategoryLabel(c: MapCategory): string {
    match c
    case Recycling => "Recycling"
    case ClothesRecycling => "Clothes"
    case PetSitting => "Pet Sitting"
    case Chores => "Chores"
    case Tutoring => "Tutoring"
    case ElderlyHelp => "Elderly Help"
    case MovingHelp => "Moving"
    case BikeRental => "Bike Rental"
  }

  /** No two categories share a chip text. */
  lemma CategoryLabelInjective(c: MapCategory, d: MapCategory)
    ensures CategoryLabel(c) == CategoryLabel(d) ==> c == d
  {
  }

  datatype MapLocation = MapLocation(
    id: string,
    title: string,
    description: string,
    latitude: real,
    longitude: real,
    category: MapCategory,
    author: Option<string>,
    isPost: bool)

  /** A click on a category chip: only that category changes membership. */
  function ToggleCategory(selected: set<MapCategory>, c: MapCategory): (r: set<MapCategory>)
    ensures c in r <==> c !in selected
    ensures forall d :: d != c ==> (d in r <==> d in selected)
  {
    if c in selected then selected - {c} else selected + {c}
  }

  lemma ToggleCategoryTwice(selected: set<MapCategory>, c: MapCategory)
    ensures ToggleCategory(ToggleCategory(selected, c), c) == selected
  {
  }

  /** The locations whose category is selected, in their original order. */
  function FilteredLocations(locations: seq<MapLocation>, selected: set<MapCategory>): (r: seq<MapLocation>)
    ensures forall l :: l in r <==> l in locations && l.category in selected
    ensures |r| <= |locations|
  {
    Filter(locations, (l: MapLocation) => l.category in selected)
  }

  /** With every category selected, every location is shown. */
  lemma AllSelectedShowsAll(locations: seq<MapLocation>)
    ensures FilteredLocations(locations, AllCategories) == locations
  {
    AllCategoriesComplete();
    FilterAll(locations, (l: MapLocation) => l.category in AllCategories);
  }

  /** Google Maps' default-marker hues that the map uses. */
  datatype Hue = Yellow | Green | Orange | Red | Violet | Cyan | Blue

  function CategoryHue(c: MapCategory): Hue {
    match c
    case Recycling => Green
    case ClothesRecycling => Green
    case PetSitting => Orange
    case Chores => Red
    case ElderlyHelp => Red
    case Tutoring => Violet
    case MovingHelp => Cyan
    case BikeRental => Blue
  }

  /** A marker's hue: yellow when it is the highlighted location, whatever its
      category; otherwise its category's hue, which is never yellow. */
  function MarkerHue(location: MapLocation, highlightedId: Option<string>): (h: Hue)
    ensures h == Yellow <==> highlightedId == Some(location.id)
    ensures highlightedId != Some(location.id) ==> h == CategoryHue(location.category)
  {
    if highlightedId == Some(location.id) then Yellow else CategoryHue(location.category)
  }

  /** The ids of the fourteen fixed locations. */
  const SampleIds: seq<string> :=
    ["rec1", "rec2", "clothes1", "clothes2", "bike1", "bike2",
     "post1", "post2", "post3", "post4", "post5", "post6", "post7", "post8"]

  /** No two of the fourteen ids are the same. */
  lemma SampleIdsDistinct()
    ensures |SampleIds| == 14
    ensures forall i, j :: 0 <= i < j < |SampleIds| ==> SampleIds[i] != SampleIds[j]
  {
  }

  /** The six places: recycling points, clothes donation and bike stations. */
  function SamplePlace(k: nat): (l: MapLocation)
    requires k < 6
    ensures l.id == SampleIds[k]
    ensures !l.isPost && l.author.None?
  {
    var (title, description, latitude, longitude, category) :=
      match k
      case 0 => ("Recycling Center - Marienplatz", "Glass, paper, and plastic recycling",
                    48.1374, 11.5755, Recycling)
      case 1 => ("Recycling Station - Sendling", "Multi-material recycling facility",
                    48.1166, 11.5600, Recycling)
      case 2 => ("Clothes Donation - Schwabing", "Clothing and textile recycling",
                    48.1642, 11.5892, ClothesRecycling)
      case 3 => ("Second-Hand Store - Haidhausen", "Donate or buy used clothes",
                    48.1350, 11.5950, ClothesRecycling)
      case 4 => ("MVG Bike Station - Olympiapark", "Bike rental and sharing",
                    48.1486, 11.5680, BikeRental)
      case _ => ("MVG Bike - Hauptbahnhof", "Central station bike rental",
                    48.1405, 11.5580, BikeRental);
    MapLocation(SampleIds[k], title, description, latitude, longitude, category, None, false)
  }

  /** The eight posts by people, each with its author. */
  function SamplePost(k: nat): (l: MapLocation)
    requires k < 8
    ensures l.id == SampleIds[6 + k]
    ensures l.isPost && l.author.Some?
  {
    var (title, description, latitude, longitude, category, author) :=
      match k
      case 0 => ("Need pet sitter for 2 cats",
                    "Looking for someone to feed my cats while I'm away for the weekend",
                    48.1450, 11.5750, PetSitting, "Anna M.")
      case 1 => ("Dog walking needed", "Need daily dog walker for my golden retriever",
                    48.1280, 11.5650, PetSitting, "Thomas K.")
      case 2 => ("Help with garden cleanup", "Need help cleaning up garden before winter",
                    48.1550, 11.5850, Chores, "Maria S.")
      case 3 => ("Window cleaning service", "Looking for help cleaning windows in apartment",
                    48.1200, 11.5700, Chores, "Klaus W.")
      case 4 => ("Math tutoring needed", "Need tutor for high school mathematics",
                    48.1500, 11.5600, Tutoring, "Sarah L.")
      case 5 => ("Companion for elderly parent", "Looking for someone to spend time with my elderly mother",
                    48.1250, 11.5800, ElderlyHelp, "Michael B.")
      case 6 => ("Help moving furniture", "Need help moving to new apartment this weekend",
                    48.1600, 11.5700, MovingHelp, "Julia R.")
      case _ => ("Grocery shopping assistance", "Elderly person needs help with weekly grocery shopping",
                    48.1300, 11.5550, ElderlyHelp, "Franz H.");
    MapLocation(SampleIds[6 + k], title, description, latitude, longitude, category, Some(author), true)
  }

  /** The fourteen fixed locations, by position: six places, then eight
      posts by people. */
  function SampleLocation(k: nat): (l: MapLocation)
    requires k < 14
    ensures l.id == SampleIds[k]
    ensures l.isPost <==> 6 <= k
    ensures l.author.Some? <==> l.isPost
  {
    if k < 6 then SamplePlace(k) else SamplePost(k - 6)
  }

  function SampleLocations(): (locations: seq<MapLocation>)
    ensures |locations| == 14
    ensures forall i, j :: 0 <= i < j < |locations| ==> locations[i].id != locations[j].id
    ensures forall k :: 0 <= k < |locations| ==> (locations[k].isPost <==> 6 <= k)
    ensures forall k :: 0 <= k < |locations| ==> (locations[k].author.Some? <==> locations[k].isPost)
  {
    SampleIdsDistinct();
    seq(14, k requires 0 <= k < 14 => SampleLocation(k))
  }

  /** The map's remembered state. */
  class MapState {
    const locations: seq<MapLocation>
    var selectedCategories: set<MapCategory>
    var isSheetExpanded: bool
    var highlightedId: Option<string>

    constructor()
      ensures locations == SampleLocations() && selectedCategories == AllCategories
      ensures !isSheetExpanded && highlightedId == None
    {
      locations := SampleLocations();
      selectedCategories := AllCategories;
      isSheetExpanded := false;
      highlightedId := None;
    }

    /** The locations drawn as markers and listed in the sheet. */
    function Shown(): seq<MapLocation>
      reads this
    {
      FilteredLocations(locations, selectedCategories)
    }

    method ClickCategory(c: MapCategory)
      modifies this
      ensures selectedCategories == ToggleCategory(old(selectedCategories), c)
      ensures isSheetExpanded == old(isSheetExpanded) && highlightedId == old(highlightedId)
    {
      selectedCategories := ToggleCategory(selectedCategories, c);
    }

    /** A click on a marker highlights its location and opens the sheet. */
    method ClickMarker(location: MapLocation)
      modifies this
      ensures highlightedId == Some(location.id) && isSheetExpanded
      ensures selectedCategories == old(selectedCategories)
      ensures MarkerHue(location, highlightedId) == Yellow
    {
      highlightedId := Some(location.id);
      isSheetExpanded := true;
    }

    /** A click on a card of the sheet highlights its location; the sheet stays as it was. */
    method ClickCard(location: MapLocation)
      modifies this
      ensures highlightedId == Some(location.id)
      ensures isSheetExpanded == old(isSheetExpanded) && selectedCategories == old(selectedCategories)
    {
      highlightedId := Some(location.id);
    }

    /** The sheet reports being dragged open or closed. */
    method SetSheetExpanded(expanded: bool)
      modifies this
      ensures isSheetExpanded == expanded
      ensures highlightedId == old(highlightedId) && selectedCategories == old(selectedCategories)
    {
      isSheetExpanded := expanded;
    }
  }
}
