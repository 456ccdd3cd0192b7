/** The finder page: it derives the cuisine and city search options from the truck catalog,
    filters them by the typed text, narrows the trucks shown on the map to an option, and
    coordinates selection, the "click a truck" prompt and the geolocation error line. */
module FinderPage {
  import opened Common
  import LeafletMap

  datatype SearchOption = SearchOption(id: string, name: string, emoji: string)

  /** The two tabs of the search dropdown, one per truck field. */
  datatype Tab = CuisineTab | CityTab

  function FieldOf(t: Truck, tab: Tab): string {
    match tab
    case CuisineTab => t.cuisine
    case CityTab => t.city
  }

  /** Fallback emoji of a cuisine option whose first truck has no icon. */
  const PlateEmoji := "\U{1F37D}\U{FE0F}"
  /** The emoji of every city option. */
  const FlagEmoji := "\U{1F1FA}\U{1F1F8}"
  /** Zoom used when flying to a clicked truck and to the eater's position. */
  const TruckZoom := 14
  const LocationZoom := 13

  const UnsupportedMessage := "Geolocation is not supported by your browser."
  const DeniedMessage := "Please allow location access to use this feature."
  const FailedMessage := "Could not get your location."
  /** The code a geolocation error carries when the user refused access. */
  const PermissionDenied := 1

  // ---------------------------------------------------------------------------
  // Distinct values in first-seen order (Array.from(new Set(...)))

  /** Position of the first occurrence of `x`. */
  function FirstIndex(s: seq<string>, x: string): (r: nat)
    requires x in s
    ensures r < |s| && s[r] == x
    ensures forall i :: 0 <= i < r ==> s[i] != x
    decreases |s|
  {
    var n := |s| - 1;
    if x in s[..n] then FirstIndex(s[..n], x) else n
  }

  function Distinct(s: seq<string>): (r: seq<string>)
    ensures forall x :: x in r <==> x in s
    ensures forall i, j :: 0 <= i < j < |r| ==> r[i] != r[j]
    decreases |s|
  {
    if s == [] then []
    else
      var n := |s| - 1;
      assert s == s[..n] + [s[n]];
      var d := Distinct(s[..n]);
      if s[n] in d then d else d + [s[n]]
  }

  /** The values of `r` all occur in `s`, and in the order of their first occurrence there. */
  predicate FirstSeenOrder(s: seq<string>, r: seq<string>) {
    (forall x :: x in r ==> x in s) &&
    forall i, j :: 0 <= i < j < |r| ==> FirstIndex(s, r[i]) < FirstIndex(s, r[j])
  }

  /** The distinct values come in the order of their first appearance. */
  lemma {:induction false} DistinctFirstSeenOrder(s: seq<string>)
    ensures FirstSeenOrder(s, Distinct(s))
    decreases |s|
  {
    if s != [] {
      var n := |s| - 1;
      var prefix := s[..n];
      assert s == prefix + [s[n]];
      var d := Distinct(prefix);
      DistinctFirstSeenOrder(prefix);
      var r := Distinct(s);
      assert r == if s[n] in d then d else d + [s[n]];
      forall x | x in prefix
        ensures FirstIndex(s, x) == FirstIndex(prefix, x)
      {
      }
      forall i, j | 0 <= i < j < |r|
        ensures FirstIndex(s, r[i]) < FirstIndex(s, r[j])
      {
        assert r[i] == d[i] && d[i] in prefix;
        if j < |d| {
          assert r[j] == d[j] && d[j] in prefix;
          assert FirstIndex(prefix, d[i]) < FirstIndex(prefix, d[j]);
        } else {
          assert r[j] == s[n] && s[n] !in prefix;
          assert FirstIndex(s, r[j]) == n;
          assert FirstIndex(prefix, d[i]) < n;
        }
      }
    }
  }

  // ---------------------------------------------------------------------------
  // Option ids: toLowerCase().replace(" ", "-")

  /** The string with its first `from` replaced by `to`. */
  function ReplaceFirst(s: string, from: char, to: char): (r: string)
    ensures |r| == |s|
    ensures (forall i :: 0 <= i < |s| ==> s[i] != from) ==> r == s
    ensures forall i :: 0 <= i < |s| && s[i] == from && (forall j :: 0 <= j < i ==> s[j] != from) ==> r == s[i := to]
    decreases |s|
  {
    if s == [] then []
    else if s[0] == from then [to] + s[1..]
    else [s[0]] + ReplaceFirst(s[1..], from, to)
  }

  function OptionId(name: string): string {
    ReplaceFirst(Lower(name), ' ', '-')
  }

  // ---------------------------------------------------------------------------
  // searchData

  function FieldValues(trucks: seq<Truck>, tab: Tab): (r: seq<string>)
    ensures |r| == |trucks|
    ensures forall i :: 0 <= i < |trucks| ==> r[i] == FieldOf(trucks[i], tab)
  {
    seq(|trucks|, i requires 0 <= i < |trucks| => FieldOf(trucks[i], tab))
  }

  /** The emoji of cuisine `c`: the icon of the first truck serving it, unless that is empty. */
  function CuisineEmoji(trucks: seq<Truck>, c: string): (r: string)
    ensures var k := FindIndex(trucks, (t: Truck) => t.cuisine == c);
            r == if k >= 0 && trucks[k].icon != "" then trucks[k].icon else PlateEmoji
  {
    match Find(trucks, (t: Truck) => t.cuisine == c)
    case Some(t) => if t.icon != "" then t.icon else PlateEmoji
    case None => PlateEmoji
  }

  function Emoji(trucks: seq<Truck>, tab: Tab, value: string): string {
    match tab
    case CuisineTab => CuisineEmoji(trucks, value)
    case CityTab => FlagEmoji
  }

  /** The options of a tab: one per distinct value of its field, in first-seen order. */
  function Options(trucks: seq<Truck>, tab: Tab): (r: seq<SearchOption>)
    ensures var values := Distinct(FieldValues(trucks, tab));
            && |r| == |values|
            && forall i :: 0 <= i < |r| ==> r[i] == SearchOption(OptionId(values[i]), values[i], Emoji(trucks, tab, values[i]))
  {
    var values := Distinct(FieldValues(trucks, tab));
    seq(|values|, i requires 0 <= i < |values| => SearchOption(OptionId(values[i]), values[i], Emoji(trucks, tab, values[i])))
  }

  /** Every truck's value has an option. */
  lemma OptionsCoverTrucks(trucks: seq<Truck>, tab: Tab, t: Truck)
    requires t in trucks
    ensures exists i :: 0 <= i < |Options(trucks, tab)| && Options(trucks, tab)[i].name == FieldOf(t, tab)
  {
    var values := FieldValues(trucks, tab);
    var d := Distinct(values);
    var k :| 0 <= k < |trucks| && trucks[k] == t;
    assert values[k] == FieldOf(t, tab);
    assert values[k] in d;
    var i :| 0 <= i < |d| && d[i] == values[k];
    assert Options(trucks, tab)[i].name == d[i];
  }

  /** Every option stands for the value of some truck. */
  lemma OptionsHaveTrucks(trucks: seq<Truck>, tab: Tab, i: int)
    requires 0 <= i < |Options(trucks, tab)|
    ensures exists t :: t in trucks && FieldOf(t, tab) == Options(trucks, tab)[i].name
  {
    var values := FieldValues(trucks, tab);
    var d := Distinct(values);
    assert Options(trucks, tab)[i].name == d[i];
    assert d[i] in values;
    var k :| 0 <= k < |values| && values[k] == d[i];
    assert trucks[k] in trucks && FieldOf(trucks[k], tab) == d[i];
  }

  /** No two options share a name, and options come in the order in which their values first
      appear in the catalog. */
  lemma {:induction false} OptionsDistinctInOrder(trucks: seq<Truck>, tab: Tab)
    ensures var r := Options(trucks, tab);
            var values := FieldValues(trucks, tab);
            && (forall i, j :: 0 <= i < j < |r| ==> r[i].name != r[j].name)
            && (forall i, j :: 0 <= i < j < |r| ==> FirstIndex(values, r[i].name) < FirstIndex(values, r[j].name))
  {
    var values := FieldValues(trucks, tab);
    var d := Distinct(values);
    var r := Options(trucks, tab);
    DistinctFirstSeenOrder(values);
    forall i, j | 0 <= i < j < |r|
      ensures r[i].name != r[j].name
      ensures FirstIndex(values, r[i].name) < FirstIndex(values, r[j].name)
    {
      assert r[i].name == d[i] && r[j].name == d[j];
      assert FirstIndex(values, d[i]) < FirstIndex(values, d[j]);
    }
  }

  // ---------------------------------------------------------------------------
  // getFilteredOptions and the filter inside selectOption

  /** The options whose name contains the typed text, ignoring case, in their own order. */
  function FilteredOptions(options: seq<SearchOption>, filter: string): (r: seq<SearchOption>)
    ensures |r| <= |options|
    ensures forall o :: o in r <==> o in options && exists i :: OccursAt(Lower(o.name), Lower(filter), i)
  {
    var r := Filter(options, (o: SearchOption) => Includes(Lower(o.name), Lower(filter)));
    assert forall o: SearchOption :: Includes(Lower(o.name), Lower(filter)) <==> exists i :: OccursAt(Lower(o.name), Lower(filter), i) by {
      forall o: SearchOption
        ensures Includes(Lower(o.name), Lower(filter)) <==> exists i :: OccursAt(Lower(o.name), Lower(filter), i)
      {
        IncludesIff(Lower(o.name), Lower(filter));
      }
    }
    r
  }

  /** An empty filter keeps every option, in order. */
  lemma EmptyFilterKeepsAll(options: seq<SearchOption>)
    ensures FilteredOptions(options, "") == options
  {
    forall o | o in options
      ensures Includes(Lower(o.name), Lower(""))
    {
      IncludesEmpty(Lower(o.name));
    }
    FilterKeepsAll(options, (o: SearchOption) => Includes(Lower(o.name), Lower("")));
  }

  /** The trucks whose field of the tab equals the option's name exactly, in catalog order. */
  function MatchingTrucks(trucks: seq<Truck>, tab: Tab, name: string): (r: seq<Truck>)
    ensures |r| <= |trucks|
    ensures forall t :: t in r <==> t in trucks && FieldOf(t, tab) == name
  {
    Filter(trucks, (t: Truck) => FieldOf(t, tab) == name)
  }

  /** Every option derived from the catalog narrows the map to at least one truck. */
  lemma OptionMatchesSomeTruck(trucks: seq<Truck>, tab: Tab, o: SearchOption)
    requires o in Options(trucks, tab)
    ensures |MatchingTrucks(trucks, tab, o.name)| > 0
  {
    var r := Options(trucks, tab);
    var i :| 0 <= i < |r| && r[i] == o;
    OptionsHaveTrucks(trucks, tab, i);
    var t :| t in trucks && FieldOf(t, tab) == r[i].name;
    assert t in MatchingTrucks(trucks, tab, o.name);
  }

  /** The error line for a failed position request. */
  function GeoErrorMessage(code: int): (r: string)
    ensures r == DeniedMessage <==> code == PermissionDenied
    ensures r == FailedMessage <==> code != PermissionDenied
  {
    if code == PermissionDenied then DeniedMessage else FailedMessage
  }

  /** The filtered options are exactly the distinct field values of the trucks that contain the
      filter. */
  lemma FilteredOptionsOfCatalog(trucks: seq<Truck>, tab: Tab, filter: string)
    ensures var r := FilteredOptions(Options(trucks, tab), filter);
            && (forall o :: o in r ==> (exists t :: t in trucks && FieldOf(t, tab) == o.name) &&
                                       exists i :: OccursAt(Lower(o.name), Lower(filter), i))
            && (forall t :: t in trucks && (exists i :: OccursAt(Lower(FieldOf(t, tab)), Lower(filter), i)) ==>
                  exists o :: o in r && o.name == FieldOf(t, tab))
  {
    var options := Options(trucks, tab);
    var r := FilteredOptions(options, filter);
    forall o | o in r
      ensures exists t :: t in trucks && FieldOf(t, tab) == o.name
    {
      var i :| 0 <= i < |options| && options[i] == o;
      OptionsHaveTrucks(trucks, tab, i);
    }
    forall t | t in trucks && (exists i :: OccursAt(Lower(FieldOf(t, tab)), Lower(filter), i))
      ensures exists o :: o in r && o.name == FieldOf(t, tab)
    {
      OptionsCoverTrucks(trucks, tab, t);
      var i :| 0 <= i < |options| && options[i].name == FieldOf(t, tab);
      assert options[i] in options;
      assert options[i] in r;
    }
  }

  // ---------------------------------------------------------------------------
  // The page state

  class Finder {
    /** The truck catalog. */
    const catalog: seq<Truck>
    var showSearchOverlay: bool
    var selectedTruck: Option<Truck>
    var searchTab: Tab
    var isDropdownOpen: bool
    var searchFilter: string
    var overlayError: string
    var geolocateLoading: bool
    var currentTrucks: seq<Truck>
    var showMapPrompt: bool

    constructor (catalog: seq<Truck>)
      ensures this.catalog == catalog && currentTrucks == catalog
      ensures showSearchOverlay && selectedTruck.None? && searchTab == CuisineTab && !isDropdownOpen
      ensures searchFilter == "" && overlayError == "" && !geolocateLoading && showMapPrompt
    {
      this.catalog := catalog;
      showSearchOverlay, selectedTruck, searchTab, isDropdownOpen := true, None, CuisineTab, false;
      searchFilter, overlayError, geolocateLoading := "", "", false;
      currentTrucks, showMapPrompt := catalog, true;
    }

    /** The options the dropdown lists: each names the current tab's field of some catalog
        truck and contains the filter, ignoring case; and every such field is listed. */
    function VisibleOptions(): (r: seq<SearchOption>)
      reads this
      ensures forall o :: o in r ==> (exists t :: t in catalog && FieldOf(t, searchTab) == o.name) &&
                                     exists i :: OccursAt(Lower(o.name), Lower(searchFilter), i)
      ensures forall t :: t in catalog && (exists i :: OccursAt(Lower(FieldOf(t, searchTab)), Lower(searchFilter), i)) ==>
                exists o :: o in r && o.name == FieldOf(t, searchTab)
    {
      FilteredOptionsOfCatalog(catalog, searchTab, searchFilter);
      FilteredOptions(Options(catalog, searchTab), searchFilter)
    }

    method SelectTab(tab: Tab)
      modifies this`searchTab
      ensures searchTab == tab
    {
      searchTab := tab;
    }

    method TypeFilter(text: string)
      modifies this`searchFilter
      ensures searchFilter == text
    {
      searchFilter := text;
    }

    /** A marker was clicked: select its truck, hide the prompt and fly there when the map is mounted. */
    method TruckClick(truck: Truck, view: LeafletMap.MapView?) returns (call: Option<LeafletMap.ViewCall>)
      modifies this`selectedTruck, this`showMapPrompt
      ensures selectedTruck == Some(truck) && !showMapPrompt
      ensures view == null ==> call.None?
      ensures view != null ==>
                (call.Some? <==> view.instance.Some?) &&
                (call.Some? ==> call.value == LeafletMap.FlyCall(view.instance.value, LeafletMap.LatLng(truck.lat, truck.lng), TruckZoom, LeafletMap.FlyDuration))
    {
      selectedTruck := Some(truck);
      showMapPrompt := false;
      call := None;
      if view != null {
        call := view.FlyTo(truck.lat, truck.lng, Some(TruckZoom));
      }
    }

    /** A click on the map itself, and the card's close button: clear the selection, show the prompt. */
    method MapClick()
      modifies this`selectedTruck, this`showMapPrompt
      ensures selectedTruck.None? && showMapPrompt
    {
      selectedTruck := None;
      showMapPrompt := true;
    }

    /** An option was chosen: show only the matching catalog trucks, leave the overlay, prompt
        when there is anything to click, and fit the map to them when there are any. */
    method SelectOption(option: SearchOption, view: LeafletMap.MapView?) returns (call: Option<LeafletMap.ViewCall>)
      modifies this`isDropdownOpen, this`currentTrucks, this`showSearchOverlay, this`showMapPrompt
      ensures !isDropdownOpen && !showSearchOverlay
      ensures currentTrucks == MatchingTrucks(catalog, searchTab, option.name)
      ensures showMapPrompt <==> |currentTrucks| > 0
      ensures call.Some? <==> view != null && |currentTrucks| > 0 && view.instance.Some? && view.leaflet.Some?
      ensures call.Some? ==> call.value.FitCall? && call.value.points == LeafletMap.Points(currentTrucks)
    {
      isDropdownOpen := false;
      var filtered := MatchingTrucks(catalog, searchTab, option.name);
      currentTrucks := filtered;
      showSearchOverlay := false;
      showMapPrompt := |filtered| > 0;
      call := None;
      if |filtered| > 0 && view != null {
        call := view.FitBounds(filtered);
      }
    }

    /** "Show All Trucks": back to the whole catalog, fitted once the map exists. */
    method ShowAll(view: LeafletMap.MapView?) returns (call: Option<LeafletMap.ViewCall>)
      modifies this`currentTrucks, this`showSearchOverlay, this`showMapPrompt
      ensures currentTrucks == catalog && !showSearchOverlay && showMapPrompt
      ensures call.Some? <==> view != null && |catalog| > 0 && view.instance.Some? && view.leaflet.Some?
      ensures call.Some? ==> call.value.FitCall? && call.value.points == LeafletMap.Points(catalog)
    {
      currentTrucks := catalog;
      showSearchOverlay := false;
      showMapPrompt := true;
      call := None;
      if view != null {
        call := view.FitBounds(catalog);
      }
    }

    /** "Trucks Near Me": without the geolocation service an error is shown; otherwise a request
        starts and the error line is cleared. */
    method Geolocate(supported: bool)
      modifies this`overlayError, this`geolocateLoading
      ensures !supported ==> overlayError == UnsupportedMessage && geolocateLoading == old(geolocateLoading)
      ensures supported ==> overlayError == "" && geolocateLoading
    {
      if !supported {
        overlayError := UnsupportedMessage;
        return;
      }
      geolocateLoading := true;
      overlayError := "";
    }

    /** The position arrived: fly there, show the whole catalog and leave the overlay. */
    method GeolocateSuccess(lat: Degrees, lng: Degrees, view: LeafletMap.MapView?) returns (call: Option<LeafletMap.ViewCall>)
      modifies this`currentTrucks, this`showSearchOverlay, this`showMapPrompt, this`geolocateLoading
      ensures currentTrucks == catalog && !showSearchOverlay && showMapPrompt && !geolocateLoading
      ensures call.Some? <==> view != null && view.instance.Some?
      ensures call.Some? ==> call.value == LeafletMap.FlyCall(view.instance.value, LeafletMap.LatLng(lat, lng), LocationZoom, LeafletMap.FlyDuration)
    {
      call := None;
      if view != null {
        call := view.FlyTo(lat, lng, Some(LocationZoom));
      }
      currentTrucks := catalog;
      showSearchOverlay := false;
      showMapPrompt := true;
      geolocateLoading := false;
    }

    /** The position request failed with error code `code`. */
    method GeolocateFailure(code: int)
      modifies this`overlayError, this`geolocateLoading
      ensures overlayError == GeoErrorMessage(code) && !geolocateLoading
    {
      overlayError := GeoErrorMessage(code);
      geolocateLoading := false;
    }

    /** "New Search": back to the overlay; nothing else changes. */
    method NewSearch()
      modifies this`showSearchOverlay
      ensures showSearchOverlay
    {
      showSearchOverlay := true;
    }
  }
}
