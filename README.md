# FoodRoadio: a Dafny model of the food-truck finder's client logic

FoodRoadio is a browser food-truck finder written with React and Leaflet. This project models the
sequential logic under its markup and proves properties of it:

- **The truck-card carousel** (`swiper.dfy`, module `Swiper`). A `Carousel` class holds the cursor, the
  dragging flag, the drag start and the live offset. Its methods are the gesture, arrow and dot handlers
  and the re-sync from the selected truck. The pure `UpcomingEvents` selector keeps the events in the next
  thirty days, sorts them by date and takes the first three. `CardView` is what the carousel renders.
- **The map controller** (`leaflet_map.dfy`, module `LeafletMap`). A `MapView` class holds the map and
  library handles, the readiness flag, the marker registry (truck id to marker) and the set of marker
  layers Leaflet shows. Leaflet objects are opaque natural-number handles; every created marker gets a
  fresh one. The specification function `Placed` is the registry a marker update builds.
- **The operator portal** (`operator.dfy`, module `OperatorPage`). A `Dashboard` class holds the stored
  claims, events, custom trucks and operator identity, plus the page state. The dashboard's truck list
  (`LoadClaimedTrucks`), the claim dialog's availability and search filters, and the store updates
  (`PutClaim`, `AppendEvent`, `RemoveEvent`) are functions with lemmas relating them.
- **The eater portal** (`eater.dfy`, module `EaterPage`). A `Portal` class holds the stored reviews,
  custom trucks and eater identity. `Upsert` is the case-insensitive upsert by name and city;
  `MyReviews` and `RemoveReview` are the filters.
- **The finder page** (`finder.dfy`, module `FinderPage`). The cuisine and city search options are
  distinct values in first-seen order, with a slug id. Options are filtered by the typed text, and trucks
  by exact field match. A `Finder` class holds the page state; its handlers drive the `MapView`'s
  fly-to and fit-bounds commands.
- **The event dialog** (`event_modal.dfy`, module `EventModal`). It covers the booking-status notes,
  the price and RSVP labels, the spots-taken figure, `FormatTime` and the click on the RSVP button.

`common.dfy` (module `Common`) holds the shared `Truck` and `Event` records and JavaScript's `filter`,
`findIndex` and `find`. It also holds ASCII `toLowerCase`, `includes`, `trim() == ""` and the decimal
rendering of numbers, each with its defining properties proved.

Dates and the current time are whole numbers of milliseconds. Touch and mouse positions and drag offsets are
real numbers of CSS pixels. Browser storage is modelled by class
fields. Fresh ids, timestamps, the user's confirmation, the geolocation outcome, the result of loading
Leaflet and the set of marker layers whose removal throws are all parameters.

`flyTo` is guarded only by the presence of a map instance; it does not wait for the readiness flag
(`LeafletMap.MapView.FlyTo`).

Two behaviours of the source are worth knowing:

- A truck list with a repeated id registers only the later truck's marker. The earlier marker stays on
  the map and no later marker update removes it; only removing the map does
  (`LeafletMap.DuplicateIdLeaksMarker`). Catalog ids
  are meant to be unique, so this is stated as a property, not a defect.
- A time without a space renders its modifier as the text "undefined"
  (`EventModal.FormatTimeWithoutModifier`). The `catch` branch of `formatTime` cannot be reached for a
  string argument, so it is not modelled.

## Model

| member | source | states |
|---|---|---|
| `Swiper.IndexOfId` | packages/ui/src/FoodTruckSwiper.tsx:57 | -1 exactly when no truck has the id, otherwise the first position holding it |
| `Swiper.Clamp` | packages/ui/src/FoodTruckSwiper.tsx:77-87 | the live offset stays within ±100, equals the displacement inside that range and saturates outside it |
| `Swiper.SwipeTarget` | packages/ui/src/FoodTruckSwiper.tsx:104-116 | one step back exactly when the offset is above 50 and the cursor is not first, one step forward exactly when it is below -50 and not last, unchanged otherwise (±50 included); the cursor stays in range |
| `Swiper.InsertByDate` | packages/ui/src/FoodTruckSwiper.tsx:174 | inserting into a date-sorted list keeps it sorted and adds exactly the one event |
| `Swiper.SortByDate` | packages/ui/src/FoodTruckSwiper.tsx:174 | the result is sorted ascending by date and is a permutation of the input |
| `Swiper.UpcomingEvents` | packages/ui/src/FoodTruckSwiper.tsx:160-176 | no events gives none; otherwise at most three events, sorted by date, each within the next thirty days |
| `Swiper.UpcomingAreEarliest` | packages/ui/src/FoodTruckSwiper.tsx:169-175 | the card shows min(3, window size) events drawn from the in-window events, and no in-window event left out is earlier than one shown |
| `Swiper.CardView` | packages/ui/src/FoodTruckSwiper.tsx:178-405 | nothing for an empty list; otherwise the card of the truck at the cursor (which must be in range) with its upcoming events, arrows and dots only for two or more trucks, previous disabled at the first card and next at the last |
| `Swiper.Carousel.constructor` | packages/ui/src/FoodTruckSwiper.tsx:48-51 | the cursor, drag start and offset start at 0, not dragging |
| `Swiper.Carousel.SyncSelection` | packages/ui/src/FoodTruckSwiper.tsx:55-62 | with a selection whose id is listed the cursor becomes its first index; otherwise the cursor is unchanged |
| `Swiper.Carousel.Start` | packages/ui/src/FoodTruckSwiper.tsx:65-74 | dragging starts at the given position |
| `Swiper.Carousel.Move` | packages/ui/src/FoodTruckSwiper.tsx:77-87 | no change when not dragging; otherwise the offset is the clamped displacement, so it stays within ±100 |
| `Swiper.Carousel.End` | packages/ui/src/FoodTruckSwiper.tsx:104-120 | no-op when not dragging; otherwise the cursor moves by the swipe rule (at most one step, in range kept) and dragging, offset and start are reset whichever branch is taken |
| `Swiper.Carousel.Previous` | packages/ui/src/FoodTruckSwiper.tsx:123-127 | steps back only above 0, so an in-range cursor stays in range |
| `Swiper.Carousel.Next` | packages/ui/src/FoodTruckSwiper.tsx:129-133 | steps forward only below the last index, so an in-range cursor stays in range |
| `Swiper.Carousel.SelectDot` | packages/ui/src/FoodTruckSwiper.tsx:397 | dot i sets the cursor to exactly i |
| `LeafletMap.Placed` | packages/ui/src/LeafletMap.tsx:232-251 | the registry a marker update builds has exactly the trucks' ids as keys |
| `LeafletMap.PlacedEntries` | packages/ui/src/LeafletMap.tsx:232-251 | the registry's keys are exactly the trucks' ids, and each entry is the marker made for the last truck with that id |
| `LeafletMap.PlacedActive` | packages/ui/src/LeafletMap.tsx:233-237 | a marker is active exactly when its id is the selected truck's id; none is with no selection |
| `LeafletMap.PlacedLayers` | packages/ui/src/LeafletMap.tsx:245-246 | every registered marker is one of the markers created by this update |
| `LeafletMap.PlacedSameShape` | packages/ui/src/LeafletMap.tsx:215-251 | repeating an update with the same trucks and selection gives the same keys, trucks and active flags |
| `LeafletMap.DuplicateIdLeaksMarker` | packages/ui/src/LeafletMap.tsx:251 | with a repeated id the earlier truck's marker is not in the registry |
| `LeafletMap.MapView.constructor` | packages/ui/src/LeafletMap.tsx:38-42 | no map, no library, not ready, empty registry |
| `LeafletMap.MapView.FlyTo` | packages/ui/src/LeafletMap.tsx:46-50 | a fly-to call exactly when a map exists, with zoom 14 unless given and duration 1 |
| `LeafletMap.MapView.FitBounds` | packages/ui/src/LeafletMap.tsx:51-61 | a fit call exactly when map, library and a non-empty list are present, with one point per truck in list order, padding 50 by 50 and maximum zoom 14 |
| `LeafletMap.MapView.ClearMarkers` | packages/ui/src/LeafletMap.tsx:215-223 | the registry is emptied; every registered marker is removed from the map except those whose removal throws |
| `LeafletMap.MapView.PlaceMarkers` | packages/ui/src/LeafletMap.tsx:232-259 | over an empty registry, the registry becomes `Placed` (keys exactly the trucks' ids), one fresh layer per truck is shown, and the layer counter advances by the list's length |
| `LeafletMap.MapView.UpdateMarkers` | packages/ui/src/LeafletMap.tsx:186-259 | nothing changes when not ready, without a map, or when the library cannot be loaded; otherwise old markers are removed and the registry becomes `Placed` over fresh markers, all shown |
| `LeafletMap.MapView.BeginInit` | packages/ui/src/LeafletMap.tsx:65-84 | without a container nothing happens; otherwise the old map is dropped with every layer it showed, the container unbound and the initialisation scheduled; the registry and layer invariant is kept |
| `LeafletMap.MapView.CompleteInit` | packages/ui/src/LeafletMap.tsx:86-143 | nothing once cancelled or without a container; failure nulls both handles, shows nothing and leaves readiness alone; success sets library and map and then ready; the registry and layer invariant is kept |
| `LeafletMap.MapView.Teardown` | packages/ui/src/LeafletMap.tsx:148-177 | cancels initialisation, empties the registry (swallowing failed removals), removes the map so that no layer stays shown, nulls map and library and clears ready |
| `OperatorPage.OwnedKeys` | apps/web/app/operator/page.tsx:94-95 | exactly the claimed ids whose claim names the operator, strictly ascending (the enumeration order of integer keys) |
| `OperatorPage.LoadClaimedTrucks` | apps/web/app/operator/page.tsx:88-109 | the operator's claimed trucks in key order, then its custom trucks in stored order, each carrying its stored events or none |
| `OperatorPage.LoadedIff` | apps/web/app/operator/page.tsx:94-108 | a truck is listed exactly when it comes from a claim of this operator or a custom truck tagged with it, with that truck's events |
| `OperatorPage.PutClaim` | apps/web/app/operator/page.tsx:135-140 | the truck's key now holds this operator's claim, overwriting any other claimant; every other key is unchanged |
| `OperatorPage.ClaimedIsLoaded` | apps/web/app/operator/page.tsx:131-141 | after a claim the truck appears on the claimant's dashboard |
| `OperatorPage.AddedIsLoaded` | apps/web/app/operator/page.tsx:147-174 | a truck added by the operator appears on its dashboard |
| `OperatorPage.NewEvent` | apps/web/app/operator/page.tsx:183-187 | a new event carries the fresh id and has every spot free |
| `OperatorPage.NewEventNoneTaken` | apps/web/app/operator/page.tsx:183-187 | the dialog shows a new event with no spot taken, and as sold out only when its capacity is 0 |
| `OperatorPage.AppendEvent` | apps/web/app/operator/page.tsx:181-190 | exactly one event appended to the chosen truck's list, created when absent; other trucks' lists unchanged |
| `OperatorPage.RemoveEvent` | apps/web/app/operator/page.tsx:217-219 | the truck's list loses exactly the events with that id; other trucks' lists unchanged |
| `OperatorPage.DeleteKeepsOthers` | apps/web/app/operator/page.tsx:219 | every other event keeps its number of occurrences |
| `OperatorPage.DeleteUndoesAppend` | apps/web/app/operator/page.tsx:177-221 | deleting an event just added under an unused id restores the truck's list |
| `OperatorPage.AvailableTrucks` | apps/web/app/operator/page.tsx:767-769 | a catalog truck is offered exactly when it has no claim or another operator's claim |
| `OperatorPage.ClaimedNotAvailable` | apps/web/app/operator/page.tsx:767-769 | once claimed, no catalog entry with the truck's id is offered to its claimant |
| `OperatorPage.SearchTrucks` | apps/web/app/operator/page.tsx:774-779 | a truck is shown exactly when the lowercased query occurs in its lowercased name, cuisine or city |
| `OperatorPage.EmptySearchShowsAll` | apps/web/app/operator/page.tsx:774-779 | an empty query shows every truck, in order |
| `OperatorPage.Dashboard.constructor` | apps/web/app/operator/page.tsx:75-86 | signed in, with the stored name and the loaded list, exactly when both id and name are stored |
| `OperatorPage.Dashboard.Login` | apps/web/app/operator/page.tsx:111-121 | a blank name changes nothing; otherwise the id "operator_" plus the clock and the name are stored and the list is loaded |
| `OperatorPage.Dashboard.Logout` | apps/web/app/operator/page.tsx:123-129 | the identity, name and truck list are cleared |
| `OperatorPage.Dashboard.ClaimTruck` | apps/web/app/operator/page.tsx:131-145 | no change without a stored operator; otherwise the claim is put and the list reloaded, now holding the truck |
| `OperatorPage.Dashboard.AddNewTruck` | apps/web/app/operator/page.tsx:147-175 | no change without a stored operator; otherwise exactly one tagged truck appended and shown |
| `OperatorPage.Dashboard.SelectTruckForEvent` | apps/web/app/operator/page.tsx:362-365 | the truck becomes the event target |
| `OperatorPage.Dashboard.AddEvent` | apps/web/app/operator/page.tsx:177-213 | no change without a target; otherwise the event is appended, the target cleared and the list reloaded when an operator is stored |
| `OperatorPage.Dashboard.DeleteEvent` | apps/web/app/operator/page.tsx:215-227 | no change unless confirmed; otherwise the event is removed and the list reloaded when an operator is stored |
| `EaterPage.MyReviews` | apps/web/app/eater/page.tsx:66-68 | exactly the stored reviews with the eater's id |
| `EaterPage.MyReviewsAppend` | apps/web/app/eater/page.tsx:170 | an appended review is appended to its author's list only |
| `EaterPage.MyReviewsCounts` | apps/web/app/eater/page.tsx:67 | each of the eater's reviews appears as often as it is stored |
| `EaterPage.FirstMatch` | apps/web/app/eater/page.tsx:100-104 | none exactly when no custom truck has the same name and city ignoring case; otherwise the truck at the first position that does |
| `EaterPage.Upsert` | apps/web/app/eater/page.tsx:97-127 | on a match, the id of the first matching custom truck is returned and storage is unchanged; otherwise exactly one new truck with the given details is appended and its id returned; the catalog is never consulted |
| `EaterPage.UpsertIdempotent` | apps/web/app/eater/page.tsx:100-125 | a second upsert with the same name and city in any case adds nothing and returns the same id |
| `EaterPage.RemoveReview` | apps/web/app/eater/page.tsx:195-197 | exactly the reviews with another id are kept |
| `EaterPage.RemoveKeepsOthers` | apps/web/app/eater/page.tsx:197 | every other review keeps its number of occurrences |
| `EaterPage.RemoveUndoesAppend` | apps/web/app/eater/page.tsx:170-197 | deleting a review just added under an unused id restores the list |
| `EaterPage.Portal.constructor` | apps/web/app/eater/page.tsx:53-63 | signed in, with reviews and trucks loaded, exactly when both id and name are stored |
| `EaterPage.Portal.LoadEaterData` | apps/web/app/eater/page.tsx:65-75 | my reviews are the eater's stored reviews; the trucks offered are the catalog followed by the custom trucks |
| `EaterPage.Portal.Login` | apps/web/app/eater/page.tsx:77-87 | a blank or whitespace-only name changes nothing; otherwise "eater_" plus the clock is stored and the data loaded |
| `EaterPage.Portal.Logout` | apps/web/app/eater/page.tsx:89-95 | the identity, name and reviews are cleared |
| `EaterPage.Portal.AddReview` | apps/web/app/eater/page.tsx:129-190 | nothing written without an eater or with listed-truck id 0; otherwise exactly one review appended, naming the upserted truck as typed or the listed truck's name or "", and shown last in my reviews |
| `EaterPage.Portal.StoreReview` | apps/web/app/eater/page.tsx:158-187 | exactly the review is appended to storage, and after the reload it is the last of its author's reviews; the trucks offered are the catalog then the custom trucks |
| `EaterPage.Portal.DeleteReview` | apps/web/app/eater/page.tsx:192-203 | no change unless confirmed; otherwise the review is removed and the lists reloaded when an eater is stored |
| `FinderPage.Distinct` | apps/web/app/page.tsx:47 | the same values as the input, each once |
| `FinderPage.DistinctFirstSeenOrder` | apps/web/app/page.tsx:47 | the distinct values come in the order of their first appearance |
| `FinderPage.ReplaceFirst` | apps/web/app/page.tsx:48 | only the first occurrence of the character is replaced; no occurrence leaves the string unchanged |
| `FinderPage.CuisineEmoji` | apps/web/app/page.tsx:50 | the icon of the first truck with the cuisine, or the plate emoji when it is empty or there is none |
| `FinderPage.Options` | apps/web/app/page.tsx:46-57 | one option per distinct value of the tab's field, with id the lowercased name with its first space dashed |
| `FinderPage.OptionsCoverTrucks` | apps/web/app/page.tsx:46-57 | every truck's value has an option |
| `FinderPage.OptionsHaveTrucks` | apps/web/app/page.tsx:46-57 | every option is some truck's value |
| `FinderPage.OptionsDistinctInOrder` | apps/web/app/page.tsx:46-57 | no two options share a name, and options follow the first appearance of their values |
| `FinderPage.FilteredOptions` | apps/web/app/page.tsx:129-134 | an option is kept exactly when the lowercased filter occurs in its lowercased name |
| `FinderPage.Finder.VisibleOptions` | apps/web/app/page.tsx:129-134 | every listed option names the current tab's field of some catalog truck and contains the filter ignoring case; every catalog truck whose field contains the filter has its value listed |
| `FinderPage.EmptyFilterKeepsAll` | apps/web/app/page.tsx:129-134 | an empty filter keeps every option in order |
| `FinderPage.MatchingTrucks` | apps/web/app/page.tsx:78-80 | exactly the trucks whose field equals the option's name |
| `FinderPage.OptionMatchesSomeTruck` | apps/web/app/page.tsx:76-94 | every derived option narrows the map to at least one truck |
| `FinderPage.GeoErrorMessage` | apps/web/app/page.tsx:117-122 | the "allow location access" message exactly for a denied permission, "Could not get your location." for any other failure |
| `FinderPage.Finder.constructor` | apps/web/app/page.tsx:31-39 | overlay and prompt shown, nothing selected, cuisine tab, the whole catalog on the map |
| `FinderPage.Finder.SelectTab` | apps/web/app/page.tsx:217-227 | the tab is switched |
| `FinderPage.Finder.TypeFilter` | apps/web/app/page.tsx:256 | the filter text is set |
| `FinderPage.Finder.TruckClick` | apps/web/app/page.tsx:60-67 | the truck is selected, the prompt hidden, and the map flies to it at zoom 14 when mounted |
| `FinderPage.Finder.MapClick` | apps/web/app/page.tsx:70-73 | the selection is cleared and the prompt shown |
| `FinderPage.Finder.SelectOption` | apps/web/app/page.tsx:76-94 | the map shows exactly the matching trucks, the prompt exactly when there are any, and bounds are fitted only then |
| `FinderPage.Finder.ShowAll` | apps/web/app/page.tsx:322-336 | the whole catalog, overlay closed, prompt shown, bounds fitted to the catalog |
| `FinderPage.Finder.Geolocate` | apps/web/app/page.tsx:97-105 | without the service the "not supported" message; otherwise loading with the error cleared |
| `FinderPage.Finder.GeolocateSuccess` | apps/web/app/page.tsx:107-116 | flies to the position at zoom 13 and shows the whole catalog |
| `FinderPage.Finder.GeolocateFailure` | apps/web/app/page.tsx:117-124 | the error line is the message for the code and loading stops |
| `FinderPage.Finder.NewSearch` | apps/web/app/page.tsx:435 | the search overlay is shown again |
| `EventModal.CapacityNotes` | packages/ui/src/EventModal.tsx:228-242 | exactly one capacity note shows: the sold-out note exactly when no spot is left, the "Only N spots remaining!" warning exactly for one to five free spots, and "N spots available" otherwise |
| `EventModal.SpotsTaken` | packages/ui/src/EventModal.tsx:226 | spots taken plus spots left is the capacity; it is the whole capacity exactly when the event is sold out, and between 0 and the capacity whenever the free spots are |
| `EventModal.PriceLabel` | packages/ui/src/EventModal.tsx:199 | "Free Event" exactly for price 0 |
| `EventModal.PriceLabelInjective` | packages/ui/src/EventModal.tsx:199 | different prices get different labels |
| `EventModal.RsvpLabel` | packages/ui/src/EventModal.tsx:264 | "RSVP - It's Free!" exactly for price 0 |
| `EventModal.RsvpLabelInjective` | packages/ui/src/EventModal.tsx:264 | different prices get different button labels |
| `EventModal.SplitJoin` | packages/ui/src/EventModal.tsx:71-72 | joining the pieces of a split gives back the string, and no piece holds the separator |
| `EventModal.FormatTimeDropsSeconds` | packages/ui/src/EventModal.tsx:69-77 | "h:m:s M" is shown as "h:m M" |
| `EventModal.FormatTimeKeepsShortForm` | packages/ui/src/EventModal.tsx:69-77 | "h:m M" is shown unchanged |
| `EventModal.FormatTimeWithoutModifier` | packages/ui/src/EventModal.tsx:69-77 | without a space the modifier is shown as "undefined" |
| `EventModal.FormatTime` | packages/ui/src/EventModal.tsx:69-77 | whatever the input, the result reads "h:m M", with no colon or space in hours and minutes and no space in the modifier |
| `EventModal.SplitOmits` | packages/ui/src/EventModal.tsx:71-72 | a character missing from a string is missing from every piece of its split |
| `EventModal.FormatTimeIdempotent` | packages/ui/src/EventModal.tsx:69-77 | formatting a formatted time changes nothing |
| `EventModal.ModalView` | packages/ui/src/EventModal.tsx:46-275 | nothing when closed; otherwise the sold-out button exactly when no spot is left, the free labels exactly for price 0, spots taken plus left equal to capacity, the time, price label, spots-taken figure and capacity note are `FormatTime`, `PriceLabel`, `SpotsTaken` and `CapacityNotes` of the event, and the enabled button's caption is `RsvpLabel` of the price |
| `EventModal.Click` | packages/ui/src/EventModal.tsx:79-83 | a click reaches the callback exactly on the enabled RSVP button with a callback supplied, and hands it the event and truck; the disabled sold-out button does nothing |
| `EventModal.SoldOutNeverReachesCallback` | packages/ui/src/EventModal.tsx:255-275 | on an open dialog, a click reaches the callback with the event and truck exactly when a callback is supplied and the event is not sold out |

## Left out

- Browser storage and JSON encoding: the stored values are class fields read and written directly.
- The clock and fresh ids: `Date.now()` ids and ISO timestamps are parameters. Nothing makes them unique.
- Date parsing and locale formatting (`formatDate` in the carousel and the dialog). Event dates and "now" are millisecond counts, and the thirty-day window ignores daylight-saving shifts.
- Leaflet itself: map construction, tiles, icons, marker creation, animation and `latLngBounds` are foreign code. Their objects are opaque handles, and coordinates are opaque numbers. Marker creation never fails in the model.
- Dynamic imports, the initialisation and show-all timers and the asynchronous marker update run as synchronous steps. `LeafletMap.MapView.CompleteInit` is the delayed initialisation, and `FinderPage.Finder.ShowAll` fits the bounds at once.
- The parent's map reference is a nullable `MapView`; the forwarding wrapper between page and map is not part of this model.
- Full Unicode `toLowerCase` and `trim`: only ASCII letters are folded and only ASCII whitespace counts as blank.
- Prices are whole numbers; fractional prices and their rendering are not modelled.
- `Swiper.SortByDate`: sortedness and permutation are proved, but not the stability of JavaScript's sort for events on the same date.
- `OperatorPage.OwnedKeys`: claims are enumerated in ascending id order. That is JavaScript's order for array-index keys; ids beyond that range would follow insertion order instead.
- The `addedBy: "eater"` tag on trucks added by eaters is not kept: nothing in these files reads it.
- Form field setters, modal open/close flags, the dropdown toggle and click-outside handling, the loading flags of the two portals, router navigation and alerts are UI plumbing.
- Clicking a marker reports the marker's truck to the page (`LeafletMap.Marker.truck`). The wiring of the click callbacks, including the map-click listener, is not modelled as code.
