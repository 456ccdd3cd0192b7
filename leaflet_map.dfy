/** The map view-controller: it owns the Leaflet map instance, keeps a registry from truck id to
    marker in step with the truck list and the selection, and answers the parent's fly-to and
    fit-bounds commands. Leaflet objects are opaque handles; the markers Leaflet shows on the map
    are tracked as a set of handles so that removal, failed removal and leaks are visible. */
module LeafletMap {
  import opened Common

  /** Identity of an object owned by Leaflet: the library module, a map, or a marker layer. */
  type Handle = nat

  const DefaultZoom := 14
  const FlyDuration := 1
  const FitPadding := 50
  const FitMaxZoom := 14

  datatype LatLng = LatLng(lat: Degrees, lng: Degrees)

  /** A registered marker: its layer, the truck it stands for and whether it carries the
      "active" class. Clicking it reports `truck`. */
  datatype Marker = Marker(layer: Handle, truck: Truck, active: bool)

  /** The call made on the Leaflet map by a command. */
  datatype ViewCall =
    | FlyCall(target: Handle, center: LatLng, zoom: int, duration: int)
    | FitCall(target: Handle, points: seq<LatLng>, padding: (int, int), maxZoom: int)

  /** How the delayed initialisation ends: the import or the map construction threw, or a map
      was built from the loaded library. */
  datatype InitOutcome = InitFailed | Created(library: Handle, instance: Handle)

  predicate IsActive(selected: Option<Truck>, t: Truck) {
    selected.Some? && selected.value.id == t.id
  }

  function Ids(trucks: seq<Truck>): set<int> {
    set t | t in trucks :: t.id
  }

  function Layers(markers: map<int, Marker>): set<Handle> {
    set id | id in markers :: markers[id].layer
  }

  /** The handles first, first + 1, ..., first + n - 1. */
  function LayerRange(first: Handle, n: nat): (r: set<Handle>)
    ensures forall h :: h in r <==> first <= h < first + n
  {
    if n == 0 then {} else LayerRange(first, n - 1) + {first + n - 1}
  }

  function Points(trucks: seq<Truck>): (r: seq<LatLng>)
    ensures |r| == |trucks|
    ensures forall i :: 0 <= i < |trucks| ==> r[i] == LatLng(trucks[i].lat, trucks[i].lng)
  {
    seq(|trucks|, i requires 0 <= i < |trucks| => LatLng(trucks[i].lat, trucks[i].lng))
  }

  /** The registry after markers have been created, in list order, for `trucks` with fresh
      layers first, first + 1, ...: each truck's marker is written under its id. */
  function Placed(trucks: seq<Truck>, selected: Option<Truck>, first: Handle): (r: map<int, Marker>)
    ensures r.Keys == Ids(trucks)
    decreases |trucks|
  {
    if trucks == [] then map[]
    else
      var n := |trucks| - 1;
      IdsOfPrefix(trucks);
      Placed(trucks[..n], selected, first)[trucks[n].id := Marker(first + n, trucks[n], IsActive(selected, trucks[n]))]
  }

  /** The ids of a list are those of all but its last truck, plus the last truck's id. */
  lemma IdsOfPrefix(trucks: seq<Truck>)
    requires trucks != []
    ensures Ids(trucks) == Ids(trucks[..|trucks| - 1]) + {trucks[|trucks| - 1].id}
  {
    var n := |trucks| - 1;
    assert trucks == trucks[..n] + [trucks[n]];
  }

  /** An id other than the last truck's last occurs where it last occurs in the shorter list. */
  lemma LastIndexOfPrefix(trucks: seq<Truck>, id: int)
    requires trucks != [] && id in Ids(trucks) && id != trucks[|trucks| - 1].id
    ensures id in Ids(trucks[..|trucks| - 1])
    ensures LastIndexOfId(trucks, id) == LastIndexOfId(trucks[..|trucks| - 1], id)
  {
    IdsOfPrefix(trucks);
  }

  /** Placing one more truck writes its marker, with the next layer, over the registry so far. */
  lemma PlacedStep(trucks: seq<Truck>, i: nat, selected: Option<Truck>, first: Handle)
    requires i < |trucks|
    ensures Placed(trucks[..i + 1], selected, first)
              == Placed(trucks[..i], selected, first)[trucks[i].id := Marker(first + i, trucks[i], IsActive(selected, trucks[i]))]
  {
    assert trucks[..i + 1][..i] == trucks[..i];
  }

  /** Position of the last truck with the given id. */
  function LastIndexOfId(trucks: seq<Truck>, id: int): (k: nat)
    requires id in Ids(trucks)
    ensures k < |trucks| && trucks[k].id == id
    ensures forall j :: k < j < |trucks| ==> trucks[j].id != id
    decreases |trucks|
  {
    var n := |trucks| - 1;
    if trucks[n].id == id then n
    else
      assert id in Ids(trucks[..n]) by {
        var t :| t in trucks && t.id == id;
        var i :| 0 <= i < |trucks| && trucks[i] == t;
        assert trucks[..n][i] == t;
      }
      LastIndexOfId(trucks[..n], id)
  }

  /** The registry holds exactly one entry per distinct id in the list, and the entry is the
      marker made for the LAST truck with that id. */
  lemma {:induction false} PlacedEntries(trucks: seq<Truck>, selected: Option<Truck>, first: Handle)
    ensures Placed(trucks, selected, first).Keys == Ids(trucks)
    ensures forall id :: id in Ids(trucks) ==>
              var k := LastIndexOfId(trucks, id);
              Placed(trucks, selected, first)[id] == Marker(first + k, trucks[k], IsActive(selected, trucks[k]))
  {
    forall id | id in Ids(trucks)
      ensures var k := LastIndexOfId(trucks, id);
              Placed(trucks, selected, first)[id] == Marker(first + k, trucks[k], IsActive(selected, trucks[k]))
    {
      PlacedAt(trucks, selected, first, id);
    }
  }

  lemma {:induction false} PlacedAt(trucks: seq<Truck>, selected: Option<Truck>, first: Handle, id: int)
    requires id in Ids(trucks)
    ensures var k := LastIndexOfId(trucks, id);
            && id in Placed(trucks, selected, first)
            && Placed(trucks, selected, first)[id] == Marker(first + k, trucks[k], IsActive(selected, trucks[k]))
    decreases |trucks|
  {
    if trucks[|trucks| - 1].id != id {
      LastIndexOfPrefix(trucks, id);
      PlacedAt(trucks[..|trucks| - 1], selected, first, id);
    }
  }

  /** A marker is active exactly when its truck is the selected one; with no selection none is. */
  lemma {:induction false} PlacedActive(trucks: seq<Truck>, selected: Option<Truck>, first: Handle)
    ensures var m := Placed(trucks, selected, first);
            forall id :: id in m ==> m[id].truck.id == id && (m[id].active <==> selected.Some? && selected.value.id == id)
  {
    PlacedEntries(trucks, selected, first);
  }

  /** Every layer in the registry is one of the fresh layers made for this list. */
  lemma {:induction false} PlacedLayers(trucks: seq<Truck>, selected: Option<Truck>, first: Handle)
    ensures Layers(Placed(trucks, selected, first)) <= LayerRange(first, |trucks|)
  {
    PlacedEntries(trucks, selected, first);
  }

  /** Rebuilding twice from the same list and selection gives the same ids, trucks and active
      flags; only the marker layers are new. */
  lemma {:induction false} PlacedSameShape(trucks: seq<Truck>, selected: Option<Truck>, first: Handle, first': Handle)
    ensures var a := Placed(trucks, selected, first);
            var b := Placed(trucks, selected, first');
            a.Keys == b.Keys && forall id :: id in a ==> a[id].truck == b[id].truck && a[id].active == b[id].active
  {
    PlacedEntries(trucks, selected, first);
    PlacedEntries(trucks, selected, first');
  }

  /** With a repeated id, the marker made for the earlier truck is not in the registry:
      it stays on the map and no later marker update removes it; only removing the map does. */
  lemma DuplicateIdLeaksMarker(trucks: seq<Truck>, selected: Option<Truck>, first: Handle, i: nat, j: nat)
    requires i < j < |trucks| && trucks[i].id == trucks[j].id
    ensures first + i !in Layers(Placed(trucks, selected, first))
  {
    var m := Placed(trucks, selected, first);
    PlacedEntries(trucks, selected, first);
    assert trucks[j] in trucks;
    forall id | id in m
      ensures m[id].layer != first + i
    {
      var k := LastIndexOfId(trucks, id);
      assert k != i;
    }
  }

  class MapView {
    /** The Leaflet map instance (mapRef). */
    var instance: Option<Handle>
    /** The loaded Leaflet module (leafletRef). */
    var leaflet: Option<Handle>
    /** isMapReady. */
    var ready: bool
    /** markersRef: truck id to marker. */
    var markers: map<int, Marker>
    /** Marker layers Leaflet currently shows on the map. */
    var shown: set<Handle>
    /** Leaflet hands out a fresh layer for every marker; all handles in use are below this. */
    var nextLayer: Handle
    /** The delayed initialisation is scheduled and has not run or been cancelled. */
    var initPending: bool
    /** The container element carries Leaflet's binding id. */
    var containerTagged: bool

    ghost predicate Valid()
      reads this
    {
      (forall h :: h in shown ==> h < nextLayer) &&
      (forall id :: id in markers ==> markers[id].layer < nextLayer)
    }

    constructor ()
      ensures Valid()
      ensures instance.None? && leaflet.None? && !ready && markers == map[] && shown == {}
      ensures !initPending && !containerTagged
    {
      instance, leaflet, ready, markers, shown := None, None, false, map[], {};
      nextLayer, initPending, containerTagged := 0, false, false;
    }

    /** The ref command flyTo: centre on (lat, lng) at `zoom`, 14 when not given, if a map exists. */
    method FlyTo(lat: Degrees, lng: Degrees, zoom: Option<int>) returns (call: Option<ViewCall>)
      ensures call.Some? <==> instance.Some?
      ensures call.Some? ==> call.value == FlyCall(instance.value, LatLng(lat, lng), zoom.GetOr(DefaultZoom), FlyDuration)
    {
      call := None;
      if instance.Some? {
        call := Some(FlyCall(instance.value, LatLng(lat, lng), zoom.GetOr(DefaultZoom), FlyDuration));
      }
    }

    /** The ref command fitBounds: fit the map to one point per truck, in list order, with
        50-pixel padding and zoom at most 14. Nothing happens without a map, without the
        library, or for an empty list. */
    method FitBounds(trucks: seq<Truck>) returns (call: Option<ViewCall>)
      ensures call.Some? <==> instance.Some? && |trucks| > 0 && leaflet.Some?
      ensures call.Some? ==> call.value.FitCall? && call.value.target == instance.value
      ensures call.Some? ==> call.value.points == Points(trucks) && call.value.padding == (FitPadding, FitPadding)
      ensures call.Some? ==> call.value.maxZoom == FitMaxZoom
    {
      call := None;
      if instance.Some? && |trucks| > 0 && leaflet.Some? {
        call := Some(FitCall(instance.value, Points(trucks), (FitPadding, FitPadding), FitMaxZoom));
      }
    }

    /** Removes every registered marker from the map and empties the registry. A marker whose
        removal throws (its layer is in `failing`) stays on the map; the others are removed all
        the same. */
    method ClearMarkers(failing: set<Handle>)
      requires Valid()
      modifies this`markers, this`shown
      ensures Valid()
      ensures markers == map[]
      ensures shown == old(shown) - (Layers(old(markers)) - failing)
    {
      var pending := Layers(markers);
      while pending != {}
        invariant pending <= Layers(old(markers))
        invariant markers == old(markers)
        invariant shown == old(shown) - ((Layers(old(markers)) - pending) - failing)
        decreases pending
      {
        var h :| h in pending;
        if h !in failing {
          shown := shown - {h};
        }
        pending := pending - {h};
      }
      markers := map[];
    }

    /** The marker-update effect. Skipped entirely when the map is not ready or absent, or when
        the library is not loaded and loading it (`imported`) fails. Otherwise every registered
        marker is removed and one marker per truck is created, shown and registered under the
        truck's id, active when the truck is the selected one. */
    method UpdateMarkers(trucks: seq<Truck>, selected: Option<Truck>, imported: Option<Handle>, failing: set<Handle>)
      requires Valid()
      modifies this
      ensures Valid()
      ensures instance == old(instance) && ready == old(ready)
      ensures initPending == old(initPending) && containerTagged == old(containerTagged)
      ensures !old(ready) || old(instance).None? || (old(leaflet).None? && imported.None?) ==>
                leaflet == old(leaflet) && markers == old(markers) && shown == old(shown) && nextLayer == old(nextLayer)
      ensures old(ready) && old(instance).Some? && (old(leaflet).Some? || imported.Some?) ==>
                && leaflet == (if old(leaflet).Some? then old(leaflet) else imported)
                && markers == Placed(trucks, selected, old(nextLayer))
                && markers.Keys == Ids(trucks)
                && nextLayer == old(nextLayer) + |trucks|
                && shown == (old(shown) - (Layers(old(markers)) - failing)) + LayerRange(old(nextLayer), |trucks|)
    {
      if !ready || instance.None? {
        return;
      }
      if leaflet.None? {
        if imported.None? {
          return;
        }
        leaflet := imported;
      }
      ClearMarkers(failing);
      PlaceMarkers(trucks, selected);
    }

    /** The loop of the marker update, over an empty registry: one marker per truck, in list
        order, each with a fresh layer that is shown and registered under the truck's id. */
    method PlaceMarkers(trucks: seq<Truck>, selected: Option<Truck>)
      requires Valid() && markers == map[]
      modifies this`markers, this`shown, this`nextLayer
      ensures Valid()
      ensures markers == Placed(trucks, selected, old(nextLayer))
      ensures markers.Keys == Ids(trucks)
      ensures nextLayer == old(nextLayer) + |trucks|
      ensures shown == old(shown) + LayerRange(old(nextLayer), |trucks|)
    {
      var first := nextLayer;
      var i := 0;
      while i < |trucks|
        invariant 0 <= i <= |trucks|
        invariant nextLayer == first + i
        invariant markers == Placed(trucks[..i], selected, first)
        invariant shown == old(shown) + LayerRange(first, i)
      {
        var truck := trucks[i];
        var marker := Marker(nextLayer, truck, IsActive(selected, truck));
        shown := shown + {nextLayer};
        markers := markers[truck.id := marker];
        nextLayer := nextLayer + 1;
        PlacedStep(trucks, i, selected, first);
        i := i + 1;
      }
      assert trucks[..i] == trucks;
      PlacedEntries(trucks, selected, first);
      PlacedLayers(trucks, selected, first);
    }

    /** The initialisation effect, up to scheduling the delayed initialisation: drop any previous
        map instance (its removal may throw; that is ignored), empty the container, which takes
        every layer off the page, and strip the container's binding. */
    method BeginInit(hasContainer: bool)
      requires Valid()
      modifies this`instance, this`containerTagged, this`initPending, this`shown
      ensures Valid()
      ensures !hasContainer ==>
                instance == old(instance) && containerTagged == old(containerTagged) &&
                initPending == old(initPending) && shown == old(shown)
      ensures hasContainer ==> instance.None? && !containerTagged && initPending && shown == {}
    {
      if !hasContainer {
        return;
      }
      if instance.Some? {
        instance := None;
      }
      shown := {};
      containerTagged := false;
      initPending := true;
    }

    /** The delayed initialisation. It does nothing once cancelled by teardown or when the
        container is gone. A failure empties the container and clears both handles and the
        container's binding but leaves `ready` alone; success records the library, then the map,
        and only then sets `ready`. */
    method CompleteInit(hasContainer: bool, outcome: InitOutcome)
      requires Valid()
      modifies this`instance, this`leaflet, this`ready, this`containerTagged, this`initPending, this`shown
      ensures Valid()
      ensures !old(initPending) || !hasContainer ==>
                instance == old(instance) && leaflet == old(leaflet) && ready == old(ready) &&
                containerTagged == old(containerTagged) && shown == old(shown)
      ensures !initPending
      ensures old(initPending) && hasContainer && outcome.InitFailed? ==>
                instance.None? && leaflet.None? && ready == old(ready) && !containerTagged && shown == {}
      ensures old(initPending) && hasContainer && outcome.Created? ==>
                instance == Some(outcome.instance) && leaflet == Some(outcome.library) && ready && containerTagged
                && shown == old(shown)
    {
      if !initPending {
        return;
      }
      initPending := false;
      if !hasContainer {
        return;
      }
      match outcome {
        case Created(library, created) =>
          leaflet := Some(library);
          containerTagged := true;
          instance := Some(created);
          ready := true;
        case InitFailed =>
          shown := {};
          containerTagged := false;
          instance := None;
          leaflet := None;
      }
    }

    /** The initialisation effect's cleanup: cancel a pending initialisation, remove every
        marker (swallowing failures, given by `failing`), then remove the map and empty the
        container, which takes every remaining layer off the page (a marker whose own removal
        threw and one leaked by a repeated id included); drop the library and clear `ready`. */
    method Teardown(failing: set<Handle>)
      requires Valid()
      modifies this
      ensures Valid()
      ensures markers == map[] && shown == {}
      ensures instance.None? && leaflet.None? && !ready && !initPending && !containerTagged
      ensures nextLayer == old(nextLayer)
    {
      initPending := false;
      ClearMarkers(failing);
      if instance.Some? {
        instance := None;
      }
      shown := {};
      containerTagged := false;
      leaflet := None;
      ready := false;
    }
  }
}
