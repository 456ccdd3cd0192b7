/** The operator portal: an operator signs in under a generated id, claims catalog trucks,
    adds trucks of their own, and adds or deletes events on them. The browser's storage is
    modelled by four fields: the claims keyed by truck id, the events keyed by truck id, the
    custom-truck list and the stored operator id and name. */
module OperatorPage {
  import opened Common
  import EventModal

  /** A stored claim: who claimed the truck, the truck as it was claimed, and when. */
  datatype Claim = Claim(operatorId: string, truck: Truck, claimedAt: string)

  /** The add-truck form. */
  datatype TruckForm = TruckForm(
    name: string, cuisine: string, city: string, lat: Degrees, lng: Degrees, icon: string, description: string)

  /** The add-event form; `date` is the instant the date field denotes. */
  datatype EventForm = EventForm(
    title: string, kind: string, date: int, time: string, duration: string,
    description: string, price: nat, capacity: int, image: string)

  /** The id prefix of a freshly signed-in operator. */
  const OperatorPrefix := "operator_"

  /** The stored events of a truck, or none when the truck has no entry. */
  function EventsFor(events: map<int, seq<Event>>, id: int): seq<Event> {
    if id in events then events[id] else []
  }

  /** A truck as the dashboard lists it: the stored truck carrying its event list. */
  function WithEvents(t: Truck, list: seq<Event>): Truck {
    t.(events := Some(list))
  }

  // ---------------------------------------------------------------------------
  // Object.entries order: integer keys ascending

  /** Every non-empty finite set of integers has a least element. */
  lemma {:induction false} LeastExists(s: set<int>)
    requires s != {}
    ensures exists k :: IsLeast(k, s)
    decreases |s|
  {
    var x := PickOne(s);
    if s - {x} == {} {
      assert forall j :: j in s ==> x <= j by {
        forall j | j in s
          ensures x <= j
        {
          assert j !in s - {x};
        }
      }
      assert IsLeast(x, s);
    } else {
      LeastExists(s - {x});
      var m :| IsLeast(m, s - {x});
      var k := if x < m then x else m;
      forall j | j in s
        ensures k <= j
      {
        if j != x {
          assert j in s - {x};
        }
      }
      assert IsLeast(k, s);
    }
  }

  /** A set other than the empty set has a member. */
  lemma {:induction false} NonEmptyHasMember(s: set<int>)
    requires s != {}
    ensures exists y :: y in s
  {
    if forall y :: y !in s {
      assert false;
    }
  }

  /** Some element of a non-empty set. */
  lemma PickOne(s: set<int>) returns (x: int)
    requires s != {}
    ensures x in s
  {
    NonEmptyHasMember(s);
    x :| x in s;
  }

  /** The elements of `s` in ascending order. */
  function Ascending(s: set<int>): (r: seq<int>)
    ensures forall k :: k in r <==> k in s
    ensures forall i, j :: 0 <= i < j < |r| ==> r[i] < r[j]
    decreases |s|
  {
    if s == {} then []
    else
      LeastExists(s);
      var k :| IsLeast(k, s);
      var rest := Ascending(s - {k});
      ConsAscending(k, rest, s);
      [k] + rest
  }

  predicate IsLeast(k: int, s: set<int>) {
    k in s && forall j :: j in s ==> k <= j
  }

  /** The least element followed by the rest of the set in ascending order is ascending. */
  lemma ConsAscending(k: int, rest: seq<int>, s: set<int>)
    requires IsLeast(k, s)
    requires forall x :: x in rest <==> x in s - {k}
    requires forall i, j :: 0 <= i < j < |rest| ==> rest[i] < rest[j]
    ensures forall x :: x in [k] + rest <==> x in s
    ensures forall i, j :: 0 <= i < j < |[k] + rest| ==> ([k] + rest)[i] < ([k] + rest)[j]
  {
    var r := [k] + rest;
    forall i, j | 0 <= i < j < |r|
      ensures r[i] < r[j]
    {
      if i == 0 {
        assert r[j] == rest[j - 1] && rest[j - 1] in rest;
      } else {
        assert r[i] == rest[i - 1] && r[j] == rest[j - 1];
      }
    }
  }

  // ---------------------------------------------------------------------------
  // loadClaimedTrucks

  predicate OwnedBy(claims: map<int, Claim>, operatorId: string, k: int) {
    k in claims && claims[k].operatorId == operatorId
  }

  /** The claimed truck ids of this operator, in ascending order. */
  function OwnedKeys(claims: map<int, Claim>, operatorId: string): (r: seq<int>)
    ensures forall k :: k in r <==> OwnedBy(claims, operatorId, k)
    ensures forall i, j :: 0 <= i < j < |r| ==> r[i] < r[j]
    ensures forall i :: 0 <= i < |r| ==> r[i] in claims
  {
    var all := Ascending(claims.Keys);
    var owned := k => OwnedBy(claims, operatorId, k);
    FilterAscending(all, owned);
    var r := Filter(all, owned);
    assert forall i :: 0 <= i < |r| ==> r[i] in r;
    r
  }

  predicate StrictlyAscending(s: seq<int>) {
    forall i, j :: 0 <= i < j < |s| ==> s[i] < s[j]
  }

  /** Filtering a strictly ascending list leaves it strictly ascending. */
  lemma {:induction false} FilterAscending(s: seq<int>, p: int -> bool)
    requires StrictlyAscending(s)
    ensures StrictlyAscending(Filter(s, p))
    decreases |s|
  {
    if s != [] {
      var tail := Filter(s[1..], p);
      FilterAscending(s[1..], p);
      var r := Filter(s, p);
      assert r == (if p(s[0]) then [s[0]] else []) + tail;
      if p(s[0]) {
        forall i, j | 0 <= i < j < |r|
          ensures r[i] < r[j]
        {
          assert r[j] == tail[j - 1];
          if i == 0 {
            assert tail[j - 1] in s[1..];
            var m :| 0 <= m < |s[1..]| && s[1..][m] == tail[j - 1];
            assert s[m + 1] == r[j];
          } else {
            assert r[i] == tail[i - 1];
          }
        }
      } else {
        assert r == tail;
      }
    }
  }

  predicate CustomOwnedBy(operatorId: string, t: Truck) {
    t.operatorId == Some(operatorId)
  }

  /** The custom trucks created by `operatorId`, in stored order. */
  function OwnCustom(custom: seq<Truck>, operatorId: string): (r: seq<Truck>)
    ensures forall t :: t in r <==> t in custom && CustomOwnedBy(operatorId, t)
  {
    Filter(custom, t => CustomOwnedBy(operatorId, t))
  }

  /** The dashboard's truck list for `operatorId`: first its claimed trucks in ascending id
      order, then the custom trucks it created in stored order; each carries its stored events. */
  function LoadClaimedTrucks(claims: map<int, Claim>, events: map<int, seq<Event>>, custom: seq<Truck>, operatorId: string): (r: seq<Truck>)
    ensures var keys := OwnedKeys(claims, operatorId);
            var mine := OwnCustom(custom, operatorId);
            && |r| == |keys| + |mine|
            && (forall i :: 0 <= i < |keys| ==> r[i] == WithEvents(claims[keys[i]].truck, EventsFor(events, keys[i])))
            && (forall i :: 0 <= i < |mine| ==> r[|keys| + i] == WithEvents(mine[i], EventsFor(events, mine[i].id)))
  {
    var keys := OwnedKeys(claims, operatorId);
    var claimed := ClaimedPart(claims, events, keys);
    var mine := CustomPart(events, OwnCustom(custom, operatorId));
    assert forall i :: 0 <= i < |mine| ==> (claimed + mine)[|keys| + i] == mine[i];
    claimed + mine
  }

  /** The claimed trucks under `keys`, each with its stored events. */
  function ClaimedPart(claims: map<int, Claim>, events: map<int, seq<Event>>, keys: seq<int>): (r: seq<Truck>)
    requires forall i :: 0 <= i < |keys| ==> keys[i] in claims
    ensures |r| == |keys|
    ensures forall i :: 0 <= i < |keys| ==> r[i] == WithEvents(claims[keys[i]].truck, EventsFor(events, keys[i]))
  {
    seq(|keys|, i requires 0 <= i < |keys| => WithEvents(claims[keys[i]].truck, EventsFor(events, keys[i])))
  }

  /** The given custom trucks, each with its stored events. */
  function CustomPart(events: map<int, seq<Event>>, mine: seq<Truck>): (r: seq<Truck>)
    ensures |r| == |mine|
    ensures forall i :: 0 <= i < |mine| ==> r[i] == WithEvents(mine[i], EventsFor(events, mine[i].id))
  {
    seq(|mine|, i requires 0 <= i < |mine| => WithEvents(mine[i], EventsFor(events, mine[i].id)))
  }

  /** A listed truck comes from one of the operator's claims or one of its custom trucks. */
  predicate FromClaim(claims: map<int, Claim>, events: map<int, seq<Event>>, operatorId: string, k: int, t: Truck) {
    OwnedBy(claims, operatorId, k) && t == WithEvents(claims[k].truck, EventsFor(events, k))
  }

  predicate FromCustom(custom: seq<Truck>, events: map<int, seq<Event>>, operatorId: string, c: Truck, t: Truck) {
    c in custom && CustomOwnedBy(operatorId, c) && t == WithEvents(c, EventsFor(events, c.id))
  }

  /** The list holds exactly the operator's claimed trucks and its own custom trucks, each with
      its stored events, and nothing claimed by or created by anyone else. */
  lemma {:induction false} LoadedIff(claims: map<int, Claim>, events: map<int, seq<Event>>, custom: seq<Truck>, operatorId: string, t: Truck)
    ensures t in LoadClaimedTrucks(claims, events, custom, operatorId) <==>
              (exists k :: FromClaim(claims, events, operatorId, k, t)) || (exists c :: FromCustom(custom, events, operatorId, c, t))
  {
    if t in LoadClaimedTrucks(claims, events, custom, operatorId) {
      LoadedHasSource(claims, events, custom, operatorId, t);
    }
    if exists k :: FromClaim(claims, events, operatorId, k, t) {
      var k :| FromClaim(claims, events, operatorId, k, t);
      ClaimIsLoaded(claims, events, custom, operatorId, k);
    }
    if exists c :: FromCustom(custom, events, operatorId, c, t) {
      var c :| FromCustom(custom, events, operatorId, c, t);
      CustomIsLoaded(claims, events, custom, operatorId, c);
    }
  }

  lemma LoadedHasSource(claims: map<int, Claim>, events: map<int, seq<Event>>, custom: seq<Truck>, operatorId: string, t: Truck)
    requires t in LoadClaimedTrucks(claims, events, custom, operatorId)
    ensures (exists k :: FromClaim(claims, events, operatorId, k, t)) || (exists c :: FromCustom(custom, events, operatorId, c, t))
  {
    var keys := OwnedKeys(claims, operatorId);
    var mine := OwnCustom(custom, operatorId);
    assert forall i :: 0 <= i < |keys| ==> keys[i] in keys;
    var claimed := ClaimedPart(claims, events, keys);
    var own := CustomPart(events, mine);
    assert LoadClaimedTrucks(claims, events, custom, operatorId) == claimed + own;
    if t in claimed {
      var i :| 0 <= i < |claimed| && claimed[i] == t;
      assert keys[i] in keys;
      assert FromClaim(claims, events, operatorId, keys[i], t);
    } else {
      var i :| 0 <= i < |own| && own[i] == t;
      assert mine[i] in mine;
      assert FromCustom(custom, events, operatorId, mine[i], t);
    }
  }

  lemma ClaimIsLoaded(claims: map<int, Claim>, events: map<int, seq<Event>>, custom: seq<Truck>, operatorId: string, k: int)
    requires OwnedBy(claims, operatorId, k)
    ensures WithEvents(claims[k].truck, EventsFor(events, k)) in LoadClaimedTrucks(claims, events, custom, operatorId)
  {
    var r := LoadClaimedTrucks(claims, events, custom, operatorId);
    var keys := OwnedKeys(claims, operatorId);
    var i :| 0 <= i < |keys| && keys[i] == k;
    assert r[i] == WithEvents(claims[k].truck, EventsFor(events, k));
  }

  lemma CustomIsLoaded(claims: map<int, Claim>, events: map<int, seq<Event>>, custom: seq<Truck>, operatorId: string, c: Truck)
    requires c in custom && CustomOwnedBy(operatorId, c)
    ensures WithEvents(c, EventsFor(events, c.id)) in LoadClaimedTrucks(claims, events, custom, operatorId)
  {
    var r := LoadClaimedTrucks(claims, events, custom, operatorId);
    var keys := OwnedKeys(claims, operatorId);
    var mine := OwnCustom(custom, operatorId);
    assert c in mine;
    var i :| 0 <= i < |mine| && mine[i] == c;
    assert |keys| + i < |r|;
    assert r[|keys| + i] == WithEvents(c, EventsFor(events, c.id));
    assert r[|keys| + i] in r;
  }

  // ---------------------------------------------------------------------------
  // The stored-data updates

  /** The claims after `operatorId` claims `truck` at `at`: the truck's key is overwritten,
      whoever held it before. */
  function PutClaim(claims: map<int, Claim>, operatorId: string, truck: Truck, at: string): (r: map<int, Claim>)
    ensures r.Keys == claims.Keys + {truck.id}
    ensures r[truck.id] == Claim(operatorId, truck, at)
    ensures forall k :: k in claims && k != truck.id ==> r[k] == claims[k]
  {
    claims[truck.id := Claim(operatorId, truck, at)]
  }

  /** The events after appending `e` to truck `id`'s list, which is created when absent. */
  function AppendEvent(events: map<int, seq<Event>>, id: int, e: Event): (r: map<int, seq<Event>>)
    ensures r.Keys == events.Keys + {id}
    ensures r[id] == EventsFor(events, id) + [e]
    ensures forall k :: k in events && k != id ==> r[k] == events[k]
  {
    events[id := EventsFor(events, id) + [e]]
  }

  /** The events after deleting event `eventId` from truck `id`'s list (created empty when absent). */
  function RemoveEvent(events: map<int, seq<Event>>, id: int, eventId: int): (r: map<int, seq<Event>>)
    ensures r.Keys == events.Keys + {id}
    ensures forall e :: e in r[id] <==> e in EventsFor(events, id) && e.id != eventId
    ensures forall k :: k in events && k != id ==> r[k] == events[k]
  {
    events[id := Filter(EventsFor(events, id), (e: Event) => e.id != eventId)]
  }

  /** Deleting keeps every other event of the truck, as often as it occurred. */
  lemma DeleteKeepsOthers(events: map<int, seq<Event>>, id: int, eventId: int, e: Event)
    ensures multiset(RemoveEvent(events, id, eventId)[id])[e] ==
              if e.id == eventId then 0 else multiset(EventsFor(events, id))[e]
  {
    FilterCounts(EventsFor(events, id), (e: Event) => e.id != eventId, e);
  }

  /** Deleting an event just added, under an id no other event of that truck carries, gives
      back the truck's list as it was. */
  lemma DeleteUndoesAppend(events: map<int, seq<Event>>, id: int, e: Event)
    requires forall x :: x in EventsFor(events, id) ==> x.id != e.id
    ensures RemoveEvent(AppendEvent(events, id, e), id, e.id)[id] == EventsFor(events, id)
  {
    var list := EventsFor(events, id);
    var p := (x: Event) => x.id != e.id;
    FilterAppend(list, [e], p);
    FilterKeepsAll(list, p);
    assert Filter([e], p) == [];
  }

  /** A new custom truck: the form's fields under a fresh id, tagged with its operator. */
  function NewTruck(form: TruckForm, id: int, operatorId: string, createdAt: string): Truck {
    Truck(id, form.name, form.cuisine, form.city, form.lat, form.lng, form.icon, form.description,
          None, Some(operatorId), None, Some(createdAt))
  }

  /** A new event: the form's fields under a fresh id, with every spot still free. */
  function NewEvent(form: EventForm, id: int): (e: Event)
    ensures e.id == id && e.spotsLeft == e.capacity == form.capacity && e.price == form.price
  {
    Event(id, form.title, form.kind, form.date, form.time, form.duration, form.description,
          form.price, form.capacity, form.capacity, form.image)
  }

  /** A new event shows no spot taken, and shows as sold out only when it has no capacity. */
  lemma NewEventNoneTaken(form: EventForm, id: int)
    ensures EventModal.SpotsTaken(NewEvent(form, id)) == 0
    ensures EventModal.IsFullyBooked(NewEvent(form, id)) <==> form.capacity == 0
  {
  }

  /** A claimed truck shows up on its claimant's dashboard with the events stored for it. */
  lemma ClaimedIsLoaded(claims: map<int, Claim>, events: map<int, seq<Event>>, custom: seq<Truck>, operatorId: string, truck: Truck, at: string)
    ensures WithEvents(truck, EventsFor(events, truck.id)) in LoadClaimedTrucks(PutClaim(claims, operatorId, truck, at), events, custom, operatorId)
  {
    var claims' := PutClaim(claims, operatorId, truck, at);
    LoadedIff(claims', events, custom, operatorId, WithEvents(truck, EventsFor(events, truck.id)));
    assert FromClaim(claims', events, operatorId, truck.id, WithEvents(truck, EventsFor(events, truck.id)));
  }

  /** A new custom truck shows up on its creator's dashboard. */
  lemma AddedIsLoaded(claims: map<int, Claim>, events: map<int, seq<Event>>, custom: seq<Truck>, operatorId: string, t: Truck)
    requires t.operatorId == Some(operatorId)
    ensures WithEvents(t, EventsFor(events, t.id)) in LoadClaimedTrucks(claims, events, custom + [t], operatorId)
  {
    LoadedIff(claims, events, custom + [t], operatorId, WithEvents(t, EventsFor(events, t.id)));
    assert FromCustom(custom + [t], events, operatorId, t, WithEvents(t, EventsFor(events, t.id)));
  }

  // ---------------------------------------------------------------------------
  // The claim dialog

  /** A catalog truck is offered unless this operator already holds its claim. */
  predicate Claimable(claims: map<int, Claim>, operatorId: Option<string>, t: Truck) {
    t.id !in claims || Some(claims[t.id].operatorId) != operatorId
  }

  function AvailableTrucks(catalog: seq<Truck>, claims: map<int, Claim>, operatorId: Option<string>): (r: seq<Truck>)
    ensures forall t :: t in r <==> t in catalog && (t.id !in claims || Some(claims[t.id].operatorId) != operatorId)
  {
    Filter(catalog, t => Claimable(claims, operatorId, t))
  }

  /** Once an operator claims a truck, no catalog entry with its id is offered to that operator. */
  lemma ClaimedNotAvailable(catalog: seq<Truck>, claims: map<int, Claim>, operatorId: string, truck: Truck, at: string)
    ensures forall t :: t in AvailableTrucks(catalog, PutClaim(claims, operatorId, truck, at), Some(operatorId)) ==>
              t.id != truck.id
  {
  }

  /** The case-insensitive match of the search box against name, cuisine or city. */
  predicate MatchesQuery(t: Truck, query: string) {
    var q := Lower(query);
    Includes(Lower(t.name), q) || Includes(Lower(t.cuisine), q) || Includes(Lower(t.city), q)
  }

  function SearchTrucks(trucks: seq<Truck>, query: string): (r: seq<Truck>)
    ensures |r| <= |trucks|
    ensures forall t :: t in r <==>
              (t in trucks &&
               ((exists i :: OccursAt(Lower(t.name), Lower(query), i)) ||
                (exists i :: OccursAt(Lower(t.cuisine), Lower(query), i)) ||
                (exists i :: OccursAt(Lower(t.city), Lower(query), i))))
  {
    var r := Filter(trucks, t => MatchesQuery(t, query));
    assert forall t :: MatchesQuery(t, query) <==>
              ((exists i :: OccursAt(Lower(t.name), Lower(query), i)) ||
               (exists i :: OccursAt(Lower(t.cuisine), Lower(query), i)) ||
               (exists i :: OccursAt(Lower(t.city), Lower(query), i))) by {
      forall t: Truck
        ensures MatchesQuery(t, query) <==>
              ((exists i :: OccursAt(Lower(t.name), Lower(query), i)) ||
               (exists i :: OccursAt(Lower(t.cuisine), Lower(query), i)) ||
               (exists i :: OccursAt(Lower(t.city), Lower(query), i)))
      {
        IncludesIff(Lower(t.name), Lower(query));
        IncludesIff(Lower(t.cuisine), Lower(query));
        IncludesIff(Lower(t.city), Lower(query));
      }
    }
    r
  }

  /** An empty search shows every available truck, in order. */
  lemma EmptySearchShowsAll(trucks: seq<Truck>)
    ensures SearchTrucks(trucks, "") == trucks
  {
    forall t | t in trucks
      ensures MatchesQuery(t, "")
    {
      IncludesEmpty(Lower(t.name));
    }
    FilterKeepsAll(trucks, t => MatchesQuery(t, ""));
  }

  // ---------------------------------------------------------------------------
  // The dashboard

  class Dashboard {
    /** Stored data. */
    var claims: map<int, Claim>
    var events: map<int, seq<Event>>
    var customTrucks: seq<Truck>
    var storedOperatorId: Option<string>
    var storedOperatorName: Option<string>
    /** Page state. */
    var authenticated: bool
    var operatorName: string
    var claimedTrucks: seq<Truck>
    var selectedTruckForEvent: Option<int>

    /** The dashboard's list agrees with the stored data for the stored operator. */
    predicate Synced()
      reads this
    {
      Present(storedOperatorId) ==>
        claimedTrucks == LoadClaimedTrucks(claims, events, customTrucks, storedOperatorId.value)
    }

    /** Mounting the page over the stored data: signed in when both the id and the name are stored. */
    constructor (claims: map<int, Claim>, events: map<int, seq<Event>>, customTrucks: seq<Truck>,
                 storedOperatorId: Option<string>, storedOperatorName: Option<string>)
      ensures this.claims == claims && this.events == events && this.customTrucks == customTrucks
      ensures this.storedOperatorId == storedOperatorId && this.storedOperatorName == storedOperatorName
      ensures authenticated <==> Present(storedOperatorId) && Present(storedOperatorName)
      ensures authenticated ==>
                (operatorName == storedOperatorName.value &&
                 claimedTrucks == LoadClaimedTrucks(claims, events, customTrucks, storedOperatorId.value))
      ensures !authenticated ==> operatorName == "" && claimedTrucks == []
      ensures selectedTruckForEvent.None?
    {
      this.claims, this.events, this.customTrucks := claims, events, customTrucks;
      this.storedOperatorId, this.storedOperatorName := storedOperatorId, storedOperatorName;
      selectedTruckForEvent := None;
      if Present(storedOperatorId) && Present(storedOperatorName) {
        authenticated := true;
        operatorName := storedOperatorName.value;
        claimedTrucks := LoadClaimedTrucks(claims, events, customTrucks, storedOperatorId.value);
      } else {
        authenticated := false;
        operatorName := "";
        claimedTrucks := [];
      }
    }

    /** Sign-in: a name that is not blank gets the id "operator_" followed by the clock reading. */
    method Login(name: string, now: nat)
      modifies this
      ensures IsBlank(name) ==> unchanged(this)
      ensures !IsBlank(name) ==>
                && storedOperatorId == Some(OperatorPrefix + NatToString(now))
                && storedOperatorName == Some(name)
                && authenticated && operatorName == name
                && claimedTrucks == LoadClaimedTrucks(claims, events, customTrucks, storedOperatorId.value)
      ensures claims == old(claims) && events == old(events) && customTrucks == old(customTrucks)
      ensures selectedTruckForEvent == old(selectedTruckForEvent)
      ensures !IsBlank(name) ==> Synced()
    {
      if IsBlank(name) {
        return;
      }
      var id := OperatorPrefix + NatToString(now);
      storedOperatorId := Some(id);
      storedOperatorName := Some(name);
      operatorName := name;
      authenticated := true;
      claimedTrucks := LoadClaimedTrucks(claims, events, customTrucks, id);
    }

    method Logout()
      modifies this`storedOperatorId, this`storedOperatorName, this`authenticated, this`operatorName, this`claimedTrucks
      ensures storedOperatorId.None? && storedOperatorName.None?
      ensures !authenticated && operatorName == "" && claimedTrucks == []
      ensures Synced()
    {
      storedOperatorId, storedOperatorName := None, None;
      authenticated, operatorName, claimedTrucks := false, "", [];
    }

    /** Claim a catalog truck for the stored operator; nothing happens without one. */
    method ClaimTruck(truck: Truck, at: string)
      modifies this`claims, this`claimedTrucks
      ensures !Present(old(storedOperatorId)) ==> claims == old(claims) && claimedTrucks == old(claimedTrucks)
      ensures Present(storedOperatorId) ==>
                && claims == PutClaim(old(claims), storedOperatorId.value, truck, at)
                && claimedTrucks == LoadClaimedTrucks(claims, events, customTrucks, storedOperatorId.value)
                && WithEvents(truck, EventsFor(events, truck.id)) in claimedTrucks
      ensures old(Synced()) ==> Synced()
    {
      if !Present(storedOperatorId) {
        return;
      }
      var id := storedOperatorId.value;
      claims := PutClaim(claims, id, truck, at);
      claimedTrucks := LoadClaimedTrucks(claims, events, customTrucks, id);
      ClaimedIsLoaded(old(claims), events, customTrucks, id, truck, at);
    }

    /** Append a new truck of the stored operator; nothing happens without one. */
    method AddNewTruck(form: TruckForm, freshId: int, createdAt: string)
      modifies this`customTrucks, this`claimedTrucks
      ensures !Present(old(storedOperatorId)) ==> customTrucks == old(customTrucks) && claimedTrucks == old(claimedTrucks)
      ensures Present(storedOperatorId) ==>
                var t := NewTruck(form, freshId, storedOperatorId.value, createdAt);
                && customTrucks == old(customTrucks) + [t]
                && claimedTrucks == LoadClaimedTrucks(claims, events, customTrucks, storedOperatorId.value)
                && WithEvents(t, EventsFor(events, freshId)) in claimedTrucks
      ensures old(Synced()) ==> Synced()
    {
      if !Present(storedOperatorId) {
        return;
      }
      var id := storedOperatorId.value;
      var t := NewTruck(form, freshId, id, createdAt);
      customTrucks := customTrucks + [t];
      claimedTrucks := LoadClaimedTrucks(claims, events, customTrucks, id);
      AddedIsLoaded(claims, events, old(customTrucks), id, t);
    }

    /** The "+ Add Event" button of truck `id`. */
    method SelectTruckForEvent(id: int)
      modifies this`selectedTruckForEvent
      ensures selectedTruckForEvent == Some(id)
    {
      selectedTruckForEvent := Some(id);
    }

    /** Append a new event to the selected truck and clear the selection; nothing happens
        without a selected truck. The list is reloaded only when an operator id is stored. */
    method AddEvent(form: EventForm, freshId: int)
      modifies this`events, this`claimedTrucks, this`selectedTruckForEvent
      ensures old(selectedTruckForEvent).None? ==> unchanged(this)
      ensures old(selectedTruckForEvent).Some? ==>
                && events == AppendEvent(old(events), old(selectedTruckForEvent).value, NewEvent(form, freshId))
                && selectedTruckForEvent.None?
                && claimedTrucks == if Present(storedOperatorId)
                                    then LoadClaimedTrucks(claims, events, customTrucks, storedOperatorId.value)
                                    else old(claimedTrucks)
      ensures old(Synced()) ==> Synced()
    {
      if selectedTruckForEvent.None? {
        return;
      }
      events := AppendEvent(events, selectedTruckForEvent.value, NewEvent(form, freshId));
      if Present(storedOperatorId) {
        claimedTrucks := LoadClaimedTrucks(claims, events, customTrucks, storedOperatorId.value);
      }
      selectedTruckForEvent := None;
    }

    /** Delete event `eventId` of truck `truckId` once the operator confirms. */
    method DeleteEvent(truckId: int, eventId: int, confirmed: bool)
      modifies this`events, this`claimedTrucks
      ensures !confirmed ==> events == old(events) && claimedTrucks == old(claimedTrucks)
      ensures confirmed ==>
                && events == RemoveEvent(old(events), truckId, eventId)
                && claimedTrucks == if Present(storedOperatorId)
                                    then LoadClaimedTrucks(claims, events, customTrucks, storedOperatorId.value)
                                    else old(claimedTrucks)
      ensures old(Synced()) ==> Synced()
    {
      if !confirmed {
        return;
      }
      events := RemoveEvent(events, truckId, eventId);
      if Present(storedOperatorId) {
        claimedTrucks := LoadClaimedTrucks(claims, events, customTrucks, storedOperatorId.value);
      }
    }
  }
}
