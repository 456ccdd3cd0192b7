/** The truck-card carousel: a cursor over the current truck list, moved by drag gestures,
    arrow buttons and pagination dots, and re-synchronised with the externally selected truck. */
module Swiper {
  import opened Common

  /** Largest magnitude of the live drag offset, in pixels. */
  const MaxTranslate := 100.0
  /** A gesture commits only when its clamped offset is strictly beyond this many pixels. */
  const SwipeThreshold := 50.0
  /** The upcoming-events window: thirty days, in milliseconds. */
  const LookAhead := 30 * 24 * 60 * 60 * 1000
  /** At most this many upcoming events are shown on a card. */
  const MaxUpcoming := 3

  /** Position of the first truck with the given id, or -1. */
  function IndexOfId(trucks: seq<Truck>, id: int): (r: int)
    ensures -1 <= r < |trucks|
    ensures r == -1 <==> forall i :: 0 <= i < |trucks| ==> trucks[i].id != id
    ensures 0 <= r ==> trucks[r].id == id && forall i :: 0 <= i < r ==> trucks[i].id != id
  {
    FindIndex(trucks, (t: Truck) => t.id == id)
  }

  /** The live offset for a raw horizontal displacement (touch and mouse positions are fractional CSS
      pixels): saturated at plus or minus MaxTranslate. */
  function Clamp(diff: real): (r: real)
    ensures -MaxTranslate <= r <= MaxTranslate
    ensures -MaxTranslate <= diff <= MaxTranslate ==> r == diff
    ensures diff > MaxTranslate ==> r == MaxTranslate
    ensures diff < -MaxTranslate ==> r == -MaxTranslate
  {
    if diff > MaxTranslate then MaxTranslate
    else if diff < -MaxTranslate then -MaxTranslate
    else diff
  }

  /** The cursor after a gesture that ends with live offset `offset` over `count` trucks. */
  function SwipeTarget(offset: real, index: int, count: int): (r: int)
    ensures r == index - 1 || r == index || r == index + 1
    ensures r == index - 1 <==> offset > SwipeThreshold && index > 0
    ensures r == index + 1 <==> offset < -SwipeThreshold && index < count - 1
    ensures -SwipeThreshold <= offset <= SwipeThreshold ==> r == index
    ensures 0 <= index < count ==> 0 <= r < count
  {
    if offset > SwipeThreshold && index > 0 then index - 1
    else if offset < -SwipeThreshold && index < count - 1 then index + 1
    else index
  }

  // ---------------------------------------------------------------------------
  // Upcoming events: filter to the window, sort by date, keep the first three

  predicate InWindow(e: Event, now: int) {
    now <= e.date <= now + LookAhead
  }

  function EventsInWindow(events: seq<Event>, now: int): seq<Event> {
    Filter(events, (e: Event) => InWindow(e, now))
  }

  predicate SortedByDate(s: seq<Event>) {
    forall i, j :: 0 <= i < j < |s| ==> s[i].date <= s[j].date
  }

  /** Inserts `e` into a date-sorted list, ahead of every event with the same or a later date. */
  function InsertByDate(e: Event, s: seq<Event>): (r: seq<Event>)
    requires SortedByDate(s)
    ensures SortedByDate(r)
    ensures multiset(r) == multiset(s) + multiset{e}
    ensures |r| == |s| + 1 && (r[0] == e || (s != [] && r[0] == s[0]))
    decreases |s|
  {
    if s == [] || e.date <= s[0].date then
      ConsSorted(e, s);
      [e] + s
    else
      var rest := InsertByDate(e, s[1..]);
      assert s == [s[0]] + s[1..];
      ConsSorted(s[0], rest);
      [s[0]] + rest
  }

  /** An event no later than the head of a sorted list can go in front of it. */
  lemma ConsSorted(x: Event, s: seq<Event>)
    requires SortedByDate(s)
    requires s != [] ==> x.date <= s[0].date
    ensures SortedByDate([x] + s)
  {
    var r := [x] + s;
    forall i, j | 0 <= i < j < |r|
      ensures r[i].date <= r[j].date
    {
      assert r[j] == s[j - 1];
      if i == 0 {
        assert s[0].date <= s[j - 1].date;
      } else {
        assert r[i] == s[i - 1];
      }
    }
  }

  /** Ascending sort by date (an insertion sort, standing in for Array.prototype.sort). */
  function SortByDate(s: seq<Event>): (r: seq<Event>)
    ensures SortedByDate(r)
    ensures multiset(r) == multiset(s)
    decreases |s|
  {
    if s == [] then []
    else
      assert s == [s[0]] + s[1..];
      InsertByDate(s[0], SortByDate(s[1..]))
  }

  function Take(s: seq<Event>, n: nat): (r: seq<Event>)
    ensures |r| == if |s| <= n then |s| else n
    ensures r == s[..|r|]
  {
    if |s| <= n then s else s[..n]
  }

  /** Lists with the same multiset of events have the same members. */
  lemma SameMembers(a: seq<Event>, b: seq<Event>)
    requires multiset(a) == multiset(b)
    ensures forall x :: x in a <==> x in b
  {
    forall x
      ensures x in a <==> x in b
    {
      assert x in a <==> x in multiset(a);
      assert x in b <==> x in multiset(b);
    }
  }

  /** The events shown on a truck's card. */
  function UpcomingEvents(truck: Truck, now: int): (r: seq<Event>)
    ensures truck.events.None? ==> r == []
    ensures |r| <= MaxUpcoming
    ensures SortedByDate(r)
    ensures forall e :: e in r ==> InWindow(e, now)
  {
    match truck.events
    case None => []
    case Some(events) =>
      var window := EventsInWindow(events, now);
      var sorted := SortByDate(window);
      SameMembers(sorted, window);
      var r := Take(sorted, MaxUpcoming);
      assert forall e :: e in r ==> e in sorted;
      r
  }

  /** A prefix of a date-sorted list holds its earliest events: nothing left out is earlier
      than anything kept. */
  lemma TakeSortedEarliest(sorted: seq<Event>, n: nat)
    requires SortedByDate(sorted)
    ensures multiset(Take(sorted, n)) <= multiset(sorted)
    ensures forall e, x :: e in multiset(sorted) - multiset(Take(sorted, n)) && x in Take(sorted, n) ==> x.date <= e.date
  {
    var r := Take(sorted, n);
    var rest := sorted[|r|..];
    assert sorted == r + rest;
    assert multiset(sorted) == multiset(r) + multiset(rest);
    assert multiset(sorted) - multiset(r) == multiset(rest);
    forall e, x | e in multiset(sorted) - multiset(r) && x in r
      ensures x.date <= e.date
    {
      assert e in multiset(rest);
      SortedPrefixBefore(sorted, |r|, x, e);
    }
  }

  /** In a date-sorted list, an event before position k is no later than one from k on. */
  lemma SortedPrefixBefore(sorted: seq<Event>, k: nat, x: Event, e: Event)
    requires SortedByDate(sorted) && k <= |sorted|
    requires x in sorted[..k] && e in sorted[k..]
    ensures x.date <= e.date
  {
    var i :| 0 <= i < k && sorted[..k][i] == x;
    var j :| 0 <= j < |sorted| - k && sorted[k..][j] == e;
    assert sorted[i] == x && sorted[k + j] == e;
  }

  /** The card shows the earliest in-window events: as many as there are, up to three, drawn
      from the in-window events, and none of the in-window events it leaves out is earlier
      than any it shows. */
  lemma UpcomingAreEarliest(truck: Truck, now: int)
    requires truck.events.Some?
    ensures var window := EventsInWindow(truck.events.value, now);
            var r := UpcomingEvents(truck, now);
            && |r| == (if |window| <= MaxUpcoming then |window| else MaxUpcoming)
            && multiset(r) <= multiset(window)
            && forall e, x :: e in multiset(window) - multiset(r) && x in r ==> x.date <= e.date
  {
    var window := EventsInWindow(truck.events.value, now);
    var sorted := SortByDate(window);
    assert UpcomingEvents(truck, now) == Take(sorted, MaxUpcoming);
    assert |sorted| == |multiset(window)| == |window|;
    TakeSortedEarliest(sorted, MaxUpcoming);
  }

  // ---------------------------------------------------------------------------
  // What the carousel renders

  datatype Card = Card(
    truck: Truck,
    upcoming: seq<Event>,
    showArrows: bool,
    previousDisabled: bool,
    nextDisabled: bool,
    dots: nat)

  /** The rendered carousel: nothing for an empty list, otherwise the card at the cursor.
      Reading the card needs the cursor inside the list, which nothing re-establishes when
      the list shrinks. */
  function CardView(trucks: seq<Truck>, index: int, now: int): (r: Option<Card>)
    requires trucks == [] || 0 <= index < |trucks|
    ensures r.None? <==> trucks == []
    ensures r.Some? ==> r.value.truck == trucks[index] && r.value.upcoming == UpcomingEvents(trucks[index], now)
    ensures r.Some? ==> (r.value.showArrows <==> |trucks| > 1) && r.value.dots == (if |trucks| > 1 then |trucks| else 0)
    ensures r.Some? ==> (r.value.previousDisabled <==> index == 0) && (r.value.nextDisabled <==> index == |trucks| - 1)
  {
    if trucks == [] then None
    else
      Some(Card(trucks[index], UpcomingEvents(trucks[index], now), |trucks| > 1,
                index == 0, index == |trucks| - 1, if |trucks| > 1 then |trucks| else 0))
  }

  // ---------------------------------------------------------------------------
  // The gesture and navigation state

  class Carousel {
    var currentIndex: int
    var isDragging: bool
    var startX: real
    var translateX: real

    constructor ()
      ensures currentIndex == 0 && !isDragging && startX == 0.0 && translateX == 0.0
    {
      currentIndex, isDragging, startX, translateX := 0, false, 0.0, 0.0;
    }

    /** The cursor lies inside a list of `count` trucks. */
    predicate InRange(count: int)
      reads this
    {
      0 <= currentIndex < count
    }

    /** Effect run when the selection or the list changes: jump to the first card of the
        selected truck, or stay put when there is no selection or it is not in the list. */
    method SyncSelection(trucks: seq<Truck>, selected: Option<Truck>)
      modifies this`currentIndex
      ensures selected.Some? && IndexOfId(trucks, selected.value.id) != -1 ==>
                currentIndex == IndexOfId(trucks, selected.value.id)
      ensures selected.None? || IndexOfId(trucks, selected.value.id) == -1 ==>
                currentIndex == old(currentIndex)
      ensures selected.Some? && 0 <= old(currentIndex) < |trucks| ==> InRange(|trucks|)
    {
      if selected.Some? {
        var index := IndexOfId(trucks, selected.value.id);
        if index != -1 {
          currentIndex := index;
        }
      }
    }

    /** Touch start or mouse down at horizontal position `x`. */
    method Start(x: real)
      modifies this`isDragging, this`startX
      ensures isDragging && startX == x
    {
      isDragging := true;
      startX := x;
    }

    /** Touch or mouse move to `x`: the clamped displacement becomes the live offset. */
    method Move(x: real)
      modifies this`translateX
      ensures isDragging ==> translateX == Clamp(x - startX)
      ensures !isDragging ==> translateX == old(translateX)
      ensures -MaxTranslate <= old(translateX) <= MaxTranslate ==> -MaxTranslate <= translateX <= MaxTranslate
    {
      if !isDragging {
        return;
      }
      var diff := x - startX;
      translateX := Clamp(diff);
    }

    /** Touch end, mouse up or mouse leave, over a list of `count` trucks. */
    method End(count: int)
      modifies this
      ensures !old(isDragging) ==>
                currentIndex == old(currentIndex) && !isDragging && startX == old(startX) && translateX == old(translateX)
      ensures old(isDragging) ==>
                currentIndex == SwipeTarget(old(translateX), old(currentIndex), count) &&
                !isDragging && translateX == 0.0 && startX == 0.0
      ensures -1 <= currentIndex - old(currentIndex) <= 1
      ensures old(InRange(count)) ==> InRange(count)
    {
      if !isDragging {
        return;
      }
      if translateX > SwipeThreshold && currentIndex > 0 {
        currentIndex := currentIndex - 1;
      } else if translateX < -SwipeThreshold && currentIndex < count - 1 {
        currentIndex := currentIndex + 1;
      }
      isDragging := false;
      translateX := 0.0;
      startX := 0.0;
    }

    /** The left arrow. */
    method Previous()
      modifies this`currentIndex
      ensures currentIndex == if old(currentIndex) > 0 then old(currentIndex) - 1 else old(currentIndex)
      ensures forall count :: old(InRange(count)) ==> InRange(count)
    {
      if currentIndex > 0 {
        currentIndex := currentIndex - 1;
      }
    }

    /** The right arrow, over a list of `count` trucks. */
    method Next(count: int)
      modifies this`currentIndex
      ensures currentIndex == if old(currentIndex) < count - 1 then old(currentIndex) + 1 else old(currentIndex)
      ensures old(InRange(count)) ==> InRange(count)
    {
      if currentIndex < count - 1 {
        currentIndex := currentIndex + 1;
      }
    }

    /** Pagination dot `i`; the dots are numbered 0 to count - 1. */
    method SelectDot(i: int, count: int)
      requires 0 <= i < count
      modifies this`currentIndex
      ensures currentIndex == i && InRange(count)
    {
      currentIndex := i;
    }
  }
}
