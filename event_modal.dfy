/** The event details dialog: booking status, price and RSVP labels, the "spots taken" line,
    the time shown without seconds, and the RSVP callback. Everything here is a function of the
    event, the truck and the open flag. */
module EventModal {
  import opened Common

  const FreePriceLabel := "Free Event"
  const FreeRsvpLabel := "RSVP - It's Free!"
  const SoldOutNote := "This event is sold out"
  const SoldOutLabel := "Event Sold Out"
  /** How a missing value renders inside a template literal. */
  const Undefined := "undefined"

  /** At most this many free spots make an event "almost full". */
  const AlmostFullLimit := 5

  // ---------------------------------------------------------------------------
  // Booking status

  predicate IsFullyBooked(e: Event) {
    e.spotsLeft == 0
  }

  predicate IsAlmostFull(e: Event) {
    e.spotsLeft <= AlmostFullLimit && e.spotsLeft > 0
  }

  /** A whole number as a template literal renders it, sign included. */
  function IntToString(i: int): (r: string)
    ensures |r| >= 1
  {
    if i < 0 then "-" + NatToString(-i) else NatToString(i)
  }

  /** The notes under the capacity line, as the three conditional paragraphs render them.
      Exactly one shows: sold out when no spot is left, the "remaining" warning for one to five
      spots, and the plain count otherwise (a negative count included). */
  function CapacityNotes(e: Event): (r: seq<string>)
    ensures |r| == 1
    ensures r[0] == SoldOutNote <==> IsFullyBooked(e)
    ensures r[0] == "Only " + IntToString(e.spotsLeft) + " spots remaining!" <==> IsAlmostFull(e)
    ensures !IsAlmostFull(e) && !IsFullyBooked(e) ==> r[0] == IntToString(e.spotsLeft) + " spots available"
  {
    CountNotesNotSoldOut(IntToString(e.spotsLeft));
    (if IsAlmostFull(e) then ["Only " + IntToString(e.spotsLeft) + " spots remaining!"] else [])
    + (if IsFullyBooked(e) then [SoldOutNote] else [])
    + (if !IsAlmostFull(e) && !IsFullyBooked(e) then [IntToString(e.spotsLeft) + " spots available"] else [])
  }

  /** The three notes read differently: neither note that shows a count reads as the sold-out
      note, and the warning never reads as the plain count. */
  lemma CountNotesNotSoldOut(count: string)
    ensures "Only " + count + " spots remaining!" != SoldOutNote
    ensures count + " spots available" != SoldOutNote
    ensures count + " spots available" != "Only " + count + " spots remaining!"
  {
    var warning := "Only " + count + " spots remaining!";
    assert warning[0] == 'O' != SoldOutNote[0];
    var plain := count + " spots available";
    if |plain| == |SoldOutNote| {
      assert plain[|plain| - 1] == 'e' != SoldOutNote[|SoldOutNote| - 1];
    }
  }

  /** The "spots taken" figure: the capacity less the free spots. It is the whole capacity
      exactly when the event is sold out, and lies between none and the whole capacity whenever
      the free spots do. */
  function SpotsTaken(e: Event): (r: int)
    ensures r + e.spotsLeft == e.capacity
    ensures r == e.capacity <==> IsFullyBooked(e)
    ensures 0 <= e.spotsLeft <= e.capacity ==> 0 <= r <= e.capacity
  {
    e.capacity - e.spotsLeft
  }

  // ---------------------------------------------------------------------------
  // Labels

  function PriceLabel(price: nat): (r: string)
    ensures r == FreePriceLabel <==> price == 0
  {
    if price == 0 then FreePriceLabel else "$" + NatToString(price) + " per person"
  }

  function RsvpLabel(price: nat): (r: string)
    ensures r == FreeRsvpLabel <==> price == 0
  {
    if price == 0 then FreeRsvpLabel
    else
      var r := "Reserve Spot - $" + NatToString(price);
      assert r[1] != FreeRsvpLabel[1];
      r
  }

  /** Numbers framed by the same text render differently when the numbers differ. */
  lemma {:induction false} FramedInjective(prefix: string, suffix: string, a: nat, b: nat)
    requires prefix + NatToString(a) + suffix == prefix + NatToString(b) + suffix
    ensures a == b
  {
    var s := prefix + NatToString(a) + suffix;
    assert NatToString(a) == s[|prefix|..|s| - |suffix|];
    assert NatToString(b) == s[|prefix|..|s| - |suffix|];
    NatToStringInjective(a, b);
  }

  /** The price label tells every price apart. */
  lemma PriceLabelInjective(a: nat, b: nat)
    requires PriceLabel(a) == PriceLabel(b)
    ensures a == b
  {
    if a != 0 && b != 0 {
      FramedInjective("$", " per person", a, b);
    }
  }

  /** So does the RSVP button's label. */
  lemma RsvpLabelInjective(a: nat, b: nat)
    requires RsvpLabel(a) == RsvpLabel(b)
    ensures a == b
  {
    if a != 0 && b != 0 {
      assert "Reserve Spot - $" + NatToString(a) == "Reserve Spot - $" + NatToString(a) + "";
      assert "Reserve Spot - $" + NatToString(b) == "Reserve Spot - $" + NatToString(b) + "";
      FramedInjective("Reserve Spot - $", "", a, b);
    }
  }

  // ---------------------------------------------------------------------------
  // formatTime: split on spaces, then on colons, keep hours and minutes

  /** String.prototype.split with a one-character separator. */
  function Split(s: string, sep: char): (r: seq<string>)
    ensures |r| >= 1
    decreases |s|
  {
    if s == [] then [""]
    else
      var rest := Split(s[1..], sep);
      if s[0] == sep then [""] + rest else [[s[0]] + rest[0]] + rest[1..]
  }

  /** Array.prototype.join with a one-character separator. */
  function Join(parts: seq<string>, sep: char): string
    decreases |parts|
  {
    if parts == [] then ""
    else if |parts| == 1 then parts[0]
    else parts[0] + [sep] + Join(parts[1..], sep)
  }

  /** Joining the pieces gives back the string, and no piece holds the separator. */
  lemma {:induction false} SplitJoin(s: string, sep: char)
    ensures Join(Split(s, sep), sep) == s
    ensures forall p :: p in Split(s, sep) ==> sep !in p
    decreases |s|
  {
    if s != [] {
      var rest := Split(s[1..], sep);
      SplitJoin(s[1..], sep);
      assert s == [s[0]] + s[1..];
      if s[0] == sep {
        assert Split(s, sep)[1..] == rest;
      } else {
        var r := Split(s, sep);
        assert r[0] == [s[0]] + rest[0];
        assert r[1..] == rest[1..];
        if |rest| > 1 {
          assert rest == [rest[0]] + rest[1..];
        }
        forall p | p in r
          ensures sep !in p
        {
          if p != r[0] {
            assert p in rest;
          } else {
            assert rest[0] in rest;
          }
        }
      }
    }
  }

  /** A piece free of the separator, then the separator, then anything, splits after the piece. */
  lemma {:induction false} SplitAfter(a: string, sep: char, b: string)
    requires sep !in a
    ensures Split(a + [sep] + b, sep) == [a] + Split(b, sep)
    decreases |a|
  {
    if a == [] {
      assert a + [sep] + b == [sep] + b;
      assert ([sep] + b)[1..] == b;
    } else {
      SplitAfter(a[1..], sep, b);
      assert (a + [sep] + b)[1..] == a[1..] + [sep] + b;
      assert [a[0]] + a[1..] == a;
    }
  }

  /** A string free of the separator is a single piece. */
  lemma {:induction false} SplitWhole(a: string, sep: char)
    requires sep !in a
    ensures Split(a, sep) == [a]
    decreases |a|
  {
    if a != [] {
      SplitWhole(a[1..], sep);
      assert [a[0]] + a[1..] == a;
    }
  }

  /** The i-th piece, or "undefined" past the end, as destructuring and the template render it. */
  function Part(parts: seq<string>, i: nat): string {
    if i < |parts| then parts[i] else Undefined
  }

  predicate Plain(s: string) {
    ':' !in s && ' ' !in s
  }

  /** s reads "h:m M", with hours and minutes free of colons and spaces, and the modifier free
      of spaces. */
  predicate ShortForm(s: string, h: string, m: string, modifier: string) {
    Plain(h) && Plain(m) && ' ' !in modifier && s == h + ":" + m + " " + modifier
  }

  /** The time as the dialog shows it: hours and minutes of the part before the first space,
      then the part after it; a missing piece shows as "undefined". Whatever the input, the
      result has the short form. */
  function FormatTime(time: string): (r: string)
    ensures exists h, m, modifier :: ShortForm(r, h, m, modifier)
  {
    var words := Split(time, ' ');
    var fields := Split(words[0], ':');
    FormatTimePartsPlain(time);
    var r := Part(fields, 0) + ":" + Part(fields, 1) + " " + Part(words, 1);
    assert ShortForm(r, Part(fields, 0), Part(fields, 1), Part(words, 1));
    r
  }

  /** A character missing from a string is missing from each of its pieces. */
  lemma {:induction false} SplitOmits(s: string, sep: char, c: char)
    requires c !in s
    ensures forall p :: p in Split(s, sep) ==> c !in p
    decreases |s|
  {
    if s != [] {
      SplitOmits(s[1..], sep, c);
      var rest := Split(s[1..], sep);
      var r := Split(s, sep);
      assert s[0] != c;
      forall p | p in r
        ensures c !in p
      {
        if s[0] == sep {
          assert p == "" || p in rest;
        } else if p == [s[0]] + rest[0] {
          assert rest[0] in rest;
        } else {
          assert p in rest[1..];
          assert p in rest;
        }
      }
    }
  }

  /** The pieces FormatTime keeps hold no colon or space, and the modifier no space. */
  lemma FormatTimePartsPlain(time: string)
    ensures var words := Split(time, ' ');
            var fields := Split(words[0], ':');
            Plain(Part(fields, 0)) && Plain(Part(fields, 1)) && ' ' !in Part(words, 1)
  {
    var words := Split(time, ' ');
    SplitJoin(time, ' ');
    assert words[0] in words;
    var fields := Split(words[0], ':');
    SplitJoin(words[0], ':');
    SplitOmits(words[0], ':', ' ');
    assert fields[0] in fields;
    if 1 < |fields| {
      assert fields[1] in fields;
    }
    if 1 < |words| {
      assert words[1] in words;
    }
  }

  /** Showing a shown time again changes nothing. */
  lemma FormatTimeIdempotent(time: string)
    ensures FormatTime(FormatTime(time)) == FormatTime(time)
  {
    var shown := FormatTime(time);
    var h, m, modifier :| ShortForm(shown, h, m, modifier);
    assert Plain(h) && Plain(m) && ' ' !in modifier;
    FormatTimeKeepsShortForm(h, m, modifier);
  }

  /** "h:m:s M" shows as "h:m M": the seconds are dropped, the modifier kept. */
  lemma FormatTimeDropsSeconds(h: string, m: string, sec: string, modifier: string)
    requires Plain(h) && Plain(m) && Plain(sec) && ' ' !in modifier
    ensures FormatTime(h + ":" + m + ":" + sec + " " + modifier) == h + ":" + m + " " + modifier
  {
    var clock := h + ":" + m + ":" + sec;
    assert ' ' !in clock;
    assert h + ":" + m + ":" + sec + " " + modifier == clock + [' '] + modifier;
    SplitAfter(clock, ' ', modifier);
    SplitWhole(modifier, ' ');
    assert clock == h + [':'] + (m + ":" + sec);
    SplitAfter(h, ':', m + ":" + sec);
    assert m + ":" + sec == m + [':'] + sec;
    SplitAfter(m, ':', sec);
  }

  /** A time already shown as "h:m M" is shown unchanged. */
  lemma FormatTimeKeepsShortForm(h: string, m: string, modifier: string)
    requires Plain(h) && Plain(m) && ' ' !in modifier
    ensures FormatTime(h + ":" + m + " " + modifier) == h + ":" + m + " " + modifier
  {
    var clock := h + ":" + m;
    assert h + ":" + m + " " + modifier == clock + [' '] + modifier;
    SplitAfter(clock, ' ', modifier);
    SplitWhole(modifier, ' ');
    assert clock == h + [':'] + m;
    SplitAfter(h, ':', m);
    SplitWhole(m, ':');
  }

  /** Without a space the modifier renders as "undefined". */
  lemma FormatTimeWithoutModifier(h: string, m: string)
    requires Plain(h) && Plain(m)
    ensures FormatTime(h + ":" + m) == h + ":" + m + " " + Undefined
  {
    var clock := h + ":" + m;
    SplitWhole(clock, ' ');
    assert clock == h + [':'] + m;
    SplitAfter(h, ':', m);
    SplitWhole(m, ':');
  }

  // ---------------------------------------------------------------------------
  // The dialog

  /** The enabled RSVP button with its caption, or the disabled one captioned SoldOutLabel. */
  datatype Button = RsvpButton(caption: string) | SoldOutButton

  datatype View = View(
    time: string,
    priceLabel: string,
    spotsTaken: int,
    notes: seq<string>,
    button: Button)

  /** The dialog: nothing while closed. */
  function ModalView(e: Event, isOpen: bool): (r: Option<View>)
    ensures r.None? <==> !isOpen
    ensures r.Some? ==> (r.value.button.SoldOutButton? <==> e.spotsLeft == 0)
    ensures r.Some? && r.value.button.RsvpButton? ==> (r.value.button.caption == FreeRsvpLabel <==> e.price == 0)
    ensures r.Some? ==> (r.value.priceLabel == FreePriceLabel <==> e.price == 0)
    ensures r.Some? ==> |r.value.notes| == 1 && (r.value.notes[0] == SoldOutNote <==> e.spotsLeft == 0)
    ensures r.Some? ==> r.value.spotsTaken + e.spotsLeft == e.capacity
    ensures r.Some? ==> r.value.notes == CapacityNotes(e) && r.value.time == FormatTime(e.time) &&
                        r.value.priceLabel == PriceLabel(e.price)
    ensures r.Some? ==> r.value.spotsTaken == SpotsTaken(e) &&
                        r.value.button == if IsFullyBooked(e) then SoldOutButton else RsvpButton(RsvpLabel(e.price))
  {
    if !isOpen then None
    else
      Some(View(FormatTime(e.time), PriceLabel(e.price), SpotsTaken(e), CapacityNotes(e),
                if IsFullyBooked(e) then SoldOutButton else RsvpButton(RsvpLabel(e.price))))
  }

  /** A click on the dialog's button. The RSVP button hands the event and its truck to the
      callback, when one was given; the sold-out button is disabled and has no handler. */
  function Click(b: Button, hasCallback: bool, e: Event, t: Truck): (r: Option<(Event, Truck)>)
    ensures r.Some? <==> b.RsvpButton? && hasCallback
    ensures r.Some? ==> r.value.0 == e && r.value.1 == t
  {
    match b
    case SoldOutButton => None
    case RsvpButton(_) => if hasCallback then Some((e, t)) else None
  }

  /** A sold-out event never reaches the RSVP callback; any other event reaches it, with itself
      and its truck, exactly when a callback was given. */
  lemma SoldOutNeverReachesCallback(e: Event, t: Truck, hasCallback: bool)
    ensures ModalView(e, true).Some?
    ensures Click(ModalView(e, true).value.button, hasCallback, e, t) ==
            if hasCallback && !IsFullyBooked(e) then Some((e, t)) else None
  {
  }
}
