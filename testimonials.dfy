/** The testimonials section: a carousel index over the three testimonials,
    advanced by a recurring tick and overwritten by the dot buttons, a
    one-shot reveal flag set by the first intersecting observer entry (after
    which the observer is disconnected), and the placement of each card
    relative to the active one.  The interval is an explicit Tick event and
    an observer callback is an entry carrying its `isIntersecting` flag. */
module Testimonials {

  /** The number of testimonials. */
  const N: nat := 3

  // ---------------------------------------------------------------------
  // Carousel index

  /** The interval's update of the index. */
  function Next(i: nat): (j: nat)
    ensures j < N
    ensures i + 1 < N ==> j == i + 1
    ensures i + 1 == N ==> j == 0
  {
    (i + 1) % N
  }

  /** The index after k ticks starting at i. */
  function Ticks(i: nat, k: nat): (j: nat)
  {
    if k == 0 then i else Next(Ticks(i, k - 1))
  }

  /** k ticks from an index in range move it k places round the cycle. */
  lemma {:induction false} TicksWrap(i: nat, k: nat)
    requires i < N
    ensures Ticks(i, k) == (i + k) % N
  {
    if k > 0 {
      TicksWrap(i, k - 1);
      var j := (i + k - 1) % N;
      assert (i + k - 1) == ((i + k - 1) / N) * N + j;
      assert i + k == ((i + k - 1) / N) * N + (j + 1);
      if j + 1 < N {
        assert (i + k) % N == j + 1;
      } else {
        assert i + k == ((i + k - 1) / N + 1) * N;
      }
    }
  }

  /** From the initial index 0, k ticks give k mod N. */
  lemma TicksFromStart(k: nat)
    ensures Ticks(0, k) == k % N
    ensures Ticks(0, k) < N
  {
    TicksWrap(0, k);
  }

  /** A selection followed by one tick moves to the next testimonial. */
  lemma SelectThenTick(i: nat)
    requires i < N
    ensures Ticks(i, 1) == (i + 1) % N
    ensures Ticks(i, N) == i
  {
    TicksWrap(i, N);
  }

  // ---------------------------------------------------------------------
  // One-shot reveal

  /** The reveal flag and whether the observer is still connected. */
  datatype Observer = Observer(visible: bool, connected: bool)

  const Mounted := Observer(false, true)

  /** One observer callback: an intersecting entry while connected reveals
      and disconnects; anything else changes nothing. */
  function Deliver(o: Observer, intersecting: bool): (o': Observer)
  {
    if o.connected && intersecting then Observer(true, false) else o
  }

  /** A run of callbacks, in order. */
  function DeliverAll(o: Observer, entries: seq<bool>): (o': Observer)
    decreases |entries|
  {
    if entries == [] then o else DeliverAll(Deliver(o, entries[0]), entries[1..])
  }

  /** Once revealed, nothing makes the section hidden again. */
  lemma {:induction false} RevealIsPermanent(o: Observer, entries: seq<bool>)
    requires o.visible
    ensures DeliverAll(o, entries).visible
    decreases |entries|
  {
    if entries != [] {
      RevealIsPermanent(Deliver(o, entries[0]), entries[1..]);
    }
  }

  /** After disconnection every further entry is ignored. */
  lemma {:induction false} DisconnectedIgnoresEntries(o: Observer, entries: seq<bool>)
    requires !o.connected
    ensures DeliverAll(o, entries) == o
    decreases |entries|
  {
    if entries != [] {
      DisconnectedIgnoresEntries(Deliver(o, entries[0]), entries[1..]);
    }
  }

  /** From mount, the section is revealed exactly when some entry
      intersected, and it is revealed exactly when the observer is gone. */
  lemma {:induction false} RevealedIffSomeEntryIntersected(entries: seq<bool>)
    ensures DeliverAll(Mounted, entries).visible <==> exists k :: 0 <= k < |entries| && entries[k]
    ensures DeliverAll(Mounted, entries).visible <==> !DeliverAll(Mounted, entries).connected
    decreases |entries|
  {
    if entries != [] {
      if entries[0] {
        DisconnectedIgnoresEntries(Observer(true, false), entries[1..]);
      } else {
        RevealedIffSomeEntryIntersected(entries[1..]);
        assert forall k :: 1 <= k < |entries| ==> entries[k] == entries[1..][k - 1];
        if exists k :: 0 <= k < |entries[1..]| && entries[1..][k] {
          var k :| 0 <= k < |entries[1..]| && entries[1..][k];
          assert entries[k + 1];
        }
      }
    }
  }

  // ---------------------------------------------------------------------
  // Card placement

  datatype Placement = Shown | Left | Right

  /** Where the card at `index` sits when `active` is the active index. */
  function Place(index: int, active: int): (p: Placement)
  {
    if active == index then Shown
    else if index < active then Left
    else Right
  }

  function CountShown(cards: seq<Placement>): (n: nat)
  {
    if cards == [] then 0 else (if cards[0] == Shown then 1 else 0) + CountShown(cards[1..])
  }

  /** The placements of all cards, in list order: each card is shown, left
      or right according to how its index compares with the active one,
      and when the active index is in range exactly one card is shown. */
  function Layout(active: nat): (cards: seq<Placement>)
    ensures |cards| == N
    ensures forall k :: 0 <= k < N ==>
              (cards[k] == Shown <==> k == active)
              && (cards[k] == Left <==> k < active)
              && (cards[k] == Right <==> k > active)
    ensures active < N ==> CountShown(cards) == 1
  {
    var cards := seq(N, k => Place(k, active));
    assert CountShown(cards) == (if cards[0] == Shown then 1 else 0) + CountShown(cards[1..]);
    assert CountShown(cards[1..]) == (if cards[1] == Shown then 1 else 0) + CountShown(cards[2..]);
    assert CountShown(cards[2..]) == (if cards[2] == Shown then 1 else 0) + CountShown(cards[3..]);
    assert cards[3..] == [];
    cards
  }

  // ---------------------------------------------------------------------
  // The section's state cells

  class Section {
    var activeIndex: nat
    var isVisible: bool
    /** Whether the intersection observer is still connected. */
    var observing: bool
    /** The index the current run of ticks started from: 0 at mount, or the last selection. */
    ghost var anchor: nat
    /** Ticks since mount or since the last selection. */
    ghost var ticks: nat

    ghost predicate Valid()
      reads this
    {
      anchor < N && activeIndex == Ticks(anchor, ticks) && activeIndex < N
      && (isVisible <==> !observing)
    }

    function State(): (o: Observer)
      reads this
    {
      Observer(isVisible, observing)
    }

    constructor ()
      ensures Valid()
      ensures activeIndex == 0 && !isVisible && observing
      ensures anchor == 0 && ticks == 0
    {
      activeIndex := 0;
      isVisible := false;
      observing := true;
      anchor := 0;
      ticks := 0;
    }

    /** The interval fires. */
    method Tick()
      requires Valid()
      modifies this`activeIndex, this`ticks
      ensures Valid()
      ensures activeIndex == Next(old(activeIndex))
      ensures ticks == old(ticks) + 1
      ensures activeIndex == (anchor + ticks) % N
    {
      activeIndex := Next(activeIndex);
      ticks := ticks + 1;
      TicksWrap(anchor, ticks);
    }

    /** A dot button is clicked; the tick is neither reset nor delayed. */
    method Select(i: nat)
      requires Valid() && i < N
      modifies this`activeIndex, this`anchor, this`ticks
      ensures Valid()
      ensures activeIndex == i && anchor == i && ticks == 0
    {
      activeIndex := i;
      anchor := i;
      ticks := 0;
    }

    /** The observer callback with its first entry. */
    method OnEntry(intersecting: bool)
      requires Valid()
      modifies this`isVisible, this`observing
      ensures Valid()
      ensures State() == Deliver(old(State()), intersecting)
      ensures old(isVisible) ==> isVisible
    {
      if observing && intersecting {
        isVisible := true;
        observing := false;
      }
    }
  }

  /** Three ticks from mount return to the first testimonial; a selection
      then a tick moves on from the selected one; the first intersecting
      entry reveals for good. */
  method CarouselScenario()
  {
    var s := new Section();
    s.Tick();
    assert s.activeIndex == 1;
    s.Tick();
    s.Tick();
    assert s.activeIndex == 0;
    s.Select(2);
    s.Tick();
    assert s.activeIndex == 0;
    s.OnEntry(false);
    assert !s.isVisible && s.observing;
    s.OnEntry(true);
    assert s.isVisible && !s.observing;
    s.OnEntry(false);
    assert s.isVisible;
  }
}
