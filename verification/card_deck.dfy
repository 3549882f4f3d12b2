/**
 * The deck state machine of CardStackModel.swift: an ordered list of slots (an
 * element and the direction it was swiped in, if any) and a cursor on the card
 * currently on top, or no cursor when the deck is empty or exhausted.
 *
 * The value-level functions below give the new state of each operation; the class
 * `CardStackModel` updates its fields in place and is proved against them.
 */
module CardDeck {
  import opened Wrappers

  /** `CardStackData`: one element and the direction it was dismissed in, if any. */
  datatype Slot<E, D> = Slot(element: E, direction: Option<D>)

  /** The two fields of a `CardStackModel`, as a value. */
  datatype Deck<E, D> = Deck(data: seq<Slot<E, D>>, currentIndex: Option<int>)

  /** Where the undismissed part of the deck starts: the cursor, or the slot count without one. */
  function Cursor<E, D>(deck: Deck<E, D>): int {
    deck.currentIndex.GetOr(|deck.data|)
  }

  /** The number of cards not yet swiped. */
  function RemainingCount<E, D>(deck: Deck<E, D>): int {
    |deck.data| - Cursor(deck)
  }

  /** The cursor, when there is one, points at a slot. */
  ghost predicate CursorValid<E, D>(deck: Deck<E, D>) {
    deck.currentIndex.Some? ==> 0 <= deck.currentIndex.value < |deck.data|
  }

  /** What every operation keeps: a valid cursor, and no direction from the cursor on. */
  ghost predicate Invariant<E, D>(deck: Deck<E, D>) {
    CursorValid(deck) &&
    forall i :: Cursor(deck) <= i < |deck.data| ==> deck.data[i].direction.None?
  }

  /**
   * The stronger shape of a deck reached by swipes and unswipes: exactly the
   * slots before the cursor carry a direction.
   */
  ghost predicate InOrder<E, D>(deck: Deck<E, D>) {
    Invariant(deck) &&
    forall i :: 0 <= i < Cursor(deck) ==> deck.data[i].direction.Some?
  }

  /** A valid cursor lies in [0, count], and it is absent exactly when no card remains. */
  lemma CursorBounds<E, D>(deck: Deck<E, D>)
    requires CursorValid(deck)
    ensures 0 <= Cursor(deck) <= |deck.data|
    ensures deck.currentIndex.None? <==> RemainingCount(deck) == 0
  {
  }

  /** The two slot lists hold the same elements in the same order. */
  ghost predicate SameElements<E, D>(a: seq<Slot<E, D>>, b: seq<Slot<E, D>>) {
    |a| == |b| && forall i :: 0 <= i < |a| ==> a[i].element == b[i].element
  }

  /** `init` and `setElements`: one undismissed slot per element, in order, cursor on the first. */
  function Fresh<E, D>(elements: seq<E>): (r: Deck<E, D>)
    ensures |r.data| == |elements|
    ensures forall i :: 0 <= i < |elements| ==> r.data[i] == Slot(elements[i], None)
    ensures |elements| > 0 ==> r.currentIndex == Some(0)
    ensures |elements| == 0 ==> r.currentIndex == None
    ensures InOrder(r) && RemainingCount(r) == |elements|
  {
    Deck(seq(|elements|, i requires 0 <= i < |elements| => Slot(elements[i], None)),
         if |elements| > 0 then Some(0) else None)
  }

  /** `addElement`: one undismissed slot at the end; the cursor is left as it was, even when absent. */
  function Appended<E, D>(deck: Deck<E, D>, element: E): (r: Deck<E, D>)
    ensures |r.data| == |deck.data| + 1 && r.data[..|deck.data|] == deck.data
    ensures r.data[|deck.data|] == Slot(element, None)
    ensures r.currentIndex == deck.currentIndex
    ensures Invariant(deck) ==> Invariant(r)
    ensures deck.currentIndex.Some? ==> RemainingCount(r) == RemainingCount(deck) + 1
    ensures deck.currentIndex.None? ==> RemainingCount(r) == 0
  {
    Deck(deck.data + [Slot(element, None)], deck.currentIndex)
  }

  /**
   * `swipe`: without a cursor nothing happens; otherwise the top slot records the
   * direction and the cursor moves to the next slot, or away past the last one.
   */
  function Swiped<E, D>(deck: Deck<E, D>, direction: D): (r: Deck<E, D>)
    requires CursorValid(deck)
    ensures deck.currentIndex.None? ==> r == deck
    ensures deck.currentIndex.Some? ==>
              var k := deck.currentIndex.value;
              |r.data| == |deck.data| &&
              r.data[k] == Slot(deck.data[k].element, Some(direction)) &&
              (forall i :: 0 <= i < |deck.data| && i != k ==> r.data[i] == deck.data[i]) &&
              Cursor(r) == k + 1 &&
              RemainingCount(r) == RemainingCount(deck) - 1
    ensures SameElements(r.data, deck.data)
    ensures CursorValid(r)
    ensures Invariant(deck) ==> Invariant(r)
    ensures InOrder(deck) ==> InOrder(r)
  {
    match deck.currentIndex
    case None => deck
    case Some(k) =>
      var data := deck.data[k := Slot(deck.data[k].element, Some(direction))];
      Deck(data, if k + 1 < |data| then Some(k + 1) else None)
  }

  /**
   * `unswipe`: the slot just before the cursor (the last slot when there is no
   * cursor) loses its direction and becomes the top; at the first slot, or on an
   * empty deck, nothing happens.
   */
  function Unswiped<E, D>(deck: Deck<E, D>): (r: Deck<E, D>)
    requires CursorValid(deck)
    ensures Cursor(deck) == 0 ==> r == deck
    ensures Cursor(deck) > 0 ==>
              var t := Cursor(deck) - 1;
              r.currentIndex == Some(t) &&
              |r.data| == |deck.data| &&
              r.data[t] == Slot(deck.data[t].element, None) &&
              (forall i :: 0 <= i < |deck.data| && i != t ==> r.data[i] == deck.data[i]) &&
              RemainingCount(r) == RemainingCount(deck) + 1
    ensures SameElements(r.data, deck.data)
    ensures CursorValid(r)
    ensures Invariant(deck) ==> Invariant(r)
    ensures InOrder(deck) ==> InOrder(r)
  {
    var previousIndex := Cursor(deck) - 1;
    if previousIndex >= 0 then
      Deck(deck.data[previousIndex := Slot(deck.data[previousIndex].element, None)], Some(previousIndex))
    else
      deck
  }

  /** An unswipe right after a swipe that did something restores the deck exactly. */
  lemma UnswipeUndoesSwipe<E, D>(deck: Deck<E, D>, direction: D)
    requires Invariant(deck) && deck.currentIndex.Some?
    ensures Unswiped(Swiped(deck, direction)) == deck
  {
  }

  /** On an ordered deck, swiping the direction an unswipe cleared restores the deck exactly. */
  lemma SwipeRedoesUnswipe<E, D>(deck: Deck<E, D>)
    requires InOrder(deck) && Cursor(deck) > 0
    ensures deck.data[Cursor(deck) - 1].direction.Some?
    ensures Swiped(Unswiped(deck), deck.data[Cursor(deck) - 1].direction.value) == deck
  {
  }

  /** Swiping the directions of `directions` one after the other. */
  function SwipeEach<E, D>(deck: Deck<E, D>, directions: seq<D>): (r: Deck<E, D>)
    requires CursorValid(deck)
    ensures CursorValid(r)
    decreases |directions|
  {
    if directions == [] then deck
    else SwipeEach(Swiped(deck, directions[0]), directions[1..])
  }

  /**
   * Swiping `n` cards, no more than remain, records the `n` directions on the
   * `n` slots from the cursor on, moves the cursor `n` places and touches nothing else.
   */
  lemma {:induction false} SwipeEachAdvances<E, D>(deck: Deck<E, D>, directions: seq<D>)
    requires CursorValid(deck) && |directions| <= RemainingCount(deck)
    ensures var r, c := SwipeEach(deck, directions), Cursor(deck);
            SameElements(r.data, deck.data) &&
            Cursor(r) == c + |directions| &&
            RemainingCount(r) == RemainingCount(deck) - |directions| &&
            (forall j :: 0 <= j < |directions| ==> r.data[c + j].direction == Some(directions[j])) &&
            (forall i :: 0 <= i < |deck.data| && !(c <= i < c + |directions|) ==> r.data[i] == deck.data[i])
    decreases |directions|
  {
    if directions != [] {
      var next := Swiped(deck, directions[0]);
      var c := Cursor(deck);
      CursorBounds(deck);
      SwipeEachAdvances(next, directions[1..]);
      var r := SwipeEach(deck, directions);
      assert r == SwipeEach(next, directions[1..]);
      forall j | 0 <= j < |directions|
        ensures r.data[c + j].direction == Some(directions[j])
      {
        if j > 0 {
          assert directions[1..][j - 1] == directions[j];
        }
      }
    }
  }

  /** Swiping every card of a fresh deck exhausts it, with each card's direction recorded. */
  lemma SwipeEveryCard<E, D>(elements: seq<E>, directions: seq<D>)
    requires |directions| == |elements|
    ensures var r := SwipeEach(Fresh<E, D>(elements), directions);
            r.currentIndex == None && RemainingCount(r) == 0 &&
            |r.data| == |elements| &&
            forall i :: 0 <= i < |elements| ==> r.data[i] == Slot(elements[i], Some(directions[i]))
  {
    var deck := Fresh<E, D>(elements);
    SwipeEachAdvances(deck, directions);
    CursorBounds(SwipeEach(deck, directions));
  }

  /**
   * Appending keeps a deck ordered exactly when it has a cursor: appended to an
   * exhausted deck, the new slot is undismissed but sits behind the end marker.
   */
  lemma AppendKeepsOrderIffActive<E, D>(deck: Deck<E, D>, element: E)
    requires InOrder(deck)
    ensures InOrder(Appended(deck, element)) <==> deck.currentIndex.Some?
  {
  }

  /**
   * Appending to an exhausted deck does not re-arm it: a swipe still does nothing,
   * and an unswipe brings the appended card (not the last swiped one) to the top.
   */
  lemma AppendToExhaustedDeck<E, D>(deck: Deck<E, D>, element: E, direction: D)
    requires Invariant(deck) && deck.currentIndex.None?
    ensures Swiped(Appended(deck, element), direction) == Appended(deck, element)
    ensures Unswiped(Appended(deck, element)) == Deck(deck.data + [Slot(element, None)], Some(|deck.data|))
  {
  }

  /** `Array.firstIndex(where:)` for "same id as `id`". */
  function FirstIndex<E, Id(==), D>(slots: seq<Slot<E, D>>, idOf: E -> Id, id: Id): (r: Option<int>)
    ensures r.Some? ==>
              0 <= r.value < |slots| && idOf(slots[r.value].element) == id &&
              forall j :: 0 <= j < r.value ==> idOf(slots[j].element) != id
    ensures r.None? ==> forall j :: 0 <= j < |slots| ==> idOf(slots[j].element) != id
  {
    if slots == [] then None
    else if idOf(slots[0].element) == id then Some(0)
    else match FirstIndex(slots[1..], idOf, id)
      case None => None
      case Some(k) => Some(k + 1)
  }

  /** No two slots share an element id. */
  ghost predicate UniqueIds<E, Id, D>(slots: seq<Slot<E, D>>, idOf: E -> Id) {
    forall i, j :: 0 <= i < j < |slots| ==> idOf(slots[i].element) != idOf(slots[j].element)
  }

  /** A deck whose slots and cursor are updated in place. */
  class CardStackModel<E, Id(==), D> {
    /** The `id` of `Identifiable` elements. */
    const idOf: E -> Id
    var data: seq<Slot<E, D>>
    var currentIndex: Option<int>

    function State(): Deck<E, D>
      reads this
    {
      Deck(data, currentIndex)
    }

    ghost predicate Valid()
      reads this
    {
      Invariant(State())
    }

    constructor (idOf: E -> Id, elements: seq<E>)
      ensures this.idOf == idOf
      ensures State() == Fresh(elements)
      ensures Valid() && InOrder(State())
    {
      this.idOf := idOf;
      data := seq(|elements|, i requires 0 <= i < |elements| => Slot(elements[i], None));
      currentIndex := if |elements| > 0 then Some(0) else None;
    }

    method SetElements(elements: seq<E>)
      modifies this
      ensures State() == Fresh(elements)
      ensures Valid() && InOrder(State())
    {
      data := seq(|elements|, i requires 0 <= i < |elements| => Slot(elements[i], None));
      currentIndex := if |elements| > 0 then Some(0) else None;
    }

    method AddElement(element: E)
      requires Valid()
      modifies this
      ensures State() == Appended(old(State()), element)
      ensures Valid()
    {
      data := data + [Slot(element, None)];
    }

    /**
     * `indexInStack`: the signed distance from the cursor (from the end, without
     * one) to the first slot carrying the same id, or none when no slot does.
     */
    function IndexInStack(dataPiece: Slot<E, D>): (r: Option<int>)
      reads this
      ensures r.Some? <==> exists i :: 0 <= i < |data| && idOf(data[i].element) == idOf(dataPiece.element)
      ensures r.Some? ==>
                var i := r.value + Cursor(State());
                0 <= i < |data| && idOf(data[i].element) == idOf(dataPiece.element) &&
                forall j :: 0 <= j < i ==> idOf(data[j].element) != idOf(dataPiece.element)
    {
      match FirstIndex(data, idOf, idOf(dataPiece.element))
      case None => None
      case Some(index) => Some(index - Cursor(State()))
    }

    /**
     * Swipes the top card. Returns the direction handed to the completion, or
     * none when there is no top card and the completion is not called.
     */
    method Swipe(direction: D) returns (completion: Option<D>)
      requires Valid()
      modifies this
      ensures State() == Swiped(old(State()), direction)
      ensures completion == if old(currentIndex).Some? then Some(direction) else None
      ensures Valid()
    {
      if currentIndex.None? {
        return None;
      }
      var k := currentIndex.value;
      data := data[k := Slot(data[k].element, Some(direction))];
      var nextIndex := k + 1;
      if nextIndex < |data| {
        currentIndex := Some(nextIndex);
      } else {
        currentIndex := None;
      }
      completion := Some(direction);
    }

    method Unswipe()
      requires Valid()
      modifies this
      ensures State() == Unswiped(old(State()))
      ensures Valid()
    {
      var index := if currentIndex.None? then |data| else currentIndex.value;
      var previousIndex := index - 1;
      if previousIndex >= 0 {
        data := data[previousIndex := Slot(data[previousIndex].element, None)];
        currentIndex := Some(previousIndex);
      }
    }
  }

  /**
   * With unique ids, every slot's stack index is its offset from the cursor: 0 on
   * top, one more per later slot.
   */
  lemma IndexInStackIsOffset<E, Id, D>(m: CardStackModel<E, Id, D>, i: int)
    requires UniqueIds(m.data, m.idOf) && 0 <= i < |m.data|
    ensures m.IndexInStack(m.data[i]) == Some(i - Cursor(m.State()))
  {
  }

  /**
   * On an ordered deck with unique ids, a slot's stack index is negative exactly
   * when it was swiped, and zero exactly for the card on top.
   */
  lemma IndexInStackSign<E, Id, D>(m: CardStackModel<E, Id, D>, i: int)
    requires InOrder(m.State()) && UniqueIds(m.data, m.idOf) && 0 <= i < |m.data|
    ensures m.IndexInStack(m.data[i]).Some?
    ensures m.IndexInStack(m.data[i]).value < 0 <==> m.data[i].direction.Some?
    ensures m.IndexInStack(m.data[i]).value == 0 <==> m.currentIndex == Some(i)
  {
  }
}
