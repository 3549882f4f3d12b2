# CardStack in Dafny

A model of the two logic components of the SwiftUI CardStack package. The rest of the package is SwiftUI presentation.

- **Deck state machine** (`card_deck.dfy`, module `CardDeck`). This is `CardStackModel`. It holds an ordered list of slots. Each slot (`CardStackData`) is an element plus the direction it was swiped in, if any. It also holds a cursor, `currentIndex`, on the card currently on top. The cursor is absent when the deck is empty or every card has been swiped.
  - Each operation has a value-level function giving the new state: `Fresh`, `Appended`, `Swiped` and `Unswiped`.
  - The class `CardStackModel` updates its `data` and `currentIndex` fields in place. Each of its methods is proved to produce exactly the state its function gives.
  - Two invariants are proved. `Invariant` holds after every operation: the cursor is valid, and no slot from the cursor on carries a direction. `InOrder` is stronger: exactly the slots before the cursor carry a direction. It holds after creation, swipes and unswipes, but not after appending to an exhausted deck.
- **Direction classifier** (`swipe_direction.dfy`, module `SwipeDirection`). This is `CardSwipeDirection.swift`. It has three closed direction sets: `LeftRight`, `FourDirections` and `EightDirections`. For each set, `From` maps an angle to a direction or to none, and `Angle` gives each direction its canonical angle.
  - Angles are exact real numbers of degrees. The source's radian bounds, multiples of π/4, become multiples of 45°.
  - `OngoingSwipeDirection` is the card view's distance gate. A classified direction counts only when the drag distance is strictly greater than the threshold.
  - Each classifier's buckets are also proved against an independent reading: it picks a direction whose canonical angle is nearest on the circle.
- `wrappers.dfy` gives Swift's optionals as `Option`.

Behaviour pinned as the code has it:
- `addElement` never touches `currentIndex`, so appending to an exhausted deck does not re-arm it. A following swipe does nothing. A following unswipe brings the appended card to the top rather than undoing the last swipe (`AppendToExhaustedDeck`).
- `swipe` hands only the direction to its completion. `unswipe` returns nothing.
- The two-way classifier's right-hand wrap bucket is [315°, 360°), and it is reachable.
- Every normalized angle of 360° or more falls through to the default case.

## Model

| member | source | states |
|---|---|---|
| SwipeDirection.Normalized | Sources/CardStack/CardSwipeDirection.swift:111-114 | adds exactly one full turn to every negative angle; leaves non-negative angles unchanged; maps [-360°, 360°) into [0°, 360°) |
| SwipeDirection.NormalizedIdempotent | Sources/CardStack/CardSwipeDirection.swift:111-114 | on [-360°, 360°), normalizing twice equals normalizing once |
| SwipeDirection.InBucketIsNormalizedRange | Sources/CardStack/CardSwipeDirection.swift:40 | a raw angle is in a bucket [lo, hi) within one turn exactly when its normalized value is |
| SwipeDirection.LeftRight.From | Sources/CardStack/CardSwipeDirection.swift:39-46 | left exactly on [135°, 225°); right exactly on [0°, 45°) ∪ [315°, 360°); within one turn, none exactly on the vertical bands [45°, 135°) ∪ [225°, 315°); lower bounds inclusive |
| SwipeDirection.LeftRight.Angle | Sources/CardStack/CardSwipeDirection.swift:48-53 | the canonical angle is in [0°, 360°) and classifies back to the same direction |
| SwipeDirection.FourDirections.From | Sources/CardStack/CardSwipeDirection.swift:60-67 | never none; top on [45°, 135°), left on [135°, 225°), bottom on [225°, 315°), right exactly everywhere else |
| SwipeDirection.FourDirections.Angle | Sources/CardStack/CardSwipeDirection.swift:69-76 | the canonical angle is in [0°, 360°) and classifies back to the same direction |
| SwipeDirection.EightDirections.From | Sources/CardStack/CardSwipeDirection.swift:82-93 | never none; seven 45°-wide buckets from 22.5° (topRight, top, topLeft, left, bottomLeft, bottom, bottomRight), right exactly everywhere else |
| SwipeDirection.EightDirections.Angle | Sources/CardStack/CardSwipeDirection.swift:95-106 | the canonical angle is in [0°, 360°) and classifies back to the same direction |
| SwipeDirection.LeftRightIsNearest | Sources/CardStack/CardSwipeDirection.swift:39-53 | within one turn: a reported side is the nearer canonical angle, at most 45° away; none means at least 45° from both |
| SwipeDirection.FourDirectionsIsNearest | Sources/CardStack/CardSwipeDirection.swift:60-76 | within one turn, the result is a nearest canonical angle, at most 45° away |
| SwipeDirection.EightDirectionsIsNearest | Sources/CardStack/CardSwipeDirection.swift:82-106 | within one turn, the result is a nearest canonical angle, at most 22.5° away |
| SwipeDirection.OngoingSwipeDirection | Sources/CardStack/CardView.swift:72-77 | a direction is reported exactly when the classifier gives one and distance > threshold, and it is the classifier's |
| SwipeDirection.GatedRoundTrip | Sources/CardStack/CardView.swift:72-77 | every canonical angle of all three sets, past the threshold, classifies to its own direction |
| SwipeDirection.DirectionExamples | Tests/CardStackTests/DirectionTests.swift:11-40 | the expected classifications of the direction tests, plus the bucket-opening boundaries 45°, 22.5° and 135°, and the canonical angle of every direction (left 180°, right 0°, top 90°, bottom 270°, topRight 45°, topLeft 135°, bottomLeft 225°, bottomRight 315°) |
| CardDeck.CursorBounds | Sources/CardStack/CardStackModel.swift:58-63 | a valid cursor lies in [0, count]; the cursor is absent exactly when no card remains |
| CardDeck.Fresh | Sources/CardStack/CardStackModel.swift:32-40 | one undismissed slot per element, in input order; cursor 0 if non-empty, else absent; ordered, with every card remaining |
| CardDeck.Appended | Sources/CardStack/CardStackModel.swift:42-44 | earlier slots kept, one undismissed slot added at the end; cursor unchanged, even when absent; invariant kept |
| CardDeck.Swiped | Sources/CardStack/CardStackModel.swift:51-66 | no cursor: no change; otherwise the top slot gets the direction, all other slots stay, the cursor moves one on, one fewer card remains; both invariants kept |
| CardDeck.Unswiped | Sources/CardStack/CardStackModel.swift:68-80 | target is (cursor, or count) minus 1; at target ≥ 0 its direction is cleared and it becomes the cursor, one more card remains; otherwise no change; elements never change; both invariants kept |
| CardDeck.UnswipeUndoesSwipe | Sources/CardStack/CardStackModel.swift:51-80 | a swipe that did something, followed by an unswipe, restores the deck exactly |
| CardDeck.SwipeRedoesUnswipe | Sources/CardStack/CardStackModel.swift:51-80 | on an ordered deck, an unswipe followed by a swipe with the cleared direction restores the deck exactly |
| CardDeck.SwipeEachAdvances | Sources/CardStack/CardStackModel.swift:51-66 | n swipes (n ≤ remaining) record the n directions on the n slots from the cursor on, move the cursor n places, and leave everything else alone |
| CardDeck.SwipeEveryCard | Sources/CardStack/CardStackModel.swift:32-66 | swiping a fresh deck once per card exhausts it, with card i carrying direction i |
| CardDeck.AppendKeepsOrderIffActive | Sources/CardStack/CardStackModel.swift:42-44 | appending keeps an ordered deck ordered exactly when it has a cursor |
| CardDeck.AppendToExhaustedDeck | Sources/CardStack/CardStackModel.swift:42-80 | after appending to an exhausted deck, a swipe does nothing, and an unswipe puts the appended card on top |
| CardDeck.FirstIndex | Sources/CardStack/CardStackModel.swift:47 | the first slot with the given id, or none exactly when no slot has it |
| CardDeck.CardStackModel.IndexInStack | Sources/CardStack/CardStackModel.swift:46-49 | none exactly when no slot has the id; otherwise result + (cursor, or count) is the first slot with that id |
| CardDeck.IndexInStackIsOffset | Sources/CardStack/CardStackModel.swift:46-49 | with unique ids, slot i's stack index is i minus (cursor, or count): 0 on top, rising by 1 per later slot |
| CardDeck.IndexInStackSign | Sources/CardStack/CardStackModel.swift:46-49 | on an ordered deck with unique ids, the index is negative exactly for swiped slots and 0 exactly for the top slot |
| CardDeck.CardStackModel.constructor | Sources/CardStack/CardStackModel.swift:32-35 | the new state is `Fresh(elements)` and is ordered |
| CardDeck.CardStackModel.SetElements | Sources/CardStack/CardStackModel.swift:37-40 | the new state is `Fresh(elements)` and is ordered, whatever came before |
| CardDeck.CardStackModel.AddElement | Sources/CardStack/CardStackModel.swift:42-44 | the new state is `Appended` of the old one; the invariant is kept |
| CardDeck.CardStackModel.Swipe | Sources/CardStack/CardStackModel.swift:51-66 | the new state is `Swiped` of the old one; the completion gets the direction exactly when there was a top card |
| CardDeck.CardStackModel.Unswipe | Sources/CardStack/CardStackModel.swift:68-80 | the new state is `Unswiped` of the old one; the invariant is kept |

## Left out

- The SwiftUI views `CardStack` and `CardView` are not modelled: rendering, card offset/scale/opacity arithmetic, fly-out offsets, drag-gesture plumbing and animation. Only the strict distance gate of `ongoingSwipeDirection` is modelled. Its distance and threshold are plain inputs, because they come from `hypot` and screen geometry.
- Floating point is not modelled. Angles are exact degrees, so the rounding of `Double`, π and radian↔degree conversion are not captured. `atan2` is not modelled, so the angle is an input.
- `ObservableObject`/`@Published` change notification is not modelled.
- The reference identity of `CardStackData` objects is not modelled. Slots are values in a sequence, because they are never shared outside the model.
- The completion closure of `swipe` is not modelled as a call. `Swipe` returns the value the completion would receive, or none when the completion would not be called. Whether the caller passed a completion at all is the caller's concern. The call happening after the update is shown only by the result being produced at the end.
- `CardStack.swift:53` passes a two-argument closure to `swipe`. The model follows the declared one-argument completion.
- Uniqueness of element ids is not enforced, as in the source. `IndexInStack` takes the first match. The lemmas about stack indices assume unique ids.
- Swift's `Int` overflow is not modelled. The only addition, cursor + 1, is at most the slot count.
- The example app and the snapshot tests are not modelled.
