# multa scheduler, modelled in Dafny

This project models the scheduling core of multa, a spaced-repetition
practice tool for multiplication tables. The model covers:

- the card types (`Factors`, `Status`, `Rating`, `Card`);
- the fixed interval ladder `[2, 3, 5, 8, 13, 21, 34, 55]`;
- the status state machine that one review drives;
- the session, which holds its deck of cards in presentation order in an
  array, a logical clock `tick` and a one-level undo snapshot;
- the persistence reconciliation: which cards are saved, how their due ticks
  are re-based, and how saved cards are overlaid onto a freshly generated
  universe.

Modules, leaves first:

- `Wrappers` (wrappers.dfy): `Option`.
- `Cards` (card.dfy): the types of `src/card.rs`, `MapDue`, `Compute` and
  `NewCard`.
- `Intervals` (intervals.dfy): the ladder, `First`, `Last`, `Next` and the
  laws of `Next`.
- `TimeTables` (time_tables.dfy): the 64-item universe, the nested-loop
  generator `Gen`, and the facts about its shuffle.
- `StateMachine` (state_machine.dfy): `Reviewed`, the card a review produces,
  and its transition laws.
- `Priority` (priority.dfy):
  - the comparator `Compare`, written case by case as the source has it;
  - the `(class, due)` key it agrees with;
  - the reference stable sort `Sort`, with proofs that it sorts, permutes and
    is stable.
- `Persistence` (persistence.dfy): `CardsToSave`, `ByValue`, `Overlay` and the
  save/load round trip.
- `Sessions` (session.dfy): the `Session` class. Its methods are `New`,
  `From`, `Peek`, `Review`, `Rollback`, `ApplyChanges` and `Rebuild`.
  `Rebuild` is an in-place insertion sort that uses `Compare`.
- `Scenarios` (scenarios.dfy): the unit tests of `src/session.rs`, stated as
  lemmas, and a client that reviews and then rolls back.

Three behaviours of the code are easy to misread:

- A review sets the due tick to `tick + interval`, using the clock value
  before it advances. The comments in the test `session_review` agree.
- `Card::new` starts a card on the top rung, 55. So the first `Good` on a
  fresh card makes it `Learned` at once (`StateMachine.FreshGoodIsLearned`).
- The comment in the test `session_review_rollback` says "due: 3, interval: 3"
  after a `Bad`. The code gives due 2 and interval 2, and that is what
  `Scenarios.ReviewSequence` proves.

A valid session (`Session.Valid`) keeps its deck sorted by key at the current
tick, and keeps the snapshot's deck sorted at the snapshot's tick. Both
constructors establish it, and every public method (`Review`, `Rollback`,
`ApplyChanges`) preserves it. The internal steps `UpdatePeeked`, `InsertStep`,
`OverlayInPlace` and `Rebuild` leave the deck unsorted partway and make no
promise about it.

## Model

| member | source | states |
|---|---|---|
| `Cards.Compute` | src/card.rs:10-13 | for factors in 2..9 the product `x * y` fits in a u8 and lies in 4..81 |
| `Cards.FactorsEquality` | src/card.rs:6-7 | two identities are equal exactly when both factors are |
| `Cards.MapDue` | src/card.rs:24-30 | the variant is kept and the due tick of a scheduled status becomes `f(due)` |
| `Cards.MapDueIdentity` | src/card.rs:24-30 | mapping the identity function changes nothing |
| `Cards.MapDueCompose` | src/card.rs:24-30 | mapping `f` and then `g` equals mapping `g ∘ f` once |
| `Cards.NewCard` | src/card.rs:49-58 | a new card has identity `(x, y)`, interval 55, status `Unseen` and no history |
| `Intervals.First` | src/session.rs:23-25 | the bottom rung is on the ladder and no rung is smaller |
| `Intervals.Last` | src/session.rs:27-29 | the top rung is on the ladder and no rung is larger |
| `Intervals.LadderAscending` | src/session.rs:21 | the ladder is strictly ascending |
| `Intervals.Position` | src/session.rs:33 | gives the first index holding the value, and none exactly when the value is absent |
| `Intervals.Next` | src/session.rs:31-39 | always a rung; with `NextTop`, `NextRung` and `NextOffLadder` its value is fixed on every input: one rung up, saturating at 55, and 2 off the ladder |
| `Intervals.NextTop` | src/session.rs:31-39 | `Next(55) == 55`: the ladder saturates at the top |
| `Intervals.NextRung` | src/session.rs:31-39 | for a rung `i` below the top, `Next(ladder[i]) == ladder[i+1]` |
| `Intervals.NextOffLadder` | src/session.rs:37 | a value not on the ladder maps to the bottom rung, 2 |
| `Intervals.NextOnLadder` | src/session.rs:31-39 | the result is always a rung; for a rung it is no smaller, and strictly larger below the top |
| `TimeTables.Gen` | src/session.rs:44-50 | the nested loops push `Factors(x, y)` for x, y in 2..9 in row order, 64 items |
| `TimeTables.TableIsUniverse` | src/session.rs:44-50 | the 64 generated items are pairwise distinct, all in range, and cover every pair in range |
| `TimeTables.PermutationDistinct` | src/session.rs:51 | a rearrangement of a distinct sequence is distinct |
| `TimeTables.ShuffledIsUniverse` | src/session.rs:51 | any shuffle of the items is still 64 distinct in-range items covering the universe |
| `StateMachine.NewInterval` | src/session.rs:165-168 | the new interval is a rung, and it is the bottom rung after `Bad` |
| `StateMachine.Reviewed` | src/session.rs:170-188 | the identity is kept, the rating and stamp are recorded, due = old tick + new interval, `Learned` exactly at the top rung |
| `StateMachine.BadResets` | src/session.rs:167 | `Bad` gives interval 2 and `Learning(tick + 2)` from any state |
| `StateMachine.GoodClimbs` | src/session.rs:166 | `Good` on rung `i` gives rung `i+1`; the card is `Learned` only when that is the top rung |
| `StateMachine.GoodKeepsLearned` | src/session.rs:184-185 | `Good` on the top rung stays `Learned`, due 55 ticks later |
| `StateMachine.FreshGoodIsLearned` | src/card.rs:52 | the first `Good` on a fresh card makes it `Learned(tick + 55)` |
| `StateMachine.GoodNeverLowers` | src/session.rs:166 | `Good` never lowers an on-ladder interval, and restarts an off-ladder one at the bottom rung |
| `Priority.Compare` | src/session.rs:205-217 | the eight-arm comparator is not `Greater` exactly when the `(class, due)` key of the first card is no larger, and not `Less` exactly when the second's is no larger |
| `Priority.CmpNat` | src/session.rs:206 | `Less` exactly when smaller, `Greater` exactly when larger |
| `Priority.KeyCompare` | src/session.rs:203-217 | the key comparison is not `Greater` exactly when the `(class, due)` key is no larger |
| `Priority.CompareIsKeyOrder` | src/session.rs:205-217 | the hand-written comparator equals the lexicographic comparison of `(class, due)` |
| `Priority.CompareTotalPreorder` | src/session.rs:205-217 | the comparator is reflexive, antisymmetric in sign, transitive and total |
| `Priority.Insert` | src/session.rs:203-218 | the reference insertion step grows the deck by one card; `InsertAt`, `InsertSorted` and `InsertPermutes` show it lands at the key boundary, keeps sortedness and adds exactly that card |
| `Priority.Sort` | src/session.rs:203-218 | the reference stable sort keeps the length; `SortSorted` and `SortStable` show it is sorted, a permutation and stable |
| `Priority.InsertAt` | src/session.rs:205 | in a sorted deck a card is inserted at the boundary between keys no larger and keys larger |
| `Priority.InsertSorted` | src/session.rs:205 | inserting into a sorted deck keeps it sorted |
| `Priority.InsertPermutes` | src/session.rs:205 | insertion adds exactly the inserted card |
| `Priority.SortSorted` | src/session.rs:203-218 | the rebuilt order is sorted by key and is a permutation of the input |
| `Priority.SortStable` | src/session.rs:205 | cards with equal keys keep their relative order |
| `Priority.SortKeepsUnseenOrder` | src/session.rs:210 | unseen cards keep their prior relative order |
| `Priority.SortedOrder` | src/session.rs:205-217 | order is ready learning, then unseen, then learned, then not-ready learning; learning and learned cards each by due |
| `Priority.FrontIsMostUrgent` | src/session.rs:155-157 | the front card is a ready learning card if one exists, else an unseen card if one exists |
| `Persistence.MinDue` | src/session.rs:89-97 | gives the smallest contributed tick, and it is attained |
| `Persistence.SaveOffset` | src/session.rs:89-99 | the offset is at most the clock and every saved due, and is the clock or one of those dues |
| `Persistence.Retained` | src/session.rs:105 | keeps exactly the non-unseen cards, each as often as in the deck |
| `Persistence.Rebased` | src/session.rs:106-109 | identity, interval, history and variant are kept, and a scheduled card's due tick is lowered by the offset |
| `Persistence.CardsToSave` | src/session.rs:88-113 | the saved cards are the non-unseen cards in order, each with variant, interval, identity and history kept and due lowered by the offset |
| `Persistence.SavePreservesGaps` | src/session.rs:107 | differences between saved due ticks equal those before saving |
| `Persistence.SaveRebasesToZero` | src/session.rs:89-107 | unless the offset is the whole clock, some saved card is due at 0 |
| `Persistence.ByValue` | src/session.rs:142-143 | the keys are exactly the identities of the changes, and each maps to a change with that identity |
| `Persistence.Overlay` | src/session.rs:145-150 | the overlay has one card per generated card; `OverlayAt` states which card each position holds |
| `Persistence.ByValueLastWins` | src/session.rs:142-143 | among changes with one identity, the last one is kept |
| `Persistence.OverlayAt` | src/session.rs:145-150 | a card is replaced exactly when its identity was saved and no earlier card had it; identities are kept |
| `Persistence.SavedLookup` | src/session.rs:141-153 | a reviewed card of a distinct deck is found under its identity after saving, with due shifted |
| `Persistence.SavedAbsent` | src/session.rs:141-153 | an identity no reviewed card carries is not among the saved cards |
| `Persistence.SaveLoadRoundTrip` | src/session.rs:141-153 | loading saved cards gives each reviewed card its variant and interval back, due shifted by one constant; other cards are untouched |
| `Sessions.DistinctValuesCount` | src/session.rs:171-175 | in a deck of distinct identities each card occurs at most once |
| `Sessions.PermutationKeepsValuesDistinct` | src/session.rs:191 | reordering a deck keeps its identities distinct |
| `Sessions.ReviewedDeck` | src/session.rs:178-191 | after the front card is replaced and the deck re-sorted: sorted, that one card swapped, identities still distinct |
| `Sessions.ReplaceFront` | src/session.rs:178-188 | replacing the front card changes the multiset by exactly that card |
| `Sessions.SameValuesAfterReplace` | src/session.rs:170-175 | replacing a card by one of the same identity keeps the identities |
| `Sessions.Session.New` | src/session.rs:75-86 | 64 fresh cards in shuffled order, clock 0, no snapshot, already valid, distinct identities |
| `Sessions.Session.From` | src/session.rs:221-231 | the deck is the given cards rebuilt at clock 0, with no snapshot |
| `Sessions.Session.Peek` | src/session.rs:155-157 | returns the front card, or nothing exactly when the deck is empty; in a valid session no card precedes it by key |
| `Sessions.Session.IndexOf` | src/session.rs:171-175 | returns the first position holding the identity |
| `Sessions.Session.Rebuild` | src/session.rs:203-218 | the deck's new contents are `Sort` of the old at the current clock |
| `Sessions.Session.InsertStep` | src/session.rs:205-217 | one insertion pass, which equals `Insert` of the next card into the sorted prefix |
| `Sessions.Session.Review` | src/session.rs:159-193 | snapshot = old deck and clock; on a non-empty deck only the peeked card changes, to `Reviewed`, then the clock advances by 1 and the deck is rebuilt; on an empty deck only the snapshot changes |
| `Sessions.Session.UpdatePeeked` | src/session.rs:164-188 | the peeked card, found by identity at position 0, takes its reviewed state and nothing else changes |
| `Sessions.Session.Rollback` | src/session.rs:195-201 | restores the snapshot's deck and clock and clears it; with no snapshot nothing changes |
| `Sessions.Session.ApplyChanges` | src/session.rs:141-153 | the deck becomes the rebuilt overlay of the saved cards |
| `Sessions.Session.OverlayInPlace` | src/session.rs:145-150 | the loop leaves the deck equal to `Overlay` of the old deck |
| `Scenarios.FromCardsOrder` | src/session.rs:247-265 | the test `from_cards` order |
| `Scenarios.ApplyChangesOrder` | src/session.rs:267-290 | the test `apply_changes` order |
| `Scenarios.CardsToSaveExamples` | src/session.rs:292-321 | the test `get_cards_to_save` results |
| `Scenarios.ReviewSequence` | src/session.rs:323-379 | all eight reviews of `session_review`: the card that comes up at each tick, and the interval and due tick each review gives it |
| `Scenarios.ReviewThenRollback` | src/session.rs:381-402 | a review followed by a rollback restores deck and clock; a second rollback changes nothing |

## Left out

- `Session::load`, `Session::save` and `profile_path` (src/session.rs:115-139)
  are left out. They are filesystem access, data-directory lookup and JSON
  serialization. Only the pure reconciliation they call is modelled.
- The shuffle in `TimeTables::gen` (src/session.rs:51) is randomness.
  `Session.New` takes the shuffled order as a parameter. It requires that
  order to be a rearrangement of the generated items.
- The `Distribution<Factors>` sampler (src/card.rs:61-66) is randomness, and
  it is left out.
- The wall-clock stamp `last_seen` (src/session.rs:180-183) is a parameter
  `seen` of `Review`. Nothing is stated about its value.
- The `Display` and `Debug` implementations are formatting only.
- src/lib.rs, src/main.rs and src/error.rs are not part of this model. They
  hold terminal I/O, argument parsing and error conversion.
- Sessions.Session.Review: `u32` wrap-around or overflow panics are not
  modelled. Ticks, dues and intervals are unbounded naturals. `Review`
  instead requires that `tick + interval` stays within `u32`.
- Persistence.CardsToSave: the panic on an empty deck, from the `unwrap` of
  the minimum, is excluded by a precondition, as it is for `MinDue` and
  `SaveOffset`.
- Cards.Compute: the `u8` overflow of `x * y` outside 2..9 is not modelled.
  It is excluded by a precondition.
- Sessions.Session.Rebuild: the source calls the standard library's stable
  `sort_by`, and the model uses an insertion sort instead. Under a total
  preorder every stable sort gives the same result. That uniqueness is not
  proved here.
- Sessions.Session.Rollback: the model allocates a new array where the source
  assigns a cloned vector.
- Sessions.Session.Peek: the source returns a reference, and the model
  returns a copy of the card.
