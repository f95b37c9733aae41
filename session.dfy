/**
 * The session: the deck of cards in presentation order, the logical clock
 * and the one-level undo snapshot.
 */
module Sessions {
  import opened Wrappers
  import opened Cards
  import opened Intervals
  import opened TimeTables
  import opened StateMachine
  import opened Priority
  import opened Persistence

  /** The largest value of the clock's unsigned 32-bit type. */
  const U32Max: nat := 0xFFFF_FFFF

  /** A copy of the card order and the clock, taken just before a review. */
  datatype Snapshot = Snapshot(cards: seq<Card>, tick: nat)

  /** In a distinct-identity deck every card determines its position. */
  lemma DistinctValuesCount(s: seq<Card>, c: Card)
    requires Distinct(ValuesOf(s))
    ensures multiset(s)[c] <= 1
  {
    assert Distinct(s) by {
      forall i, j | 0 <= i < j < |s| ensures s[i] != s[j] {
        assert ValuesOf(s)[i] != ValuesOf(s)[j];
      }
    }
    DistinctCount(s, c);
  }

  /** Reordering a deck keeps its identities distinct. */
  lemma PermutationKeepsValuesDistinct(s: seq<Card>, t: seq<Card>)
    requires multiset(s) == multiset(t) && Distinct(ValuesOf(s))
    ensures Distinct(ValuesOf(t))
  {
    forall i, j | 0 <= i < j < |t| ensures ValuesOf(t)[i] != ValuesOf(t)[j] {
      assert t[i] in multiset(s) && t[j] in multiset(s);
      var p :| 0 <= p < |s| && s[p] == t[i];
      var q :| 0 <= q < |s| && s[q] == t[j];
      if t[i] == t[j] {
        RepeatedCount(t, i, j);
        DistinctValuesCount(s, t[i]);
      } else {
        assert ValuesOf(s)[p] != ValuesOf(s)[q];
      }
    }
  }

  /**
   * Replacing the front card by one with the same identity and re-sorting
   * gives a sorted deck holding the same cards but that one, with the same
   * identities.
   */
  lemma ReviewedDeck(deck: seq<Card>, r: Card, tick: nat)
    requires |deck| > 0 && r.value == deck[0].value
    ensures Sorted(Sort(deck[0 := r], tick), tick)
    ensures multiset(Sort(deck[0 := r], tick)) == multiset(deck) - multiset{deck[0]} + multiset{r}
    ensures Distinct(ValuesOf(deck)) ==> Distinct(ValuesOf(Sort(deck[0 := r], tick)))
  {
    SortSorted(deck[0 := r], tick);
    ReplaceFront(deck, r);
    SameValuesAfterReplace(deck, r);
    if Distinct(ValuesOf(deck)) {
      PermutationKeepsValuesDistinct(deck[0 := r], Sort(deck[0 := r], tick));
    }
  }

  lemma ReplaceFront(deck: seq<Card>, r: Card)
    requires |deck| > 0
    ensures multiset(deck[0 := r]) == multiset(deck) - multiset{deck[0]} + multiset{r}
  {
    assert deck == [deck[0]] + deck[1..] && deck[0 := r] == [r] + deck[1..];
  }

  lemma SameValuesAfterReplace(deck: seq<Card>, r: Card)
    requires |deck| > 0 && r.value == deck[0].value
    ensures ValuesOf(deck[0 := r]) == ValuesOf(deck)
  {
  }

  /** `Reviewed` is the card update written out field by field. */
  lemma ReviewedIsUpdate(c: Card, rating: Rating, tick: nat, seen: Option<nat>)
    ensures
      var interval := match rating case Good => Next(c.interval) case Bad => First();
      Reviewed(c, rating, tick, seen) ==
        c.(interval := interval,
           lastResult := Some(rating),
           lastSeen := seen,
           status := if interval == Last() then Learned(tick + interval) else Learning(tick + interval))
  {
  }

  /** One step of the overlay loop, at position `i`. */
  lemma OverlayStep(s: seq<Card>, m: map<Factors, Card>, i: nat, left: map<Factors, Card>, done: seq<Card>)
    requires i < |s| && done + Overlay(s[i..], left) == Overlay(s, m)
    ensures var v := s[i].value;
      (done + [if v in left then left[v] else s[i]]) +
      Overlay(s[i + 1..], if v in left then left - {v} else left) == Overlay(s, m)
  {
    assert s[i..][0] == s[i] && s[i..][1..] == s[i + 1..];
  }

  class Session {
    var snapshot: Option<Snapshot>
    var cards: array<Card>
    var tick: nat

    /** The deck, and the snapshot's deck, are in presentation order. */
    ghost predicate Valid()
      reads this, cards
    {
      Sorted(cards[..], tick) &&
      (snapshot.Some? ==> Sorted(snapshot.value.cards, snapshot.value.tick))
    }

    /**
     * A new session over the whole universe, in the order the shuffle
     * chose, every card fresh; all cards are unseen, so the order is
     * already the presentation order.
     */
    constructor New(shuffled: seq<Factors>)
      requires multiset(shuffled) == multiset(Table())
      ensures Valid() && fresh(cards) && snapshot == None && tick == 0
      ensures cards.Length == |shuffled| == 64
      ensures forall i :: 0 <= i < |shuffled| ==> cards[i] == NewCard(shuffled[i].x, shuffled[i].y)
      ensures Distinct(ValuesOf(cards[..]))
    {
      ShuffledIsUniverse(shuffled);
      cards := new Card[|shuffled|](i requires 0 <= i < |shuffled| => NewCard(shuffled[i].x, shuffled[i].y));
      tick := 0;
      snapshot := None;
      new;
      assert ValuesOf(cards[..]) == shuffled;
    }

    /** A session over the given cards at clock 0, put in presentation order. */
    constructor From(cs: seq<Card>)
      ensures Valid() && fresh(cards) && snapshot == None && tick == 0
      ensures cards[..] == Sort(cs, 0)
    {
      cards := new Card[|cs|](i requires 0 <= i < |cs| => cs[i]);
      tick := 0;
      snapshot := None;
      new;
      assert cards[..] == cs;
      Rebuild();
      SortSorted(cs, 0);
    }

    /**
     * The card to present next: the first of the deck, if any. In a valid
     * session no card comes before it by key.
     */
    function Peek(): (r: Option<Card>)
      reads this, cards
      ensures r.Some? <==> cards.Length > 0
      ensures r.Some? ==> r.value == cards[0]
      ensures Valid() && r.Some? ==> forall i :: 0 <= i < cards.Length ==> KeyLe(r.value, cards[i], tick)
    {
      if cards.Length == 0 then None
      else
        assert Valid() ==> forall i :: 0 < i < cards.Length ==> KeyLe(cards[..][0], cards[..][i], tick);
        Some(cards[0])
    }

    /** The position of the first card with identity `value`. */
    method IndexOf(value: Factors) returns (idx: nat)
      requires exists k :: 0 <= k < cards.Length && cards[k].value == value
      ensures idx < cards.Length && cards[idx].value == value
      ensures forall k :: 0 <= k < idx ==> cards[k].value != value
    {
      idx := 0;
      while cards[idx].value != value
        invariant exists k :: idx <= k < cards.Length && cards[k].value == value
        invariant forall k :: 0 <= k < idx ==> cards[k].value != value
        decreases cards.Length - idx
      {
        idx := idx + 1;
      }
    }

    /** Sorts the deck in place, stably, with the comparator `Compare`. */
    method Rebuild()
      modifies cards
      ensures cards[..] == Sort(old(cards[..]), tick)
    {
      ghost var s := cards[..];
      var i := 0;
      while i < cards.Length
        invariant 0 <= i <= cards.Length
        invariant cards[..i] == Sort(s[..i], tick)
        invariant cards[i..] == s[i..]
      {
        SortSorted(s[..i], tick);
        assert cards[i] == s[i];
        InsertStep(i);
        assert s[..i + 1][..i] == s[..i];
        assert cards[i + 1..] == s[i + 1..];
        i := i + 1;
      }
      assert s[..cards.Length] == s;
    }

    /**
     * One pass of the insertion sort: moves `cards[i]` left past the cards
     * of the sorted prefix that compare greater than it.
     */
    method InsertStep(i: nat)
      requires i < cards.Length && Sorted(cards[..i], tick)
      modifies cards
      ensures cards[..i + 1] == Insert(old(cards[..i]), old(cards[i]), tick)
      ensures cards[i + 1..] == old(cards[i + 1..])
    {
      var x := cards[i];
      ghost var sorted := cards[..i];
      var j := i;
      while j > 0 && Compare(cards[j - 1], x, tick) == Greater
        invariant 0 <= j <= i
        invariant forall k :: 0 <= k < j ==> cards[k] == sorted[k]
        invariant forall k :: j < k <= i ==> cards[k] == sorted[k - 1]
        invariant cards[i + 1..] == old(cards[i + 1..])
        invariant forall k :: j <= k < i ==> !KeyLe(sorted[k], x, tick)
      {
        cards[j] := cards[j - 1];
        j := j - 1;
      }
      cards[j] := x;
      InsertBoundary(sorted, x, j, tick);
      assert cards[..i + 1] == sorted[..j] + [x] + sorted[j..];
    }

    /**
     * Reviews the card `Peek` returns with `rating`, at the current clock
     * value, stamping `seen` as its wall-clock reading: the snapshot is
     * taken first, then that card alone takes its reviewed state, the clock
     * advances by one and the deck is put back in presentation order. On an
     * empty deck only the snapshot is taken.
     */
    method Review(rating: Rating, seen: Option<nat>)
      requires Valid()
      requires cards.Length > 0 ==> tick + NewInterval(cards[0].interval, rating) <= U32Max
      modifies this, cards
      ensures Valid() && cards == old(cards)
      ensures snapshot == Some(Snapshot(old(cards[..]), old(tick)))
      ensures old(cards.Length) == 0 ==> tick == old(tick) && cards[..] == old(cards[..])
      ensures old(cards.Length) > 0 ==>
        && tick == old(tick) + 1 <= U32Max
        && cards[..] == Sort(old(cards[..])[0 := Reviewed(old(cards[0]), rating, old(tick), seen)], tick)
        && multiset(cards[..]) ==
           multiset(old(cards[..])) - multiset{old(cards[0])} + multiset{Reviewed(old(cards[0]), rating, old(tick), seen)}
      ensures Distinct(ValuesOf(old(cards[..]))) ==> Distinct(ValuesOf(cards[..]))
    {
      snapshot := Some(Snapshot(cards[..], tick));
      ghost var deck := cards[..];
      var top := Peek();
      if top.Some? {
        ghost var r := Reviewed(top.value, rating, tick, seen);
        assert First() <= NewInterval(deck[0].interval, rating);
        UpdatePeeked(top.value, rating, seen);
        assert cards[..] == deck[0 := r];
        tick := tick + 1;
        Rebuild();
        ReviewedDeck(deck, r, tick);
      }
    }

    /**
     * The card update of a review: finds the peeked card by identity and
     * gives it its new interval, rating, wall-clock stamp and status, due
     * one interval after the current clock value.
     */
    method UpdatePeeked(card: Card, rating: Rating, seen: Option<nat>)
      requires cards.Length > 0 && card == cards[0]
      modifies cards
      ensures cards[..] == old(cards[..])[0 := Reviewed(card, rating, tick, seen)]
    {
      var interval := match rating
        case Good => Next(card.interval)
        case Bad => First();
      var value := card.value;
      var idx := IndexOf(value);
      assert idx == 0;
      var now := tick;
      var due := now + interval;
      var c := cards[idx];
      var next := c.(interval := interval,
                     lastResult := Some(rating),
                     lastSeen := seen,
                     status := if interval == Last() then Learned(due) else Learning(due));
      ReviewedIsUpdate(card, rating, now, seen);
      assert next == Reviewed(card, rating, now, seen);
      cards[idx] := next;
    }

    /**
     * Undoes the last review: restores the snapshot's deck and clock and
     * discards the snapshot; without a snapshot nothing changes.
     */
    method Rollback()
      requires Valid()
      modifies this
      ensures Valid()
      ensures old(snapshot).None? ==>
        cards == old(cards) && cards[..] == old(cards[..]) && tick == old(tick) && snapshot == None
      ensures old(snapshot).Some? ==>
        && fresh(cards)
        && cards[..] == old(snapshot).value.cards
        && tick == old(snapshot).value.tick
        && snapshot == None
    {
      if snapshot.Some? {
        var s := snapshot.value;
        cards := new Card[|s.cards|](i requires 0 <= i < |s.cards| => s.cards[i]);
        tick := s.tick;
        snapshot := None;
        assert cards[..] == s.cards;
      }
    }

    /**
     * Loads saved cards into the deck: each generated card whose identity
     * was saved takes the saved card (the last saved one with that identity,
     * and only the first generated card with it), then the deck is put in
     * presentation order.
     */
    method ApplyChanges(changes: seq<Card>)
      requires Valid()
      modifies cards
      ensures Valid()
      ensures cards[..] == Sort(Overlay(old(cards[..]), ByValue(changes)), tick)
    {
      OverlayInPlace(ByValue(changes));
      ghost var overlaid := cards[..];
      Rebuild();
      SortSorted(overlaid, tick);
    }

    /**
     * The loop of `ApplyChanges`: replaces each card whose identity is still
     * a key of the map, removing the key as it goes.
     */
    method OverlayInPlace(m: map<Factors, Card>)
      modifies cards
      ensures cards[..] == Overlay(old(cards[..]), m)
    {
      var byValue := m;
      ghost var s := cards[..];
      ghost var target := Overlay(s, m);
      var i := 0;
      while i < cards.Length
        invariant 0 <= i <= cards.Length
        invariant cards[..i] + Overlay(s[i..], byValue) == target
        invariant cards[i..] == s[i..]
      {
        var v := cards[i].value;
        ghost var done := cards[..i];
        ghost var next := if v in byValue then byValue[v] else s[i];
        OverlayStep(s, m, i, byValue, done);
        if v in byValue {
          cards[i] := byValue[v];
          byValue := byValue - {v};
        }
        assert cards[..i + 1] == done + [next];
        assert cards[i + 1..] == s[i + 1..];
        i := i + 1;
      }
      assert s[cards.Length..] == [];
      assert cards[..cards.Length] == cards[..];
    }
  }
}
