/**
 * Persistence reconciliation: which cards are saved and how their due
 * ticks are re-based, and how saved cards are overlaid on a freshly
 * generated universe when a profile is loaded.
 */
module Persistence {
  import opened Cards
  import opened TimeTables

  /** A card that has been reviewed at least once, and so is worth saving. */
  predicate IsRetained(c: Card) {
    !c.status.Unseen?
  }

  /** The due tick of a scheduled card, and `tick` for an unseen one. */
  function DueOr(c: Card, tick: nat): (r: nat)
    ensures IsRetained(c) ==> r == c.status.due
  {
    match c.status
    case Learning(due) => due
    case Learned(due) => due
    case Unseen => tick
  }

  /** The least of `DueOr` over a non-empty sequence. */
  function MinDue(cards: seq<Card>, tick: nat): (m: nat)
    requires |cards| > 0
    ensures forall k :: 0 <= k < |cards| ==> m <= DueOr(cards[k], tick)
    ensures exists k :: 0 <= k < |cards| && m == DueOr(cards[k], tick)
  {
    if |cards| == 1 then DueOr(cards[0], tick)
    else
      var rest := MinDue(cards[1..], tick);
      assert forall k :: 1 <= k < |cards| ==> cards[k] == cards[1..][k - 1];
      if DueOr(cards[0], tick) <= rest then DueOr(cards[0], tick) else rest
  }

  /**
   * The amount subtracted from every saved due tick: the smaller of the
   * clock and the earliest due tick. It is at most every saved due tick,
   * so the subtraction never underflows, and it is either the clock or one
   * of those due ticks.
   */
  function SaveOffset(cards: seq<Card>, tick: nat): (off: nat)
    requires |cards| > 0
    ensures off <= tick
    ensures forall k :: 0 <= k < |cards| && IsRetained(cards[k]) ==> off <= cards[k].status.due
    ensures off == tick || exists k :: 0 <= k < |cards| && IsRetained(cards[k]) && off == cards[k].status.due
  {
    var m := MinDue(cards, tick);
    if m <= tick then m else tick
  }

  /** The retained cards, in their original order. */
  function Retained(cards: seq<Card>): (r: seq<Card>)
    ensures |r| <= |cards|
    ensures forall k :: 0 <= k < |r| ==> IsRetained(r[k])
    ensures forall c :: c in r <==> c in cards && IsRetained(c)
    ensures forall c :: IsRetained(c) ==> multiset(r)[c] == multiset(cards)[c]
  {
    if cards == [] then []
    else
      assert cards == [cards[0]] + cards[1..];
      (if IsRetained(cards[0]) then [cards[0]] else []) + Retained(cards[1..])
  }

  /** `c` with `off` subtracted from its due tick. */
  function Rebased(c: Card, off: nat): (r: Card)
    requires IsRetained(c) ==> off <= c.status.due
    ensures r.value == c.value && r.interval == c.interval
    ensures r.lastResult == c.lastResult && r.lastSeen == c.lastSeen
    ensures r.status.Unseen? == c.status.Unseen? && r.status.Learning? == c.status.Learning?
    ensures IsRetained(c) ==> r.status.due + off == c.status.due
  {
    c.(status := MapDue(c.status, (d: nat) requires off <= d => (d - off) as nat))
  }

  /**
   * The cards to persist: the retained cards in their original order, each
   * with its variant, interval, identity and history kept and its due tick
   * lowered by `SaveOffset`. The source unwraps the minimum of an empty
   * sequence, so it demands at least one card.
   */
  function CardsToSave(cards: seq<Card>, tick: nat): (r: seq<Card>)
    requires |cards| > 0
    ensures |r| == |Retained(cards)|
    ensures forall i :: 0 <= i < |r| ==>
      var c := Retained(cards)[i];
      && r[i].value == c.value && r[i].interval == c.interval
      && r[i].lastResult == c.lastResult && r[i].lastSeen == c.lastSeen
      && (r[i].status.Learning? <==> c.status.Learning?)
      && (r[i].status.Learned? <==> c.status.Learned?)
      && r[i].status.due + SaveOffset(cards, tick) == c.status.due
  {
    var off := SaveOffset(cards, tick);
    var kept := Retained(cards);
    seq(|kept|, i requires 0 <= i < |kept| => Rebased(kept[i], off))
  }

  /** Saving keeps the gaps between due ticks exactly. */
  lemma SavePreservesGaps(cards: seq<Card>, tick: nat, i: nat, j: nat)
    requires |cards| > 0 && i < |Retained(cards)| && j < |Retained(cards)|
    ensures CardsToSave(cards, tick)[i].status.due as int - CardsToSave(cards, tick)[j].status.due as int ==
            Retained(cards)[i].status.due as int - Retained(cards)[j].status.due as int
  {
  }

  /** After saving, either some card is due at 0 or the offset was the whole clock. */
  lemma SaveRebasesToZero(cards: seq<Card>, tick: nat)
    requires |cards| > 0
    ensures SaveOffset(cards, tick) == tick ||
            exists i :: 0 <= i < |CardsToSave(cards, tick)| && CardsToSave(cards, tick)[i].status.due == 0
  {
    var off := SaveOffset(cards, tick);
    if off != tick {
      var k :| 0 <= k < |cards| && IsRetained(cards[k]) && off == cards[k].status.due;
      var kept := Retained(cards);
      assert cards[k] in kept;
      var i :| 0 <= i < |kept| && kept[i] == cards[k];
      assert CardsToSave(cards, tick)[i].status.due == 0;
    }
  }

  /** The saved cards, keyed by identity; of several changes with one identity the last wins. */
  function ByValue(changes: seq<Card>): (m: map<Factors, Card>)
    ensures forall v :: v in m <==> exists k :: 0 <= k < |changes| && changes[k].value == v
    ensures forall v :: v in m ==> m[v].value == v && m[v] in changes
  {
    if changes == [] then map[]
    else
      var init := changes[..|changes| - 1];
      var last := changes[|changes| - 1];
      assert forall k :: 0 <= k < |init| ==> init[k] == changes[k];
      ByValue(init)[last.value := last]
  }

  /** The last change with a given identity is the one kept. */
  lemma {:induction false} ByValueLastWins(changes: seq<Card>, k: nat)
    requires k < |changes|
    requires forall j :: k < j < |changes| ==> changes[j].value != changes[k].value
    ensures ByValue(changes)[changes[k].value] == changes[k]
  {
    if k < |changes| - 1 {
      var init := changes[..|changes| - 1];
      ByValueLastWins(init, k);
    }
  }

  /**
   * Walks the generated cards in order; a card whose identity is still a
   * key of `m` is replaced by the saved card and the key is removed, so each
   * key replaces at most its first matching card.
   */
  function Overlay(cards: seq<Card>, m: map<Factors, Card>): (r: seq<Card>)
    ensures |r| == |cards|
  {
    if cards == [] then []
    else if cards[0].value in m then [m[cards[0].value]] + Overlay(cards[1..], m - {cards[0].value})
    else [cards[0]] + Overlay(cards[1..], m)
  }

  /**
   * Position by position, the overlay keeps the generated card unless its
   * identity is a key and no earlier card has that identity, in which case
   * it holds the saved card; identities are kept either way, so changes with
   * no matching card are dropped.
   */
  lemma {:induction false} OverlayAt(cards: seq<Card>, m: map<Factors, Card>, i: nat)
    requires i < |cards|
    requires forall v :: v in m ==> m[v].value == v
    ensures Overlay(cards, m)[i] ==
            if cards[i].value in m && forall k :: 0 <= k < i ==> cards[k].value != cards[i].value
            then m[cards[i].value] else cards[i]
    ensures Overlay(cards, m)[i].value == cards[i].value
  {
    if i > 0 {
      var m' := if cards[0].value in m then m - {cards[0].value} else m;
      OverlayAt(cards[1..], m', i - 1);
      assert forall k :: 0 <= k < i - 1 ==> cards[1..][k] == cards[k + 1];
    }
  }

  /** A reviewed card of a session with distinct identities is found under its identity among the saved cards. */
  lemma SavedLookup(cards: seq<Card>, tick: nat, j: nat)
    requires |cards| > 0 && Distinct(ValuesOf(cards))
    requires j < |cards| && IsRetained(cards[j])
    ensures var m := ByValue(CardsToSave(cards, tick));
      && cards[j].value in m
      && m[cards[j].value].interval == cards[j].interval
      && (m[cards[j].value].status.Learning? <==> cards[j].status.Learning?)
      && (m[cards[j].value].status.Learned? <==> cards[j].status.Learned?)
      && m[cards[j].value].status.due + SaveOffset(cards, tick) == cards[j].status.due
  {
    var q := SavedEntry(cards, tick, j);
    var saved := CardsToSave(cards, tick);
    assert saved[q].status.due + SaveOffset(cards, tick) == Retained(cards)[q].status.due;
  }

  /** The entry saved under a reviewed card's identity is that card's own saved copy. */
  lemma SavedEntry(cards: seq<Card>, tick: nat, j: nat) returns (q: nat)
    requires |cards| > 0 && Distinct(ValuesOf(cards))
    requires j < |cards| && IsRetained(cards[j])
    ensures q < |Retained(cards)| && Retained(cards)[q] == cards[j]
    ensures cards[j].value in ByValue(CardsToSave(cards, tick))
    ensures ByValue(CardsToSave(cards, tick))[cards[j].value] == CardsToSave(cards, tick)[q]
  {
    var saved := CardsToSave(cards, tick);
    var kept := Retained(cards);
    var v := cards[j].value;
    var p := KeptIndex(cards, j);
    assert saved[p].value == v;
    q := ByValueEntry(saved, v);
    assert kept[q].value == v;
    ValueIdentifies(cards, kept[q], j);
  }

  /** A retained card sits at some position of the retained cards. */
  lemma KeptIndex(cards: seq<Card>, j: nat) returns (p: nat)
    requires j < |cards| && IsRetained(cards[j])
    ensures p < |Retained(cards)| && Retained(cards)[p] == cards[j]
  {
    assert cards[j] in Retained(cards);
    p :| 0 <= p < |Retained(cards)| && Retained(cards)[p] == cards[j];
  }

  /** Every entry of `ByValue(changes)` is one of the changes. */
  lemma ByValueEntry(changes: seq<Card>, v: Factors) returns (q: nat)
    requires exists k :: 0 <= k < |changes| && changes[k].value == v
    ensures v in ByValue(changes)
    ensures q < |changes| && changes[q] == ByValue(changes)[v]
  {
    var m := ByValue(changes);
    assert m[v] in changes;
    q :| 0 <= q < |changes| && changes[q] == m[v];
  }

  /** In a deck of distinct identities a card is determined by its identity. */
  lemma ValueIdentifies(cards: seq<Card>, c: Card, j: nat)
    requires Distinct(ValuesOf(cards)) && j < |cards| && c in cards && c.value == cards[j].value
    ensures c == cards[j]
  {
    var j' :| 0 <= j' < |cards| && cards[j'] == c;
    assert ValuesOf(cards)[j'] == ValuesOf(cards)[j];
  }

  /** An identity that no reviewed card carries is not among the saved cards. */
  lemma SavedAbsent(cards: seq<Card>, tick: nat, v: Factors)
    requires |cards| > 0
    requires forall j :: 0 <= j < |cards| && cards[j].value == v ==> !IsRetained(cards[j])
    ensures v !in ByValue(CardsToSave(cards, tick))
  {
  }

  /**
   * The round trip of saving and loading: overlaying the saved cards of a
   * session whose identities are distinct onto a freshly generated universe
   * of distinct identities gives every previously reviewed card back with
   * the same variant and interval and its due tick shifted by one constant,
   * and leaves every other generated card untouched.
   */
  lemma SaveLoadRoundTrip(cards: seq<Card>, tick: nat, universe: seq<Card>, i: nat)
    requires |cards| > 0 && Distinct(ValuesOf(cards)) && Distinct(ValuesOf(universe))
    requires i < |universe|
    ensures var loaded := Overlay(universe, ByValue(CardsToSave(cards, tick)));
      && |loaded| == |universe|
      && loaded[i].value == universe[i].value
      && (forall j :: 0 <= j < |cards| && IsRetained(cards[j]) && cards[j].value == universe[i].value ==>
            && loaded[i].interval == cards[j].interval
            && (loaded[i].status.Learning? <==> cards[j].status.Learning?)
            && (loaded[i].status.Learned? <==> cards[j].status.Learned?)
            && loaded[i].status.due + SaveOffset(cards, tick) == cards[j].status.due)
      && ((forall j :: 0 <= j < |cards| && cards[j].value == universe[i].value ==> !IsRetained(cards[j])) ==>
            loaded[i] == universe[i])
  {
    var m := ByValue(CardsToSave(cards, tick));
    var v := universe[i].value;
    OverlayAt(universe, m, i);
    forall k | 0 <= k < i ensures universe[k].value != v {
      assert ValuesOf(universe)[k] == universe[k].value && ValuesOf(universe)[i] == v;
    }
    forall j | 0 <= j < |cards| && IsRetained(cards[j]) && cards[j].value == v
      ensures v in m && m[v].interval == cards[j].interval
      ensures (m[v].status.Learning? <==> cards[j].status.Learning?)
      ensures (m[v].status.Learned? <==> cards[j].status.Learned?)
      ensures m[v].status.due + SaveOffset(cards, tick) == cards[j].status.due
    {
      SavedLookup(cards, tick, j);
    }
    if forall j :: 0 <= j < |cards| && cards[j].value == v ==> !IsRetained(cards[j]) {
      SavedAbsent(cards, tick, v);
    }
  }

  /** The identities of `cards`, in order. */
  function ValuesOf(cards: seq<Card>): (r: seq<Factors>)
    ensures |r| == |cards| && forall k :: 0 <= k < |cards| ==> r[k] == cards[k].value
  {
    seq(|cards|, k requires 0 <= k < |cards| => cards[k].value)
  }
}
