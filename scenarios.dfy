/**
 * The unit scenarios of the session, stated over the model: the
 * construction order, loading, saving, reviewing and undoing.
 */
module Scenarios {
  import opened Wrappers
  import opened Cards
  import opened Intervals
  import opened StateMachine
  import opened Priority
  import opened Persistence
  import opened Sessions

  /** A test card: identity `id x id`, interval 2, no history. */
  function ACard(id: u8, status: Status): (c: Card)
    ensures c.value == Factors(id, id) && c.status == status
  {
    Card(Factors(id, id), 2, status, None, None)
  }

  /** Building a session orders ready learning, then unseen in order, then the rest. */
  lemma FromCardsOrder()
    ensures Sort([ACard(3, Unseen), ACard(2, Learning(1)), ACard(1, Learning(0)), ACard(4, Unseen)], 0) ==
            [ACard(1, Learning(0)), ACard(3, Unseen), ACard(4, Unseen), ACard(2, Learning(1))]
  {
    var a, b, c, d := ACard(3, Unseen), ACard(2, Learning(1)), ACard(1, Learning(0)), ACard(4, Unseen);
    SortSteps(a, b, c, d, 0);
    assert Sort([a, b], 0) == [a, b];
    assert Sort([a, b, c], 0) == [c, a, b];
    assert [c, a, b][1..] == [a, b] && [a, b][1..] == [b];
    assert Insert([b], d, 0) == [d, b];
    assert Insert([a, b], d, 0) == [a, d, b];
    assert Insert([c, a, b], d, 0) == [c, a, d, b];
  }

  /** The sort of four cards is three insertions. */
  lemma SortSteps(a: Card, b: Card, c: Card, d: Card, tick: nat)
    ensures Sort([a], tick) == [a]
    ensures Sort([a, b], tick) == Insert([a], b, tick)
    ensures Sort([a, b, c], tick) == Insert(Sort([a, b], tick), c, tick)
    ensures Sort([a, b, c, d], tick) == Insert(Sort([a, b, c], tick), d, tick)
  {
    assert [a, b][..1] == [a];
    assert [a, b, c][..2] == [a, b];
    assert [a, b, c, d][..3] == [a, b, c];
  }

  /** Loading overlays saved cards by identity, drops nothing generated, then reorders. */
  lemma ApplyChangesOrder()
    ensures Sort(Overlay([ACard(1, Unseen), ACard(2, Unseen), ACard(3, Unseen), ACard(4, Unseen)],
                         ByValue([ACard(1, Learning(1)), ACard(2, Learning(0)), ACard(3, Unseen)])), 0) ==
            [ACard(2, Learning(0)), ACard(3, Unseen), ACard(4, Unseen), ACard(1, Learning(1))]
  {
    ChangesByValue();
    OverlayExample();
    OverlaidSort();
  }

  /** The three changes of the loading example, keyed by identity. */
  lemma ChangesByValue()
    ensures ByValue([ACard(1, Learning(1)), ACard(2, Learning(0)), ACard(3, Unseen)]) ==
            map[Factors(1, 1) := ACard(1, Learning(1)), Factors(2, 2) := ACard(2, Learning(0)),
                Factors(3, 3) := ACard(3, Unseen)]
  {
    var changes := [ACard(1, Learning(1)), ACard(2, Learning(0)), ACard(3, Unseen)];
    assert changes[..2] == [ACard(1, Learning(1)), ACard(2, Learning(0))];
    assert changes[..2][..1] == [ACard(1, Learning(1))];
    assert changes[..2][..1][..0] == [];
    assert ByValue(changes[..2][..1]) == map[Factors(1, 1) := ACard(1, Learning(1))];
    assert ByValue(changes[..2]) == map[Factors(1, 1) := ACard(1, Learning(1)), Factors(2, 2) := ACard(2, Learning(0))];
  }

  /** The generated cards of the loading example with the changes laid over them. */
  lemma OverlayExample()
    ensures Overlay([ACard(1, Unseen), ACard(2, Unseen), ACard(3, Unseen), ACard(4, Unseen)],
                    map[Factors(1, 1) := ACard(1, Learning(1)), Factors(2, 2) := ACard(2, Learning(0)),
                        Factors(3, 3) := ACard(3, Unseen)]) ==
            [ACard(1, Learning(1)), ACard(2, Learning(0)), ACard(3, Unseen), ACard(4, Unseen)]
  {
    var m := map[Factors(1, 1) := ACard(1, Learning(1)), Factors(2, 2) := ACard(2, Learning(0)),
                 Factors(3, 3) := ACard(3, Unseen)];
    var generated := [ACard(1, Unseen), ACard(2, Unseen), ACard(3, Unseen), ACard(4, Unseen)];
    var m1 := m - {Factors(1, 1)};
    var m2 := m1 - {Factors(2, 2)};
    var m3 := m2 - {Factors(3, 3)};
    assert Factors(4, 4) !in m3;
    assert generated[1..][1..][1..][1..] == [];
    assert Overlay(generated[1..][1..][1..], m3) == [ACard(4, Unseen)];
    assert Overlay(generated[1..][1..], m2) == [ACard(3, Unseen), ACard(4, Unseen)];
    assert Overlay(generated[1..], m1) == [ACard(2, Learning(0)), ACard(3, Unseen), ACard(4, Unseen)];
  }

  /** The overlaid cards of the loading example in presentation order at tick 0. */
  lemma OverlaidSort()
    ensures Sort([ACard(1, Learning(1)), ACard(2, Learning(0)), ACard(3, Unseen), ACard(4, Unseen)], 0) ==
            [ACard(2, Learning(0)), ACard(3, Unseen), ACard(4, Unseen), ACard(1, Learning(1))]
  {
    var a, b, c, d := ACard(1, Learning(1)), ACard(2, Learning(0)), ACard(3, Unseen), ACard(4, Unseen);
    SortSteps(a, b, c, d, 0);
    assert Sort([a, b], 0) == [b, a];
    assert Sort([a, b, c], 0) == [b, c, a];
    assert [b, c, a][1..] == [c, a] && [c, a][1..] == [a];
    assert Insert([a], d, 0) == [d, a];
    assert Insert([c, a], d, 0) == [c, d, a];
    assert Insert([b, c, a], d, 0) == [b, c, d, a];
  }

  /** Saving re-bases dues by the smaller of the clock and the earliest due. */
  lemma CardsToSaveExamples()
    ensures CardsToSave([ACard(1, Learning(3)), ACard(2, Learning(4))], 2) ==
            [ACard(1, Learning(1)), ACard(2, Learning(2))]
    ensures CardsToSave([ACard(1, Learning(5))], 6) == [ACard(1, Learning(0))]
    ensures CardsToSave([Card(Factors(9, 9), 3, Learning(9), None, None)], 6) ==
            [Card(Factors(9, 9), 3, Learning(3), None, None)]
  {
  }

  /** A reviewed test card, still learning: identity `id x id`, its interval, due tick and last rating. */
  function Seen(id: u8, interval: nat, due: nat, rating: Rating): Card {
    Card(Factors(id, id), interval, Learning(due), Some(rating), None)
  }

  /** The deck `Session.Review` leaves after reviewing the front card of `deck` at `tick`. */
  function AfterReview(deck: seq<Card>, rating: Rating, tick: nat): seq<Card>
    requires |deck| > 0
  {
    Sort(deck[0 := Reviewed(deck[0], rating, tick, None)], tick + 1)
  }

  /**
   * The eight reviews of four unseen cards, one per tick: the card that
   * comes up at each tick and the interval and due tick it is given. Once
   * a learning card is ready it comes up ahead of the unseen cards, and the
   * unseen cards come up in their original order.
   */
  lemma ReviewSequence()
    ensures var d0 := [ACard(9, Unseen), ACard(8, Unseen), ACard(7, Unseen), ACard(6, Unseen)];
      var d1 := AfterReview(d0, Bad, 0);
      var d2 := AfterReview(d1, Good, 1);
      var d3 := AfterReview(d2, Good, 2);
      var d4 := AfterReview(d3, Good, 3);
      var d5 := AfterReview(d4, Good, 4);
      var d6 := AfterReview(d5, Good, 5);
      var d7 := AfterReview(d6, Good, 6);
      && d0[0].value == Factors(9, 9) && Reviewed(d0[0], Bad, 0, None).status == Learning(2)
      && Reviewed(d0[0], Bad, 0, None).interval == 2
      && d1[0].value == Factors(8, 8) && Reviewed(d1[0], Good, 1, None).status == Learning(4)
      && Reviewed(d1[0], Good, 1, None).interval == 3
      && d2[0].value == Factors(9, 9) && Reviewed(d2[0], Good, 2, None).status == Learning(5)
      && Reviewed(d2[0], Good, 2, None).interval == 3
      && d3[0].value == Factors(7, 7) && Reviewed(d3[0], Good, 3, None).status == Learning(6)
      && Reviewed(d3[0], Good, 3, None).interval == 3
      && d4[0].value == Factors(8, 8) && Reviewed(d4[0], Good, 4, None).status == Learning(9)
      && Reviewed(d4[0], Good, 4, None).interval == 5
      && d5[0].value == Factors(9, 9) && Reviewed(d5[0], Good, 5, None).status == Learning(10)
      && Reviewed(d5[0], Good, 5, None).interval == 5
      && d6[0].value == Factors(7, 7) && Reviewed(d6[0], Good, 6, None).status == Learning(11)
      && Reviewed(d6[0], Good, 6, None).interval == 5
      && d7[0].value == Factors(6, 6) && Reviewed(d7[0], Good, 7, None).status == Learning(10)
      && Reviewed(d7[0], Good, 7, None).interval == 3
  {
    ReviewStep1();
    ReviewStep2();
    ReviewStep3();
    ReviewStep4();
    ReviewStep5();
    ReviewStep6();
    ReviewStep7();
    NextRung(0);
    NextRung(1);
  }

  /** Review 1 of the scenario, at tick 0. */
  lemma ReviewStep1()
    ensures AfterReview([ACard(9, Unseen), ACard(8, Unseen), ACard(7, Unseen), ACard(6, Unseen)], Bad, 0) ==
            [ACard(8, Unseen), ACard(7, Unseen), ACard(6, Unseen), Seen(9, 2, 2, Bad)]
  {
    var u9, u8, u7, u6, a := ACard(9, Unseen), ACard(8, Unseen), ACard(7, Unseen), ACard(6, Unseen), Seen(9, 2, 2, Bad);
    assert Reviewed(u9, Bad, 0, None) == a;
    assert [u9, u8, u7, u6][0 := a] == [a, u8, u7, u6];
    SortSteps(a, u8, u7, u6, 1);
    assert Sort([a, u8], 1) == [u8, a];
    assert [u8, a][1..] == [a];
    assert Insert([u8, a], u7, 1) == [u8, u7, a];
    assert Sort([a, u8, u7], 1) == [u8, u7, a];
    assert [u8, u7, a][1..] == [u7, a];
    assert [u7, a][1..] == [a];
    assert Insert([u7, a], u6, 1) == [u7, u6, a];
    assert Insert([u8, u7, a], u6, 1) == [u8, u7, u6, a];
    assert Sort([a, u8, u7, u6], 1) == [u8, u7, u6, a];
  }

  /** Review 2 of the scenario, at tick 1. */
  lemma ReviewStep2()
    ensures AfterReview([ACard(8, Unseen), ACard(7, Unseen), ACard(6, Unseen), Seen(9, 2, 2, Bad)], Good, 1) ==
            [Seen(9, 2, 2, Bad), ACard(7, Unseen), ACard(6, Unseen), Seen(8, 3, 4, Good)]
  {
    var u8, u7, u6, a, b := ACard(8, Unseen), ACard(7, Unseen), ACard(6, Unseen), Seen(9, 2, 2, Bad), Seen(8, 3, 4, Good);
    NextRung(0);
    assert Reviewed(u8, Good, 1, None) == b;
    assert [u8, u7, u6, a][0 := b] == [b, u7, u6, a];
    SortSteps(b, u7, u6, a, 2);
    assert Sort([b, u7], 2) == [u7, b];
    assert [u7, b][1..] == [b];
    assert Insert([u7, b], u6, 2) == [u7, u6, b];
    assert Sort([b, u7, u6], 2) == [u7, u6, b];
    assert Sort([b, u7, u6, a], 2) == [a, u7, u6, b];
  }

  /** Review 3 of the scenario, at tick 2. */
  lemma ReviewStep3()
    ensures AfterReview([Seen(9, 2, 2, Bad), ACard(7, Unseen), ACard(6, Unseen), Seen(8, 3, 4, Good)], Good, 2) ==
            [ACard(7, Unseen), ACard(6, Unseen), Seen(8, 3, 4, Good), Seen(9, 3, 5, Good)]
  {
    var u7, u6, a, b, c := ACard(7, Unseen), ACard(6, Unseen), Seen(9, 2, 2, Bad), Seen(8, 3, 4, Good), Seen(9, 3, 5, Good);
    NextRung(0);
    assert Reviewed(a, Good, 2, None) == c;
    assert [a, u7, u6, b][0 := c] == [c, u7, u6, b];
    SortSteps(c, u7, u6, b, 3);
    assert Sort([c, u7], 3) == [u7, c];
    assert [u7, c][1..] == [c];
    assert Insert([u7, c], u6, 3) == [u7, u6, c];
    assert Sort([c, u7, u6], 3) == [u7, u6, c];
    assert [u7, u6, c][1..] == [u6, c];
    assert [u6, c][1..] == [c];
    assert Insert([u6, c], b, 3) == [u6, b, c];
    assert Insert([u7, u6, c], b, 3) == [u7, u6, b, c];
    assert Sort([c, u7, u6, b], 3) == [u7, u6, b, c];
  }

  /** Review 4 of the scenario, at tick 3. */
  lemma ReviewStep4()
    ensures AfterReview([ACard(7, Unseen), ACard(6, Unseen), Seen(8, 3, 4, Good), Seen(9, 3, 5, Good)], Good, 3) ==
            [Seen(8, 3, 4, Good), ACard(6, Unseen), Seen(9, 3, 5, Good), Seen(7, 3, 6, Good)]
  {
    var u7, u6, b, c, d := ACard(7, Unseen), ACard(6, Unseen), Seen(8, 3, 4, Good), Seen(9, 3, 5, Good), Seen(7, 3, 6, Good);
    NextRung(0);
    assert Reviewed(u7, Good, 3, None) == d;
    assert [u7, u6, b, c][0 := d] == [d, u6, b, c];
    SortSteps(d, u6, b, c, 4);
    assert Sort([d, u6], 4) == [u6, d];
    assert Sort([d, u6, b], 4) == [b, u6, d];
    assert [b, u6, d][1..] == [u6, d];
    assert [u6, d][1..] == [d];
    assert Insert([u6, d], c, 4) == [u6, c, d];
    assert Insert([b, u6, d], c, 4) == [b, u6, c, d];
    assert Sort([d, u6, b, c], 4) == [b, u6, c, d];
  }

  /** Review 5 of the scenario, at tick 4. */
  lemma ReviewStep5()
    ensures AfterReview([Seen(8, 3, 4, Good), ACard(6, Unseen), Seen(9, 3, 5, Good), Seen(7, 3, 6, Good)], Good, 4) ==
            [Seen(9, 3, 5, Good), ACard(6, Unseen), Seen(7, 3, 6, Good), Seen(8, 5, 9, Good)]
  {
    var u6, b, c, d, e := ACard(6, Unseen), Seen(8, 3, 4, Good), Seen(9, 3, 5, Good), Seen(7, 3, 6, Good), Seen(8, 5, 9, Good);
    NextRung(1);
    assert Reviewed(b, Good, 4, None) == e;
    assert [b, u6, c, d][0 := e] == [e, u6, c, d];
    SortSteps(e, u6, c, d, 5);
    assert Sort([e, u6], 5) == [u6, e];
    assert Sort([e, u6, c], 5) == [c, u6, e];
    assert [c, u6, e][1..] == [u6, e];
    assert [u6, e][1..] == [e];
    assert Insert([u6, e], d, 5) == [u6, d, e];
    assert Insert([c, u6, e], d, 5) == [c, u6, d, e];
    assert Sort([e, u6, c, d], 5) == [c, u6, d, e];
  }

  /** Review 6 of the scenario, at tick 5. */
  lemma ReviewStep6()
    ensures AfterReview([Seen(9, 3, 5, Good), ACard(6, Unseen), Seen(7, 3, 6, Good), Seen(8, 5, 9, Good)], Good, 5) ==
            [Seen(7, 3, 6, Good), ACard(6, Unseen), Seen(8, 5, 9, Good), Seen(9, 5, 10, Good)]
  {
    var u6, c, d, e, f := ACard(6, Unseen), Seen(9, 3, 5, Good), Seen(7, 3, 6, Good), Seen(8, 5, 9, Good), Seen(9, 5, 10, Good);
    NextRung(1);
    assert Reviewed(c, Good, 5, None) == f;
    assert [c, u6, d, e][0 := f] == [f, u6, d, e];
    SortSteps(f, u6, d, e, 6);
    assert Sort([f, u6], 6) == [u6, f];
    assert Sort([f, u6, d], 6) == [d, u6, f];
    assert [d, u6, f][1..] == [u6, f];
    assert [u6, f][1..] == [f];
    assert Insert([u6, f], e, 6) == [u6, e, f];
    assert Insert([d, u6, f], e, 6) == [d, u6, e, f];
    assert Sort([f, u6, d, e], 6) == [d, u6, e, f];
  }

  /** Review 7 of the scenario, at tick 6. */
  lemma ReviewStep7()
    ensures AfterReview([Seen(7, 3, 6, Good), ACard(6, Unseen), Seen(8, 5, 9, Good), Seen(9, 5, 10, Good)], Good, 6) ==
            [ACard(6, Unseen), Seen(8, 5, 9, Good), Seen(9, 5, 10, Good), Seen(7, 5, 11, Good)]
  {
    var u6, d, e, f, g := ACard(6, Unseen), Seen(7, 3, 6, Good), Seen(8, 5, 9, Good), Seen(9, 5, 10, Good), Seen(7, 5, 11, Good);
    NextRung(1);
    assert Reviewed(d, Good, 6, None) == g;
    assert [d, u6, e, f][0 := g] == [g, u6, e, f];
    SortSteps(g, u6, e, f, 7);
    assert Sort([g, u6], 7) == [u6, g];
    assert [u6, g][1..] == [g];
    assert Insert([u6, g], e, 7) == [u6, e, g];
    assert Sort([g, u6, e], 7) == [u6, e, g];
    assert [u6, e, g][1..] == [e, g];
    assert [e, g][1..] == [g];
    assert Insert([e, g], f, 7) == [e, f, g];
    assert Insert([u6, e, g], f, 7) == [u6, e, f, g];
    assert Sort([g, u6, e, f], 7) == [u6, e, f, g];
  }

  /** Rolling back right after a review restores the deck and clock; a second rollback changes nothing. */
  method ReviewThenRollback(s: Session, rating: Rating, seen: Option<nat>)
    requires s.Valid()
    requires s.cards.Length > 0 ==> s.tick + NewInterval(s.cards[0].interval, rating) <= U32Max
    modifies s, s.cards
    ensures s.Valid() && s.snapshot == None
    ensures s.cards[..] == old(s.cards[..]) && s.tick == old(s.tick)
  {
    s.Review(rating, seen);
    s.Rollback();
    ghost var restored := s.cards[..];
    s.Rollback();
    assert s.cards[..] == restored;
  }
}
