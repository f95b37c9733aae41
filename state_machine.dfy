/**
 * The card status state machine: how one review moves a card along the
 * interval ladder and between `Learning` and `Learned`.
 */
module StateMachine {
  import opened Wrappers
  import opened Cards
  import opened Intervals

  /** The interval a review assigns: one rung up for `Good`, the bottom rung for `Bad`. */
  function NewInterval(interval: nat, rating: Rating): (r: nat)
    ensures r in Ladder
    ensures rating == Bad ==> r == First()
  {
    NextOnLadder(interval);
    match rating
    case Good => Next(interval)
    case Bad => First()
  }

  /**
   * The card after a review with `rating` at clock value `tick` (the value
   * before the clock advances), stamped with the wall-clock reading `seen`.
   */
  function Reviewed(c: Card, rating: Rating, tick: nat, seen: Option<nat>): (r: Card)
    ensures r.value == c.value
    ensures r.lastResult == Some(rating) && r.lastSeen == seen
    ensures r.interval == NewInterval(c.interval, rating)
    ensures !r.status.Unseen? && r.status.due == tick + r.interval
    ensures r.status.Learned? <==> r.interval == Last()
  {
    var interval := NewInterval(c.interval, rating);
    var due := tick + interval;
    c.(interval := interval,
       lastResult := Some(rating),
       lastSeen := seen,
       status := if interval == Last() then Learned(due) else Learning(due))
  }

  /** `Bad` always sends a card back to `Learning` on the bottom rung. */
  lemma BadResets(c: Card, tick: nat, seen: Option<nat>)
    ensures Reviewed(c, Bad, tick, seen).interval == First() == 2
    ensures Reviewed(c, Bad, tick, seen).status == Learning(tick + 2)
  {
  }

  /** `Good` climbs one rung; the card becomes `Learned` exactly on reaching the top. */
  lemma GoodClimbs(c: Card, tick: nat, seen: Option<nat>, i: nat)
    requires i + 1 < |Ladder| && c.interval == Ladder[i]
    ensures Reviewed(c, Good, tick, seen).interval == Ladder[i + 1]
    ensures Reviewed(c, Good, tick, seen).status ==
            if i + 2 == |Ladder| then Learned(tick + Ladder[i + 1]) else Learning(tick + Ladder[i + 1])
  {
    NextRung(i);
  }

  /** A `Learned` card at the top rung stays `Learned` after `Good`. */
  lemma GoodKeepsLearned(c: Card, tick: nat, seen: Option<nat>)
    requires c.interval == Last()
    ensures Reviewed(c, Good, tick, seen).status == Learned(tick + Last())
  {
    NextTop();
  }

  /**
   * A fresh card starts on the top rung, so its first `Good` makes it
   * `Learned` straight away, due a full top interval later.
   */
  lemma FreshGoodIsLearned(x: u8, y: u8, tick: nat, seen: Option<nat>)
    ensures Reviewed(NewCard(x, y), Good, tick, seen).status == Learned(tick + 55)
  {
    NextTop();
  }

  /** On the ladder, `Good` never lowers the interval; off it, the card restarts at the bottom. */
  lemma GoodNeverLowers(c: Card, tick: nat, seen: Option<nat>)
    ensures c.interval in Ladder ==> c.interval <= Reviewed(c, Good, tick, seen).interval
    ensures c.interval !in Ladder ==> Reviewed(c, Good, tick, seen).interval == First()
  {
    NextOnLadder(c.interval);
  }
}
