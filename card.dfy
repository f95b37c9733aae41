/**
 * The card types of the scheduler: the identity of a drill item, its
 * lifecycle status, the learner's rating and the card itself.
 */
module Cards {
  import opened Wrappers

  /** An unsigned 8-bit integer, the width of both factors. */
  newtype u8 = x: int | 0 <= x < 256

  /** The identity of a drill item: the pair of factors `x * y`. */
  datatype Factors = Factors(x: u8, y: u8)

  /** Both factors lie in 2..9, the range the item universe is drawn from. */
  predicate InRange(f: Factors) {
    2 <= f.x <= 9 && 2 <= f.y <= 9
  }

  /** The expected answer of an item; for factors in 2..9 it fits in a u8. */
  function Compute(f: Factors): (r: u8)
    requires InRange(f)
    ensures r as int == f.x as int * f.y as int
    ensures 4 <= r <= 81
  {
    (f.x as int * f.y as int) as u8
  }

  /** Identity is compared componentwise, which is what keying cards by value relies on. */
  lemma FactorsEquality(a: Factors, b: Factors)
    ensures a == b <==> a.x == b.x && a.y == b.y
  {
  }

  /** The lifecycle status; the scheduled states carry a due tick. */
  datatype Status = Unseen | Learning(due: nat) | Learned(due: nat)

  /** Applies `f` to the due tick of a scheduled status; `Unseen` has none. */
  function MapDue(s: Status, f: nat --> nat): (r: Status)
    requires !s.Unseen? ==> f.requires(s.due)
    ensures r.Unseen? <==> s.Unseen?
    ensures r.Learning? <==> s.Learning?
    ensures r.Learned? <==> s.Learned?
    ensures !s.Unseen? ==> r.due == f(s.due)
  {
    match s
    case Unseen => Unseen
    case Learning(due) => Learning(f(due))
    case Learned(due) => Learned(f(due))
  }

  /** Mapping the identity over the due tick changes nothing. */
  lemma MapDueIdentity(s: Status)
    ensures MapDue(s, d => d) == s
  {
  }

  /** Mapping twice is mapping the composition once. */
  lemma MapDueCompose(s: Status, f: nat -> nat, g: nat -> nat)
    ensures MapDue(MapDue(s, f), g) == MapDue(s, d => g(f(d)))
  {
  }

  /** The only outcome the scheduler is told about. */
  datatype Rating = Good | Bad

  /**
   * A card: its identity, its current rung on the interval ladder, its
   * status and its history. `lastSeen` is a wall-clock stamp in seconds.
   */
  datatype Card = Card(
    value: Factors,
    interval: nat,
    status: Status,
    lastResult: Option<Rating>,
    lastSeen: Option<nat>)

  /** The interval a freshly created card starts at: the top rung. */
  const NewCardInterval: nat := 55

  /** A fresh, never reviewed card for the item `x * y`. */
  function NewCard(x: u8, y: u8): (c: Card)
    ensures c.value == Factors(x, y) && c.value.x == x && c.value.y == y
    ensures c.interval == NewCardInterval && c.status == Unseen
    ensures c.lastResult == None && c.lastSeen == None
  {
    Card(Factors(x, y), NewCardInterval, Unseen, None, None)
  }
}
