/**
 * The interval ladder: the fixed ascending sequence of spacings (rungs),
 * in ticks, between reviews of a card.
 */
module Intervals {
  import opened Wrappers

  /** The rungs, in ascending order. */
  const Ladder: seq<nat> := [2, 3, 5, 8, 13, 21, 34, 55]

  /** The bottom rung, where a card restarts after a `Bad` rating. */
  function First(): (r: nat)
    ensures r in Ladder && forall i :: 0 <= i < |Ladder| ==> r <= Ladder[i]
  {
    Ladder[0]
  }

  /** The top rung; reaching it makes a card `Learned`. */
  function Last(): (r: nat)
    ensures r in Ladder && forall i :: 0 <= i < |Ladder| ==> Ladder[i] <= r
  {
    Ladder[|Ladder| - 1]
  }

  /** The rungs are strictly ascending, so each value sits at one position at most. */
  lemma LadderAscending(i: nat, j: nat)
    requires i < j < |Ladder|
    ensures Ladder[i] < Ladder[j]
  {
  }

  /** The position of the first element of `s` equal to `v`, if any. */
  function Position(s: seq<nat>, v: nat): (r: Option<nat>)
    ensures r.None? <==> v !in s
    ensures r.Some? ==> r.value < |s| && s[r.value] == v &&
                        forall k :: 0 <= k < r.value ==> s[k] != v
  {
    if s == [] then None
    else if s[0] == v then Some(0)
    else match Position(s[1..], v)
      case None => None
      case Some(i) => Some(i + 1)
  }

  /**
   * The rung after `interval`: the following rung for a rung below the
   * top, the top itself for the top, and the bottom rung for any value that
   * is not on the ladder.
   */
  function Next(interval: nat): (r: nat)
    ensures r in Ladder
  {
    var maxI := |Ladder| - 1;
    match Position(Ladder, interval)
    case Some(i) => Ladder[if i + 1 < maxI then i + 1 else maxI]
    case None => Ladder[0]
  }

  /** `Next` saturates at the top rung. */
  lemma NextTop()
    ensures Next(Last()) == Last()
  {
    RungPosition(|Ladder| - 1);
  }

  /** A rung below the top moves one rung up. */
  lemma NextRung(i: nat)
    requires i + 1 < |Ladder|
    ensures Next(Ladder[i]) == Ladder[i + 1]
  {
    RungPosition(i);
  }

  /** A rung is found at its own index, since the ladder holds no repeats. */
  lemma RungPosition(i: nat)
    requires i < |Ladder|
    ensures Position(Ladder, Ladder[i]) == Some(i)
  {
    forall j, k | 0 <= j < k < |Ladder| ensures Ladder[j] < Ladder[k] {
      LadderAscending(j, k);
    }
    PositionAscending(Ladder, i);
  }

  /** In a strictly ascending sequence every element is found at its own index. */
  lemma PositionAscending(s: seq<nat>, i: nat)
    requires forall j, k :: 0 <= j < k < |s| ==> s[j] < s[k]
    requires i < |s|
    ensures Position(s, s[i]) == Some(i)
  {
    assert s[i] in s;
  }

  /** The fallback law: an interval off the ladder restarts at the bottom rung. */
  lemma NextOffLadder(interval: nat)
    requires interval !in Ladder
    ensures Next(interval) == First()
  {
  }

  /** `Next` always yields a rung, and never a smaller one for a rung. */
  lemma NextOnLadder(interval: nat)
    ensures Next(interval) in Ladder
    ensures interval in Ladder ==> interval <= Next(interval)
    ensures interval in Ladder && interval != Last() ==> interval < Next(interval)
  {
    if interval in Ladder {
      var i :| 0 <= i < |Ladder| && Ladder[i] == interval;
      if i + 1 < |Ladder| {
        NextRung(i);
        LadderAscending(i, i + 1);
      } else {
        NextTop();
      }
    }
  }
}
