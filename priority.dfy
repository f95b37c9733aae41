/**
 * The presentation order: the pairwise comparator the session sorts with,
 * the `(class, due)` key it agrees with, and the stable sort by that key.
 */
module Priority {
  import opened Wrappers
  import opened Cards

  datatype Ordering = Less | Equal | Greater

  /** The natural comparison of two ticks. */
  function CmpNat(x: nat, y: nat): (r: Ordering)
    ensures r == Less <==> x < y
    ensures r == Greater <==> x > y
  {
    if x < y then Less else if x == y then Equal else Greater
  }

  /**
   * The hand-written comparator, case by case: learning cards compare by
   * due, and otherwise readiness (due <= tick) decides where a learning card
   * sits relative to unseen and learned cards.
   */
  function Compare(a: Card, b: Card, tick: nat): (r: Ordering)
    ensures r != Greater <==> KeyLe(a, b, tick)
    ensures r != Less <==> KeyLe(b, a, tick)
  {
    match (a.status, b.status)
    case (Learning(x), Learning(y)) => CmpNat(x, y)
    case (Learning(x), _) => if x <= tick then Less else Greater
    case (Unseen, Unseen) => Equal
    case (Unseen, Learning(y)) => if y <= tick then Greater else Less
    case (Unseen, _) => Less
    case (Learned(x), Learned(y)) => CmpNat(x, y)
    case (Learned(_), Learning(y)) => if y > tick then Less else Greater
    case (Learned(_), _) => Greater
  }

  /**
   * The priority class: 0 for a ready learning card, 1 for unseen, 2 for
   * learned, 3 for a learning card that is not yet due.
   */
  function Class(c: Card, tick: nat): (r: nat)
    ensures r <= 3
  {
    match c.status
    case Learning(d) => if d <= tick then 0 else 3
    case Unseen => 1
    case Learned(_) => 2
  }

  /** The tie-break within a class; unseen cards all tie. */
  function DueKey(c: Card): nat {
    match c.status
    case Unseen => 0
    case Learning(d) => d
    case Learned(d) => d
  }

  /** `a` comes no later than `b` under the key `(Class, DueKey)`. */
  predicate KeyLe(a: Card, b: Card, tick: nat) {
    Class(a, tick) < Class(b, tick) ||
    (Class(a, tick) == Class(b, tick) && DueKey(a) <= DueKey(b))
  }

  /** The lexicographic comparison of the keys of `a` and `b`. */
  function KeyCompare(a: Card, b: Card, tick: nat): (r: Ordering)
    ensures r != Greater <==> KeyLe(a, b, tick)
    ensures r != Less <==> KeyLe(b, a, tick)
  {
    if Class(a, tick) != Class(b, tick) then CmpNat(Class(a, tick), Class(b, tick))
    else CmpNat(DueKey(a), DueKey(b))
  }

  /** The comparator is exactly the comparison of the `(class, due)` keys. */
  lemma CompareIsKeyOrder(a: Card, b: Card, tick: nat)
    ensures Compare(a, b, tick) == KeyCompare(a, b, tick)
  {
  }

  /** Hence the comparator is a total preorder, as a sort requires. */
  lemma CompareTotalPreorder(a: Card, b: Card, c: Card, tick: nat)
    ensures Compare(a, a, tick) == Equal
    ensures Compare(a, b, tick) == Less <==> Compare(b, a, tick) == Greater
    ensures Compare(a, b, tick) == Equal <==> Compare(b, a, tick) == Equal
    ensures Compare(a, b, tick) != Greater && Compare(b, c, tick) != Greater ==> Compare(a, c, tick) != Greater
    ensures Compare(a, b, tick) != Greater || Compare(b, a, tick) != Greater
  {
    CompareIsKeyOrder(a, a, tick);
    CompareIsKeyOrder(a, b, tick);
    CompareIsKeyOrder(b, a, tick);
    CompareIsKeyOrder(b, c, tick);
    CompareIsKeyOrder(a, c, tick);
  }

  /** `s` is ordered by key. */
  predicate Sorted(s: seq<Card>, tick: nat) {
    forall i, j :: 0 <= i < j < |s| ==> KeyLe(s[i], s[j], tick)
  }

  /** Inserts `x` before the first element whose key is strictly greater. */
  function Insert(s: seq<Card>, x: Card, tick: nat): (r: seq<Card>)
    ensures |r| == |s| + 1
  {
    if s == [] then [x]
    else if !KeyLe(s[0], x, tick) then [x] + s
    else [s[0]] + Insert(s[1..], x, tick)
  }

  /** The stable sort by key: insertion of each element in turn. */
  function Sort(s: seq<Card>, tick: nat): (r: seq<Card>)
    ensures |r| == |s|
  {
    if s == [] then [] else Insert(Sort(s[..|s| - 1], tick), s[|s| - 1], tick)
  }

  /** In a sorted sequence, `x` goes at the boundary between keys <= and > its own. */
  lemma {:induction false} InsertAt(s: seq<Card>, x: Card, p: nat, tick: nat)
    requires Sorted(s, tick) && p <= |s|
    requires forall k :: 0 <= k < p ==> KeyLe(s[k], x, tick)
    requires forall k :: p <= k < |s| ==> !KeyLe(s[k], x, tick)
    ensures Insert(s, x, tick) == s[..p] + [x] + s[p..]
  {
    if s != [] && p > 0 {
      InsertAt(s[1..], x, p - 1, tick);
      assert s[..p] == [s[0]] + s[1..][..p - 1];
      assert s[p..] == s[1..][p - 1..];
    }
  }

  /** In a sorted sequence it is enough to find the first key above `x`: insertion lands right before it. */
  lemma InsertBoundary(s: seq<Card>, x: Card, p: nat, tick: nat)
    requires Sorted(s, tick) && p <= |s|
    requires p > 0 ==> KeyLe(s[p - 1], x, tick)
    requires forall k :: p <= k < |s| ==> !KeyLe(s[k], x, tick)
    ensures Insert(s, x, tick) == s[..p] + [x] + s[p..]
  {
    forall k | 0 <= k < p ensures KeyLe(s[k], x, tick) {
      if k < p - 1 { KeyLeTransitive(s[k], s[p - 1], x, tick); }
    }
    InsertAt(s, x, p, tick);
  }

  lemma KeyLeTransitive(a: Card, b: Card, c: Card, tick: nat)
    requires KeyLe(a, b, tick) && KeyLe(b, c, tick)
    ensures KeyLe(a, c, tick)
  {
  }

  /** Every element of `Insert(s, x)` is bounded below by a common lower bound of `s` and `x`. */
  lemma {:induction false} InsertLowerBound(s: seq<Card>, x: Card, b: Card, tick: nat)
    requires KeyLe(b, x, tick)
    requires forall k :: 0 <= k < |s| ==> KeyLe(b, s[k], tick)
    ensures forall k :: 0 <= k < |Insert(s, x, tick)| ==> KeyLe(b, Insert(s, x, tick)[k], tick)
  {
    if s != [] && KeyLe(s[0], x, tick) {
      InsertLowerBound(s[1..], x, b, tick);
      var r := Insert(s[1..], x, tick);
      assert Insert(s, x, tick) == [s[0]] + r;
    }
  }

  /** Inserting into a sorted sequence keeps it sorted. */
  lemma {:induction false} InsertSorted(s: seq<Card>, x: Card, tick: nat)
    requires Sorted(s, tick)
    ensures Sorted(Insert(s, x, tick), tick)
  {
    if s != [] {
      if KeyLe(s[0], x, tick) {
        var t := s[1..];
        InsertSorted(t, x, tick);
        InsertLowerBound(t, x, s[0], tick);
        var r := Insert(t, x, tick);
        assert Insert(s, x, tick) == [s[0]] + r;
      } else {
        forall k | 0 <= k < |s| ensures KeyLe(x, s[k], tick) {
          if k > 0 { KeyLeTransitive(x, s[0], s[k], tick); }
        }
      }
    }
  }

  /** Insertion adds exactly `x`. */
  lemma {:induction false} InsertPermutes(s: seq<Card>, x: Card, tick: nat)
    ensures multiset(Insert(s, x, tick)) == multiset(s) + multiset{x}
  {
    if s != [] && KeyLe(s[0], x, tick) {
      InsertPermutes(s[1..], x, tick);
      assert s == [s[0]] + s[1..];
    }
  }

  /** The sort orders its input by key. */
  lemma {:induction false} SortSorted(s: seq<Card>, tick: nat)
    ensures Sorted(Sort(s, tick), tick)
    ensures multiset(Sort(s, tick)) == multiset(s)
  {
    if s != [] {
      var init := s[..|s| - 1];
      SortSorted(init, tick);
      InsertSorted(Sort(init, tick), s[|s| - 1], tick);
      InsertPermutes(Sort(init, tick), s[|s| - 1], tick);
      assert s == init + [s[|s| - 1]];
    }
  }

  /** The elements of `s` whose key equals the key of `c`, in order. */
  function SameKey(s: seq<Card>, c: Card, tick: nat): (r: seq<Card>)
    ensures |r| <= |s|
  {
    if s == [] then []
    else (if KeyCompare(s[0], c, tick) == Equal then [s[0]] else []) + SameKey(s[1..], c, tick)
  }

  lemma {:induction false} SameKeyAppend(s: seq<Card>, t: seq<Card>, c: Card, tick: nat)
    ensures SameKey(s + t, c, tick) == SameKey(s, c, tick) + SameKey(t, c, tick)
  {
    if s == [] {
      assert s + t == t;
    } else {
      assert (s + t)[0] == s[0];
      assert (s + t)[1..] == s[1..] + t;
      SameKeyAppend(s[1..], t, c, tick);
    }
  }

  /** When every element of `s` has a key above `x`'s, none shares `x`'s key. */
  lemma {:induction false} SameKeyNoneAbove(s: seq<Card>, x: Card, c: Card, tick: nat)
    requires forall k :: 0 <= k < |s| ==> !KeyLe(s[k], x, tick)
    requires KeyCompare(x, c, tick) == Equal
    ensures SameKey(s, c, tick) == []
  {
    if s != [] {
      SameKeyNoneAbove(s[1..], x, c, tick);
    }
  }

  /** Insertion appends `x` to the run of elements that share its key. */
  lemma {:induction false} InsertStable(s: seq<Card>, x: Card, c: Card, tick: nat)
    requires Sorted(s, tick)
    ensures SameKey(Insert(s, x, tick), c, tick) ==
            SameKey(s, c, tick) + SameKey([x], c, tick)
  {
    if s == [] {
    } else if !KeyLe(s[0], x, tick) {
      assert [x] + s == [x] + [] + s;
      if KeyCompare(x, c, tick) == Equal {
        SameKeyNoneAbove(s, x, c, tick);
      }
      SameKeyAppend([x], s, c, tick);
    } else {
      assert Sorted(s[1..], tick);
      InsertStable(s[1..], x, c, tick);
    }
  }

  /**
   * The sort is stable: the cards sharing any one key keep their relative
   * order.
   */
  lemma {:induction false} SortStable(s: seq<Card>, c: Card, tick: nat)
    ensures SameKey(Sort(s, tick), c, tick) == SameKey(s, c, tick)
  {
    if s != [] {
      var init := s[..|s| - 1];
      SortStable(init, c, tick);
      SortSorted(init, tick);
      InsertStable(Sort(init, tick), s[|s| - 1], c, tick);
      assert s == init + [s[|s| - 1]];
      SameKeyAppend(init, [s[|s| - 1]], c, tick);
    }
  }

  /** The unseen cards of `s`, in order. */
  function UnseenOf(s: seq<Card>): (r: seq<Card>)
    ensures forall k :: 0 <= k < |r| ==> r[k].status.Unseen?
  {
    if s == [] then []
    else (if s[0].status.Unseen? then [s[0]] else []) + UnseenOf(s[1..])
  }

  lemma {:induction false} UnseenIsSameKey(s: seq<Card>, u: Card, tick: nat)
    requires u.status.Unseen?
    ensures UnseenOf(s) == SameKey(s, u, tick)
  {
    if s != [] {
      UnseenIsSameKey(s[1..], u, tick);
    }
  }

  /** Sorting keeps the unseen cards in their prior relative order. */
  lemma SortKeepsUnseenOrder(s: seq<Card>, tick: nat)
    ensures UnseenOf(Sort(s, tick)) == UnseenOf(s)
  {
    var u := Card(Factors(0, 0), 0, Unseen, None, None);
    UnseenIsSameKey(s, u, tick);
    UnseenIsSameKey(Sort(s, tick), u, tick);
    SortStable(s, u, tick);
  }

  /**
   * The presentation order of a sorted sequence: ready learning cards,
   * then unseen, then learned, then learning cards not yet due; learning
   * cards, ready or not, in ascending due order, and learned cards too.
   */
  lemma SortedOrder(s: seq<Card>, tick: nat, i: nat, j: nat)
    requires Sorted(s, tick) && i < j < |s|
    ensures Class(s[i], tick) <= Class(s[j], tick)
    ensures s[i].status.Learning? && s[j].status.Learning? ==> s[i].status.due <= s[j].status.due
    ensures s[i].status.Learned? && s[j].status.Learned? ==> s[i].status.due <= s[j].status.due
  {
  }

  /**
   * The front of a sorted sequence is the most urgent card: a ready
   * learning card when there is one, otherwise an unseen card when there is
   * one, otherwise a learned card when there is one.
   */
  lemma FrontIsMostUrgent(s: seq<Card>, tick: nat, k: nat)
    requires Sorted(s, tick) && k < |s|
    ensures Class(s[0], tick) <= Class(s[k], tick)
    ensures s[k].status.Learning? && s[k].status.due <= tick ==>
            s[0].status.Learning? && s[0].status.due <= tick
    ensures s[k].status.Unseen? ==> s[0].status.Unseen? || (s[0].status.Learning? && s[0].status.due <= tick)
  {
    if k > 0 { SortedOrder(s, tick, 0, k); }
  }
}
