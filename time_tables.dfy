/**
 * The item universe: every pair of factors in 2..9, enumerated row by row
 * before it is shuffled.
 */
module TimeTables {
  import opened Cards

  /** Every element of `s` occurs once. */
  predicate Distinct<T(==)>(s: seq<T>) {
    forall i, j :: 0 <= i < j < |s| ==> s[i] != s[j]
  }

  /** The universe in enumeration order: `Factors(x, y)` sits at `8 * (x - 2) + (y - 2)`. */
  function Table(): (t: seq<Factors>)
    ensures |t| == 64
  {
    seq(64, i requires 0 <= i < 64 => Factors((2 + i / 8) as u8, (2 + i % 8) as u8))
  }

  /** The enumeration holds 64 distinct items, all in range, and every item in range. */
  lemma TableIsUniverse()
    ensures |Table()| == 64 && Distinct(Table())
    ensures forall i :: 0 <= i < 64 ==> InRange(Table()[i])
    ensures forall x: u8, y: u8 :: 2 <= x <= 9 && 2 <= y <= 9 ==> Factors(x, y) in Table()
  {
    var t := Table();
    forall x: u8, y: u8 | 2 <= x <= 9 && 2 <= y <= 9 ensures Factors(x, y) in t {
      var k := 8 * (x as int - 2) + (y as int - 2);
      assert t[k] == Factors(x, y);
    }
  }

  /** The nested loops of the generator push the items in enumeration order. */
  method Gen() returns (items: seq<Factors>)
    ensures items == Table()
  {
    items := [];
    var x: u8 := 2;
    while x < 10
      invariant 2 <= x <= 10
      invariant items == Table()[..8 * (x as int - 2)]
    {
      var y: u8 := 2;
      while y < 10
        invariant 2 <= y <= 10
        invariant items == Table()[..8 * (x as int - 2) + (y as int - 2)]
      {
        ghost var k := 8 * (x as int - 2) + (y as int - 2);
        assert Table()[k] == Factors(x, y);
        assert Table()[..k + 1] == Table()[..k] + [Table()[k]];
        items := items + [Factors(x, y)];
        y := y + 1;
      }
      x := x + 1;
    }
  }

  /** A distinct sequence holds each value at most once. */
  lemma {:induction false} DistinctCount<T>(s: seq<T>, v: T)
    requires Distinct(s)
    ensures multiset(s)[v] <= 1
  {
    if s != [] {
      assert s == [s[0]] + s[1..];
      assert Distinct(s[1..]) by {
        forall i, j | 0 <= i < j < |s[1..]| ensures s[1..][i] != s[1..][j] {
          assert s[1..][i] == s[i + 1] && s[1..][j] == s[j + 1];
        }
      }
      DistinctCount(s[1..], v);
      if s[0] == v {
        assert v !in s[1..] by {
          forall k | 0 <= k < |s[1..]| ensures s[1..][k] != v {
            assert s[1..][k] == s[k + 1];
          }
        }
      }
    }
  }

  /** A value at two positions is counted twice. */
  lemma RepeatedCount<T>(s: seq<T>, i: nat, j: nat)
    requires i < j < |s| && s[i] == s[j]
    ensures multiset(s)[s[i]] >= 2
  {
    assert s == s[..i] + [s[i]] + s[i + 1..j] + [s[j]] + s[j + 1..];
  }

  /** Rearranging a distinct sequence keeps it distinct. */
  lemma PermutationDistinct<T>(s: seq<T>, t: seq<T>)
    requires multiset(s) == multiset(t) && Distinct(t)
    ensures Distinct(s)
  {
    forall i, j | 0 <= i < j < |s| ensures s[i] != s[j] {
      if s[i] == s[j] {
        RepeatedCount(s, i, j);
        DistinctCount(t, s[i]);
      }
    }
  }

  /**
   * The shuffle rearranges the enumeration, so whatever order it picks is
   * still 64 distinct items in range covering the whole universe.
   */
  lemma ShuffledIsUniverse(s: seq<Factors>)
    requires multiset(s) == multiset(Table())
    ensures |s| == 64 && Distinct(s)
    ensures forall i :: 0 <= i < |s| ==> InRange(s[i])
    ensures forall x: u8, y: u8 :: 2 <= x <= 9 && 2 <= y <= 9 ==> Factors(x, y) in s
  {
    TableIsUniverse();
    assert |s| == |multiset(s)| == |multiset(Table())| == 64;
    PermutationDistinct(s, Table());
    forall i | 0 <= i < |s| ensures InRange(s[i]) {
      assert s[i] in multiset(Table());
    }
    forall x: u8, y: u8 | 2 <= x <= 9 && 2 <= y <= 9 ensures Factors(x, y) in s {
      assert Factors(x, y) in multiset(s);
    }
  }
}
