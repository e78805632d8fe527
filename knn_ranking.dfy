/**
 * The ranking step of the KNN search: the candidate ids are sorted by their
 * geodesic distance with Collections.sort and a comparator.  The comparator
 * as written is not a valid Comparator (see ComparatorAsWritten); the model
 * sorts with the order it evidently intends, nearer first and, for equal
 * distances, smaller id first.
 */
module KnnRanking {

  /** The intended order: `a` is nearer than `b`, or as near and with the smaller id. */
  predicate Precedes(a: int, b: int, dist: map<int, real>)
  {
    a in dist && b in dist && (dist[a] < dist[b] || (dist[a] == dist[b] && a < b))
  }

  /** Every id precedes every later one, so the ids are also pairwise different. */
  predicate StrictlyAscending(s: seq<int>, dist: map<int, real>)
  {
    forall i, j | 0 <= i < j < |s| :: Precedes(s[i], s[j], dist)
  }

  /** Precedes is a strict total order on the ids that have a distance. */
  lemma PrecedesIsStrictTotalOrder(a: int, b: int, c: int, dist: map<int, real>)
    requires a in dist && b in dist && c in dist
    ensures !Precedes(a, a, dist)
    ensures Precedes(a, b, dist) ==> !Precedes(b, a, dist)
    ensures Precedes(a, b, dist) && Precedes(b, c, dist) ==> Precedes(a, c, dist)
    ensures a != b ==> Precedes(a, b, dist) || Precedes(b, a, dist)
  {
  }

  /** Inserts `x` into an ascending sequence at the place the order gives it. */
  function Insert(x: int, s: seq<int>, dist: map<int, real>): (r: seq<int>)
    requires x in dist && x !in s
    requires forall y | y in s :: y in dist
    requires StrictlyAscending(s, dist)
    ensures multiset(r) == multiset(s) + multiset{x}
    ensures StrictlyAscending(r, dist)
  {
    if s == [] then [x]
    else if Precedes(x, s[0], dist) then
      assert forall j | 0 < j < |s| :: Precedes(s[0], s[j], dist);
      [x] + s
    else
      assert s[0] != x && x in dist && s[0] in dist;
      assert Precedes(s[0], x, dist);
      assert StrictlyAscending(s[1..], dist) by {
        forall i, j | 0 <= i < j < |s[1..]| ensures Precedes(s[1..][i], s[1..][j], dist) {
          assert s[1..][i] == s[i + 1] && s[1..][j] == s[j + 1];
        }
      }
      var rest := Insert(x, s[1..], dist);
      assert s == [s[0]] + s[1..];
      forall j | 0 <= j < |rest| ensures Precedes(s[0], rest[j], dist) {
        assert rest[j] in multiset(rest);
        if rest[j] != x {
          assert rest[j] in s[1..];
        }
      }
      [s[0]] + rest
  }

  /** Collections.sort(order, comparator) with the intended order: an ascending permutation. */
  function SortedByDistance(order: seq<int>, dist: map<int, real>): (r: seq<int>)
    requires forall id | id in order :: id in dist
    requires forall i, j | 0 <= i < j < |order| :: order[i] != order[j]
    ensures multiset(r) == multiset(order)
    ensures StrictlyAscending(r, dist)
  {
    if order == [] then []
    else
      var rest := SortedByDistance(order[1..], dist);
      assert order[0] !in order[1..];
      assert order[0] !in multiset(rest);
      assert order == [order[0]] + order[1..];
      Insert(order[0], rest, dist)
  }

  /** Dropping the nearest id leaves an ascending sequence. */
  lemma AscendingTail(s: seq<int>, dist: map<int, real>)
    requires s != [] && StrictlyAscending(s, dist)
    ensures StrictlyAscending(s[1..], dist)
  {
    forall i, j | 0 <= i < j < |s[1..]| ensures Precedes(s[1..][i], s[1..][j], dist) {
      assert s[1..][i] == s[i + 1] && s[1..][j] == s[j + 1];
    }
  }

  /** Two ascending sequences of the same ids start with the same id. */
  lemma AscendingSameHead(s: seq<int>, t: seq<int>, dist: map<int, real>)
    requires s != [] && StrictlyAscending(s, dist) && StrictlyAscending(t, dist)
    requires multiset(s) == multiset(t)
    ensures t != [] && s[0] == t[0]
  {
    assert s[0] in multiset(t);
    assert t[0] in multiset(s);
    var p :| 0 <= p < |t| && t[p] == s[0];
    var q :| 0 <= q < |s| && s[q] == t[0];
    assert p != 0 ==> Precedes(t[0], s[0], dist);
    assert q != 0 ==> Precedes(s[0], t[0], dist);
  }

  /**
   * The ranking does not depend on the order in which the store returned the
   * candidates: two ascending sequences of the same ids are the same sequence.
   */
  lemma {:induction false} AscendingIsUnique(s: seq<int>, t: seq<int>, dist: map<int, real>)
    requires StrictlyAscending(s, dist) && StrictlyAscending(t, dist)
    requires multiset(s) == multiset(t)
    ensures s == t
  {
    if s == [] {
      assert |t| == |multiset(t)| == 0;
    } else {
      AscendingSameHead(s, t, dist);
      assert s == [s[0]] + s[1..] && t == [t[0]] + t[1..];
      assert multiset(s[1..]) == multiset(s) - multiset{s[0]};
      assert multiset(t[1..]) == multiset(t) - multiset{t[0]};
      AscendingTail(s, dist);
      AscendingTail(t, dist);
      AscendingIsUnique(s[1..], t[1..], dist);
    }
  }

  /**
   * The comparator as written: 0 ("equal") when the first id is strictly
   * nearer, 1 ("greater") otherwise, and 0 when a distance is missing (the
   * unboxing of a null distance throws and the catch falls through to 0).
   */
  function ComparatorAsWritten(a: int, b: int, dist: map<int, real>): (r: int)
    ensures r == 0 || r == 1
    ensures a in dist && b in dist ==> (r == 0 <==> dist[a] < dist[b])
  {
    if a in dist && b in dist then
      if dist[a] < dist[b] then 0 else 1
    else 0
  }

  function Sign(x: int): int { if x < 0 then -1 else if x > 0 then 1 else 0 }

  /**
   * java.util.Comparator requires sgn(compare(a, b)) == -sgn(compare(b, a)).
   * The comparator as written breaks this for every pair of different ids:
   * a nearer item is reported "equal" to a farther one that is reported
   * "greater" than it, and two equally distant items are each "greater" than
   * the other.  So no sort is bound to put the nearer items first.
   */
  lemma ComparatorAsWrittenIsNotAntisymmetric(a: int, b: int, dist: map<int, real>)
    requires a in dist && b in dist && a != b
    ensures Sign(ComparatorAsWritten(a, b, dist)) != -Sign(ComparatorAsWritten(b, a, dist))
  {
  }

  /** A concrete instance: ids 1 and 2 at distances 1.0 and 2.0. */
  lemma ComparatorAsWrittenCounterexample()
    ensures var dist := map[1 := 1.0, 2 := 2.0];
      ComparatorAsWritten(1, 2, dist) == 0 && ComparatorAsWritten(2, 1, dist) == 1
  {
  }

  /** The intended order is antisymmetric in the sense of java.util.Comparator. */
  function CompareIntended(a: int, b: int, dist: map<int, real>): (r: int)
    requires a in dist && b in dist
    ensures r < 0 <==> Precedes(a, b, dist)
    ensures r > 0 <==> Precedes(b, a, dist)
  {
    if Precedes(a, b, dist) then -1 else if Precedes(b, a, dist) then 1 else 0
  }

  /** Unlike the comparator as written, the intended one meets java.util.Comparator's contract. */
  lemma CompareIntendedIsAntisymmetric(a: int, b: int, dist: map<int, real>)
    requires a in dist && b in dist
    ensures Sign(CompareIntended(a, b, dist)) == -Sign(CompareIntended(b, a, dist))
  {
  }
}
