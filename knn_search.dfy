/**
 * The adaptive K-nearest-neighbour search of PostGISSpatialNeighborDao.  The
 * store only answers distance-range filters, so the search widens a DWithin
 * radius until it holds at least k candidates or reaches 180 degrees, then
 * ranks the candidates by geodesic distance and keeps the first k.
 */
module KnnSearch {
  import opened Outcomes
  import opened OgcFilter
  import opened SpatialStore
  import opened KnnRanking

  /**
   * The exceptions the search lets escape, each where the Java code throws it,
   * and the point where the model stops following a null geometry.
   */
  datatype KnnError =
    | DivisionByZero           // k / containedFeatures.size() with no candidate
    | SubListIndexOutOfBounds  // order.subList(0, k) with fewer than k candidates
    | SubListIllegalArgument   // order.subList(0, k) with k < 0
    | NullGeometry             // stands for the search around null when the item has no geometry

  /** The starting value of `guess`; the radius is guess * k. */
  const InitialGuess: real := 0.01
  /** The radius at which the expansion gives up. */
  const RadiusBound: real := 180.0
  /** The most times the expansion loop can run. */
  const MaxRounds: nat := 15

  /** The geodesic (orthodromic) distance between two longitude/latitude points. */
  type Geodesic = (Coordinate, Coordinate) -> real

  function Radius(guess: real, k: int): real
  {
    guess * k as real
  }

  /** The filter of one expansion round: reference system, layer and DWithin(radius). */
  function KnnFilter(g: Geometry, layerName: string, refSysName: string, radius: real): (r: Filter)
    ensures forall f: Feature, metric: Metric :: Holds(r, f, metric) <==>
      f.refSys == refSysName && f.layer == layerName && metric(f.geometry, g) <= radius
  {
    var r := And([PropertyEquals(RefSysAttr, refSysName), PropertyEquals(LayerAttr, layerName), DWithin(g, radius)]);
    forall f: Feature, metric: Metric ensures Holds(r, f, metric) <==>
      f.refSys == refSysName && f.layer == layerName && metric(f.geometry, g) <= radius
    {
      assert r.children[0] == PropertyEquals(RefSysAttr, refSysName);
      assert r.children[1] == PropertyEquals(LayerAttr, layerName);
      assert r.children[2] == DWithin(g, radius);
    }
    r
  }

  /** The rows one expansion round retrieves. */
  function Candidates(db: PostGISDB, g: Geometry, layerName: string, refSysName: string, radius: real): seq<Feature>
  {
    GetFeatures(db, KnnFilter(g, layerName, refSysName, radius))
  }

  /**
   * A round retrieves exactly the rows of the layer and reference system
   * within the radius of the query geometry; with a store whose rows have
   * distinct keys, their item ids are distinct.
   */
  lemma CandidatesAre(db: PostGISDB, g: Geometry, layerName: string, refSysName: string, radius: real)
    ensures var r := Candidates(db, g, layerName, refSysName, radius);
            && (forall x :: x in r <==>
                  x in db.features && x.refSys == refSysName && x.layer == layerName && db.metric(x.geometry, g) <= radius)
            && (KeysUnique(db.features) ==> forall i, j | 0 <= i < j < |r| :: r[i].itemId != r[j].itemId)
  {
    var r := Candidates(db, g, layerName, refSysName, radius);
    if KeysUnique(db.features) {
      forall i, j | 0 <= i < j < |r| ensures r[i].itemId != r[j].itemId {
        assert r[i] in r && r[j] in r;
      }
    }
  }

  /** A wider radius retrieves every row a narrower one does. */
  lemma CandidatesGrow(db: PostGISDB, g: Geometry, layerName: string, refSysName: string, r1: real, r2: real)
    requires r1 <= r2
    ensures forall x | x in Candidates(db, g, layerName, refSysName, r1) :: x in Candidates(db, g, layerName, refSysName, r2)
    ensures Candidates(db, g, layerName, refSysName, r1) != [] ==> Candidates(db, g, layerName, refSysName, r2) != []
  {
    CandidatesAre(db, g, layerName, refSysName, r1);
    CandidatesAre(db, g, layerName, refSysName, r2);
    var c1 := Candidates(db, g, layerName, refSysName, r1);
    if c1 != [] {
      assert c1[0] in c1;
    }
  }

  /** The first round retrieves nothing while the loop still has to run: k / 0 throws. */
  predicate FirstRoundEmpty(db: PostGISDB, g: Geometry, k: int, layerName: string, refSysName: string)
  {
    && 0 < k
    && Radius(InitialGuess, k) < RadiusBound
    && Candidates(db, g, layerName, refSysName, Radius(InitialGuess, k)) == []
  }

  /** Math.sqrt on the integers, taken exactly (the model has no rounding). */
  ghost predicate IsSqrt(sqrt: nat -> real)
  {
    forall q: nat :: 0.0 <= sqrt(q) && sqrt(q) * sqrt(q) == q as real
  }

  lemma SqrtOfThreeOrMore(s: real, q: nat)
    requires 0.0 <= s && s * s == q as real && q >= 3
    ensures 1.3 * s >= 2.0
  {
    if s < 1.6 {
      assert s * s <= s * 1.6;
      assert s * 1.6 < 1.6 * 1.6;
    }
  }

  /**
   * The growth of `guess` in one round.  The quotient k / count is Java's
   * integer division; it is at least 1 here, and the factor is at least 2
   * because 1.3 * sqrt(q) >= 2 for every integer q >= 3.
   */
  function GrowthFactor(k: int, count: int, sqrt: nat -> real): (r: real)
    requires 0 < count < k
    requires IsSqrt(sqrt)
    ensures r >= 2.0
  {
    var q := k / count;
    if q > 2 then
      SqrtOfThreeOrMore(sqrt(q), q);
      1.3 * sqrt(q)
    else 2.0
  }

  /** The guess of the next round: guess * (k / count > 2 ? 1.3 * sqrt(k / count) : 2). */
  function Grown(guess: real, k: int, count: int, sqrt: nat -> real): real
    requires 0 < count < k
    requires IsSqrt(sqrt)
  {
    guess * GrowthFactor(k, count, sqrt)
  }

  /** 0.01 * 2^n: the least `guess` can be after n rounds that each at least double it. */
  function GuessFloor(n: nat): (r: real)
    ensures r >= InitialGuess
  {
    if n == 0 then InitialGuess else 2.0 * GuessFloor(n - 1)
  }

  /** After 15 doublings the floor, 327.68, is past the bound of 180. */
  lemma {:induction false} GuessFloorPastBound(n: nat)
    requires n >= MaxRounds
    ensures GuessFloor(n) >= RadiusBound
  {
    if n == MaxRounds {
      assert GuessFloor(MaxRounds) == 327.68;
    } else {
      GuessFloorPastBound(n - 1);
    }
  }

  /**
   * One round's arithmetic: while guess * k < 180 with k >= 1, at most 14
   * rounds can have doubled `guess` from 0.01, and multiplying by a factor of
   * at least 2 doubles it once more.
   */
  lemma GrowthStep(guess: real, k: int, rounds: nat, factor: real, next: real)
    requires 1 <= k && guess >= GuessFloor(rounds)
    requires Radius(guess, k) < RadiusBound
    requires factor >= 2.0 && next == guess * factor
    ensures rounds + 1 <= MaxRounds
    ensures next >= GuessFloor(rounds + 1)
    ensures next >= guess
  {
    GuessBelowBound(guess, k);
    if rounds >= MaxRounds {
      GuessFloorPastBound(rounds);
    }
    Doubles(guess, factor, next);
  }

  lemma GuessBelowBound(guess: real, k: int)
    requires 1 <= k && 0.0 <= guess && Radius(guess, k) < RadiusBound
    ensures guess < RadiusBound
  {
    ScaleUp(guess, 1.0, k as real);
  }

  lemma Doubles(guess: real, factor: real, next: real)
    requires 0.0 <= guess && 2.0 <= factor && next == guess * factor
    ensures 2.0 * guess <= next
  {
    ScaleUp(guess, 2.0, factor);
  }

  /**
   * A round of the loop, entered with candidates and a radius below 180:
   * the grown guess is at least 0.01 * 2^(rounds + 1), with rounds + 1 at
   * most 15, and its radius retrieves candidates again.
   */
  lemma ExpansionRound(db: PostGISDB, g: Geometry, k: int, layerName: string, refSysName: string,
                       sqrt: nat -> real, guess: real, rounds: nat, next: real)
    requires IsSqrt(sqrt) && guess >= GuessFloor(rounds)
    requires Radius(guess, k) < RadiusBound
    requires 0 < |Candidates(db, g, layerName, refSysName, Radius(guess, k))| < k
    requires next == Grown(guess, k, |Candidates(db, g, layerName, refSysName, Radius(guess, k))|, sqrt)
    ensures rounds + 1 <= MaxRounds
    ensures next >= GuessFloor(rounds + 1) && next >= guess
    ensures Candidates(db, g, layerName, refSysName, Radius(next, k)) != []
  {
    var factor := GrowthFactor(k, |Candidates(db, g, layerName, refSysName, Radius(guess, k))|, sqrt);
    GrowthStep(guess, k, rounds, factor, next);
    RadiusGrows(guess, next, k);
    CandidatesGrow(db, g, layerName, refSysName, Radius(guess, k), Radius(next, k));
  }

  /**
   * The run of the expansion loop from `guess` after `rounds` rounds: the
   * final guess and the number of rounds run.  The loop stops once a round
   * has k candidates or a radius of 180; an empty round while more are
   * needed is where the Java code divides by zero, and the run stops there.
   * The stop after 15 rounds only bounds the recursion: ExpansionFrom shows
   * that a run from a guess of at least 0.01 * 2^rounds never reaches it.
   */
  function Expansion(db: PostGISDB, g: Geometry, k: int, layerName: string, refSysName: string,
                     sqrt: nat -> real, guess: real, rounds: nat): (real, nat)
    requires IsSqrt(sqrt)
    decreases MaxRounds - rounds
  {
    var found := Candidates(db, g, layerName, refSysName, Radius(guess, k));
    if |found| >= k || Radius(guess, k) >= RadiusBound || found == [] || rounds >= MaxRounds then (guess, rounds)
    else Expansion(db, g, k, layerName, refSysName, sqrt, Grown(guess, k, |found|, sqrt), rounds + 1)
  }

  /** A round that has to run moves the run on to the grown guess. */
  lemma ExpansionContinues(db: PostGISDB, g: Geometry, k: int, layerName: string, refSysName: string,
                           sqrt: nat -> real, guess: real, rounds: nat, next: real)
    requires IsSqrt(sqrt) && rounds + 1 <= MaxRounds
    requires Radius(guess, k) < RadiusBound
    requires 0 < |Candidates(db, g, layerName, refSysName, Radius(guess, k))| < k
    requires next == Grown(guess, k, |Candidates(db, g, layerName, refSysName, Radius(guess, k))|, sqrt)
    ensures Expansion(db, g, k, layerName, refSysName, sqrt, guess, rounds)
         == Expansion(db, g, k, layerName, refSysName, sqrt, next, rounds + 1)
  {
  }

  /** A round with k candidates, a radius of 180 or no candidate ends the run. */
  lemma ExpansionStops(db: PostGISDB, g: Geometry, k: int, layerName: string, refSysName: string,
                       sqrt: nat -> real, guess: real, rounds: nat)
    requires IsSqrt(sqrt)
    requires var found := Candidates(db, g, layerName, refSysName, Radius(guess, k));
               |found| >= k || Radius(guess, k) >= RadiusBound || found == []
    ensures Expansion(db, g, k, layerName, refSysName, sqrt, guess, rounds) == (guess, rounds)
  {
  }

  /**
   * How far a run from `guess` gets: at most 15 rounds in all, with a guess
   * that has at least doubled in each round.
   */
  lemma {:induction false} ExpansionBounds(db: PostGISDB, g: Geometry, k: int, layerName: string, refSysName: string,
                                           sqrt: nat -> real, guess: real, rounds: nat)
    requires IsSqrt(sqrt) && guess >= GuessFloor(rounds) && rounds <= MaxRounds
    ensures var e := Expansion(db, g, k, layerName, refSysName, sqrt, guess, rounds);
            rounds <= e.1 <= MaxRounds && e.0 >= GuessFloor(e.1) && e.0 >= guess
    decreases MaxRounds - rounds
  {
    var found := Candidates(db, g, layerName, refSysName, Radius(guess, k));
    if |found| >= k || Radius(guess, k) >= RadiusBound || found == [] {
      ExpansionStops(db, g, k, layerName, refSysName, sqrt, guess, rounds);
    } else {
      var next := Grown(guess, k, |found|, sqrt);
      ExpansionRound(db, g, k, layerName, refSysName, sqrt, guess, rounds, next);
      ExpansionContinues(db, g, k, layerName, refSysName, sqrt, guess, rounds, next);
      ExpansionBounds(db, g, k, layerName, refSysName, sqrt, next, rounds + 1);
    }
  }

  /**
   * Where a run from `guess` ends: on a round with k candidates, a radius of
   * 180 or no candidate, and with candidates if `guess` had any.
   */
  lemma {:induction false} ExpansionFrom(db: PostGISDB, g: Geometry, k: int, layerName: string, refSysName: string,
                                         sqrt: nat -> real, guess: real, rounds: nat)
    requires IsSqrt(sqrt) && guess >= GuessFloor(rounds) && rounds <= MaxRounds
    ensures var e := Expansion(db, g, k, layerName, refSysName, sqrt, guess, rounds);
            var found := Candidates(db, g, layerName, refSysName, Radius(e.0, k));
            && (Candidates(db, g, layerName, refSysName, Radius(guess, k)) != [] ==> found != [])
            && (|found| >= k || Radius(e.0, k) >= RadiusBound || found == [])
    decreases MaxRounds - rounds
  {
    var found := Candidates(db, g, layerName, refSysName, Radius(guess, k));
    if |found| >= k || Radius(guess, k) >= RadiusBound || found == [] {
      ExpansionStops(db, g, k, layerName, refSysName, sqrt, guess, rounds);
    } else {
      var next := Grown(guess, k, |found|, sqrt);
      ExpansionRound(db, g, k, layerName, refSysName, sqrt, guess, rounds, next);
      ExpansionContinues(db, g, k, layerName, refSysName, sqrt, guess, rounds, next);
      ExpansionFrom(db, g, k, layerName, refSysName, sqrt, next, rounds + 1);
    }
  }

  /** The final guess of the expansion loop, which starts from 0.01 in round 0. */
  function FinalGuess(db: PostGISDB, g: Geometry, k: int, layerName: string, refSysName: string,
                      sqrt: nat -> real): real
    requires IsSqrt(sqrt)
  {
    Expansion(db, g, k, layerName, refSysName, sqrt, InitialGuess, 0).0
  }

  /**
   * Unless the first round divides by zero, the loop ends within 15 rounds
   * on a radius with at least k candidates or of at least 180; the radius
   * never shrinks below the first one, and with k <= 0 the loop does not run.
   */
  lemma ExpansionEnds(db: PostGISDB, g: Geometry, k: int, layerName: string, refSysName: string,
                      sqrt: nat -> real)
    requires IsSqrt(sqrt) && !FirstRoundEmpty(db, g, k, layerName, refSysName)
    ensures var e := Expansion(db, g, k, layerName, refSysName, sqrt, InitialGuess, 0);
            var found := Candidates(db, g, layerName, refSysName, Radius(e.0, k));
            && (|found| >= k || Radius(e.0, k) >= RadiusBound)
            && e.1 <= MaxRounds
            && e.0 >= GuessFloor(e.1)
            && (k <= 0 ==> e == (InitialGuess, 0))
            && (0 < k ==> Radius(e.0, k) >= Radius(InitialGuess, k))
  {
    var e := Expansion(db, g, k, layerName, refSysName, sqrt, InitialGuess, 0);
    ExpansionBounds(db, g, k, layerName, refSysName, sqrt, InitialGuess, 0);
    ExpansionFrom(db, g, k, layerName, refSysName, sqrt, InitialGuess, 0);
    if k <= 0 {
      ExpansionStops(db, g, k, layerName, refSysName, sqrt, InitialGuess, 0);
    } else {
      RadiusGrows(InitialGuess, e.0, k);
    }
  }

  lemma RadiusGrows(guess: real, guess': real, k: int)
    requires guess <= guess' && 0 <= k
    ensures Radius(guess, k) <= Radius(guess', k)
  {
    ScaleUp(k as real, guess, guess');
  }

  lemma ScaleUp(a: real, b: real, c: real)
    requires 0.0 <= a && b <= c
    ensures a * b <= a * c
  {
  }

  /**
   * The expansion loop.  It fails with a division by zero exactly when the
   * first round retrieves nothing while the loop must run; a later round cannot
   * retrieve nothing, as the radius only grows.  Otherwise it stops with the
   * final guess of the run and the candidates of its radius.
   */
  method ExpandRadius(db: PostGISDB, g: Geometry, k: int, layerName: string, refSysName: string,
                      sqrt: nat -> real)
    returns (r: Result<(real, seq<Feature>), KnnError>)
    requires IsSqrt(sqrt)
    ensures r.Failure? <==> FirstRoundEmpty(db, g, k, layerName, refSysName)
    ensures r.Failure? ==> r.error == DivisionByZero
    ensures r.Success? ==> r.value.0 == FinalGuess(db, g, k, layerName, refSysName, sqrt)
    ensures r.Success? ==> r.value.1 == Candidates(db, g, layerName, refSysName, Radius(r.value.0, k))
  {
    var guess := InitialGuess;
    var containedFeatures := Candidates(db, g, layerName, refSysName, Radius(guess, k));
    ghost var rounds: nat := 0;
    while |containedFeatures| < k && Radius(guess, k) < RadiusBound
      invariant containedFeatures == Candidates(db, g, layerName, refSysName, Radius(guess, k))
      invariant guess >= GuessFloor(rounds)
      invariant rounds <= MaxRounds
      invariant Expansion(db, g, k, layerName, refSysName, sqrt, guess, rounds)
             == Expansion(db, g, k, layerName, refSysName, sqrt, InitialGuess, 0)
      invariant rounds == 0 ==> guess == InitialGuess
      invariant rounds > 0 ==> |containedFeatures| > 0
      invariant rounds > 0 ==> Candidates(db, g, layerName, refSysName, Radius(InitialGuess, k)) != []
      decreases MaxRounds - rounds
    {
      if |containedFeatures| == 0 {
        assert FirstRoundEmpty(db, g, k, layerName, refSysName);
        return Failure(DivisionByZero);
      }
      var next := Grown(guess, k, |containedFeatures|, sqrt);
      ExpansionRound(db, g, k, layerName, refSysName, sqrt, guess, rounds, next);
      ExpansionContinues(db, g, k, layerName, refSysName, sqrt, guess, rounds, next);
      guess := next;
      containedFeatures := Candidates(db, g, layerName, refSysName, Radius(guess, k));
      rounds := rounds + 1;
    }
    assert !FirstRoundEmpty(db, g, k, layerName, refSysName) by {
      if rounds == 0 && 0 < k && |containedFeatures| >= k {
        assert containedFeatures != [];
      }
    }
    ExpansionStops(db, g, k, layerName, refSysName, sqrt, guess, rounds);
    r := Success((guess, containedFeatures));
  }

  /** The geodesic distance from a result entry's geometry to the query geometry. */
  function DistanceTo(p: (int, Geometry), g: Geometry, geodesic: Geodesic): real
  {
    geodesic(p.1.anchor, g.anchor)
  }

  /** The intended ranking on result entries: nearer first, then smaller id. */
  predicate Closer(p: (int, Geometry), q: (int, Geometry), g: Geometry, geodesic: Geodesic)
  {
    DistanceTo(p, g, geodesic) < DistanceTo(q, g, geodesic)
    || (DistanceTo(p, g, geodesic) == DistanceTo(q, g, geodesic) && p.0 < q.0)
  }

  /** The (id, geometry) pairs of a set of candidate rows. */
  function Entries(found: seq<Feature>): set<(int, Geometry)>
  {
    set f | f in found :: (f.itemId, f.geometry)
  }

  /**
   * `result` holds k of the candidates, each with its own geometry, in the
   * intended order, and no candidate left out is nearer than one kept.
   */
  ghost predicate NearestK(result: seq<(int, Geometry)>, found: seq<Feature>, k: int, g: Geometry,
                           geodesic: Geodesic)
  {
    && |result| == k
    && (forall j | 0 <= j < |result| :: result[j] in Entries(found))
    && (forall i, j | 0 <= i < j < |result| :: Closer(result[i], result[j], g, geodesic))
    && (forall f, j | f in found && 0 <= j < |result| && (f.itemId, f.geometry) !in result ::
          Closer(result[j], (f.itemId, f.geometry), g, geodesic))
  }

  /** The ids of the candidate rows, in the store's order. */
  function IdsOf(rows: seq<Feature>): (r: seq<int>)
    ensures |r| == |rows| && forall i | 0 <= i < |rows| :: r[i] == rows[i].itemId
  {
    seq(|rows|, i requires 0 <= i < |rows| => rows[i].itemId)
  }

  /** The maps filled from the candidates: geometry and geodesic distance per id. */
  ghost predicate MapsOf(found: seq<Feature>, rVal: map<int, Geometry>, distMap: map<int, real>, g: Geometry,
                         geodesic: Geodesic)
  {
    forall f | f in found ::
      && f.itemId in rVal && rVal[f.itemId] == f.geometry
      && f.itemId in distMap && distMap[f.itemId] == geodesic(f.geometry.anchor, g.anchor)
  }

  /** The first k ids of the ascending ranking, each with its geometry, are the k nearest candidates. */
  lemma RankingPrefixIsNearest(found: seq<Feature>, g: Geometry, geodesic: Geodesic, rVal: map<int, Geometry>,
                               distMap: map<int, real>, sorted: seq<int>, k: int, result: seq<(int, Geometry)>)
    requires MapsOf(found, rVal, distMap, g, geodesic)
    requires multiset(sorted) == multiset(IdsOf(found))
    requires StrictlyAscending(sorted, distMap)
    requires 0 <= k <= |sorted|
    requires |result| == k
    requires forall t | 0 <= t < k :: sorted[t] in rVal && result[t] == (sorted[t], rVal[sorted[t]])
    ensures NearestK(result, found, k, g, geodesic)
  {
    // Every ranked id is the id of a candidate, and its entry is that candidate's.
    forall t | 0 <= t < |sorted|
      ensures sorted[t] in rVal
      ensures (sorted[t], rVal[sorted[t]]) in Entries(found)
      ensures distMap[sorted[t]] == DistanceTo((sorted[t], rVal[sorted[t]]), g, geodesic)
    {
      assert sorted[t] in multiset(IdsOf(found));
      var p :| 0 <= p < |found| && IdsOf(found)[p] == sorted[t];
      assert found[p] in found;
    }
    forall i, j | 0 <= i < j < |result| ensures Closer(result[i], result[j], g, geodesic) {
      assert Precedes(sorted[i], sorted[j], distMap);
    }
    forall f, j | f in found && 0 <= j < |result| && (f.itemId, f.geometry) !in result
      ensures Closer(result[j], (f.itemId, f.geometry), g, geodesic)
    {
      var p :| 0 <= p < |found| && found[p] == f;
      assert IdsOf(found)[p] == f.itemId;
      assert f.itemId in multiset(sorted);
      var q :| 0 <= q < |sorted| && sorted[q] == f.itemId;
      forall t | 0 <= t < k ensures sorted[t] != f.itemId {
        assert result[t] in result;
      }
      assert Precedes(sorted[j], sorted[q], distMap);
    }
  }

  /**
   * The loop over the last round's features: each id goes into `order`, and
   * its geometry and geodesic distance to the query go into `rVal` and
   * `distMap`.  The ids are distinct, so no entry overwrites another.
   */
  method CollectCandidates(containedFeatures: seq<Feature>, g: Geometry, geodesic: Geodesic)
    returns (rVal: map<int, Geometry>, distMap: map<int, real>, order: seq<int>)
    requires forall i, j | 0 <= i < j < |containedFeatures| :: containedFeatures[i].itemId != containedFeatures[j].itemId
    ensures order == IdsOf(containedFeatures)
    ensures forall i, j | 0 <= i < j < |order| :: order[i] != order[j]
    ensures forall id | id in order :: id in rVal && id in distMap
    ensures MapsOf(containedFeatures, rVal, distMap, g, geodesic)
  {
    rVal := map[];
    distMap := map[];
    order := [];
    var i := 0;
    while i < |containedFeatures|
      invariant 0 <= i <= |containedFeatures|
      invariant |order| == i
      invariant forall j | 0 <= j < i :: order[j] == containedFeatures[j].itemId
      invariant forall j | 0 <= j < i ::
        && containedFeatures[j].itemId in rVal && rVal[containedFeatures[j].itemId] == containedFeatures[j].geometry
        && containedFeatures[j].itemId in distMap
        && distMap[containedFeatures[j].itemId] == geodesic(containedFeatures[j].geometry.anchor, g.anchor)
    {
      var f := containedFeatures[i];
      rVal := rVal[f.itemId := f.geometry];
      order := order + [f.itemId];
      distMap := distMap[f.itemId := geodesic(f.geometry.anchor, g.anchor)];
      i := i + 1;
    }
    forall f | f in containedFeatures
      ensures f.itemId in rVal && rVal[f.itemId] == f.geometry
      ensures f.itemId in distMap && distMap[f.itemId] == geodesic(f.geometry.anchor, g.anchor)
    {
      var j :| 0 <= j < |containedFeatures| && containedFeatures[j] == f;
    }
    forall id | id in order ensures id in rVal && id in distMap {
      var j :| 0 <= j < |order| && order[j] == id;
    }
  }

  /** A ranking of the collected ids has as many ids, each with a geometry. */
  lemma RankingKeepsIds(collected: seq<int>, sorted: seq<int>, rVal: map<int, Geometry>)
    requires multiset(sorted) == multiset(collected)
    requires forall id | id in collected :: id in rVal
    ensures |sorted| == |collected|
    ensures forall t | 0 <= t < |sorted| :: sorted[t] in rVal
  {
    assert |multiset(sorted)| == |multiset(collected)|;
    forall t | 0 <= t < |sorted| ensures sorted[t] in rVal {
      var id := sorted[t];
      assert id in multiset(sorted);
      assert id in multiset(collected);
      assert id in collected;
    }
  }

  /** The loop over order.subList(0, k): the first k ids, each with its geometry, in order. */
  method TakeFirst(order: seq<int>, rVal: map<int, Geometry>, k: int) returns (finalRVal: seq<(int, Geometry)>)
    requires 0 <= k <= |order|
    requires forall t | 0 <= t < |order| :: order[t] in rVal
    ensures |finalRVal| == k
    ensures forall t | 0 <= t < k :: finalRVal[t] == (order[t], rVal[order[t]])
  {
    finalRVal := [];
    for j := 0 to k
      invariant |finalRVal| == j
      invariant forall t | 0 <= t < j :: finalRVal[t] == (order[t], rVal[order[t]])
    {
      finalRVal := finalRVal + [(order[j], rVal[order[j]])];
    }
  }

  /**
   * What getKNNeighbors answers: the division by zero of an empty first
   * round; otherwise, over the candidates of the radius the expansion loop
   * stops at, the failure of subList(0, k) when k < 0 or there are fewer
   * than k candidates, and else the k nearest candidates in ascending order.
   */
  ghost predicate KnnOutcome(db: PostGISDB, g: Geometry, k: int, layerName: string, refSysName: string,
                             sqrt: nat -> real, geodesic: Geodesic, r: Result<seq<(int, Geometry)>, KnnError>)
    requires IsSqrt(sqrt)
  {
    && (r == Failure(DivisionByZero) <==> FirstRoundEmpty(db, g, k, layerName, refSysName))
    && (!FirstRoundEmpty(db, g, k, layerName, refSysName) ==>
          var found := Candidates(db, g, layerName, refSysName, Radius(FinalGuess(db, g, k, layerName, refSysName, sqrt), k));
          && (r == Failure(SubListIllegalArgument) <==> k < 0)
          && (r == Failure(SubListIndexOutOfBounds) <==> |found| < k)
          && (r.Success? <==> 0 <= k <= |found|)
          && (r.Success? ==> NearestK(r.value, found, k, g, geodesic)))
  }

  /**
   * getKNNeighbors(Geometry g, int k, layerName, refSysName): the ordered
   * map from id to geometry is a sequence of distinct-id pairs in insertion
   * order.
   */
  method KNNeighbors(db: PostGISDB, g: Geometry, k: int, layerName: string, refSysName: string,
                     sqrt: nat -> real, geodesic: Geodesic)
    returns (r: Result<seq<(int, Geometry)>, KnnError>)
    requires IsSqrt(sqrt)
    requires KeysUnique(db.features)
    ensures KnnOutcome(db, g, k, layerName, refSysName, sqrt, geodesic, r)
  {
    var expansion := ExpandRadius(db, g, k, layerName, refSysName, sqrt);
    if expansion.Failure? {
      return Failure(DivisionByZero);
    }
    var containedFeatures := expansion.value.1;
    assert !FirstRoundEmpty(db, g, k, layerName, refSysName);
    CandidatesAre(db, g, layerName, refSysName, Radius(expansion.value.0, k));
    var rVal, distMap, order := CollectCandidates(containedFeatures, g, geodesic);
    ghost var collected := order;
    order := SortedByDistance(order, distMap);
    RankingKeepsIds(collected, order, rVal);

    if k > |order| {
      return Failure(SubListIndexOutOfBounds);
    }
    if 0 > k {
      return Failure(SubListIllegalArgument);
    }
    var finalRVal := TakeFirst(order, rVal, k);
    RankingPrefixIsNearest(containedFeatures, g, geodesic, rVal, distMap, order, k, finalRVal);
    r := Success(finalRVal);
  }

  /**
   * getKNNeighbors(Integer itemId, ...): looks the item's geometry up and runs
   * the geometry variant with it.  The Java code does not check for a missing
   * geometry and hands null on; the model stops there with NullGeometry.
   */
  method KNNeighborsById(db: PostGISDB, itemId: int, k: int, layerName: string, refSysName: string,
                         sqrt: nat -> real, geodesic: Geodesic)
    returns (r: Result<seq<(int, Geometry)>, KnnError>)
    requires IsSqrt(sqrt)
    requires KeysUnique(db.features)
    ensures GetGeometry(db, itemId, layerName, refSysName).None? ==> r == Failure(NullGeometry)
    ensures GetGeometry(db, itemId, layerName, refSysName).Some? ==>
      KnnOutcome(db, GetGeometry(db, itemId, layerName, refSysName).value, k, layerName, refSysName, sqrt, geodesic, r)
  {
    var stPoint := GetGeometry(db, itemId, layerName, refSysName);
    if stPoint.None? {
      return Failure(NullGeometry);
    }
    r := KNNeighbors(db, stPoint.value, k, layerName, refSysName, sqrt, geodesic);
  }
}
