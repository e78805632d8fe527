/**
 * The annulus search of PostGISSpatialNeighborDao: the ids of the items whose
 * distance from a reference geometry lies in a band, restricted to a
 * reference system and to sub-layers.
 */
module SpatialNeighbors {
  import opened Outcomes
  import opened OgcFilter
  import opened SpatialStore

  /** The DaoExceptions the annulus search raises. */
  datatype DaoError =
    | ItemNotFound(itemId: int, layer: string, refSys: string)
    | NoSubLayers

  /** Kilometres per degree in the km variants' flat conversion. */
  const KmPerDegree: real := 112.0

  /**
   * The four clauses of the annulus filter, stated directly on a row.  The
   * layer clause is a conjunction over the sub-layers, as the filter is built:
   * a row matches only if its layer equals every requested sub-layer.
   */
  predicate InAnnulus(f: Feature, g: Geometry, refSysName: string, subLayers: set<string>,
                      minDist: real, maxDist: real, metric: Metric)
  {
    && f.refSys == refSysName
    && (forall s | s in subLayers :: f.layer == s)
    && metric(f.geometry, g) <= maxDist
    && metric(f.geometry, g) > minDist
  }

  /** The ids of the rows that lie in the annulus. */
  function AnnulusIds(db: PostGISDB, g: Geometry, refSysName: string, subLayers: set<string>,
                      minDist: real, maxDist: real): set<int>
  {
    set f | f in db.features && InAnnulus(f, g, refSysName, subLayers, minDist, maxDist, db.metric) :: f.itemId
  }

  /** What the geometry variant of the annulus search answers. */
  function AnnulusQuery(db: PostGISDB, g: Geometry, refSysName: string, subLayers: set<string>,
                        minDist: real, maxDist: real): (r: Result<set<int>, DaoError>)
    ensures r.Failure? <==> subLayers == {}
    ensures r.Failure? ==> r.error == NoSubLayers
    ensures r.Success? ==> forall id ::
      id in r.value <==> exists f | f in db.features :: f.itemId == id
                                    && InAnnulus(f, g, refSysName, subLayers, minDist, maxDist, db.metric)
  {
    if subLayers == {} then Failure(NoSubLayers)
    else Success(AnnulusIds(db, g, refSysName, subLayers, minDist, maxDist))
  }

  /**
   * The filter tree of the annulus search: reference-system equality, an And of
   * one equality per sub-layer, DWithin(maxDist) and Beyond(minDist), all under
   * one And.  It holds of exactly the rows in the annulus.
   */
  method BuildAnnulusFilter(g: Geometry, refSysName: string, subLayers: set<string>,
                            minDist: real, maxDist: real) returns (filter: Filter)
    ensures forall f: Feature, metric: Metric ::
      Holds(filter, f, metric) <==> InAnnulus(f, g, refSysName, subLayers, minDist, maxDist, metric)
  {
    var refSysFilter := PropertyEquals(RefSysAttr, refSysName);
    var layerFilters: seq<Filter> := [];
    var rest := subLayers;
    while rest != {}
      invariant rest <= subLayers
      invariant forall f: Feature, metric: Metric ::
        Holds(And(layerFilters), f, metric) <==> (forall s | s in subLayers - rest :: f.layer == s)
      decreases rest
    {
      var subLayer :| subLayer in rest;
      var curLayerFilter := PropertyEquals(LayerAttr, subLayer);
      forall f: Feature, metric: Metric
        ensures Holds(And(layerFilters + [curLayerFilter]), f, metric)
                <==> (forall s | s in subLayers - (rest - {subLayer}) :: f.layer == s)
      {
        AndAppend(layerFilters, curLayerFilter, f, metric);
        assert subLayers - (rest - {subLayer}) == (subLayers - rest) + {subLayer};
      }
      layerFilters := layerFilters + [curLayerFilter];
      rest := rest - {subLayer};
    }
    var layerFilter := And(layerFilters);
    var withinFilter := DWithin(g, maxDist);
    var beyondFilter := Beyond(g, minDist);
    var filters := [refSysFilter, layerFilter, withinFilter, beyondFilter];
    filter := And(filters);
    forall f: Feature, metric: Metric
      ensures Holds(filter, f, metric) <==> InAnnulus(f, g, refSysName, subLayers, minDist, maxDist, metric)
    {
      assert filters[0] == refSysFilter && filters[1] == layerFilter;
      assert filters[2] == withinFilter && filters[3] == beyondFilter;
      assert subLayers - {} == subLayers;
    }
  }

  /** A position at which `f` occurs in `features`. */
  lemma PositionOf(features: seq<Feature>, f: Feature) returns (j: nat)
    requires f in features
    ensures j < |features| && features[j] == f
  {
    j :| 0 <= j < |features| && features[j] == f;
  }

  /**
   * getNeighboringItemIds(Geometry, ...): fails when no sub-layer is given,
   * before the store is queried; otherwise the ids of exactly the rows in the
   * annulus, each once.
   */
  method NeighboringItemIds(db: PostGISDB, g: Geometry, refSysName: string, subLayers: set<string>,
                            minDist: real, maxDist: real) returns (r: Result<set<int>, DaoError>)
    ensures r.Failure? <==> subLayers == {}
    ensures r.Failure? ==> r.error == NoSubLayers
    ensures r.Success? ==> forall id ::
      id in r.value <==> exists f | f in db.features :: f.itemId == id
                                    && InAnnulus(f, g, refSysName, subLayers, minDist, maxDist, db.metric)
    ensures r == AnnulusQuery(db, g, refSysName, subLayers, minDist, maxDist)
  {
    if |subLayers| == 0 {
      return Failure(NoSubLayers);
    }
    var filter := BuildAnnulusFilter(g, refSysName, subLayers, minDist, maxDist);
    var containedFeatures := GetFeatures(db, filter);
    var rVal: set<int> := {};
    var i := 0;
    while i < |containedFeatures|
      invariant 0 <= i <= |containedFeatures|
      invariant rVal == set j | 0 <= j < i :: containedFeatures[j].itemId
    {
      rVal := rVal + {containedFeatures[i].itemId};
      i := i + 1;
    }
    ghost var expected := AnnulusIds(db, g, refSysName, subLayers, minDist, maxDist);
    forall id ensures id in rVal <==> id in expected {
      if id in rVal {
        var j :| 0 <= j < i && containedFeatures[j].itemId == id;
        assert containedFeatures[j] in containedFeatures;
      }
      if id in expected {
        var f :| f in db.features && InAnnulus(f, g, refSysName, subLayers, minDist, maxDist, db.metric)
                 && f.itemId == id;
        assert f in containedFeatures;
        var j := PositionOf(containedFeatures, f);
      }
    }
    assert rVal == expected;
    r := Success(rVal);
  }

  /**
   * getNeighboringItemIds(Integer itemId, ...): not-found when the item has no
   * geometry in the given layer and reference system; otherwise exactly what the
   * geometry variant answers for that geometry.
   */
  method NeighboringItemIdsById(db: PostGISDB, itemId: int, layerName: string, refSysName: string,
                                subLayers: set<string>, minDist: real, maxDist: real)
    returns (r: Result<set<int>, DaoError>)
    ensures GetGeometry(db, itemId, layerName, refSysName).None? ==>
      r == Failure(ItemNotFound(itemId, layerName, refSysName))
    ensures GetGeometry(db, itemId, layerName, refSysName).Some? ==>
      r == AnnulusQuery(db, GetGeometry(db, itemId, layerName, refSysName).value, refSysName, subLayers, minDist, maxDist)
  {
    var g := GetGeometry(db, itemId, layerName, refSysName);
    if g.None? {
      return Failure(ItemNotFound(itemId, layerName, refSysName));
    }
    r := NeighboringItemIds(db, g.value, refSysName, subLayers, minDist, maxDist);
  }

  /**
   * getMaxDistanceKmItemIds(Geometry, ...): the annulus search with minimum
   * distance 0 and maximum distance maxKm / 112 in the store's unit.  Because
   * Beyond(0) is strict, rows at distance 0 (the reference geometry itself)
   * are never returned.
   */
  method MaxDistanceKmItemIds(db: PostGISDB, g: Geometry, refSysName: string, subLayers: set<string>,
                              maxKm: real) returns (r: Result<set<int>, DaoError>)
    ensures r == AnnulusQuery(db, g, refSysName, subLayers, 0.0, maxKm / KmPerDegree)
    ensures r.Success? ==> forall id | id in r.value ::
      exists f | f in db.features :: f.itemId == id && f.refSys == refSysName
                                    && 0.0 < db.metric(f.geometry, g) <= maxKm / KmPerDegree
  {
    r := NeighboringItemIds(db, g, refSysName, subLayers, 0.0, maxKm / KmPerDegree);
  }

  /** getMaxDistanceKmItemIds(Integer itemId, ...): the by-id annulus search with the same conversion. */
  method MaxDistanceKmItemIdsById(db: PostGISDB, itemId: int, layerName: string, refSysName: string,
                                  subLayers: set<string>, maxKm: real) returns (r: Result<set<int>, DaoError>)
    ensures GetGeometry(db, itemId, layerName, refSysName).None? ==>
      r == Failure(ItemNotFound(itemId, layerName, refSysName))
    ensures GetGeometry(db, itemId, layerName, refSysName).Some? ==>
      r == AnnulusQuery(db, GetGeometry(db, itemId, layerName, refSysName).value, refSysName, subLayers,
                        0.0, maxKm / KmPerDegree)
  {
    r := NeighboringItemIdsById(db, itemId, layerName, refSysName, subLayers, 0.0, maxKm / KmPerDegree);
  }

  /**
   * Because the sub-layer equalities are joined with And, two different
   * sub-layers can never both match: the search then answers the empty set
   * whatever the store holds.
   */
  lemma TwoSubLayersMatchNothing(db: PostGISDB, g: Geometry, refSysName: string, subLayers: set<string>,
                                 minDist: real, maxDist: real, a: string, b: string)
    requires a in subLayers && b in subLayers && a != b
    ensures AnnulusQuery(db, g, refSysName, subLayers, minDist, maxDist) == Success({})
  {
    var ids := AnnulusIds(db, g, refSysName, subLayers, minDist, maxDist);
    forall f | f in db.features
      ensures !InAnnulus(f, g, refSysName, subLayers, minDist, maxDist, db.metric)
    {
      assert !(f.layer == a && f.layer == b);
    }
    assert ids == {};
  }

  /** With a single sub-layer the layer clause is plain layer equality. */
  lemma SingleSubLayer(f: Feature, g: Geometry, refSysName: string, layer: string,
                       minDist: real, maxDist: real, metric: Metric)
    ensures InAnnulus(f, g, refSysName, {layer}, minDist, maxDist, metric) <==>
      f.refSys == refSysName && f.layer == layer && minDist < metric(f.geometry, g) <= maxDist
  {
  }

  /** Widening the band never loses an item. */
  lemma AnnulusWidens(db: PostGISDB, g: Geometry, refSysName: string, subLayers: set<string>,
                      minDist: real, maxDist: real, minDist': real, maxDist': real)
    requires minDist' <= minDist && maxDist <= maxDist'
    ensures AnnulusIds(db, g, refSysName, subLayers, minDist, maxDist)
            <= AnnulusIds(db, g, refSysName, subLayers, minDist', maxDist')
  {
  }
}
