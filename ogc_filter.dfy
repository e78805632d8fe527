/**
 * The predicate language the spatial store understands: the comparison,
 * distance and logical operators of OGC Filter Encoding 2.0 (ISO 19143),
 * as GeoTools' FilterFactory2 builds them.  Only the operators the
 * neighbour search uses are modelled: PropertyIsEqualTo, DWithin and
 * Beyond (section 7.8.3 of ISO 19143) and And (section 7.10).
 */
module OgcFilter {

  /** A JTS coordinate: x is the longitude, y the latitude. */
  datatype Coordinate = Coordinate(x: real, y: real)

  /**
   * A JTS geometry.  `anchor` is the coordinate that getCoordinate() yields
   * (the point itself, or the first vertex of a line or polygon); the other
   * vertices matter only to the store's own distance.
   */
  datatype Geometry = Geometry(anchor: Coordinate, vertices: seq<Coordinate>)

  /** One row of the spatial table: an item's geometry in one layer and reference system. */
  datatype Feature = Feature(itemId: int, geometry: Geometry, layer: string, refSys: string)

  /** The two string-valued columns the search compares against literals. */
  datatype Attribute = RefSysAttr | LayerAttr

  /** The distance the store evaluates DWithin and Beyond with, in its native unit. */
  type Metric = (Geometry, Geometry) -> real

  datatype Filter =
    | PropertyEquals(attr: Attribute, literal: string)
    | DWithin(target: Geometry, distance: real)
    | Beyond(target: Geometry, distance: real)
    | And(children: seq<Filter>)

  function AttributeValue(f: Feature, a: Attribute): string
  {
    match a
    case RefSysAttr => f.refSys
    case LayerAttr => f.layer
  }

  /**
   * Whether a row satisfies a filter.  DWithin is inclusive and Beyond is its
   * complement (strictly farther), as ISO 19143 defines them; an And holds
   * when every child holds, so an And without children holds of every row.
   */
  predicate Holds(filter: Filter, f: Feature, metric: Metric)
    decreases filter
  {
    match filter
    case PropertyEquals(a, v) => AttributeValue(f, a) == v
    case DWithin(t, d) => metric(f.geometry, t) <= d
    case Beyond(t, d) => metric(f.geometry, t) > d
    case And(cs) => forall i | 0 <= i < |cs| :: Holds(cs[i], f, metric)
  }

  /** DWithin and Beyond with the same target and distance split the rows: exactly one holds. */
  lemma DWithinBeyondSplit(t: Geometry, d: real, f: Feature, metric: Metric)
    ensures Holds(DWithin(t, d), f, metric) <==> !Holds(Beyond(t, d), f, metric)
  {
  }

  /** Appending one child to an And adds that child's condition to the conjunction. */
  lemma AndAppend(cs: seq<Filter>, c: Filter, f: Feature, metric: Metric)
    ensures Holds(And(cs + [c]), f, metric) <==> Holds(And(cs), f, metric) && Holds(c, f, metric)
  {
    var ds := cs + [c];
    assert forall i | 0 <= i < |cs| :: ds[i] == cs[i];
    assert ds[|cs|] == c;
  }
}
