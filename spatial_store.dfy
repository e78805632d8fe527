/**
 * The PostGIS-backed store as the neighbour search sees it: a table of rows,
 * the query FeatureSource.getFeatures(filter) and the lookup
 * PostGISDB.getGeometry(itemId, layer, refSys).  The store itself is outside
 * the model; these functions are the behaviour the search relies on.
 */
module SpatialStore {
  import opened Outcomes
  import opened OgcFilter

  /** The table's rows, in the order the store returns them, and its distance. */
  datatype PostGISDB = PostGISDB(features: seq<Feature>, metric: Metric)

  /** The table's key: one row per item, layer and reference system. */
  predicate KeysUnique(rows: seq<Feature>)
  {
    forall i, j | 0 <= i < j < |rows| ::
      rows[i].itemId != rows[j].itemId || rows[i].layer != rows[j].layer || rows[i].refSys != rows[j].refSys
  }

  /** The rows of `rows` that satisfy `filter`, keeping their order. */
  function FilterRows(rows: seq<Feature>, filter: Filter, metric: Metric): (r: seq<Feature>)
    ensures forall x :: x in r <==> x in rows && Holds(filter, x, metric)
    ensures |r| <= |rows|
    ensures KeysUnique(rows) ==> KeysUnique(r)
  {
    if rows == [] then []
    else
      var rest := FilterRows(rows[1..], filter, metric);
      assert KeysUnique(rows) ==> KeysUnique(rows[1..]) by {
        if KeysUnique(rows) {
          forall i, j | 0 <= i < j < |rows[1..]|
            ensures rows[1..][i].itemId != rows[1..][j].itemId || rows[1..][i].layer != rows[1..][j].layer
                    || rows[1..][i].refSys != rows[1..][j].refSys
          {
            assert rows[1..][i] == rows[i + 1] && rows[1..][j] == rows[j + 1];
          }
        }
      }
      if Holds(filter, rows[0], metric) then
        assert KeysUnique(rows) ==> KeysUnique([rows[0]] + rest) by {
          if KeysUnique(rows) {
            forall j | 0 <= j < |rest|
              ensures rows[0].itemId != rest[j].itemId || rows[0].layer != rest[j].layer || rows[0].refSys != rest[j].refSys
            {
              assert rest[j] in rows[1..];
              var p :| 0 <= p < |rows[1..]| && rows[1..][p] == rest[j];
              assert rows[p + 1] == rest[j];
            }
            var s := [rows[0]] + rest;
            forall i, j | 0 <= i < j < |s|
              ensures s[i].itemId != s[j].itemId || s[i].layer != s[j].layer || s[i].refSys != s[j].refSys
            {
              if i == 0 {
                assert s[j] == rest[j - 1];
              } else {
                assert s[i] == rest[i - 1] && s[j] == rest[j - 1];
              }
            }
          }
        }
        [rows[0]] + rest
      else rest
  }

  /** FeatureSource.getFeatures(filter): every row that satisfies the filter, each once. */
  function GetFeatures(db: PostGISDB, filter: Filter): (r: seq<Feature>)
    ensures forall x :: x in r <==> x in db.features && Holds(filter, x, db.metric)
    ensures KeysUnique(db.features) ==> KeysUnique(r)
  {
    FilterRows(db.features, filter, db.metric)
  }

  /** The first row of `rows` with the given key, if there is one. */
  function FindRow(rows: seq<Feature>, itemId: int, layer: string, refSys: string): (r: Option<Feature>)
    ensures r.Some? ==> r.value in rows && r.value.itemId == itemId && r.value.layer == layer && r.value.refSys == refSys
    ensures r.None? ==> forall x | x in rows :: x.itemId != itemId || x.layer != layer || x.refSys != refSys
  {
    if rows == [] then None
    else if rows[0].itemId == itemId && rows[0].layer == layer && rows[0].refSys == refSys then Some(rows[0])
    else FindRow(rows[1..], itemId, layer, refSys)
  }

  /**
   * PostGISDB.getGeometry(itemId, layer, refSys): the geometry of the row with
   * that key, or `None` (Java's null) when the table has no such row.
   */
  function GetGeometry(db: PostGISDB, itemId: int, layer: string, refSys: string): (r: Option<Geometry>)
    ensures r.None? <==> forall x | x in db.features :: x.itemId != itemId || x.layer != layer || x.refSys != refSys
    ensures r.Some? ==> Feature(itemId, r.value, layer, refSys) in db.features
  {
    match FindRow(db.features, itemId, layer, refSys)
    case None => None
    case Some(row) => Some(row.geometry)
  }
}
