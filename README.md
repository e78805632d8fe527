# Spatial neighbour search and hourly page-view iteration, modelled in Dafny

This project models two components of WikiBrain.

**The PostGIS spatial neighbour DAO.** It answers two kinds of question about the items of a spatial store:
- an *annulus query*: the ids of items in a reference system and set of sub-layers whose distance to a query geometry lies in `(minDist, maxDist]`;
- an adaptive *k-nearest-neighbour* search: it widens a `DWithin` radius, starting at `0.01 * k` degrees, until at least `k` candidates come back or the radius reaches 180. It then ranks the candidates by geodesic distance and keeps the first `k`.

The filters are trees of OGC Filter Encoding 2.0 (ISO 19143) operators: `PropertyIsEqualTo`, `And`, and the distance operators `DWithin` and `Beyond` of the spatial operators in section 7.8 of ISO 19143. They are evaluated over an abstract store: a sequence of features, each with an item id, a geometry, a layer and a reference system, plus the store's own distance function.

**The page-view iterator.** For each hour of a date range it does three things:
- it probes the Wikimedia dump server for that hour's `pagecounts-yyyyMMdd-HHmmss.gz` file;
- it parses the file's lines, for each language;
- it tallies the views of each local page id, with Java `int` arithmetic.

Files:
- `outcomes.dfy`: the `Option` and `Result` types used for the error paths.
- `ogc_filter.dfy`: the feature record, the `Filter` datatype and its evaluator `Holds`.
- `spatial_store.dfy`: the store. A feature query keeps the store's rows that satisfy a filter; a geometry lookup goes by (item, layer, reference system).
- `spatial_neighbors.dfy`: the annulus filter composer, the annulus query in its four entry points, and the layer-conjunction consequences.
- `knn_ranking.dfy`: the distance ranking. It holds the comparator as written, a counterexample to its contract, and the intended strict order and sort.
- `knn_search.dfy`: the radius expansion loop, collection of the candidates, truncation and the by-id variant.
- `java_text.dfy`: the Java library behaviour the iterator relies on: `Integer.toString`, `Integer.parseInt`, `String.split(" ")` and `int` wrap-around.
- `dump_calendar.dfy`: instants as UTC milliseconds and their Gregorian year, month, day and hour.
- `pageview_iterator.dfy`: the file names, the probe, the line parser and tally, and the `PageViewIterator` class.

Where the code and its documentation disagree, the model follows the code:
- **Sub-layer clause.** The sub-layer equalities are joined with `And`, as written at line 76 of the DAO. So two different sub-layers can never both match, and such a query returns nothing (`SpatialNeighbors.TwoSubLayersMatchNothing`). Reading the sub-layers as "in any of them" would need a disjunction, which the code does not build.
- **Lower distance bound.** `Beyond(minDist)` is strict (distance `> minDist`). So the distance interval is `(minDist, maxDist]`, not closed.
- **Fewer than k candidates.** With fewer than `k` candidates after the expansion, `subList(0, k)` throws. The search fails rather than returning all candidates.
- **Argument checks.** Neither a `k <= 0` nor `minDist > maxDist` is rejected up front. A `k < 0` fails in `subList`. A `k == 0` returns an empty result, and an empty first round with `k == 0` is no error, because the loop is never entered.
- **By-id KNN.** The by-id variant does not check for a missing geometry: it hands `null` on to the geometry variant. The model stops there with `NullGeometry` (see "Left out").

Parameters stand in for the parts of the environment that the code only calls:
- the store's distance (`PostGISDB.metric`);
- `GeodeticCalculator.getOrthodromicDistance` (`geodesic`);
- `Math.sqrt` (`sqrt`, required to be an exact square root);
- `URLDecoder.decode` (`decode`);
- `LocalPageDao.getIdByTitle` (`LocalPageDao.idByTitle`);
- the HTTP HEAD ping and the download-and-unzip of a dump file (`DumpServer`).

A `None` from one of these stands for the exception the Java code catches there.

## Model

| member | source | states |
|---|---|---|
| OgcFilter.Holds | wikibrain-spatial/src/main/java/org/wikibrain/spatial/core/dao/postgis/PostGISSpatialNeighborDao.java:64-88 | The evaluator of a filter tree on one row (no contract of its own): equality of a string column, `DWithin` inclusive, `Beyond` strict, `And` of all children |
| OgcFilter.DWithinBeyondSplit | wikibrain-spatial/src/main/java/org/wikibrain/spatial/core/dao/postgis/PostGISSpatialNeighborDao.java:78-79 | For the same target and distance, a row satisfies `DWithin` exactly when it does not satisfy `Beyond` |
| OgcFilter.AndAppend | wikibrain-spatial/src/main/java/org/wikibrain/spatial/core/dao/postgis/PostGISSpatialNeighborDao.java:70-76 | Adding a child to an `And` filter (as the sub-layer loop does) strengthens it by exactly that child |
| SpatialStore.FilterRows | wikibrain-spatial/src/main/java/org/wikibrain/spatial/core/dao/postgis/PostGISSpatialNeighborDao.java:92-93 | A feature query returns exactly the store rows satisfying the filter, no more rows than the store has, and keeps the rows' keys distinct |
| SpatialStore.GetFeatures | wikibrain-spatial/src/main/java/org/wikibrain/spatial/core/dao/postgis/PostGISSpatialNeighborDao.java:149-150 | `getFeatures(filter)` yields exactly the store's features the filter holds for, with distinct keys when the store's keys are distinct |
| SpatialStore.FindRow | wikibrain-spatial/src/main/java/org/wikibrain/spatial/core/dao/postgis/PostGISSpatialNeighborDao.java:47 | Finds a store row with the given item, layer and reference system, or reports that none exists |
| SpatialStore.GetGeometry | wikibrain-spatial/src/main/java/org/wikibrain/spatial/core/dao/postgis/PostGISSpatialNeighborDao.java:47-48 | `getGeometry` is null exactly when no row has the key; otherwise the geometry is that of a row with the key |
| SpatialNeighbors.BuildAnnulusFilter | wikibrain-spatial/src/main/java/org/wikibrain/spatial/core/dao/postgis/PostGISSpatialNeighborDao.java:64-88 | The composed filter holds for a feature, under any metric, iff the reference system matches, the layer equals every sub-layer, the distance is at most maxDist and it exceeds minDist |
| SpatialNeighbors.AnnulusQuery | wikibrain-spatial/src/main/java/org/wikibrain/spatial/core/dao/postgis/PostGISSpatialNeighborDao.java:56-114 | The answer of the geometry variant: fails with "no layers" iff the sub-layer set is empty, and otherwise holds an id iff some store feature with that id lies in the annulus |
| SpatialNeighbors.NeighboringItemIds | wikibrain-spatial/src/main/java/org/wikibrain/spatial/core/dao/postgis/PostGISSpatialNeighborDao.java:56-114 | Fails with "no layers" iff the sub-layer set is empty; otherwise an id is in the result iff some store feature with that id satisfies all four clauses |
| SpatialNeighbors.NeighboringItemIdsById | wikibrain-spatial/src/main/java/org/wikibrain/spatial/core/dao/postgis/PostGISSpatialNeighborDao.java:46-53 | Item not found iff the geometry lookup fails; otherwise exactly the geometry variant's result for the found geometry |
| SpatialNeighbors.MaxDistanceKmItemIds | wikibrain-spatial/src/main/java/org/wikibrain/spatial/core/dao/postgis/PostGISSpatialNeighborDao.java:228-231 | Equals the annulus query with minDist 0 and maxDist maxKm / 112; every returned id lies at a distance in (0, maxKm / 112] |
| SpatialNeighbors.MaxDistanceKmItemIdsById | wikibrain-spatial/src/main/java/org/wikibrain/spatial/core/dao/postgis/PostGISSpatialNeighborDao.java:223-226 | Not found iff the lookup fails; otherwise the annulus query around the found geometry with minDist 0 and maxDist maxKm / 112 |
| SpatialNeighbors.TwoSubLayersMatchNothing | wikibrain-spatial/src/main/java/org/wikibrain/spatial/core/dao/postgis/PostGISSpatialNeighborDao.java:71-76 | With two different sub-layers, the conjunction of layer equalities leaves the query an empty success |
| SpatialNeighbors.SingleSubLayer | wikibrain-spatial/src/main/java/org/wikibrain/spatial/core/dao/postgis/PostGISSpatialNeighborDao.java:71-88 | With one sub-layer, the filter is the plain conjunction of reference system, layer, DWithin and Beyond |
| SpatialNeighbors.AnnulusWidens | wikibrain-spatial/src/main/java/org/wikibrain/spatial/core/dao/postgis/PostGISSpatialNeighborDao.java:78-79 | Lowering minDist or raising maxDist never loses an id |
| KnnSearch.KnnFilter | wikibrain-spatial/src/main/java/org/wikibrain/spatial/core/dao/postgis/PostGISSpatialNeighborDao.java:137-143 | The filter of a round holds for a row, under any metric, iff its reference system and layer match and its distance to the query is at most the radius |
| KnnSearch.Candidates | wikibrain-spatial/src/main/java/org/wikibrain/spatial/core/dao/postgis/PostGISSpatialNeighborDao.java:148-150 | The rows `getFeatures` returns for a round's filter (no contract of its own; see `CandidatesAre`) |
| KnnSearch.CandidatesAre | wikibrain-spatial/src/main/java/org/wikibrain/spatial/core/dao/postgis/PostGISSpatialNeighborDao.java:124-150 | A round's candidates are exactly the store features with the reference system and layer, within the radius of the query geometry; their ids are distinct when the store's keys are |
| KnnSearch.CandidatesGrow | wikibrain-spatial/src/main/java/org/wikibrain/spatial/core/dao/postgis/PostGISSpatialNeighborDao.java:151-159 | A larger radius keeps every candidate of a smaller one |
| KnnSearch.GrowthFactor | wikibrain-spatial/src/main/java/org/wikibrain/spatial/core/dao/postgis/PostGISSpatialNeighborDao.java:152 | The growth factor (1.3 * sqrt(k / count) for an integer quotient above 2, else 2) is at least 2 |
| KnnSearch.SqrtOfThreeOrMore | wikibrain-spatial/src/main/java/org/wikibrain/spatial/core/dao/postgis/PostGISSpatialNeighborDao.java:152 | For the exact square root s of an integer of at least 3, 1.3 * s is at least 2 |
| KnnSearch.Grown | wikibrain-spatial/src/main/java/org/wikibrain/spatial/core/dao/postgis/PostGISSpatialNeighborDao.java:152 | The next guess, guess times the growth factor (no contract of its own; its growth is stated by `GrowthStep`) |
| KnnSearch.GuessFloorPastBound | wikibrain-spatial/src/main/java/org/wikibrain/spatial/core/dao/postgis/PostGISSpatialNeighborDao.java:151 | 0.01 * 2^n is at least 180 for every n >= 15, so with k >= 1 a guess that has doubled 15 times no longer has a radius below 180 |
| KnnSearch.GrowthStep | wikibrain-spatial/src/main/java/org/wikibrain/spatial/core/dao/postgis/PostGISSpatialNeighborDao.java:151-152 | A round entered with a radius below 180 and a guess of at least 0.01 * 2^n leaves a guess of at least 0.01 * 2^(n+1), with n + 1 at most 15 |
| KnnSearch.RadiusGrows | wikibrain-spatial/src/main/java/org/wikibrain/spatial/core/dao/postgis/PostGISSpatialNeighborDao.java:152-153 | A larger guess gives a radius at least as large for positive k |
| KnnSearch.ExpansionRound | wikibrain-spatial/src/main/java/org/wikibrain/spatial/core/dao/postgis/PostGISSpatialNeighborDao.java:151-159 | A round entered with candidates and a radius below 180 grows the guess to at least 0.01 * 2^(n+1) with n + 1 at most 15, and the grown radius still retrieves candidates |
| KnnSearch.Expansion | wikibrain-spatial/src/main/java/org/wikibrain/spatial/core/dao/postgis/PostGISSpatialNeighborDao.java:151-159 | The run of the expansion loop as a function of the store and k: the guess and round count it stops at (no contract of its own; see the four lemmas below) |
| KnnSearch.ExpansionContinues | wikibrain-spatial/src/main/java/org/wikibrain/spatial/core/dao/postgis/PostGISSpatialNeighborDao.java:151-159 | A round that has to run moves the run on to the grown guess and the next round |
| KnnSearch.ExpansionStops | wikibrain-spatial/src/main/java/org/wikibrain/spatial/core/dao/postgis/PostGISSpatialNeighborDao.java:151 | A round with k candidates, a radius of 180 or no candidate ends the run where it is |
| KnnSearch.ExpansionBounds | wikibrain-spatial/src/main/java/org/wikibrain/spatial/core/dao/postgis/PostGISSpatialNeighborDao.java:151-152 | A run ends after at most 15 rounds in all, with a guess at least as large as where it started and at least 0.01 * 2^rounds |
| KnnSearch.ExpansionFrom | wikibrain-spatial/src/main/java/org/wikibrain/spatial/core/dao/postgis/PostGISSpatialNeighborDao.java:151-159 | A run ends on a round with k candidates, a radius of at least 180 or no candidate, and never on an empty round if it started with candidates |
| KnnSearch.FinalGuess | wikibrain-spatial/src/main/java/org/wikibrain/spatial/core/dao/postgis/PostGISSpatialNeighborDao.java:131-160 | The guess the loop stops at, starting from 0.01 (no contract of its own; see `ExpansionEnds` and `ExpandRadius`) |
| KnnSearch.ExpansionEnds | wikibrain-spatial/src/main/java/org/wikibrain/spatial/core/dao/postgis/PostGISSpatialNeighborDao.java:131-160 | Unless the first round divides by zero, the loop ends within 15 rounds on a radius with at least k candidates or of at least 180, never below the first radius, and does not run at all for k <= 0 |
| KnnSearch.ExpandRadius | wikibrain-spatial/src/main/java/org/wikibrain/spatial/core/dao/postgis/PostGISSpatialNeighborDao.java:131-160 | Division by zero iff k > 0, 0.01 * k < 180 and the first round is empty; otherwise exactly the guess `FinalGuess` of the inputs and the candidates of its radius |
| KnnSearch.CollectCandidates | wikibrain-spatial/src/main/java/org/wikibrain/spatial/core/dao/postgis/PostGISSpatialNeighborDao.java:162-184 | `order` lists the candidate ids in store order; `rVal` maps each to its own geometry and `distMap` to its geodesic distance to the query |
| KnnSearch.RankingKeepsIds | wikibrain-spatial/src/main/java/org/wikibrain/spatial/core/dao/postgis/PostGISSpatialNeighborDao.java:186-208 | A reordering of the collected ids has as many ids as were collected, each one with a geometry in `rVal` |
| KnnSearch.TakeFirst | wikibrain-spatial/src/main/java/org/wikibrain/spatial/core/dao/postgis/PostGISSpatialNeighborDao.java:206-208 | The loop over `subList(0, k)` puts exactly the first k ranked ids, in ranking order, each with its own geometry from `rVal` |
| KnnSearch.RankingPrefixIsNearest | wikibrain-spatial/src/main/java/org/wikibrain/spatial/core/dao/postgis/PostGISSpatialNeighborDao.java:186-208 | The first k ids of the ascending ranking, each paired with its geometry, are k candidates in ascending order, and no left-out candidate is nearer than a kept one |
| KnnSearch.KNNeighbors | wikibrain-spatial/src/main/java/org/wikibrain/spatial/core/dao/postgis/PostGISSpatialNeighborDao.java:117-221 | Division by zero iff the first round is empty while the loop must run; otherwise, over the candidates of the radius of `FinalGuess`, subList fails iff k < 0 or there are fewer than k of them, and else the result is exactly k of them with their own geometries, the k nearest, in ascending order |
| KnnSearch.KNNeighborsById | wikibrain-spatial/src/main/java/org/wikibrain/spatial/core/dao/postgis/PostGISSpatialNeighborDao.java:233-239 | With a geometry for the item, exactly the geometry variant's outcome for it; a missing geometry ends in NullGeometry, which stands for the unmodelled search around `null` |
| KnnRanking.PrecedesIsStrictTotalOrder | wikibrain-spatial/src/main/java/org/wikibrain/spatial/core/dao/postgis/PostGISSpatialNeighborDao.java:186-204 | The intended order (distance, then id) is irreflexive, asymmetric, transitive and total on distinct ids |
| KnnRanking.Insert | wikibrain-spatial/src/main/java/org/wikibrain/spatial/core/dao/postgis/PostGISSpatialNeighborDao.java:186 | Inserting an id into an ascending ranking keeps it ascending and adds exactly that id |
| KnnRanking.SortedByDistance | wikibrain-spatial/src/main/java/org/wikibrain/spatial/core/dao/postgis/PostGISSpatialNeighborDao.java:186-204 | The corrected sort returns a permutation of the ids in strictly ascending (distance, id) order |
| KnnRanking.AscendingTail | wikibrain-spatial/src/main/java/org/wikibrain/spatial/core/dao/postgis/PostGISSpatialNeighborDao.java:186-204 | The tail of an ascending ranking is ascending |
| KnnRanking.AscendingSameHead | wikibrain-spatial/src/main/java/org/wikibrain/spatial/core/dao/postgis/PostGISSpatialNeighborDao.java:186-204 | Two ascending rankings of the same ids start with the same id |
| KnnRanking.AscendingIsUnique | wikibrain-spatial/src/main/java/org/wikibrain/spatial/core/dao/postgis/PostGISSpatialNeighborDao.java:186-204 | There is only one ascending ranking of a set of ids, so the kept prefix does not depend on the sort algorithm |
| KnnRanking.ComparatorAsWritten | wikibrain-spatial/src/main/java/org/wikibrain/spatial/core/dao/postgis/PostGISSpatialNeighborDao.java:188-203 | The comparator as written answers only 0 or 1, and 0 exactly when the first distance is the smaller |
| KnnRanking.ComparatorAsWrittenIsNotAntisymmetric | wikibrain-spatial/src/main/java/org/wikibrain/spatial/core/dao/postgis/PostGISSpatialNeighborDao.java:188-203 | For any two distinct ids, compare(a, b) and compare(b, a) violate sgn(compare(a, b)) == -sgn(compare(b, a)) |
| KnnRanking.ComparatorAsWrittenCounterexample | wikibrain-spatial/src/main/java/org/wikibrain/spatial/core/dao/postgis/PostGISSpatialNeighborDao.java:195-197 | With distances 1.0 and 2.0, compare(1, 2) == 0 (equal) yet compare(2, 1) == 1 |
| KnnRanking.CompareIntended | wikibrain-spatial/src/main/java/org/wikibrain/spatial/core/dao/postgis/PostGISSpatialNeighborDao.java:188-203 | The corrected comparator is negative iff a precedes b and positive iff b precedes a |
| KnnRanking.CompareIntendedIsAntisymmetric | wikibrain-spatial/src/main/java/org/wikibrain/spatial/core/dao/postgis/PostGISSpatialNeighborDao.java:188-203 | The corrected comparator meets sgn(compare(a, b)) == -sgn(compare(b, a)) |
| JavaText.Wrap32 | wikibrain-pageview/src/main/java/org/wikibrain/pageview/PageViewIterator.java:254 | Reduction to the int range: the result is an int, congruent to the input modulo 2^32, and an int is left alone |
| JavaText.Wrap32Add | wikibrain-pageview/src/main/java/org/wikibrain/pageview/PageViewIterator.java:254 | Wrapping after every addition equals wrapping the exact sum once |
| JavaText.IntToString | wikibrain-pageview/src/main/java/org/wikibrain/pageview/PageViewIterator.java:148 | `Integer.toString` (no contract of its own; see `IntToStringForm` and `ParseIntOfIntToString`) |
| JavaText.IntToStringForm | wikibrain-pageview/src/main/java/org/wikibrain/pageview/PageViewIterator.java:148 | `Integer.toString` writes at least one character, a leading minus exactly for negative numbers, and digits after it |
| JavaText.NatToString | wikibrain-pageview/src/main/java/org/wikibrain/pageview/PageViewIterator.java:190 | Decimal digits of a natural number: at least one digit, and a single digit exactly below 10 |
| JavaText.DigitsOfNat | wikibrain-pageview/src/main/java/org/wikibrain/pageview/PageViewIterator.java:190 | Reading back the digits of a number gives the number |
| JavaText.NatToStringNoLeadingZero | wikibrain-pageview/src/main/java/org/wikibrain/pageview/PageViewIterator.java:190 | The digits of a positive number do not start with 0 |
| JavaText.NatToStringWidth | wikibrain-pageview/src/main/java/org/wikibrain/pageview/PageViewIterator.java:148-151 | Numbers of 10 to 99 have two digits; years of 1000 to 9999 have four |
| JavaText.ParseInt | wikibrain-pageview/src/main/java/org/wikibrain/pageview/PageViewIterator.java:253 | `Integer.parseInt` yields only ints and rejects the empty string |
| JavaText.ParseIntNegative | wikibrain-pageview/src/main/java/org/wikibrain/pageview/PageViewIterator.java:253 | `Integer.parseInt` of a minus sign and digits is the negated value of the digits when that is an int |
| JavaText.ParseIntOfIntToString | wikibrain-pageview/src/main/java/org/wikibrain/pageview/PageViewIterator.java:253 | `Integer.parseInt(Integer.toString(n)) == n` for every int |
| JavaText.LeadingZeroValue | wikibrain-pageview/src/main/java/org/wikibrain/pageview/PageViewIterator.java:191-193 | A leading "0" does not change the value of a digit string |
| JavaText.SplitAll | wikibrain-pageview/src/main/java/org/wikibrain/pageview/PageViewIterator.java:245 | Cutting a line at every space gives at least one piece, none containing a space |
| JavaText.JoinSplitAll | wikibrain-pageview/src/main/java/org/wikibrain/pageview/PageViewIterator.java:245 | Joining the pieces with single spaces gives back the line |
| JavaText.DropTrailingEmpty | wikibrain-pageview/src/main/java/org/wikibrain/pageview/PageViewIterator.java:245 | Removes exactly the trailing empty pieces: a prefix remains, ending in a non-empty piece unless nothing is left |
| JavaText.Split | wikibrain-pageview/src/main/java/org/wikibrain/pageview/PageViewIterator.java:245 | `split(" ")` of a line without spaces is the line itself; otherwise the pieces between spaces, minus trailing empty ones |
| DumpCalendar.CivilFromDays | wikibrain-pageview/src/main/java/org/wikibrain/pageview/PageViewIterator.java:148-151 | The Gregorian date of a day number has a month of 1 to 12 and a day of 1 to 31 |
| DumpCalendar.CivilOf | wikibrain-pageview/src/main/java/org/wikibrain/pageview/PageViewIterator.java:148-151 | An instant's year, month, day and hour lie in their calendar ranges |
| DumpCalendar.FirstDumpIsDecemberNinth2007 | wikibrain-pageview/src/main/java/org/wikibrain/pageview/PageViewIterator.java:64 | The first-dump instant is 2007-12-09 18:00 |
| PageView.TwoDigIntStr | wikibrain-pageview/src/main/java/org/wikibrain/pageview/PageViewIterator.java:189-195 | Pads a number below 10 with a "0" (no contract of its own; see `TwoDigIntStrRoundTrip`) |
| PageView.TwoDigIntStrRoundTrip | wikibrain-pageview/src/main/java/org/wikibrain/pageview/PageViewIterator.java:189-195 | For 0 to 99: two characters, starting with "0" exactly below 10, and parsing back to the number |
| PageView.TwoDigIntStrInjective | wikibrain-pageview/src/main/java/org/wikibrain/pageview/PageViewIterator.java:189-195 | Different numbers of 0 to 99 give different two-digit strings |
| PageView.HomeFolder | wikibrain-pageview/src/main/java/org/wikibrain/pageview/PageViewIterator.java:148-154 | The year and month folder of an hour on the dump server (no contract of its own; see `DumpUrlInjective`) |
| PageView.DumpFileName | wikibrain-pageview/src/main/java/org/wikibrain/pageview/PageViewIterator.java:148-160 | The `pagecounts-yyyyMMdd-HHmmss.gz` name of an hour, minute and second (no contract of its own; see `DumpFileNameLength` and `DumpFileNameInjective`) |
| PageView.DumpUrl | wikibrain-pageview/src/main/java/org/wikibrain/pageview/PageViewIterator.java:154-161 | The URL pinged for a minute and second: the folder followed by the file name (no contract of its own; see `DumpUrlInjective`) |
| PageView.AppendCancel | wikibrain-pageview/src/main/java/org/wikibrain/pageview/PageViewIterator.java:160 | Concatenations with equally long first parts are equal only part by part |
| PageView.DumpFileNameLength | wikibrain-pageview/src/main/java/org/wikibrain/pageview/PageViewIterator.java:148-160 | The file name of an hour with a four-digit year has 29 characters |
| PageView.DumpFileNameInjective | wikibrain-pageview/src/main/java/org/wikibrain/pageview/PageViewIterator.java:148-160 | Different (year, month, day, hour, minute, second) never give the same file name |
| PageView.DumpUrlInjective | wikibrain-pageview/src/main/java/org/wikibrain/pageview/PageViewIterator.java:148-161 | Different (hour, minute, second) of nameable hours never share a probed URL |
| PageView.ProbeSeconds | wikibrain-pageview/src/main/java/org/wikibrain/pageview/PageViewIterator.java:157-165 | The inner probe from a second on: the first answered second decides by its download (no contract of its own; see `ProbeSecondsServed` and `ProbeSecondsFinds`) |
| PageView.ProbeFrom | wikibrain-pageview/src/main/java/org/wikibrain/pageview/PageViewIterator.java:156-166 | The outer probe from a minute on: the first minute that yields a file (no contract of its own; see `ProbeServed` and `ProbeFinds`) |
| PageView.ProbeSecondsServed | wikibrain-pageview/src/main/java/org/wikibrain/pageview/PageViewIterator.java:157-165 | A file found within a minute was answered for and served under some second of it |
| PageView.ProbeServed | wikibrain-pageview/src/main/java/org/wikibrain/pageview/PageViewIterator.java:156-166 | A file the probe finds was answered for and served under some minute and second of the hour |
| PageView.ProbeSecondsFinds | wikibrain-pageview/src/main/java/org/wikibrain/pageview/PageViewIterator.java:157-165 | If the server serves what it answers for, a minute finds nothing iff none of its seconds answers |
| PageView.ProbeFinds | wikibrain-pageview/src/main/java/org/wikibrain/pageview/PageViewIterator.java:156-166 | If the server serves what it answers for, the hour's probe finds nothing iff no URL of the hour answers |
| PageView.LineEntry | wikibrain-pageview/src/main/java/org/wikibrain/pageview/PageViewIterator.java:245-262 | The views a line contributes are a Java int; a line contributes only when it has three columns, the language matches, the title decodes, `getIdByTitle` does not throw and the count parses |
| PageView.Tally | wikibrain-pageview/src/main/java/org/wikibrain/pageview/PageViewIterator.java:244-256 | The counts after the lines in order, each line's entry applied by `AdjustOrPut` (no contract of its own; see `TallyKeys` and `TallyIsWrappedSum`) |
| PageView.AdjustOrPut | wikibrain-pageview/src/main/java/org/wikibrain/pageview/PageViewIterator.java:254 | `adjustOrPutValue(id, views, views)`: no entry changes nothing; an entry adds its page to the keys, leaves every other page's count alone and keeps an int count when the views are an int |
| PageView.TallyKeys | wikibrain-pageview/src/main/java/org/wikibrain/pageview/PageViewIterator.java:244-256 | A page id has a count iff some line of the language names it with a title that decodes, for which `getIdByTitle` does not throw and returns that id, and with an int count |
| PageView.TallyIsWrappedSum | wikibrain-pageview/src/main/java/org/wikibrain/pageview/PageViewIterator.java:244-256 | A page's count is the sum of its views over all contributing lines, reduced to the int range |
| PageView.DumpCountsAreWrappedSums | wikibrain-pageview/src/main/java/org/wikibrain/pageview/PageViewIterator.java:236-267 | Both facts hold for the counts parsed from a dump for a language |
| PageView.HoursLeftIsCeiling | wikibrain-pageview/src/main/java/org/wikibrain/pageview/PageViewIterator.java:124-127 | A range [current, end) allows ceil((end - current) / 1 hour) calls of next() |
| PageView.PageViewIterator.Init | wikibrain-pageview/src/main/java/org/wikibrain/pageview/PageViewIterator.java:59-68 | Stores the languages, start, end and page store; no data is held yet |
| PageView.PageViewIterator.Open | wikibrain-pageview/src/main/java/org/wikibrain/pageview/PageViewIterator.java:59-68 | Fails iff the start lies before 2007-12-09 18:00; otherwise a fresh iterator over [start, end) |
| PageView.PageViewIterator.OpenLanguage | wikibrain-pageview/src/main/java/org/wikibrain/pageview/PageViewIterator.java:70-79 | The same for a single language |
| PageView.PageViewIterator.ForHour | wikibrain-pageview/src/main/java/org/wikibrain/pageview/PageViewIterator.java:81-86 | Unchecked: the range is [currentDate, currentDate + 1 hour), one next() long |
| PageView.PageViewIterator.HasNext | wikibrain-pageview/src/main/java/org/wikibrain/pageview/PageViewIterator.java:124-127 | `hasNext()` holds iff the range still allows a call of `next()` |
| PageView.PageViewIterator.ParsePageViewData | wikibrain-pageview/src/main/java/org/wikibrain/pageview/PageViewIterator.java:236-273 | The loop over the lines computes the tally of the lines for the language |
| PageView.PageViewIterator.ParseLine | wikibrain-pageview/src/main/java/org/wikibrain/pageview/PageViewIterator.java:245-254 | One pass of the line loop adds the line's entry to the counts: nothing for a short, foreign or unreadable line, otherwise the page's count adjusted by its views |
| PageView.PageViewIterator.FindDumpFile | wikibrain-pageview/src/main/java/org/wikibrain/pageview/PageViewIterator.java:154-166 | The nested minute and second loops with their break compute the probe of the hour |
| PageView.PageViewIterator.HourStructs | wikibrain-pageview/src/main/java/org/wikibrain/pageview/PageViewIterator.java:174-180 | One struct per language, in order, each covering [start, start + 1 hour) |
| PageView.PageViewIterator.ParseHour | wikibrain-pageview/src/main/java/org/wikibrain/pageview/PageViewIterator.java:175-181 | The loop over the languages builds exactly the hour's structs, one per language in order, each holding the language's tally of the dump |
| PageView.PageViewIterator.GetPageViewData | wikibrain-pageview/src/main/java/org/wikibrain/pageview/PageViewIterator.java:136-187 | Null and no change once the range is done; otherwise currentDate advances exactly one hour, both when the dump is missing and when the hour's structs are returned |
| PageView.PageViewIterator.Next | wikibrain-pageview/src/main/java/org/wikibrain/pageview/PageViewIterator.java:98-115 | NoSuchElement and no change when hasNext() is false; otherwise one hour consumed, and the hour's data returned and stored, or the stored data returned unchanged when the dump is missing |

## Left out

- Database and network failures (`IOException` from the feature source and from file reading) are not modelled. The store, the server and the dump file always answer.
- Floating point is not modelled: distances, radii and `Math.sqrt` are exact reals. IEEE rounding of `0.01 * k`, of the growth factor and of `maxDist / 112` is left out.
- `GeodeticCalculator` is a parameter from anchor coordinates to a real. Its argument range checks and exceptions are not modelled.
- The GeoTools `FilterFactory2`, `FeatureSource` and `FeatureIterator` are replaced by the `Filter` datatype and the store functions. The `"4396"` units argument of `dwithin` and `beyond` is left out, as the store metric decides distance.
- KnnSearch.KNNeighborsById: `NullGeometry` is not an exception of the Java code. When the item has no geometry, the code passes `null` on to the geometry variant, and what the store and GeoTools do with a `null` literal geometry is outside the code. The model stops with `NullGeometry` in its place.
- KnnSearch.KNNeighbors: requires the store to hold at most one row per (item, layer, reference system). With duplicate rows, the Java maps would overwrite entries while `order` kept duplicates, and that case is not modelled.
- Java's `Collections.sort` running the comparator as written is not modelled step by step. Since Java 7 it is a TimSort. The comparator never answers "less than", so TimSort's first run scan (`countRunAndMakeAscending`) takes the whole list as one ascending run, and nothing is reordered or merged. As written, `order` therefore stays in store order, and the search returns the first k candidates in store order rather than the k nearest. The model sorts with the corrected order (see Findings).
- Joda time zones: instants are taken in UTC, so `plusHours(1)` adds exactly 3,600,000 ms. Calendar fields use the proleptic Gregorian calendar.
- `Integer.parseInt` accepts ASCII digits only here. Other Unicode decimal digits, which Java also accepts, are left out.
- The temporary download folder, the file cache, ungzipping, deleting files, `System.out` printing and `printStackTrace` are not modelled.
- `ping` is a predicate on URLs. Its `https` rewrite, its timeouts and its `IllegalArgumentException` for a malformed URL are not modelled.
- `remove()` always throws `UnsupportedOperationException` and is not modelled.
- The `Provider` inner class (configuration wiring) is not modelled.
- MetricTrainer.java is not part of this model.
- `LanguageSet` is a sequence of languages in iteration order.
- `ConfigurationException` is never thrown by the code shown, so it is not modelled.
- PageView.PageViewIterator.Next: a `WikiBrainException` thrown while reading a found dump is not modelled. In Java it would also leave `currentDate` where it was.

## Findings

| source | as written | input that shows it | evidently intended | confidence | as-written member | corrected member |
|---|---|---|---|---|---|---|
| wikibrain-spatial/src/main/java/org/wikibrain/spatial/core/dao/postgis/PostGISSpatialNeighborDao.java:188-203 | The comparator returns 0 when the first distance is smaller and 1 otherwise. It never answers "less than", and it is not antisymmetric, which breaks the `Comparator` contract that `Collections.sort` relies on. On TimSort the whole list reads as one ascending run, so `order` keeps the store order and the search returns the first k candidates in store order. | Distances {1: 1.0, 2: 2.0}: compare(1, 2) == 0 but compare(2, 1) == 1 | An ascending order on distance, ties broken by id | not executed | KnnRanking.ComparatorAsWrittenIsNotAntisymmetric | KnnRanking.SortedByDistance |
