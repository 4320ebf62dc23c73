/**
 `project_canonical_telemetry`: the canonical pass over a typed frame. Aliases become points that
 name what they were computed from and are fresh only when all of that is fresh.
 */
module Projection {
  import opened Numbers
  import opened Text
  import opened Keys
  import opened Telemetry
  import opened CanonicalTable
  import opened Canonical
  import opened CanonicalWalk

  type PointMap = map<Key, Point>

  /** Every key maps to a valid point of its own. */
  predicate GoodPoints(points: PointMap) {
    forall k :: k in points ==> points[k].key == k && ValidPoint(points[k])
  }

  predicate AllFresh(points: PointMap, keys: seq<Key>)
    requires forall k :: k in keys ==> k in points
  {
    forall k :: k in keys ==> points[k].freshness == Fresh
  }

  /** An alias is dropped unless it is a scalar with at least one source and all sources are points. */
  predicate Projectable(points: PointMap, c: Computation) {
    IsScalar(c.value) && c.sources != [] && forall k :: k in c.sources ==> k in points
  }

  function AliasPoint(points: PointMap, c: Computation): Point
    requires Projectable(points, c)
  {
    Point(c.key, c.value, if AllFresh(points, c.sources) then Fresh else Carried, Canonical, c.sources)
  }

  /** The point of an alias says what was computed, from what, and is fresh when all of that is. */
  lemma AliasPointSays(points: PointMap, c: Computation)
    requires Projectable(points, c)
    ensures var p := AliasPoint(points, c);
      && p.key == c.key && p.value == c.value && p.sources == c.sources && p.origin == Canonical
      && (p.freshness == Fresh <==> forall i :: 0 <= i < |c.sources| ==> points[c.sources[i]].freshness == Fresh)
  {
    forall i | 0 <= i < |c.sources| ensures c.sources[i] in points { assert c.sources[i] in c.sources; }
  }

  function AddAliases(points: PointMap, computations: seq<Computation>): PointMap {
    if computations == [] then points
    else
      var before := AddAliases(points, computations[..|computations| - 1]);
      var c := computations[|computations| - 1];
      if Projectable(before, c) then before[c.key := AliasPoint(before, c)] else before
  }

  function Projected(driver: Driver, pack: Option<Pack>, points: PointMap): PointMap {
    AddAliases(points, CanonicalPass(driver, pack, Values(points)).computations)
  }

  datatype ProjectOutcome = ProjectedFrame(frame: Frame) | InvalidPack

  method ProjectCanonicalTelemetry(frame: Frame, pack: Option<Pack>) returns (out: ProjectOutcome)
    requires ValidFrame(frame)
    ensures out.InvalidPack? <==> pack.Some? && !StrictPack(pack.value)
    ensures out.ProjectedFrame? ==>
      && ValidFrame(out.frame) && out.frame.driver == frame.driver
      && (frame.points == [] ==> out.frame == frame)
      && (frame.points != [] ==>
            && SortedByKey(out.frame.points)
            && Index(out.frame.points) == Projected(frame.driver, pack, Index(frame.points)))
  {
    if pack.Some? && !StrictPack(pack.value) {
      return InvalidPack;
    }
    if frame.points == [] {
      return ProjectedFrame(frame);
    }
    var points := Index(frame.points);
    ghost var native := points;
    assert GoodPoints(points) by {
      IndexFinds(frame.points);
      assert forall k :: k in points ==> points[k] in frame.points;
    }
    var values := new ValueMap(Values(points));
    var computations := values.ApplyCanonicalPass(frame.driver, pack);
    var i := 0;
    while i < |computations|
      invariant 0 <= i <= |computations|
      invariant points == AddAliases(native, computations[..i])
    {
      var c := computations[i];
      assert computations[..i + 1][..i] == computations[..i];
      if Projectable(points, c) {
        points := points[c.key := AliasPoint(points, c)];
      }
      i := i + 1;
    }
    assert computations[..i] == computations;
    ProjectionKeepsEveryAlias(frame.driver, pack, native);
    var ordered := SortedPoints(points);
    out := ProjectedFrame(Frame(frame.driver, ordered));
  }

  // ---- nothing is dropped, and every alias point is well formed ---------------------

  lemma FirstSourceIsAsked(v: Variant, m: Measured)
    requires WellFormed(v)
    ensures v.sources[0] in v.sources && v.sources[0] in Asked(v, m)
  {
    hide FlowReadings, ModeOf, DetailsAsked;
  }

  lemma ScalarsGiveScalars(v: Variant, m: Measured)
    requires WellFormed(v) && forall k :: k in m ==> IsScalar(m[k])
    ensures Result(v, m).Some? ==> IsScalar(Result(v, m).value)
  {
    hide FlowReadings, ModeOf, SaysCharging, Round4;
  }

  /** What one row records: distinct present keys, at least one, never the alias itself. */
  lemma RowSources(i: nat, driver: Driver, pack: Option<Pack>, m: Measured)
    requires i < ROWS && RowResult(i, driver, pack, m).Some?
    requires forall k :: k in m ==> IsScalar(m[k])
    ensures var c := RowResult(i, driver, pack, m).value;
      && Distinct(c.sources) && c.sources != [] && IsScalar(c.value)
      && (forall k :: k in c.sources ==> k in m)
      && c.key !in c.sources
  {
    hide Row, RowOf, Result, Asked;
    var v := Matching(Row(i).variants, driver, pack, m).value;
    VariantsAreWellFormed(i, v);
    RecordAllRecordsPresentKeys([], m, Asked(v, m));
    FirstSourceIsAsked(v, m);
    ScalarsGiveScalars(v, m);
    assert v.sources[0] in RowResult(i, driver, pack, m).value.sources;
  }

  lemma TableKeysAreStrict(i: nat)
    requires i < ROWS
    ensures StrictKey(Row(i).key) && RowOf(Row(i).key) == Some(i)
  {
    hide KEY_NAMES, Row, RowOf;
    RowOfFindsRow(i);
    KeysInTableAreListed(Row(i).key);
  }

  lemma KeysInTableAreListed(k: Key)
    requires RowOf(k).Some?
    ensures StrictKey(k)
  {
  }

  /** The point map after the first `n` rows. */
  function ProjectedTo(n: nat, driver: Driver, pack: Option<Pack>, points: PointMap): PointMap
    requires n <= ROWS
  {
    AddAliases(points, Walk(n, driver, pack, Values(points)).computations)
  }

  /** What holds of every alias point of a projection. */
  predicate AliasIsGrounded(points: PointMap, k: Key)
    requires k in points
  {
    points[k].origin == Canonical ==>
      && RowOf(k).Some?
      && (forall s :: s in points[k].sources ==>
            && s in points
            && (points[s].origin == Canonical ==> RowOf(s).Some? && RowOf(s).value < RowOf(k).value))
      && (points[k].freshness == Fresh <==> forall s :: s in points[k].sources ==> points[s].freshness == Fresh)
  }

  ghost predicate NativeFrame(points: PointMap) {
    GoodPoints(points) && forall k :: k in points ==> points[k].origin == FromDriver
  }

  /** One row of the projection: either nothing happens, or one new alias point appears. */
  lemma ProjectionStep(n: nat, driver: Driver, pack: Option<Pack>, points: PointMap)
    requires n < ROWS
    requires Values(ProjectedTo(n, driver, pack, points)) == Walk(n, driver, pack, Values(points)).values
    requires forall k :: k in ProjectedTo(n, driver, pack, points) ==>
      IsScalar(ProjectedTo(n, driver, pack, points)[k].value)
    ensures var before, after := ProjectedTo(n, driver, pack, points), ProjectedTo(n + 1, driver, pack, points);
      var added := RowResult(n, driver, pack, Values(before));
      && (added.None? ==> after == before)
      && (added.Some? ==> Projectable(before, added.value)
                          && after == before[added.value.key := AliasPoint(before, added.value)])
      && Values(after) == Walk(n + 1, driver, pack, Values(points)).values
  {
    hide Row, RowOf, RowResult, AliasPoint;
    var walked := Walk(n, driver, pack, Values(points));
    var before := ProjectedTo(n, driver, pack, points);
    var added := RowResult(n, driver, pack, walked.values);
    if added.Some? {
      RowSources(n, driver, pack, walked.values);
      assert (walked.computations + [added.value])[..|walked.computations|] == walked.computations;
      AliasValue(before, added.value);
    }
  }

  lemma AliasValue(points: PointMap, c: Computation)
    requires Projectable(points, c)
    ensures Values(points[c.key := AliasPoint(points, c)]) == Values(points)[c.key := c.value]
  {
  }

  lemma {:induction false} ProjectionInvariant(n: nat, driver: Driver, pack: Option<Pack>, points: PointMap)
    requires n <= ROWS && GoodPoints(points)
    ensures Values(ProjectedTo(n, driver, pack, points)) == Walk(n, driver, pack, Values(points)).values
    ensures GoodPoints(ProjectedTo(n, driver, pack, points))
  {
    hide Row, RowOf, RowResult, ProjectedTo, Walk, GoodPoints, AliasPoint, Projectable, Values;
    if n == 0 {
      NothingProjected(driver, pack, points);
    } else {
      ProjectionInvariant(n - 1, driver, pack, points);
      var before := ProjectedTo(n - 1, driver, pack, points);
      ProjectionIsScalar(before);
      ProjectionStep(n - 1, driver, pack, points);
      var added := RowResult(n - 1, driver, pack, Values(before));
      if added.Some? {
        RowIsGood(n - 1, driver, pack, before);
        GoodPointAdded(before, AliasPoint(before, added.value));
      }
    }
  }

  lemma NothingProjected(driver: Driver, pack: Option<Pack>, points: PointMap)
    ensures ProjectedTo(0, driver, pack, points) == points
    ensures Walk(0, driver, pack, Values(points)).values == Values(points)
  {
  }

  lemma GoodPointAdded(points: PointMap, p: Point)
    requires GoodPoints(points) && ValidPoint(p)
    ensures GoodPoints(points[p.key := p])
  {
    hide ValidPoint;
  }

  lemma RowIsGood(i: nat, driver: Driver, pack: Option<Pack>, points: PointMap)
    requires i < ROWS && GoodPoints(points)
    requires RowResult(i, driver, pack, Values(points)).Some?
    requires Projectable(points, RowResult(i, driver, pack, Values(points)).value)
    ensures var c := RowResult(i, driver, pack, Values(points)).value;
      ValidPoint(AliasPoint(points, c)) && AliasPoint(points, c).key == c.key && c.key !in points
  {
    hide Row, RowOf, Result, Asked;
    RowSources(i, driver, pack, Values(points));
    TableKeysAreStrict(i);
  }

  /**
   The typed projection keeps every alias of the untyped pass: same keys, same values, and every
   projected point is one the `TelemetryPoint` constructor accepts.
   */
  lemma ProjectionKeepsEveryAlias(driver: Driver, pack: Option<Pack>, points: PointMap)
    requires GoodPoints(points)
    ensures Values(Projected(driver, pack, points)) == CanonicalPass(driver, pack, Values(points)).values
    ensures GoodPoints(Projected(driver, pack, points))
  {
    ProjectionInvariant(ROWS, driver, pack, points);
  }

  // ---- freshness ------------------------------------------------------------------------

  /** The native points are all there, unchanged, and no other point claims to be native. */
  ghost predicate SameNatives(points: PointMap, all: PointMap) {
    && (forall k :: k in points ==> k in all && all[k] == points[k])
    && (forall k :: k in all && all[k].origin == FromDriver ==> k in points)
  }

  lemma {:induction false} ProjectionIsGrounded(n: nat, driver: Driver, pack: Option<Pack>, points: PointMap)
    requires n <= ROWS && NativeFrame(points)
    ensures GroundedBelow(n, ProjectedTo(n, driver, pack, points))
    ensures SameNatives(points, ProjectedTo(n, driver, pack, points))
  {
    hide Row, RowOf, RowResult, ProjectedTo, Walk, GroundedBelow, SameNatives, GoodPoints;
    if n == 0 {
      NativesAreGrounded(driver, pack, points);
    } else {
      ProjectionIsGrounded(n - 1, driver, pack, points);
      ProjectionInvariant(n - 1, driver, pack, points);
      ProjectionIsScalar(ProjectedTo(n - 1, driver, pack, points));
      ProjectionStep(n - 1, driver, pack, points);
      var before := ProjectedTo(n - 1, driver, pack, points);
      var added := RowResult(n - 1, driver, pack, Values(before));
      if added.Some? {
        RowIsGood(n - 1, driver, pack, before);
        RowKey(n - 1, driver, pack, Values(before));
        AliasStaysGrounded(n - 1, points, before, added.value);
      } else {
        GroundedBelowNext(n - 1, before);
      }
    }
  }

  lemma NativesAreGrounded(driver: Driver, pack: Option<Pack>, points: PointMap)
    requires NativeFrame(points)
    ensures GroundedBelow(0, ProjectedTo(0, driver, pack, points))
    ensures SameNatives(points, ProjectedTo(0, driver, pack, points))
  {
  }

  lemma ProjectionIsScalar(points: PointMap)
    requires GoodPoints(points)
    ensures forall k :: k in points ==> IsScalar(points[k].value)
  {
  }

  ghost predicate GroundedBelow(n: nat, points: PointMap) {
    && (forall k :: k in points ==> AliasIsGrounded(points, k))
    && (forall k :: k in points && points[k].origin == Canonical ==> RowOf(k).Some? && RowOf(k).value < n)
  }

  lemma GroundedBelowNext(i: nat, points: PointMap)
    requires GroundedBelow(i, points)
    ensures GroundedBelow(i + 1, points)
  {
  }

  lemma AliasStaysGrounded(i: nat, native: PointMap, points: PointMap, c: Computation)
    requires GroundedBelow(i, points) && SameNatives(native, points) && Projectable(points, c)
    requires c.key !in points && RowOf(c.key) == Some(i)
    ensures GroundedBelow(i + 1, points[c.key := AliasPoint(points, c)])
    ensures SameNatives(native, points[c.key := AliasPoint(points, c)])
  {
    hide RowOf, AliasIsGrounded;
    var all := points[c.key := AliasPoint(points, c)];
    forall k | k in all ensures AliasIsGrounded(all, k) {
      if k == c.key {
        NewAliasIsGrounded(i, points, c);
      } else {
        OldAliasStaysGrounded(points, c, k);
      }
    }
  }

  lemma OldAliasStaysGrounded(points: PointMap, c: Computation, k: Key)
    requires Projectable(points, c) && c.key !in points && k in points && AliasIsGrounded(points, k)
    ensures AliasIsGrounded(points[c.key := AliasPoint(points, c)], k)
  {
    hide RowOf, AliasPoint;
  }

  lemma NewAliasIsGrounded(i: nat, points: PointMap, c: Computation)
    requires GroundedBelow(i, points) && Projectable(points, c) && c.key !in points && RowOf(c.key) == Some(i)
    ensures AliasIsGrounded(points[c.key := AliasPoint(points, c)], c.key)
  {
    hide RowOf;
  }

  lemma RowKey(i: nat, driver: Driver, pack: Option<Pack>, m: Measured)
    requires i < ROWS && RowResult(i, driver, pack, m).Some?
    ensures RowOf(RowResult(i, driver, pack, m).value.key) == Some(i)
  {
    TableKeysAreStrict(i);
  }

  /** A chain of recorded sources: each key is among the sources of the one before. */
  ghost predicate SourceChain(points: PointMap, path: seq<Key>) {
    && path != []
    && (forall k :: k in path ==> k in points)
    && forall i :: 0 <= i < |path| - 1 ==> path[i + 1] in points[path[i]].sources
  }

  /** `end` is a native key in the transitive closure of the recorded sources of `k`. */
  ghost predicate RestsOn(points: PointMap, k: Key, end: Key) {
    exists path ::
      && SourceChain(points, path) && path[0] == k && path[|path| - 1] == end
      && points[end].origin == FromDriver
  }

  ghost predicate Grounded(points: PointMap) {
    forall k :: k in points ==> AliasIsGrounded(points, k) && (points[k].origin == FromDriver ==> points[k].sources == [])
  }

  lemma {:induction false} FreshnessFollowsChains(points: PointMap, path: seq<Key>)
    requires Grounded(points) && SourceChain(points, path) && points[path[0]].freshness == Fresh
    ensures points[path[|path| - 1]].freshness == Fresh
  {
    if |path| > 1 {
      var rest := path[1..];
      assert path[1] in points[path[0]].sources;
      assert AliasIsGrounded(points, path[0]);
      assert forall i :: 0 <= i < |rest| ==> rest[i] == path[i + 1];
      FreshnessFollowsChains(points, rest);
    }
  }

  lemma {:induction false} CarriedRestsOnCarried(points: PointMap, k: Key) returns (path: seq<Key>)
    requires Grounded(points) && k in points && points[k].freshness == Carried
    ensures path != [] && SourceChain(points, path) && path[0] == k
    ensures points[path[|path| - 1]].origin == FromDriver
    ensures points[path[|path| - 1]].freshness == Carried
    decreases if RowOf(k).Some? && points[k].origin == Canonical then RowOf(k).value + 1 else 0
  {
    hide RowOf, SourceChain;
    if points[k].origin == FromDriver {
      path := [k];
      OneKeyIsAChain(points, k);
    } else {
      assert AliasIsGrounded(points, k);
      var s :| s in points[k].sources && points[s].freshness == Carried;
      var rest := CarriedRestsOnCarried(points, s);
      path := [k] + rest;
      ChainGrows(points, k, rest);
      assert path[|path| - 1] == rest[|rest| - 1];
    }
  }

  lemma OneKeyIsAChain(points: PointMap, k: Key)
    requires k in points
    ensures SourceChain(points, [k])
  {
  }

  lemma ChainGrows(points: PointMap, k: Key, rest: seq<Key>)
    requires SourceChain(points, rest) && k in points && rest[0] in points[k].sources
    ensures SourceChain(points, [k] + rest)
  {
    var path := [k] + rest;
    forall i | 0 <= i < |path| - 1 ensures path[i + 1] in points[path[i]].sources {
      assert i == 0 || (path[i] == rest[i - 1] && path[i + 1] == rest[i]);
    }
  }

  /** A projected alias is fresh exactly when every native it rests on is fresh. */
  lemma {:induction false} FreshMeansRestsOnFresh(points: PointMap, k: Key)
    requires Grounded(points) && k in points
    ensures points[k].freshness == Fresh <==>
      forall end :: RestsOn(points, k, end) ==> points[end].freshness == Fresh
  {
    if points[k].freshness == Fresh {
      forall end | RestsOn(points, k, end) ensures points[end].freshness == Fresh {
        var path :| SourceChain(points, path) && path[0] == k && path[|path| - 1] == end;
        FreshnessFollowsChains(points, path);
      }
    } else {
      var path := CarriedRestsOnCarried(points, k);
      assert RestsOn(points, k, path[|path| - 1]);
    }
  }

  /**
   Over every run of driver results folded and then projected, an alias is fresh exactly when the
   latest result reported every native key the alias transitively rests on.
   */
  lemma {:induction false} AliasIsFreshIffLatestReportedItsSources(run: seq<DriverResult>, pack: Option<Pack>, k: Key)
    requires run != [] && forall r :: r in run ==> Acceptable(r)
    requires k in Projected(run[|run| - 1].driver, pack, FoldRun(run))
    ensures var all := Projected(run[|run| - 1].driver, pack, FoldRun(run));
      all[k].freshness == Fresh <==>
        forall end :: RestsOn(all, k, end) ==> Sets(run, |run| - 1, end)
  {
    hide FoldRun, Projected, Grounded, NativeFrame, Sets, RestsOn, Acceptable;
    var native := FoldRun(run);
    var all := Projected(run[|run| - 1].driver, pack, native);
    FoldedRunIsNative(run);
    ProjectedIsGrounded(run[|run| - 1].driver, pack, native);
    FreshMeansRestsOnFresh(all, k);
    forall end | RestsOn(all, k, end)
      ensures end in all && (all[end].freshness == Fresh <==> Sets(run, |run| - 1, end))
    {
      RestsOnNatives(all, k, end);
      FreshMeansLatest(run, end);
    }
  }

  lemma RestsOnNatives(points: PointMap, k: Key, end: Key)
    requires RestsOn(points, k, end)
    ensures end in points && points[end].origin == FromDriver
  {
  }

  lemma ProjectedIsGrounded(driver: Driver, pack: Option<Pack>, native: PointMap)
    requires NativeFrame(native)
    ensures Grounded(Projected(driver, pack, native)) && SameNatives(native, Projected(driver, pack, native))
  {
    hide RowOf, Row, ValidPoint, AliasIsGrounded, Walk;
    ProjectionIsGrounded(ROWS, driver, pack, native);
    ProjectionKeepsEveryAlias(driver, pack, native);
    forall k | k in Projected(driver, pack, native) && Projected(driver, pack, native)[k].origin == FromDriver
      ensures Projected(driver, pack, native)[k].sources == []
    {
      NativePointsHaveNoSources(Projected(driver, pack, native)[k]);
    }
  }

  lemma NativePointsHaveNoSources(p: Point)
    requires ValidPoint(p) && p.origin == FromDriver
    ensures p.sources == []
  {
  }

  lemma {:induction false} FoldedRunIsNative(run: seq<DriverResult>)
    requires forall r :: r in run ==> Acceptable(r)
    ensures NativeFrame(FoldRun(run))
  {
    hide Folded, NativeFrame, Acceptable;
    if run == [] {
      NoPointsAreNative();
    } else {
      var n := |run| - 1;
      assert run[n] in run && forall r :: r in run[..n] ==> r in run;
      FoldedRunIsNative(run[..n]);
      FoldingStaysNative(DriverAfter(run, n), FoldRun(run[..n]), run[n]);
    }
  }

  lemma NoPointsAreNative()
    ensures NativeFrame(map[])
  {
  }

  lemma FoldingStaysNative(driver: Driver, points: PointMap, r: DriverResult)
    requires NativeFrame(points) && Acceptable(r)
    ensures NativeFrame(Folded(driver, points, r))
  {
    hide ValidPoint, KEY_NAMES, DRIVER_NAMES, StrictKey, StrictDriver;
    FoldedPointsAreValid(driver, points, r);
  }
}
