/**
 `telemetry.py`: typed scalar points, unique-key frames, and the fold of one FULL or DELTA driver
 result into the frame of the previous one.
 */
module Telemetry {
  import opened Text
  import opened Keys

  /** A driver value. `Structured` is everything `is_telemetry_scalar` rejects. */
  datatype Value =
    | Unknown | Boolean(flag: bool) | Integer(number: int) | Number(amount: real) | Words(text: string)
    | Structured

  predicate IsScalar(v: Value) { !v.Structured? }

  datatype Freshness = Fresh | Carried

  datatype Origin = FromDriver | Canonical

  datatype Point = Point(key: Key, value: Value, freshness: Freshness, origin: Origin, sources: seq<Key>)
  {
    function AsCarried(): Point { this.(freshness := Carried) }
  }

  /** What the `TelemetryPoint` constructor accepts. */
  predicate ValidPoint(p: Point) {
    && StrictKey(p.key)
    && (forall k :: k in p.sources ==> StrictKey(k))
    && Distinct(p.sources)
    && (p.origin == FromDriver ==> p.sources == [])
    && (p.origin == Canonical ==> p.sources != [] && p.key !in p.sources)
    && IsScalar(p.value)
  }

  datatype Frame = Frame(driver: Driver, points: seq<Point>)

  function KeysOf(points: seq<Point>): seq<Key> {
    seq(|points|, i requires 0 <= i < |points| => points[i].key)
  }

  predicate UniqueKeys(points: seq<Point>) {
    forall i, j :: 0 <= i < j < |points| ==> points[i].key != points[j].key
  }

  /** What the `TypedTelemetryFrame` constructor accepts. */
  predicate ValidFrame(f: Frame) {
    && (StrictDriver(f.driver) || (f.points == [] && f.driver == NoDriver))
    && UniqueKeys(f.points)
    && forall p :: p in f.points ==> ValidPoint(p)
  }

  predicate SortedByKey(points: seq<Point>) { SortedBy(KeysOf(points), Name) }

  /** `{point.key: point for point in points}`. */
  function Index(points: seq<Point>): map<Key, Point> {
    if points == [] then map[]
    else var last := points[|points| - 1]; Index(points[..|points| - 1])[last.key := last]
  }

  lemma {:induction false} IndexFinds(points: seq<Point>)
    requires UniqueKeys(points)
    ensures forall p :: p in points <==> p.key in Index(points) && Index(points)[p.key] == p
    ensures forall k :: k in Index(points) ==> Index(points)[k].key == k
  {
    if points != [] {
      var front, last := points[..|points| - 1], points[|points| - 1];
      IndexFinds(front);
      assert points == front + [last];
      LastKeyIsNew(points);
    }
  }

  lemma LastKeyIsNew(points: seq<Point>)
    requires UniqueKeys(points) && points != []
    ensures forall p :: p in points[..|points| - 1] ==> p.key != points[|points| - 1].key
  {
    var front := points[..|points| - 1];
    forall p | p in front ensures p.key != points[|points| - 1].key {
      var i :| 0 <= i < |front| && front[i] == p;
      assert points[i].key != points[|points| - 1].key;
    }
  }

  lemma IndexIs(ordered: seq<Point>, points: map<Key, Point>)
    requires UniqueKeys(ordered)
    requires forall p :: p in ordered ==> p.key in points && points[p.key] == p
    requires forall k :: k in points ==> points[k] in ordered && points[k].key == k
    ensures Index(ordered) == points
  {
    IndexFinds(ordered);
    forall k | k in Index(ordered) ensures k in points {
      assert Index(ordered)[k] in ordered;
    }
  }

  /** `frame.values()`. */
  function Values(points: map<Key, Point>): map<Key, Value> {
    map k | k in points :: points[k].value
  }

  // ---- printing a point map as a sorted frame ---------------------------------

  /** `tuple(points[key] for key in sorted(points))`. */
  method SortedPoints(points: map<Key, Point>) returns (ordered: seq<Point>)
    requires forall k :: k in points ==> points[k].key == k
    ensures Index(ordered) == points
    ensures UniqueKeys(ordered) && SortedByKey(ordered)
    ensures forall p :: p in ordered <==> p.key in points && points[p.key] == p
  {
    var keys := Sorted(points.Keys, Name);
    ordered := seq(|keys|, i requires 0 <= i < |keys| => points[keys[i]]);
    assert KeysOf(ordered) == keys;
    assert UniqueKeys(ordered);
    assert forall p :: p in ordered ==> p.key in points && points[p.key] == p;
    forall k | k in points ensures points[k] in ordered {
      assert k in keys;
      var i :| 0 <= i < |keys| && keys[i] == k;
      assert ordered[i] == points[k];
    }
    IndexIs(ordered, points);
  }

  // ---- one FULL or DELTA result ----------------------------------------------------

  datatype DriverResult = DriverResult(
    driver: Driver, values: map<Key, Value>, replace: bool, removed: set<Key>)

  /** The strictness checks that make a fold raise before it touches anything. */
  predicate Acceptable(r: DriverResult) {
    && StrictDriver(r.driver)
    && (forall k :: k in r.removed ==> StrictKey(k))
    && (forall k :: k in r.values ==> StrictKey(k))
  }

  function FreshPoint(k: Key, v: Value): Point { Point(k, v, Fresh, FromDriver, []) }

  /** Earlier points that survive the result, marked as carried. */
  function Kept(driver: Driver, points: map<Key, Point>, r: DriverResult): map<Key, Point> {
    map k | k in points && !r.replace && driver == r.driver && k !in r.removed && k !in r.values
      :: points[k].AsCarried()
  }

  /** The scalars the result reports, all fresh. */
  function Written(r: DriverResult): map<Key, Point> {
    map k | k in r.values && IsScalar(r.values[k]) :: FreshPoint(k, r.values[k])
  }

  /** The points one result leaves, as a map. */
  function Folded(driver: Driver, points: map<Key, Point>, r: DriverResult): map<Key, Point> {
    Kept(driver, points, r) + Written(r)
  }

  lemma FoldedAt(driver: Driver, points: map<Key, Point>, r: DriverResult, k: Key)
    ensures k in r.values && IsScalar(r.values[k]) ==>
      k in Folded(driver, points, r) && Folded(driver, points, r)[k] == FreshPoint(k, r.values[k])
    ensures !(k in r.values && IsScalar(r.values[k])) ==>
      && (k in Folded(driver, points, r) <==>
            k in points && !r.replace && driver == r.driver && k !in r.removed && k !in r.values)
      && (k in Folded(driver, points, r) ==> Folded(driver, points, r)[k] == points[k].AsCarried())
  {
  }

  datatype FoldOutcome = Accepted(frame: Frame) | Rejected

  /** Adds every scalar of the result to the points that survived it. */
  method Overlay(kept: map<Key, Point>, values: map<Key, Value>) returns (merged: map<Key, Point>)
    requires forall k :: k in kept ==> k !in values
    ensures merged == kept + map k | k in values && IsScalar(values[k]) :: FreshPoint(k, values[k])
  {
    merged := kept;
    var todo := values.Keys;
    while todo != {}
      invariant todo <= values.Keys
      invariant forall k :: k in merged <==> k in kept || (k in values && k !in todo && IsScalar(values[k]))
      invariant forall k :: k in merged ==> merged[k] == if k in kept then kept[k] else FreshPoint(k, values[k])
      decreases |todo|
    {
      var key :| key in todo;
      todo := todo - {key};
      if IsScalar(values[key]) {
        merged := merged[key := FreshPoint(key, values[key])];
      }
    }
  }

  lemma FoldedPointsAreValid(driver: Driver, points: map<Key, Point>, r: DriverResult)
    requires Acceptable(r) && forall k :: k in points ==> ValidPoint(points[k]) && points[k].key == k
    ensures forall k :: k in Folded(driver, points, r) ==>
      ValidPoint(Folded(driver, points, r)[k]) && Folded(driver, points, r)[k].key == k
  {
    hide KEY_NAMES, DRIVER_NAMES, StrictDriver;
  }

  /** `fold_driver_telemetry`. */
  method FoldDriverTelemetry(previous: Frame, r: DriverResult) returns (out: FoldOutcome)
    requires ValidFrame(previous)
    ensures out.Accepted? <==> Acceptable(r)
    ensures out.Accepted? ==>
      && ValidFrame(out.frame) && SortedByKey(out.frame.points)
      && out.frame.driver == r.driver
      && Index(out.frame.points) == Folded(previous.driver, Index(previous.points), r)
  {
    hide KEY_NAMES, DRIVER_NAMES, ValidPoint;
    if !StrictDriver(r.driver)
      || (exists k :: k in r.removed && !StrictKey(k)) || (exists k :: k in r.values && !StrictKey(k)) {
      return Rejected;
    }
    var kept: map<Key, Point> := map[];
    ghost var earlier := Index(previous.points);
    if !r.replace && previous.driver == r.driver {
      var earlier := Index(previous.points);
      kept := map k | k in earlier && k !in r.removed && k !in r.values :: earlier[k].AsCarried();
    }
    assert kept == Kept(previous.driver, earlier, r);
    var merged := Overlay(kept, r.values);
    assert merged == Folded(previous.driver, earlier, r);
    IndexFinds(previous.points);
    FoldedPointsAreValid(previous.driver, earlier, r);
    var points := SortedPoints(merged);
    out := Accepted(Frame(r.driver, points));
  }

  // ---- whole runs --------------------------------------------------------------------

  /** The driver bound after the first `n` results, `NoDriver` before any. */
  function DriverAfter(run: seq<DriverResult>, n: nat): Driver
    requires n <= |run|
  {
    if n == 0 then NoDriver else run[n - 1].driver
  }

  /** The frame map after folding a whole run into the empty frame. */
  function FoldRun(run: seq<DriverResult>): map<Key, Point> {
    if run == [] then map[]
    else
      var n := |run| - 1;
      Folded(DriverAfter(run, n), FoldRun(run[..n]), run[n])
  }

  /** Result `i` reported a scalar for `k`. */
  predicate Sets(run: seq<DriverResult>, i: nat, k: Key)
    requires i < |run|
  {
    k in run[i].values && IsScalar(run[i].values[k])
  }

  /** Result `i` ends the life of any earlier point for `k`. */
  predicate Ends(run: seq<DriverResult>, i: nat, k: Key)
    requires i < |run|
  {
    || run[i].replace
    || run[i].driver != DriverAfter(run, i)
    || k in run[i].removed
    || k in run[i].values
  }

  /** Result `i` is the last write of `k` and nothing since has ended it. */
  ghost predicate LastWrite(run: seq<DriverResult>, i: nat, k: Key) {
    && i < |run|
    && Sets(run, i, k)
    && forall j: nat :: i < j < |run| ==> !Ends(run, j, k)
  }

  lemma EndsOfPrefix(run: seq<DriverResult>, n: nat, j: nat, k: Key)
    requires j < n <= |run|
    ensures Ends(run[..n], j, k) == Ends(run, j, k)
  {
    assert run[..n][j] == run[j] && DriverAfter(run[..n], j) == DriverAfter(run, j);
  }

  lemma LastWriteOfPrefix(run: seq<DriverResult>, i: nat, k: Key)
    requires i < |run| - 1
    ensures LastWrite(run, i, k) <==> LastWrite(run[..|run| - 1], i, k) && !Ends(run, |run| - 1, k)
  {
    hide Ends;
    var n := |run| - 1;
    assert run[..n][i] == run[i];
    forall j: nat | j < n ensures Ends(run[..n], j, k) == Ends(run, j, k) {
      EndsOfPrefix(run, n, j, k);
    }
    if LastWrite(run[..n], i, k) && !Ends(run, n, k) {
      forall j: nat | i < j < |run| ensures !Ends(run, j, k) {
        assert j == n || !Ends(run[..n], j, k);
      }
    }
  }

  lemma {:induction false} LastWriteSurvives(run: seq<DriverResult>, i: nat, k: Key)
    requires LastWrite(run, i, k)
    ensures k in FoldRun(run)
    ensures FoldRun(run)[k] == (if i == |run| - 1 then FreshPoint(k, run[i].values[k])
                                else FreshPoint(k, run[i].values[k]).AsCarried())
  {
    var n := |run| - 1;
    FoldedAt(DriverAfter(run, n), FoldRun(run[..n]), run[n], k);
    if i < n {
      LastWriteOfPrefix(run, i, k);
      LastWriteSurvives(run[..n], i, k);
    }
  }

  lemma {:induction false} SurvivorsHaveALastWrite(run: seq<DriverResult>, k: Key) returns (i: nat)
    requires k in FoldRun(run)
    ensures LastWrite(run, i, k)
  {
    var n := |run| - 1;
    FoldedAt(DriverAfter(run, n), FoldRun(run[..n]), run[n], k);
    if Sets(run, n, k) {
      i := n;
    } else {
      i := SurvivorsHaveALastWrite(run[..n], k);
      LastWriteOfPrefix(run, i, k);
    }
  }

  /** Folding a run is a last-write replay, and fresh means written by the latest result. */
  lemma FoldRunIsLastWriteReplay(run: seq<DriverResult>, k: Key)
    ensures k in FoldRun(run) <==> exists i: nat :: LastWrite(run, i, k)
    ensures forall i: nat :: LastWrite(run, i, k) ==>
      FoldRun(run)[k] == (if i == |run| - 1 then FreshPoint(k, run[i].values[k])
                          else FreshPoint(k, run[i].values[k]).AsCarried())
  {
    forall i: nat | LastWrite(run, i, k)
      ensures k in FoldRun(run)
      ensures FoldRun(run)[k] == (if i == |run| - 1 then FreshPoint(k, run[i].values[k])
                                  else FreshPoint(k, run[i].values[k]).AsCarried())
    {
      LastWriteSurvives(run, i, k);
    }
    if k in FoldRun(run) {
      var i := SurvivorsHaveALastWrite(run, k);
    }
  }

  /** After any non-empty run, the fresh keys are exactly the scalar keys of the latest result. */
  lemma FreshMeansLatest(run: seq<DriverResult>, k: Key)
    requires run != []
    ensures (k in FoldRun(run) && FoldRun(run)[k].freshness == Fresh) <==> Sets(run, |run| - 1, k)
    ensures k in FoldRun(run) ==> FoldRun(run)[k].origin == FromDriver && FoldRun(run)[k].key == k
  {
    hide FoldRun, Ends;
    FoldRunIsLastWriteReplay(run, k);
    if Sets(run, |run| - 1, k) {
      assert LastWrite(run, |run| - 1, k);
    }
  }
}
