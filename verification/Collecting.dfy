/**
 `dessmonitor_collection.py`, `fetch_read_only_evidence_with_history`: the bounded loop that collects
 history. The clock and the provider are parameters: every pattern of readings and replies is allowed.
 */
module Collecting {
  import opened Numbers
  import opened Calendar
  import opened Timestamps
  import opened Records
  import opened TimeBases
  import H = History
  import R = Resolution
  import C = Collection

  /** What is asked for: one device, its zone and one day there. */
  datatype Query = Query(identity: DeviceIdentity, basis: Basis, date: string)

  predicate ValidQuery(q: Query) {
    ValidIdentity(q.identity) && ValidBasis(q.basis) && q.basis.identity == q.identity && ParseDate(q.date).Some?
  }

  /** A key-parameter field of the metadata bundle. */
  datatype KeyField = KeyField(id: string, title: string, unit: string)

  /** How one request ends: a transport failure or rejection, or a payload. */
  datatype Reply = Failed | Body(dat: Json)

  /** How one attempt ends; `Escaped` is the overflow that no handler of the loop names. */
  datatype Attempt = Got(series: R.Resolved) | Missed | Escaped

  const CHART_PRECISION := 5

  // ---- one attempt ------------------------------------------------------------------

  predicate ParameterReadable(q: Query, field: KeyField, reply: Reply) {
    && reply.Body? && reply.dat.Object?
    && Token(field.id) && OptionalToken(field.title) && OptionalToken(field.unit)
    && H.ReadablePayload(H.KeyParameterRows(reply.dat), Ts, q.date)
  }

  predicate ChartReadable(q: Query, reply: Reply) {
    && reply.Body? && reply.dat.Object? && H.ReadableChartHeader(reply.dat.fields)
    && H.ReadablePayload(H.FieldOr(reply.dat.fields, Rets, Null), Key, q.date)
  }

  /** These are the usable points of the rows, each under the query's zone. */
  ghost predicate ResolvedFrom(x: R.Resolved, q: Query, rows: Json, stampField: Field)
    requires rows.List?
  {
    && R.ValidResolved(x)
    && x.source.identity == q.identity && x.basis == q.basis && x.source.date == q.date
    && forall p :: p in x.source.points <==> p in H.UsablePoints(rows.items, stampField, q.date)
  }

  /** This series is what the field's payload says, under the field's own labels. */
  ghost predicate ReadAs(x: R.Resolved, q: Query, field: KeyField, reply: Reply)
    requires ParameterReadable(q, field, reply)
  {
    && ResolvedFrom(x, q, H.KeyParameterRows(reply.dat), Ts)
    && x.source.source == H.KEY_PARAMETER && x.source.key == field.id
    && x.source.title == field.title && x.source.unit == field.unit
  }

  ghost predicate ChartReadAs(x: R.Resolved, q: Query, reply: Reply)
    requires ChartReadable(q, reply)
  {
    && ResolvedFrom(x, q, H.FieldOr(reply.dat.fields, Rets, Null), Key)
    && x.source.source == H.SOLE_CHART && Str(x.source.key) == H.FieldOr(reply.dat.fields, OptionalKey, Null)
    && x.source.precision == CHART_PRECISION
  }

  /** Some usable point has a moment outside the representable years once it is shifted. */
  ghost predicate Unrepresentable(q: Query, rows: Json, stampField: Field) {
    && rows.List?
    && exists p :: p in H.UsablePoints(rows.items, stampField, q.date) && H.ValidPoint(p)
                   && !R.Convertible(p, q.basis)
  }

  ghost predicate ParameterOverflows(q: Query, field: KeyField, reply: Reply) {
    ParameterReadable(q, field, reply) && Unrepresentable(q, H.KeyParameterRows(reply.dat), Ts)
  }

  ghost predicate ChartOverflows(q: Query, reply: Reply) {
    ChartReadable(q, reply) && Unrepresentable(q, H.FieldOr(reply.dat.fields, Rets, Null), Key)
  }

  lemma OverflowIsInThePayload(q: Query, series: H.Series, rows: Json, stampField: Field)
    requires ValidQuery(q) && H.AllValid(series.points) && rows.List?
    requires forall p :: p in series.points <==> p in H.UsablePoints(rows.items, stampField, q.date)
    ensures Unrepresentable(q, rows, stampField) <==> !R.AllConvertible(series.points, q.basis)
  {
    hide H.ValidPoint, H.UsablePoints, R.Convertible, ValidQuery;
    if Unrepresentable(q, rows, stampField) {
      var p :| p in H.UsablePoints(rows.items, stampField, q.date) && H.ValidPoint(p) && !R.Convertible(p, q.basis);
      assert p in series.points;
    }
    if !R.AllConvertible(series.points, q.basis) {
      var i :| 0 <= i < |series.points| && !R.Convertible(series.points[i], q.basis);
      assert series.points[i] in series.points;
    }
  }

  lemma OverflowNeedsEdgeDay(series: H.Series, basis: Basis)
    requires H.ValidSeries(series) && ValidBasis(basis) && !R.AllConvertible(series.points, basis)
    ensures R.EdgeDay(series.date)
  {
    hide H.ValidPoint, R.Convertible, ValidBasis, ParseDate, DateText;
    if !R.EdgeDay(series.date) {
      forall i | 0 <= i < |series.points| ensures R.Convertible(series.points[i], basis) {
        assert H.OnDate([series.points[i]], series.date);
        R.OtherDaysAreConvertible(series.points[i], basis, series.date);
      }
    }
  }

  /** Labels that fit keep a series valid. */
  lemma LabelsKeepValidity(series: H.Series, title: string, unit: string)
    requires H.ValidSeries(series) && OptionalToken(title) && OptionalToken(unit)
    ensures H.ValidSeries(series.(title := title, unit := unit))
  {
    hide H.ValidPoint, ParseDate, OptionalToken, Token, ValidIdentity, H.OnDate, H.Ascending;
  }

  method Resolve(q: Query, series: H.Series) returns (out: Attempt)
    requires ValidQuery(q) && H.ValidSeries(series) && series.identity == q.identity && series.date == q.date
    ensures !out.Missed?
    ensures H.AllValid(series.points) && (out.Escaped? <==> !R.AllConvertible(series.points, q.basis))
    ensures out.Escaped? ==> R.EdgeDay(q.date)
    ensures out.Got? ==>
      R.ValidResolved(out.series) && out.series.source == series && out.series.basis == q.basis
  {
    hide H.ValidSeries, R.ValidResolved, R.EdgeDay, ParseDate, ValidIdentity, ValidBasis, R.AllConvertible;
    hide R.ConvertedFrom;
    H.SeriesPointsAreValid(series);
    var resolved := R.ResolveHistoryTimeBasis(series, q.basis);
    match resolved {
      case Resolution(x) => out := Got(x);
      case OutOfRange =>
        OverflowNeedsEdgeDay(series, q.basis);
        out := Escaped;
      case _ => assert false;
    }
  }

  method ReadParameter(q: Query, field: KeyField, reply: Reply) returns (out: Attempt)
    requires ValidQuery(q)
    ensures !out.Missed? <==> ParameterReadable(q, field, reply)
    ensures out.Got? ==> ReadAs(out.series, q, field, reply)
    ensures out.Escaped? <==> ParameterOverflows(q, field, reply)
    ensures out.Escaped? ==> R.EdgeDay(q.date)
  {
    hide H.ValidSeries, R.ValidResolved, R.EdgeDay, ParseDate, ValidIdentity, ValidBasis;
    hide H.ReadablePayload, H.UsablePoints, OptionalToken, Token, Unrepresentable, R.AllConvertible, H.AllValid;
    if reply.Failed? {
      return Missed;
    }
    var raw := H.ParseKeyParameterHistory(reply.dat, q.identity, field.id, q.date);
    if raw.Unreadable? || !OptionalToken(field.title) || !OptionalToken(field.unit) {
      return Missed;
    }
    ReadableHasRows(H.KeyParameterRows(reply.dat), Ts, q.date);
    LabelsKeepValidity(raw.series, field.title, field.unit);
    var labeled := raw.series.(title := field.title, unit := field.unit);
    out := Resolve(q, labeled);
    OverflowIsInThePayload(q, labeled, H.KeyParameterRows(reply.dat), Ts);
  }

  lemma ReadableHasRows(rows: Json, stampField: Field, date: string)
    requires H.ReadablePayload(rows, stampField, date)
    ensures rows.List?
  {
  }

  method ReadChart(q: Query, reply: Reply) returns (out: Attempt)
    requires ValidQuery(q)
    ensures !out.Missed? <==> ChartReadable(q, reply)
    ensures out.Got? ==> ChartReadAs(out.series, q, reply)
    ensures out.Escaped? <==> ChartOverflows(q, reply)
    ensures out.Escaped? ==> R.EdgeDay(q.date)
  {
    hide H.ValidSeries, R.ValidResolved, R.EdgeDay, ParseDate, ValidIdentity, ValidBasis;
    hide H.ReadablePayload, H.UsablePoints, H.ReadableChartHeader, H.ChartUnit, Unrepresentable;
    hide R.AllConvertible, H.AllValid;
    if reply.Failed? {
      return Missed;
    }
    var raw := H.ParseSoleChartHistory(reply.dat, q.identity, q.date, CHART_PRECISION);
    if raw.Unreadable? {
      return Missed;
    }
    ReadableHasRows(H.FieldOr(reply.dat.fields, Rets, Null), Key, q.date);
    out := Resolve(q, raw.series);
    OverflowIsInThePayload(q, raw.series, H.FieldOr(reply.dat.fields, Rets, Null), Key);
  }

  // ---- the whole run ------------------------------------------------------------------

  function Ids(fields: seq<KeyField>): set<string> { set f | f in fields :: f.id }

  /** The first field under each non-empty id, in order: what the loop is willing to ask for. */
  function Wanted(fields: seq<KeyField>): (r: seq<KeyField>)
    ensures Ids(r) == Ids(fields) - {""}
    ensures forall i, j :: 0 <= i < j < |r| ==> r[i].id != r[j].id
  {
    if fields == [] then []
    else
      var front, last := Wanted(fields[..|fields| - 1]), fields[|fields| - 1];
      IdsOfOneMore(fields[..|fields| - 1], last, fields);
      IdsOfOneMore(front, last, front + [last]);
      if last.id == "" || last.id in Ids(front) then front else front + [last]
  }

  lemma IdsOfOneMore(front: seq<KeyField>, last: KeyField, all: seq<KeyField>)
    requires all == front + [last]
    ensures Ids(all) == Ids(front) + {last.id}
    ensures forall i :: 0 <= i < |front| ==> front[i].id in Ids(front)
  {
    assert forall f :: f in all <==> f in front || f == last;
  }

  /** How one more field changes what is wanted, and that it stays a prefix of all that is wanted. */
  lemma WantedOneMore(fields: seq<KeyField>, i: nat)
    requires i < |fields|
    ensures Wanted(fields[..i]) <= Wanted(fields) && Wanted(fields[..i + 1]) <= Wanted(fields)
    ensures Wanted(fields[..i + 1]) ==
      if fields[i].id == "" || fields[i].id in Ids(Wanted(fields[..i])) then Wanted(fields[..i])
      else Wanted(fields[..i]) + [fields[i]]
    ensures fields[i].id != "" ==> Wanted(fields) != []
  {
    assert fields[..i + 1][..i] == fields[..i];
    WantedGrows(fields, i);
    WantedGrows(fields, i + 1);
    if fields[i].id != "" {
      assert fields[i].id in Ids(fields);
      assert fields[i].id in Ids(Wanted(fields));
    }
  }

  lemma {:induction false} WantedGrows(fields: seq<KeyField>, n: nat)
    requires n <= |fields|
    ensures Wanted(fields[..n]) <= Wanted(fields)
    decreases |fields| - n
  {
    if n < |fields| {
      WantedGrows(fields, n + 1);
      assert fields[..n + 1][..n] == fields[..n];
    } else {
      assert fields[..n] == fields;
    }
  }

  /** The series are exactly what the attempted fields' replies say, in order, without the misses. */
  ghost predicate Collects(q: Query, attempted: seq<KeyField>, fetch: nat -> Reply, series: seq<R.Resolved>)
  {
    if attempted == [] then series == []
    else
      var n := |attempted| - 1;
      if ParameterReadable(q, attempted[n], fetch(n)) then
        && series != []
        && ReadAs(series[|series| - 1], q, attempted[n], fetch(n))
        && Collects(q, attempted[..n], fetch, series[..|series| - 1])
      else Collects(q, attempted[..n], fetch, series)
  }

  /** A series of this query, about one of these fields. */
  predicate About(q: Query, x: R.Resolved, ids: set<string>) {
    && R.ValidResolved(x) && x.source.identity == q.identity && x.basis == q.basis && x.source.date == q.date
    && x.source.source == H.KEY_PARAMETER && x.source.key in ids
  }

  /** What was collected satisfies all the constructor asks of the series. */
  lemma {:induction false} CollectedFits(
    q: Query, attempted: seq<KeyField>, fetch: nat -> Reply, series: seq<R.Resolved>)
    requires Collects(q, attempted, fetch, series)
    requires forall i, j :: 0 <= i < j < |attempted| ==> attempted[i].id != attempted[j].id
    ensures |series| <= |attempted| && C.DistinctKeys(series)
    ensures forall i :: 0 <= i < |series| ==> About(q, series[i], Ids(attempted))
  {
    hide R.ValidResolved, ParameterReadable, H.UsablePoints;
    if attempted != [] {
      var n := |attempted| - 1;
      assert attempted == attempted[..n] + [attempted[n]];
      assert attempted[n].id !in Ids(attempted[..n]);
      if ParameterReadable(q, attempted[n], fetch(n)) {
        var m := |series| - 1;
        CollectedFits(q, attempted[..n], fetch, series[..m]);
        assert series == series[..m] + [series[m]];
        assert forall i :: 0 <= i < m ==> series[i] == series[..m][i];
      } else {
        CollectedFits(q, attempted[..n], fetch, series);
      }
    }
  }

  /** Counters of a run so far. */
  datatype Progress = Progress(attempted: nat, series: seq<R.Resolved>, exhausted: bool, readings: nat)

  /** Whether the latest clock reading showed no time left. */
  predicate LatestReading(expired: nat -> bool, p: Progress) {
    p.exhausted == (p.readings > 0 && expired(p.readings - 1))
  }

  datatype Walk = Walked(progress: Progress) | WalkEscaped

  // ---- how far a run gets ----------------------------------------------------------------

  /** All that decides a run: the wanted fields in order, the limit, the clock and the replies. */
  datatype Course = Course(
    query: Query, wanted: seq<KeyField>, limit: nat, expired: nat -> bool, fetch: nat -> Reply)
  {
    predicate Readable(k: nat)
      requires k < |wanted|
    {
      ParameterReadable(query, wanted[k], fetch(k))
    }

    ghost predicate Overflowing(k: nat)
      requires k < |wanted|
    {
      ParameterOverflows(query, wanted[k], fetch(k))
    }

    /** Clock readings before attempt `k` is considered: one for each attempt, one more for each miss. */
    function ReadingsBefore(k: nat): nat
      requires k <= |wanted|
    {
      if k == 0 then 0 else ReadingsBefore(k - 1) + if Readable(k - 1) then 1 else 2
    }

    /** Attempt `k` is made: there is such a field, the limit allows it, and time is left each time it is asked. */
    ghost predicate Begins(k: nat) {
      && k < |wanted| && k < limit && !expired(ReadingsBefore(k))
      && (k > 0 ==> Begins(k - 1) && Continues(k - 1))
    }

    /** Attempt `k` neither overflows nor is a miss that uses up the budget. */
    ghost predicate Continues(k: nat)
      requires k < |wanted|
    {
      !Overflowing(k) && (Readable(k) || !expired(ReadingsBefore(k) + 1))
    }

    /** After `k` attempts the budget is known to be spent. */
    predicate SpentAfter(k: nat)
      requires k <= |wanted|
    {
      || (k > 0 && !Readable(k - 1) && expired(ReadingsBefore(k) - 1))
      || (k < |wanted| && k < limit && expired(ReadingsBefore(k)))
    }

    /** The run makes exactly `k` attempts and ends normally, with this verdict on the budget. */
    ghost predicate EndsAfter(k: nat, exhausted: bool) {
      && k <= |wanted|
      && (k > 0 ==> Begins(k - 1) && !Overflowing(k - 1))
      && !Begins(k)
      && (exhausted <==> SpentAfter(k))
    }

    /** The run has made `k` attempts without overflow and looked at the clock this often. */
    ghost predicate Reaches(k: nat, readings: nat, exhausted: bool) {
      && k <= |wanted| && readings == ReadingsBefore(k)
      && (k > 0 ==> Begins(k - 1) && !Overflowing(k - 1))
      && (exhausted <==> k > 0 && !Readable(k - 1) && expired(readings - 1))
    }

    /** The run makes an attempt that overflows. */
    ghost predicate Escapes() { exists k: nat :: Begins(k) && Overflowing(k) }
  }

  lemma {:induction false} EarlierAttemptsContinue(c: Course, k: nat, m: nat)
    requires c.Begins(m) && k < m
    ensures c.Begins(k) && c.Continues(k)
    decreases m
  {
    if k < m - 1 {
      EarlierAttemptsContinue(c, k, m - 1);
    }
  }

  /** A run ends in one way only, after one number of attempts. */
  lemma RunsEndOneWay(c: Course, k: nat, exhausted: bool)
    requires c.EndsAfter(k, exhausted)
    ensures !c.Escapes()
    ensures forall m: nat, e: bool :: c.EndsAfter(m, e) ==> m == k && e == exhausted
  {
    hide ParameterOverflows, ParameterReadable;
    forall m: nat | c.Begins(m) ensures !c.Overflowing(m) && m < k {
      if m >= k {
        if m > k { EarlierAttemptsContinue(c, k, m); }
        assert false;
      }
      if m < k - 1 { EarlierAttemptsContinue(c, m, k - 1); }
    }
    forall m: nat, e: bool | c.EndsAfter(m, e) ensures m == k && e == exhausted {
      if m < k - 1 { EarlierAttemptsContinue(c, m, k - 1); }
    }
  }

  lemma StopReached(c: Course, k: nat, readings: nat, exhausted: bool)
    requires c.Reaches(k, readings, exhausted)
    ensures exhausted || k >= c.limit || k == |c.wanted| ==> c.EndsAfter(k, exhausted) && !c.Escapes()
    ensures k < c.limit && k < |c.wanted| && c.expired(readings) ==> c.EndsAfter(k, true) && !c.Escapes()
  {
    hide ParameterOverflows, ParameterReadable;
    if exhausted || k >= c.limit || k == |c.wanted| {
      RunsEndOneWay(c, k, exhausted);
    }
    if k < c.limit && k < |c.wanted| && c.expired(readings) {
      RunsEndOneWay(c, k, true);
    }
  }

  lemma ReachNext(c: Course, k: nat, readings: nat)
    requires c.Reaches(k, readings, false) && k < c.limit && k < |c.wanted| && !c.expired(readings)
    ensures c.Overflowing(k) ==> c.Escapes()
    ensures !c.Overflowing(k) && c.Readable(k) ==> c.Reaches(k + 1, readings + 1, false)
    ensures !c.Overflowing(k) && !c.Readable(k) ==> c.Reaches(k + 1, readings + 2, c.expired(readings + 1))
  {
    hide ParameterOverflows, ParameterReadable;
    assert c.Begins(k);
  }

  /** An attempt ends as its field and reply say. */
  lemma AttemptOf(c: Course, k: nat, field: KeyField)
    requires k < |c.wanted| && c.wanted[k] == field
    ensures c.Overflowing(k) <==> ParameterOverflows(c.query, field, c.fetch(k))
    ensures c.Readable(k) <==> ParameterReadable(c.query, field, c.fetch(k))
  {
  }

  lemma NothingReached(c: Course)
    ensures c.Reaches(0, 0, false)
  {
  }

  /**
   The loop over the key parameters: it attempts distinct non-empty ids in order until the limit is
   reached or a clock reading shows the budget spent, and keeps what every attempted reply says.
   */
  method WalkKeyParameters(q: Query, fields: seq<KeyField>, limit: nat, expired: nat -> bool, fetch: nat -> Reply)
    returns (out: Walk)
    requires ValidQuery(q)
    ensures out.WalkEscaped? <==> Course(q, Wanted(fields), limit, expired, fetch).Escapes()
    ensures out.WalkEscaped? ==> R.EdgeDay(q.date)
    ensures out.Walked? ==>
      var p := out.progress;
      && p.attempted <= |Wanted(fields)| && p.attempted <= limit
      && Course(q, Wanted(fields), limit, expired, fetch).EndsAfter(p.attempted, p.exhausted)
      && Collects(q, Wanted(fields)[..p.attempted], fetch, p.series)
      && (!p.exhausted ==> p.attempted == Least(limit, |Wanted(fields)|))
      && LatestReading(expired, p) && p.readings <= 2 * p.attempted + 1
      && (Wanted(fields) == [] ==> p.readings == 0)
  {
    hide ValidQuery, ParameterReadable, ParameterOverflows, ReadAs, R.EdgeDay, Wanted, Collects, Ids;
    hide Course.Reaches, Course.EndsAfter, Course.Escapes, Course.Readable, Course.Overflowing;
    ghost var c := Course(q, Wanted(fields), limit, expired, fetch);
    var attempted, series, exhausted, readings := 0, [], false, 0;
    var seen: set<string> := {};
    var i := 0;
    NothingWanted(q, fetch);
    NothingReached(c);
    assert fields[..0] == [];
    while i < |fields|
      invariant 0 <= i <= |fields|
      invariant attempted == |Wanted(fields[..i])| <= limit
      invariant seen == Ids(Wanted(fields[..i]))
      invariant Collects(q, Wanted(fields[..i]), fetch, series)
      invariant exhausted == (readings > 0 && expired(readings - 1)) && readings <= 2 * attempted
      invariant c.Reaches(attempted, readings, exhausted)
      invariant Wanted(fields) == [] ==> readings == 0
    {
      WantedOneMore(fields, i);
      assert Wanted(fields)[..attempted] == Wanted(fields[..i]);
      if attempted >= limit || exhausted {
        StopReached(c, attempted, readings, exhausted);
        return Walked(Progress(attempted, series, exhausted, readings));
      }
      var field := fields[i];
      if field.id == "" || field.id in seen {
        i := i + 1;
        continue;
      }
      assert attempted < |c.wanted| && c.wanted[attempted] == field;
      StopReached(c, attempted, readings, exhausted);
      readings := readings + 1;
      if expired(readings - 1) {
        return Walked(Progress(attempted, series, true, readings));
      }
      IdsOfOneMore(Wanted(fields[..i]), field, Wanted(fields[..i]) + [field]);
      ReachNext(c, attempted, readings - 1);
      AttemptOf(c, attempted, field);
      seen := seen + {field.id};
      var reply := fetch(attempted);
      var attempt := ReadParameter(q, field, reply);
      CollectsOneMore(q, Wanted(fields[..i]), field, fetch, series, attempt);
      attempted := attempted + 1;
      match attempt {
        case Escaped => return WalkEscaped;
        case Missed =>
          readings := readings + 1;
          exhausted := expired(readings - 1);
        case Got(x) =>
          series := series + [x];
      }
      i := i + 1;
    }
    assert fields[..i] == fields && Wanted(fields)[..attempted] == Wanted(fields);
    StopReached(c, attempted, readings, exhausted);
    out := Walked(Progress(attempted, series, exhausted, readings));
  }

  lemma NothingWanted(q: Query, fetch: nat -> Reply)
    ensures Wanted([]) == [] && Ids([]) == {} && Collects(q, [], fetch, [])
  {
  }

  lemma {:induction false} CollectsOneMore(q: Query, before: seq<KeyField>, field: KeyField, fetch: nat -> Reply,
                        series: seq<R.Resolved>, attempt: Attempt)
    requires Collects(q, before, fetch, series)
    requires !attempt.Missed? <==> ParameterReadable(q, field, fetch(|before|))
    requires attempt.Got? ==> ReadAs(attempt.series, q, field, fetch(|before|))
    ensures attempt.Got? ==> Collects(q, before + [field], fetch, series + [attempt.series])
    ensures attempt.Missed? ==> Collects(q, before + [field], fetch, series)
  {
    hide ParameterReadable, ReadAs;
    assert (before + [field])[..|before|] == before;
    if attempt.Got? {
      assert (series + [attempt.series])[..|series|] == series;
    }
  }

  datatype Run = Collected(collection: C.Collection) | ConstructorRefused | RunEscaped

  /** Some field has a usable id, or there are none at all and the chart is asked instead. */
  predicate Collectable(fields: seq<KeyField>) {
    fields == [] || exists i :: 0 <= i < |fields| && fields[i].id != ""
  }

  /** The series and counts a run over the key parameters may end with. */
  ghost predicate FromKeyParameters(
    q: Query, fields: seq<KeyField>, limit: nat, expired: nat -> bool, fetch: nat -> Reply, x: C.Collection)
  {
    && 0 <= x.attempted <= Least(limit, |Wanted(fields)|) && x.failed == x.attempted - |x.series|
    && Course(q, Wanted(fields), limit, expired, fetch).EndsAfter(x.attempted, x.exhausted)
    && Collects(q, Wanted(fields)[..x.attempted], fetch, x.series)
    && (!x.exhausted ==> x.attempted == Least(limit, |Wanted(fields)|))
  }

  /** The series and counts a run that falls back on the chart may end with. */
  ghost predicate FromChart(q: Query, expired: nat -> bool, fetch: nat -> Reply, x: C.Collection) {
    && x.failed == x.attempted - |x.series|
    && if expired(0) then x.exhausted && x.attempted == 0 && x.series == []
    else if ChartReadable(q, fetch(0)) then
      !x.exhausted && x.attempted == 1 && |x.series| == 1 && ChartReadAs(x.series[0], q, fetch(0))
    else x.exhausted == expired(1) && x.attempted == 1 && x.series == []
  }

  lemma WantedIffCollectable(fields: seq<KeyField>)
    ensures Collectable(fields) <==> fields == [] || Wanted(fields) != []
  {
    if Wanted(fields) != [] {
      assert Wanted(fields)[0].id in Ids(Wanted(fields));
      assert Wanted(fields)[0].id in Ids(fields);
    }
    if i :| 0 <= i < |fields| && fields[i].id != "" {
      assert fields[i].id in Ids(fields);
      assert fields[i].id in Ids(Wanted(fields));
    }
  }

  /** The final constructor call, on a walk over at least one field. */
  lemma WalkFits(q: Query, fields: seq<KeyField>, limit: nat, expired: nat -> bool, fetch: nat -> Reply, p: Progress)
    requires ValidQuery(q) && 1 <= limit <= C.MAX_SERIES
    requires p.attempted <= |Wanted(fields)| && p.attempted <= limit
    requires Collects(q, Wanted(fields)[..p.attempted], fetch, p.series)
    requires !p.exhausted ==> p.attempted == Least(limit, |Wanted(fields)|)
    ensures |p.series| <= p.attempted
    ensures var x := C.HistoryCollection(
        q.identity, Some(q.basis), q.date, p.attempted, p.attempted - |p.series|, p.exhausted, p.series);
      && C.ValidParts(x)
      && (C.ConstructorAccepts(x) <==> p.attempted != 0 || p.exhausted)
  {
    hide ParseDate, ValidIdentity, ValidBasis, R.ValidResolved, Collects, Wanted;
    CollectedFits(q, Wanted(fields)[..p.attempted], fetch, p.series);
  }

  /** What the chart fallback may hand to the constructor. */
  lemma ChartFits(q: Query, fetch: nat -> Reply, x: C.Collection)
    requires ValidQuery(q) && x.identity == q.identity && x.basis == Some(q.basis) && x.date == q.date
    requires |x.series| <= 1 && |x.series| + x.failed == x.attempted <= 1 && 0 <= x.failed <= 1
    requires x.attempted == 1 || x.exhausted
    requires x.series != [] ==> ChartReadable(q, fetch(0)) && ChartReadAs(x.series[0], q, fetch(0))
    ensures C.ValidCollection(x)
  {
    hide ParseDate, ValidIdentity, ValidBasis, R.ValidResolved, ChartReadable, H.UsablePoints;
  }

  /** The fallback for accounts without a key list. */
  method FallBackOnChart(q: Query, expired: nat -> bool, fetch: nat -> Reply) returns (run: Run)
    requires ValidQuery(q)
    ensures run.RunEscaped? <==> !expired(0) && ChartOverflows(q, fetch(0))
    ensures run.RunEscaped? ==> R.EdgeDay(q.date)
    ensures !run.RunEscaped? ==>
      && run.Collected? && C.ValidCollection(run.collection)
      && run.collection.identity == q.identity && run.collection.basis == Some(q.basis)
      && run.collection.date == q.date
      && FromChart(q, expired, fetch, run.collection)
  {
    hide ValidQuery, R.EdgeDay, C.ValidParts, C.ConstructorAccepts, ChartReadable, ChartReadAs, ChartOverflows;
    var attempted, failed, exhausted := 0, 0, false;
    var series: seq<R.Resolved> := [];
    if expired(0) {
      exhausted := true;
    } else {
      attempted := 1;
      var chart := ReadChart(q, fetch(0));
      match chart {
        case Escaped => return RunEscaped;
        case Missed => failed, exhausted := 1, expired(1);
        case Got(x) => series := [x];
      }
    }
    var x := C.HistoryCollection(q.identity, Some(q.basis), q.date, attempted, failed, exhausted, series);
    ChartFits(q, fetch, x);
    var ok := C.CheckCollection(x);
    run := if ok then Collected(x) else ConstructorRefused;
  }

  /**
   The collection loop and its final constructor call. For every pattern of failures and clock readings
   the constructor accepts the result exactly when the key-parameter list is empty or names some field;
   an overflow escapes instead exactly when an attempt that is made overflows, which takes the first or last
   day of the calendar.
   */
  method CollectHistory(q: Query, fields: seq<KeyField>, limit: nat, expired: nat -> bool, fetch: nat -> Reply)
    returns (run: Run)
    requires ValidQuery(q) && 1 <= limit <= C.MAX_SERIES
    ensures run.RunEscaped? <==>
      if fields == [] then !expired(0) && ChartOverflows(q, fetch(0))
      else Course(q, Wanted(fields), limit, expired, fetch).Escapes()
    ensures run.RunEscaped? ==> R.EdgeDay(q.date)
    ensures !run.RunEscaped? ==> (run.Collected? <==> Collectable(fields))
    ensures run.Collected? ==>
      var x := run.collection;
      && C.ValidCollection(x)
      && x.identity == q.identity && x.basis == Some(q.basis) && x.date == q.date
      && (fields != [] ==> FromKeyParameters(q, fields, limit, expired, fetch, x))
      && (fields == [] ==> FromChart(q, expired, fetch, x))
  {
    hide ValidQuery, Collects, R.EdgeDay, C.ValidParts, C.ConstructorAccepts, Wanted;
    hide ChartReadable, ChartReadAs, ChartOverflows, ParameterReadable, ReadAs, Collectable;
    WantedIffCollectable(fields);
    if fields == [] {
      run := FallBackOnChart(q, expired, fetch);
      return;
    }
    var walk := WalkKeyParameters(q, fields, limit, expired, fetch);
    if walk.WalkEscaped? {
      return RunEscaped;
    }
    var p := walk.progress;
    WalkFits(q, fields, limit, expired, fetch, p);
    var x := C.HistoryCollection(
      q.identity, Some(q.basis), q.date, p.attempted, p.attempted - |p.series|, p.exhausted, p.series);
    var ok := C.CheckCollection(x);
    run := if ok then Collected(x) else ConstructorRefused;
  }

  /** What is returned when the zone of the device could not be read: nothing, and the clock's verdict. */
  function WithoutTimeBasis(identity: DeviceIdentity, exhausted: bool): (x: C.Collection)
    requires ValidIdentity(identity)
    ensures C.ValidCollection(x) && C.StatusOf(x) == C.NO_TIME_BASIS
  {
    C.HistoryCollection(identity, None, "", 0, 0, exhausted, [])
  }

  // ---- a run that escapes -------------------------------------------------------------------

  /** One point, late on the last day. */
  const LATE_REPLY := Body(Object(map[Parameter := List([LATE_ROW])]))
  const LATE_ROW := Object(map[Ts := Str(LocalText(R.LATE)), Val := Str("1")])

  /** The device's zone is the westernmost one. */
  function LateQuery(identity: DeviceIdentity): Query {
    Query(identity, Basis(identity, R.WEST), DateText(LAST_DAY))
  }

  lemma LateReplyOverflows(identity: DeviceIdentity, field: KeyField)
    requires ValidIdentity(identity) && Token(field.id) && OptionalToken(field.title) && OptionalToken(field.unit)
    ensures ValidQuery(LateQuery(identity)) && ParameterOverflows(LateQuery(identity), field, LATE_REPLY)
  {
    hide LocalText, DateText, ParseDate, ParseLocal, Token, OptionalToken, ValidIdentity, ToUtc, NumericText;
    R.LateMomentOverflows();
    R.LocalTextStartsWithDate(R.LATE);
    DateRoundTrip(LAST_DAY);
    var date := DateText(LAST_DAY);
    var p := H.HistoryPoint(LocalText(R.LATE), "1");
    R.ConvertibleIffUtc(p, Basis(identity, R.WEST));
    assert H.PointFromProvider(LATE_ROW, Ts, date) == Some(p);
    assert [LATE_ROW][..0] == [];
    assert H.UsablePoints([LATE_ROW], Ts, date) == [] + [p];
    assert p in H.UsablePoints([LATE_ROW], Ts, date);
  }

  /** One field, time to spare, and that reply: the overflow escapes from the whole collection. */
  lemma LateRunEscapes(identity: DeviceIdentity, field: KeyField, limit: nat, fetch: nat -> Reply)
    requires ValidIdentity(identity) && Token(field.id) && OptionalToken(field.title) && OptionalToken(field.unit)
    requires limit > 0 && fetch(0) == LATE_REPLY
    ensures Course(LateQuery(identity), [field], limit, k => false, fetch).Escapes()
  {
    hide ParameterOverflows, ParameterReadable;
    LateReplyOverflows(identity, field);
    var c := Course(LateQuery(identity), [field], limit, k => false, fetch);
    assert c.Begins(0) && c.Overflowing(0);
  }
}
