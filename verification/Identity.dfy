/**
 `collector_identity.py`: when two collector part numbers are the same collector, and how a durable
 part number absorbs what is observed over time.
 */
module Identity {
  import opened Text

  const MIN_PREFIX := 10

  /** `validated_collector_pn` keeps exactly these; everything else becomes the empty string. */
  predicate WireSafe(pn: string) {
    && 6 <= |pn| <= 64
    && IsAlphanumeric(pn[0])
    && forall c :: c in pn ==> IsAlphanumeric(c) || c == '.' || c == '_' || c == '-'
  }

  /** `pn_is_same_identity`. */
  predicate SameIdentity(left: string, right: string) {
    var a, b := Strip(left), Strip(right);
    && a != "" && b != ""
    && (a == b || (MIN_PREFIX <= |a| && MIN_PREFIX <= |b| && (a <= b || b <= a)))
  }

  /** `prefer_full_pn`. */
  function PreferFull(left: string, right: string): string {
    var a, b := Strip(left), Strip(right);
    if a == "" then b else if b == "" then a else if |a| >= |b| then a else b
  }

  /** `reconcile_pn`: the more complete of two observations, or the current one on a conflict. */
  function Reconcile(current: string, candidate: string): string {
    var a, b := Strip(current), Strip(candidate);
    if b == "" then a else if a == "" then b else if a == b then a
    else if a <= b then b else if b <= a then a else a
  }

  datatype Reconciled = Reconciled(pn: string, conflict: bool)

  /** `reconcile_durable_pn`. */
  function ReconcileDurable(durable: string, observed: string): Reconciled {
    var a, b := Strip(durable), Strip(observed);
    if a == "" then Reconciled(b, false)
    else if b == "" then Reconciled(a, false)
    else if !SameIdentity(a, b) then Reconciled(a, true)
    else Reconciled(Reconcile(a, b), false)
  }

  /** Sharing an identity is not transitive: a short PN can extend to two different full ones. */
  lemma SameIdentityIsNotTransitive()
    ensures exists a, b, c :: SameIdentity(a, b) && SameIdentity(b, c) && !SameIdentity(a, c)
  {
    var short := "E500002030";
    var one, two := short + "1", short + "2";
    assert Trimmed(short) && Trimmed(one) && Trimmed(two);
    assert one[10] != two[10];
    assert SameIdentity(one, short) && SameIdentity(short, two) && !SameIdentity(one, two);
  }

  // ---- a durable identity over a whole run of observations ---------------------------

  /** The durable PN after a run. */
  function Durable(run: seq<string>): (pn: string)
    ensures Trimmed(pn)
  {
    if run == [] then "" else ReconcileDurable(Durable(run[..|run| - 1]), run[|run| - 1]).pn
  }

  /** Observation `i` conflicted with the durable PN of its time. */
  predicate Conflicts(run: seq<string>, i: nat)
    requires i < |run|
  {
    ReconcileDurable(Durable(run[..i]), run[i]).conflict
  }

  /** One observation: a conflict changes nothing, anything else is absorbed as a prefix. */
  lemma ObservationIsAbsorbedOrRefused(durable: string, observed: string)
    requires Trimmed(durable)
    ensures var r := ReconcileDurable(durable, observed);
      && durable <= r.pn
      && (r.conflict ==> r.pn == durable && durable != "")
      && (!r.conflict ==> Strip(observed) <= r.pn && (r.pn == durable || r.pn == Strip(observed)))
  {
  }

  /** Nothing ever accepted is lost: the durable PN only ever extends, and conflicts leave it alone. */
  lemma {:induction false} DurableOnlyExtends(run: seq<string>, n: nat)
    requires n <= |run|
    ensures Durable(run[..n]) <= Durable(run)
    ensures n < |run| && Conflicts(run, n) ==> Durable(run[..n + 1]) == Durable(run[..n])
    ensures n < |run| && !Conflicts(run, n) ==> Strip(run[n]) <= Durable(run)
    decreases |run|
  {
    if n < |run| {
      var front, last := run[..|run| - 1], run[|run| - 1];
      ObservationIsAbsorbedOrRefused(Durable(front), last);
      assert run[..n + 1][..n] == run[..n];
      if n < |front| {
        DurableOnlyExtends(front, n);
        assert front[..n] == run[..n] && front[..n + 1] == run[..n + 1];
      }
    } else {
      assert run[..n] == run;
    }
  }

  /** All observations that say anything name one collector, pair by pair. */
  ghost predicate PairwiseSame(run: seq<string>) {
    forall i, j :: 0 <= i < j < |run| && Strip(run[i]) != "" && Strip(run[j]) != "" ==> SameIdentity(run[i], run[j])
  }

  ghost predicate ConflictFree(run: seq<string>) {
    forall i: nat :: i < |run| ==> !Conflicts(run, i)
  }

  /** The longest observation so far, if any said anything. */
  ghost predicate LongestOf(pn: string, run: seq<string>) {
    && (forall i :: 0 <= i < |run| ==> |Strip(run[i])| <= |pn|)
    && (pn == "" || exists i :: 0 <= i < |run| && Strip(run[i]) == pn)
  }

  lemma ConflictFreePrefix(run: seq<string>)
    requires run != []
    ensures ConflictFree(run) <==> ConflictFree(run[..|run| - 1]) && !Conflicts(run, |run| - 1)
  {
    var n := |run| - 1;
    forall i: nat | i < n ensures Conflicts(run[..n], i) == Conflicts(run, i) {
      assert run[..n][..i] == run[..i];
    }
    if ConflictFree(run[..n]) && !Conflicts(run, n) {
      forall i: nat | i < |run| ensures !Conflicts(run, i) {
        assert i == n || !Conflicts(run[..n], i);
      }
    }
  }

  lemma {:induction false} DurableIsLongest(run: seq<string>)
    requires ConflictFree(run)
    ensures LongestOf(Durable(run), run)
    ensures forall i :: 0 <= i < |run| ==> Strip(run[i]) <= Durable(run)
  {
    if run != [] {
      var n := |run| - 1;
      ConflictFreePrefix(run);
      DurableIsLongest(run[..n]);
      ObservationIsAbsorbedOrRefused(Durable(run[..n]), run[n]);
      if Durable(run) != "" && Durable(run) == Durable(run[..n]) {
        var i :| 0 <= i < n && Strip(run[..n][i]) == Durable(run[..n]);
        assert Strip(run[i]) == Durable(run);
      }
      forall i | 0 <= i < |run| ensures Strip(run[i]) <= Durable(run) {
        assert i == n || Strip(run[..n][i]) <= Durable(run[..n]);
      }
    }
  }

  /** In a conflict-free run two observations of different text are both long enough to be matched. */
  lemma {:induction false} ConflictFreeIsPairwise(run: seq<string>)
    requires ConflictFree(run)
    ensures PairwiseSame(run)
  {
    hide Strip, SameIdentity, Conflicts, Durable, Trimmed;
    if run != [] {
      var n := |run| - 1;
      ConflictFreePrefix(run);
      ConflictFreeIsPairwise(run[..n]);
      DurableIsLongest(run[..n]);
      forall i, j | 0 <= i < j < |run| && Strip(run[i]) != "" && Strip(run[j]) != ""
        ensures SameIdentity(run[i], run[j])
      {
        if j < n {
          assert run[..n][i] == run[i] && run[..n][j] == run[j];
        } else {
          var d := Durable(run[..n]);
          var m :| 0 <= m < n && Strip(run[..n][m]) == d;
          assert run[..n][i] == run[i] && Strip(run[i]) <= d;
          assert i == m || SameIdentity(run[..n][if i < m then i else m], run[..n][if i < m then m else i]);
          SameIdentityIgnoresPadding(run[i], run[..n][m]);
          NoConflictIsAMatch(run);
          PrefixesShareIdentity(Strip(run[i]), Strip(run[n]), d);
          SameIdentityIgnoresPadding(run[i], run[n]);
        }
      }
    }
  }

  lemma SameIdentityIgnoresPadding(a: string, b: string)
    ensures SameIdentity(a, b) == SameIdentity(b, a) == SameIdentity(Strip(a), Strip(b))
    ensures Strip(a) != "" ==> SameIdentity(Strip(a), Strip(a))
  {
  }

  lemma NoConflictIsAMatch(run: seq<string>)
    requires run != [] && !Conflicts(run, |run| - 1)
    requires Durable(run[..|run| - 1]) != "" && Strip(run[|run| - 1]) != ""
    requires Trimmed(Durable(run[..|run| - 1]))
    ensures SameIdentity(Durable(run[..|run| - 1]), Strip(run[|run| - 1]))
  {
    hide Durable;
  }

  lemma PrefixesShareIdentity(a: string, b: string, d: string)
    requires Trimmed(a) && Trimmed(b) && Trimmed(d) && a != "" && b != ""
    requires a <= d && SameIdentity(a, d) && SameIdentity(d, b)
    ensures SameIdentity(a, b)
  {
    if a != b && a != d && d != b && b <= d {
      assert a <= b || b <= a;
    }
  }

  lemma {:induction false} PairwiseIsConflictFree(run: seq<string>)
    requires PairwiseSame(run)
    ensures ConflictFree(run)
  {
    if run != [] {
      var n := |run| - 1;
      forall i, j | 0 <= i < j < n && Strip(run[..n][i]) != "" && Strip(run[..n][j]) != ""
        ensures SameIdentity(run[..n][i], run[..n][j])
      {
        assert run[..n][i] == run[i] && run[..n][j] == run[j];
      }
      PairwiseIsConflictFree(run[..n]);
      DurableIsLongest(run[..n]);
      ConflictFreePrefix(run);
      if Durable(run[..n]) != "" && Strip(run[n]) != "" {
        var m :| 0 <= m < n && Strip(run[..n][m]) == Durable(run[..n]);
        assert SameIdentity(run[m], run[n]);
      }
    }
  }

  /**
   A run is free of conflicts exactly when its observations name one collector pair by pair, a
   condition that does not depend on their order, and then the durable PN is the longest of them.
   */
  lemma RunsConvergeInAnyOrder(run: seq<string>)
    ensures ConflictFree(run) <==> PairwiseSame(run)
    ensures ConflictFree(run) ==> LongestOf(Durable(run), run)
  {
    if ConflictFree(run) {
      ConflictFreeIsPairwise(run);
      DurableIsLongest(run);
    }
    if PairwiseSame(run) {
      PairwiseIsConflictFree(run);
    }
  }

  /** Reordering a conflict-free run changes neither its freedom from conflicts nor its durable PN. */
  lemma OrderDoesNotMatter(run: seq<string>, other: seq<string>)
    requires ConflictFree(run) && forall s :: s in run <==> s in other
    ensures ConflictFree(other) && Durable(other) == Durable(run)
  {
    RunsConvergeInAnyOrder(run);
    forall i, j | 0 <= i < j < |other| && Strip(other[i]) != "" && Strip(other[j]) != ""
      ensures SameIdentity(other[i], other[j])
    {
      assert other[i] in run && other[j] in run;
      var k :| 0 <= k < |run| && run[k] == other[i];
      var l :| 0 <= l < |run| && run[l] == other[j];
      assert k == l || SameIdentity(run[if k < l then k else l], run[if k < l then l else k]);
    }
    RunsConvergeInAnyOrder(other);
    DurableIsLongest(run);
    DurableIsLongest(other);
    SharedLongest(run, other);
    SharedLongest(other, run);
  }

  lemma SharedLongest(run: seq<string>, other: seq<string>)
    requires ConflictFree(run) && ConflictFree(other) && forall s :: s in run ==> s in other
    ensures Durable(run) <= Durable(other)
  {
    DurableIsLongest(run);
    DurableIsLongest(other);
    if Durable(run) != "" {
      var i :| 0 <= i < |run| && Strip(run[i]) == Durable(run);
      assert run[i] in other;
      var j :| 0 <= j < |other| && other[j] == run[i];
    }
  }

  // ---- identity evidence -------------------------------------------------------------

  /** `identity_source_is_strong`. */
  predicate StrongSource(source: string) {
    Strip(source) in {"at_dtupn", "fc1_identity_challenge", "fc2_parameter_2"}
  }

  /** `prefer_identity_source`. */
  function PreferSource(current: string, candidate: string): string {
    var a, b := Strip(current), Strip(candidate);
    if StrongSource(a) then a else if StrongSource(b) then b else if b != "" then b else a
  }

  function SourceAfter(run: seq<string>): (s: string)
    ensures Trimmed(s)
  {
    if run == [] then "" else PreferSource(SourceAfter(run[..|run| - 1]), run[|run| - 1])
  }

  /** Observation `i` is the first with strong evidence. */
  ghost predicate FirstStrong(run: seq<string>, i: int) {
    0 <= i < |run| && StrongSource(run[i]) && forall j :: 0 <= j < i ==> !StrongSource(run[j])
  }

  /** Evidence is strong from the first strong observation on, and that first one is kept. */
  lemma {:induction false} FirstStrongSourceIsKept(run: seq<string>)
    ensures StrongSource(SourceAfter(run)) <==> exists i :: 0 <= i < |run| && StrongSource(run[i])
    ensures forall i :: FirstStrong(run, i) ==> SourceAfter(run) == Strip(run[i])
  {
    hide StrongSource;
    if run == [] {
      EmptySourceIsWeak();
    } else {
      var n := |run| - 1;
      FirstStrongSourceIsKept(run[..n]);
      StrengthIgnoresPadding(run[n]);
      StrengthIgnoresPadding(SourceAfter(run[..n]));
      EmptySourceIsWeak();
      assert forall i :: 0 <= i < n ==> run[..n][i] == run[i];
    }
  }

  lemma EmptySourceIsWeak()
    ensures !StrongSource("")
  {
  }

  lemma StrengthIgnoresPadding(s: string)
    ensures StrongSource(Strip(s)) == StrongSource(s)
  {
  }
}
