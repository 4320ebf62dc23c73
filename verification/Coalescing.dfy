/** Which collectors the coalesced view of the session registry represents, row by row. */
module Coalescing {
  import opened Text
  import opened Identity
  import opened Registry

  predicate SameCandidate(c: Candidate, pn: string) { c.pn != "" && SameIdentity(c.pn, pn) }

  /** Some candidate is the collector of this PN. */
  predicate Represents(candidates: seq<Candidate>, pn: string) {
    exists i :: 0 <= i < |candidates| && SameCandidate(candidates[i], pn)
  }

  /** The first candidate that is the same collector; the number of candidates when none is. */
  function Absorber(candidates: seq<Candidate>, pn: string): (k: nat)
    ensures k <= |candidates|
    ensures k < |candidates| ==> SameCandidate(candidates[k], pn)
    ensures forall i :: 0 <= i < k ==> !SameCandidate(candidates[i], pn)
  {
    if candidates == [] || SameCandidate(candidates[0], pn) then 0 else 1 + Absorber(candidates[1..], pn)
  }

  /** What the absorbing candidate becomes. */
  function Absorbed(candidates: seq<Candidate>, c: Candidate): Candidate {
    var k := Absorber(candidates, c.pn);
    if k == |candidates| then c
    else if Wins(c, candidates[k]) then c.(pn := PreferFull(candidates[k].pn, c.pn))
    else candidates[k]
  }

  lemma {:induction false} AbsorbIsUpdate(candidates: seq<Candidate>, c: Candidate)
    requires c.pn != ""
    ensures var k := Absorber(candidates, c.pn);
      Absorb(candidates, c) ==
        if k == |candidates| then candidates + [c] else candidates[k := Absorbed(candidates, c)]
  {
    hide SameIdentity, Wins, PreferFull;
    if candidates != [] && !SameCandidate(candidates[0], c.pn) {
      AbsorbIsUpdate(candidates[1..], c);
      assert candidates == [candidates[0]] + candidates[1..];
    }
  }

  /** The observation leaves a candidate that is the collector of this PN. */
  predicate Gains(candidates: seq<Candidate>, c: Candidate, pn: string) {
    c.pn != "" && SameCandidate(Absorbed(candidates, c), pn)
  }

  /** The observation turns the candidate that was the collector of this PN into another one. */
  predicate Loses(candidates: seq<Candidate>, c: Candidate, pn: string) {
    var k := Absorber(candidates, c.pn);
    c.pn != "" && k < |candidates| && SameCandidate(candidates[k], pn) && !SameCandidate(Absorbed(candidates, c), pn)
  }

  /** A candidate that grows away from a PN was the only one for it. */
  lemma GrowingAwayLeavesNobody(held: string, pn: string, other: string, lost: string)
    requires SameIdentity(held, pn) && SameIdentity(held, lost) && !SameIdentity(PreferFull(held, pn), lost)
    requires SameIdentity(other, lost)
    ensures SameIdentity(held, other)
  {
    var a, b, p, y := Strip(held), Strip(pn), Strip(lost), Strip(other);
    if p <= a && a <= b {
      assert p <= b;
    } else if a <= p && p <= y {
      assert a <= y;
    } else if a <= p && y <= p {
      assert a <= y || y <= a;
    }
  }

  /** Exactly what one observation does to the representation of one PN. */
  lemma RepresentationStep(candidates: seq<Candidate>, c: Candidate, pn: string)
    requires DistinctCollectors(candidates)
    ensures Represents(Absorb(candidates, c), pn) <==>
      Gains(candidates, c, pn) || (Represents(candidates, pn) && !Loses(candidates, c, pn))
  {
    hide SameIdentity, Wins, PreferFull, DistinctCollectors, Absorb;
    if c.pn == "" {
      AbsorbKeepsCollectorsDistinct(candidates, c);
      forall i | 0 <= i < |candidates| ensures (candidates + [c])[i] == candidates[i] {}
    } else {
      AbsorbIsUpdate(candidates, c);
      var k, after := Absorber(candidates, c.pn), Absorb(candidates, c);
      if Gains(candidates, c, pn) {
        assert SameCandidate(after[k], pn);
      } else if Loses(candidates, c, pn) {
        forall i | 0 <= i < |candidates| && i != k ensures !SameCandidate(after[i], pn) {
          LosingLeavesNobody(candidates, c, pn, i);
        }
      } else {
        forall i | 0 <= i < |candidates| && SameCandidate(candidates[i], pn) ensures i != k && after[i] == candidates[i] {
        }
      }
    }
  }

  lemma LosingLeavesNobody(candidates: seq<Candidate>, c: Candidate, pn: string, i: nat)
    requires DistinctCollectors(candidates) && Loses(candidates, c, pn)
    requires i < |candidates| && i != Absorber(candidates, c.pn)
    ensures !SameCandidate(candidates[i], pn)
  {
    hide SameIdentity, Wins, PreferFull, DistinctCollectors, Absorber;
    var k := Absorber(candidates, c.pn);
    if SameCandidate(candidates[i], pn) {
      FullPnIsNotEmpty(candidates[k].pn, c.pn);
      GrowingAwayLeavesNobody(candidates[k].pn, c.pn, candidates[i].pn, pn);
      DistinctCandidatesDiffer(candidates, k, i);
    }
  }

  lemma DistinctCandidatesDiffer(candidates: seq<Candidate>, i: nat, j: nat)
    requires DistinctCollectors(candidates) && i < |candidates| && j < |candidates| && i != j
    requires candidates[i].pn != "" && candidates[j].pn != ""
    ensures !SameIdentity(candidates[i].pn, candidates[j].pn)
  {
    hide SameIdentity;
    SameIdentityIsSymmetric(candidates[i].pn, candidates[j].pn);
  }

  lemma SameIdentityIsSymmetric(a: string, b: string)
    ensures SameIdentity(a, b) <==> SameIdentity(b, a)
  {
  }

  /** The view before row `i`, and what that row is to it. */
  function ViewBefore(inventory: Inventory, i: nat): seq<Candidate>
    requires i < |inventory|
  {
    Projection(inventory[..i])
  }

  predicate GainsAt(inventory: Inventory, i: nat, pn: string)
    requires i < |inventory|
  {
    inventory[i].id != "" && Gains(ViewBefore(inventory, i), Candidate(inventory[i], inventory[i].pn), pn)
  }

  predicate LosesAt(inventory: Inventory, i: nat, pn: string)
    requires i < |inventory|
  {
    inventory[i].id != "" && Loses(ViewBefore(inventory, i), Candidate(inventory[i], inventory[i].pn), pn)
  }

  /** Row `i` leaves a candidate for the PN, and no later row turns it into another collector. */
  predicate HeldSince(inventory: Inventory, i: nat, pn: string) {
    && i < |inventory| && GainsAt(inventory, i, pn)
    && forall j: nat :: i < j < |inventory| ==> !LosesAt(inventory, j, pn)
  }

  ghost predicate Held(inventory: Inventory, pn: string) { exists i: nat :: HeldSince(inventory, i, pn) }

  lemma HeldStep(inventory: Inventory, pn: string)
    requires inventory != []
    ensures var n := |inventory| - 1;
      Held(inventory, pn) <==> GainsAt(inventory, n, pn) || (!LosesAt(inventory, n, pn) && Held(inventory[..n], pn))
  {
    hide Gains, Loses, Projection;
    var n := |inventory| - 1;
    if GainsAt(inventory, n, pn) {
      assert HeldSince(inventory, n, pn);
    }
    forall i: nat | i < n
      ensures HeldSince(inventory, i, pn) <==> HeldSince(inventory[..n], i, pn) && !LosesAt(inventory, n, pn)
    {
      forall j: nat | j < n ensures inventory[..n][j] == inventory[j] && inventory[..n][..j] == inventory[..j] {
      }
      if HeldSince(inventory[..n], i, pn) && !LosesAt(inventory, n, pn) {
        forall j: nat | i < j < |inventory| ensures !LosesAt(inventory, j, pn) {
          assert j == n || !LosesAt(inventory[..n], j, pn);
        }
      }
      if HeldSince(inventory, i, pn) {
        forall j: nat | i < j < n ensures !LosesAt(inventory[..n], j, pn) {
          assert !LosesAt(inventory, j, pn);
        }
      }
    }
  }

  /** A PN is represented in the view exactly when a row left a candidate for it that never grew away. */
  lemma {:induction false} RepresentedIffHeld(inventory: Inventory, pn: string)
    ensures Represents(Projection(inventory), pn) <==> Held(inventory, pn)
  {
    hide Held, Gains, Loses, Represents, Absorb;
    if inventory == [] {
      NobodyIsHeld(pn);
    } else {
      var n := |inventory| - 1;
      var c := Candidate(inventory[n], inventory[n].pn);
      RepresentedIffHeld(inventory[..n], pn);
      ProjectionHasDistinctCollectors(inventory[..n]);
      RepresentationStep(Projection(inventory[..n]), c, pn);
      HeldStep(inventory, pn);
    }
  }

  lemma NobodyIsHeld(pn: string)
    ensures !Held([], pn) && !Represents([], pn)
  {
  }

  /** No identified row stands between two different collectors. */
  predicate Unambiguous(inventory: Inventory) {
    forall a, b, c |
      a in inventory && b in inventory && c in inventory && SameIdentity(a.pn, b.pn) && SameIdentity(b.pn, c.pn)
      :: SameIdentity(a.pn, c.pn)
  }

  /** Then every identified row is represented, whatever the order. */
  lemma UnambiguousRowsAreRepresented(inventory: Inventory, s: Session)
    requires Unambiguous(inventory) && s in inventory && s.id != "" && Strip(s.pn) != ""
    ensures Represents(Projection(inventory), s.pn)
  {
    hide Represents, HeldSince, Projection, Strip, Absorb;
    var i: nat :| i < |inventory| && inventory[i] == s;
    ObservationGains(inventory, i);
    forall j: nat | i < j < |inventory| ensures !LosesAt(inventory, j, s.pn) {
      UnambiguousRowsLoseNobody(inventory, s, j);
    }
    HeldSinceIs(inventory, i, s.pn);
    RepresentedIffHeld(inventory, s.pn);
  }

  lemma HeldSinceIs(inventory: Inventory, i: nat, pn: string)
    requires i < |inventory| && GainsAt(inventory, i, pn)
    requires forall j: nat :: i < j < |inventory| ==> !LosesAt(inventory, j, pn)
    ensures Held(inventory, pn)
  {
    assert HeldSince(inventory, i, pn);
  }

  lemma ObservationGains(inventory: Inventory, i: nat)
    requires i < |inventory| && inventory[i].id != "" && Strip(inventory[i].pn) != ""
    ensures GainsAt(inventory, i, inventory[i].pn)
  {
    hide Projection, Strip, SameIdentity, Wins, PreferFull;
    var c := Candidate(inventory[i], inventory[i].pn);
    var view := ViewBefore(inventory, i);
    var k := Absorber(view, c.pn);
    StripOfEmpty();
    SameIdentityIsReflexive(c.pn);
    if k < |view| {
      PreferFullIsTheSame(view[k].pn, c.pn);
      FullPnIsNotEmpty(view[k].pn, c.pn);
    }
  }

  lemma StripOfEmpty()
    ensures Strip("") == ""
  {
  }

  lemma SameIdentityIsReflexive(pn: string)
    requires Strip(pn) != ""
    ensures SameIdentity(pn, pn)
  {
  }

  lemma FullPnIsNotEmpty(a: string, b: string)
    requires SameIdentity(a, b)
    ensures PreferFull(a, b) != ""
  {
  }

  /** Every candidate's PN is, up to padding, that of some row. */
  lemma {:induction false} CandidatesArePnsOfRows(inventory: Inventory, c: Candidate)
    requires c in Projection(inventory)
    ensures exists s :: s in inventory && Strip(s.pn) == Strip(c.pn)
  {
    hide SameIdentity, Wins, Strip, Absorb;
    var n := |inventory| - 1;
    var s := inventory[n];
    assert inventory == inventory[..n] + [s];
    if c in Projection(inventory[..n]) {
      CandidatesArePnsOfRows(inventory[..n], c);
    } else {
      var before := Projection(inventory[..n]);
      var x := Candidate(s, s.pn);
      if s.pn == "" {
        AbsorbOfUnnamed(before, x);
      } else {
        AbsorbIsUpdate(before, x);
        assert c == Absorbed(before, x);
        var k := Absorber(before, s.pn);
        if k < |before| {
          CandidatesArePnsOfRows(inventory[..n], before[k]);
          PreferFullIsEither(before[k].pn, s.pn);
        }
      }
    }
  }

  lemma AbsorbOfUnnamed(candidates: seq<Candidate>, c: Candidate)
    requires c.pn == ""
    ensures Absorb(candidates, c) == candidates + [c]
  {
  }

  lemma PreferFullIsEither(a: string, b: string)
    ensures Strip(PreferFull(a, b)) == Strip(a) || Strip(PreferFull(a, b)) == Strip(b)
  {
  }

  lemma SameIdentityIgnoresPadding(a: string, b: string, x: string, y: string)
    requires Strip(a) == Strip(x) && Strip(b) == Strip(y)
    ensures SameIdentity(a, b) <==> SameIdentity(x, y)
  {
  }

  lemma UnambiguousRowsLoseNobody(inventory: Inventory, s: Session, j: nat)
    requires Unambiguous(inventory) && s in inventory && j < |inventory|
    ensures !LosesAt(inventory, j, s.pn)
  {
    hide Projection, Strip, SameIdentity, Wins, PreferFull;
    var row := inventory[j];
    var c := Candidate(row, row.pn);
    var view := ViewBefore(inventory, j);
    var k := Absorber(view, c.pn);
    if row.id != "" && c.pn != "" && k < |view| && SameCandidate(view[k], s.pn) {
      CandidatesArePnsOfRows(inventory[..j], view[k]);
      var x :| x in inventory[..j] && Strip(x.pn) == Strip(view[k].pn);
      assert x in inventory;
      SameIdentityIgnoresPadding(view[k].pn, row.pn, x.pn, row.pn);
      SameIdentityIgnoresPadding(view[k].pn, s.pn, x.pn, s.pn);
      SameIdentityIsSymmetric(x.pn, row.pn);
      assert SameIdentity(row.pn, s.pn);
      PreferFullIsEither(view[k].pn, row.pn);
      FullPnIsNotEmpty(view[k].pn, row.pn);
      SameOfEither(view[k].pn, row.pn, s.pn);
    }
  }

  lemma SameOfEither(a: string, b: string, pn: string)
    requires SameIdentity(a, pn) && SameIdentity(b, pn)
    ensures SameIdentity(PreferFull(a, b), pn)
  {
  }

  /** A strong short PN, a weak full one, and another strong full one: the weak row is not represented. */
  lemma CoalescingCanLoseACollector()
    ensures exists inventory: Inventory, s: Session ::
      s in inventory && s.id != "" && Strip(s.pn) != "" && !Represents(Projection(inventory), s.pn)
  {
    hide Strip, Wins, Absorb, Projection, Represents;
    var short, one, two := "E500002030", "E5000020301", "E5000020302";
    var a := Session(502, "s1", short, "10.0.0.9", "at_dtupn", Live, DefaultHost, "");
    var b := a.(id := "s2", pn := one, source := "");
    var c := a.(id := "s3", pn := two);
    ThreePns(short, one, two);
    ThreeRows(a, b, c);
    var inventory := [] + [a] + [b] + [c];
    assert inventory[1] == b;
  }

  lemma ThreePns(short: string, one: string, two: string)
    requires short == "E500002030" && one == "E5000020301" && two == "E5000020302"
    ensures Strip(short) == short && Strip(one) == one && Strip(two) == two
    ensures SameIdentity(short, one) && SameIdentity(short, two) && !SameIdentity(two, one)
    ensures PreferFull(short, two) == two
  {
    assert one[..10] == short && two[..10] == short && one[10] != two[10];
  }

  lemma ThreeRows(a: Session, b: Session, c: Session)
    requires a.id != "" && b.id != "" && c.id != "" && a.pn != "" && b.pn != "" && c.pn != ""
    requires SameIdentity(a.pn, b.pn) && SameIdentity(a.pn, c.pn) && !SameIdentity(c.pn, b.pn)
    requires PreferFull(a.pn, c.pn) == c.pn && |c.pn| > |a.pn|
    requires StrongSource(a.source) && !StrongSource(b.source) && StrongSource(c.source)
    ensures !Represents(Projection([] + [a] + [b] + [c]), b.pn)
  {
    hide SameIdentity, StrongSource, PreferFull, Projection, Absorb, Wins, Represents;
    var x, y, z := Candidate(a, a.pn), Candidate(b, b.pn), Candidate(c, c.pn);
    WinsOver(x, y, z);
    AbsorbIntoOne(x, y);
    AbsorbIntoOne(x, z);
    OneCandidateRepresents(z, b.pn);
    OneMoreRow([], a);
    OneMoreRow([] + [a], b);
    OneMoreRow([] + [a] + [b], c);
  }

  lemma WinsOver(x: Candidate, y: Candidate, z: Candidate)
    requires StrongSource(x.raw.source) && !StrongSource(y.raw.source) && StrongSource(z.raw.source)
    requires |z.pn| > |x.pn|
    ensures !Wins(y, x) && Wins(z, x)
  {
    hide StrongSource;
  }

  lemma OneCandidateRepresents(x: Candidate, pn: string)
    ensures Represents([x], pn) <==> SameCandidate(x, pn)
  {
    assert [x][0] == x;
  }

  lemma AbsorbIntoOne(x: Candidate, c: Candidate)
    requires x.pn != "" && c.pn != "" && SameIdentity(x.pn, c.pn)
    ensures Absorb([], x) == [x]
    ensures Absorb([x], c) == if Wins(c, x) then [c.(pn := PreferFull(x.pn, c.pn))] else [x]
  {
    hide SameIdentity, PreferFull, Wins;
    assert [x][1..] == [];
  }

  lemma OneMoreRow(inventory: Inventory, s: Session)
    requires s.id != ""
    ensures Projection(inventory + [s]) == Absorb(Projection(inventory), Candidate(s, s.pn))
    ensures Projection([]) == []
  {
    hide Absorb;
    assert (inventory + [s])[..|inventory|] == inventory;
  }

  /** Of two observations of one collector the strongly identified one stays, then the longer PN, then the first. */
  lemma TheStrongerObservationStays(x: Candidate, c: Candidate)
    requires x.pn != "" && c.pn != "" && SameIdentity(x.pn, c.pn)
    ensures |Absorb([x], c)| == 1
    ensures StrongSource(x.raw.source) && !StrongSource(c.raw.source) ==> Absorb([x], c) == [x]
    ensures !StrongSource(x.raw.source) && StrongSource(c.raw.source) ==> Absorb([x], c)[0].raw == c.raw
    ensures StrongSource(x.raw.source) == StrongSource(c.raw.source) && |c.pn| > |x.pn| ==> Absorb([x], c)[0].raw == c.raw
    ensures StrongSource(x.raw.source) == StrongSource(c.raw.source) && |c.pn| <= |x.pn| ==> Absorb([x], c) == [x]
    ensures Absorb([x], c)[0].raw == c.raw && Absorb([x], c) != [x] ==>
      |Absorb([x], c)[0].pn| >= |Strip(x.pn)| && |Absorb([x], c)[0].pn| >= |Strip(c.pn)|
  {
    hide SameIdentity, StrongSource, Strip;
    AbsorbIntoOne(x, c);
  }

  /** A live session is discoverable, a closed or still anonymous one is not, and one on a wrong route if identified. */
  lemma DiscoverableStates(s: Session)
    ensures s.state == Live ==> Discoverable(s)
    ensures s.state == Closed || s.state == WaitingForIdentity ==> !Discoverable(s)
    ensures s.state == RouteMismatch ==> (Discoverable(s) <==> StrongSource(s.source))
  {
    hide StrongSource;
  }

  /** The three strong sources, and what can be a PN. */
  lemma KnownIdentities()
    ensures StrongSource("at_dtupn") && StrongSource("fc1_identity_challenge") && StrongSource("fc2_parameter_2")
    ensures !StrongSource("") && !StrongSource("heartbeat")
    ensures WireSafe("E50000") && !WireSafe("E5000") && !WireSafe("-50000") && !WireSafe("E 0000") && WireSafe("E5.0_0-")
    ensures forall s :: |s| > 64 ==> !WireSafe(s)
  {
    assert Strip("at_dtupn") == "at_dtupn" && Strip("fc1_identity_challenge") == "fc1_identity_challenge";
    assert Strip("fc2_parameter_2") == "fc2_parameter_2" && Strip("") == "" && Strip("heartbeat") == "heartbeat";
    assert |"heartbeat"| == 9 && |"at_dtupn"| == 8 && |"fc1_identity_challenge"| == 22 && |"fc2_parameter_2"| == 15;
    assert "E 0000"[1] in "E 0000";
  }
}
