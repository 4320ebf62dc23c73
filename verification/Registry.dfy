/**
 What the session registry shows passive discovery: the per-socket sessions of the listeners, their
 coalesced projection, and the candidates nobody owns. Ownership itself is part of the environment.
 */
module Registry {
  import opened Numbers
  import opened Text
  import opened Identity

  /** One physical socket: the listener port it came in on and its session id. */
  datatype Socket = Socket(port: int, id: string)

  datatype Host = DefaultHost | HostText(text: string) | HostOther

  /** How the listener last saw the socket. */
  datatype SocketState = Live | Closed | RouteMismatch | WaitingForIdentity

  /** One inventory row with the owner the registry attached; an empty owner means unclaimed. */
  datatype Session = Session(
    port: int, id: string, pn: string, peer: string, source: string,
    state: SocketState, host: Host, owner: string)
  {
    function Key(): Socket { Socket(port, id) }
  }

  type Inventory = seq<Session>

  /** `_observed_session_keys`: the sockets of the inventory that have an id. */
  function Sockets(inventory: Inventory): set<Socket> {
    set s | s in inventory && s.id != "" :: s.Key()
  }

  /** A session of the coalesced view: the winning socket and the fullest PN seen for it. */
  datatype Candidate = Candidate(raw: Session, pn: string)

  predicate Wins(challenger: Candidate, holder: Candidate) {
    || (StrongSource(challenger.raw.source) && !StrongSource(holder.raw.source))
    || (StrongSource(challenger.raw.source) == StrongSource(holder.raw.source) && |challenger.pn| > |holder.pn|)
  }

  /** The first candidate of the same collector keeps its place; a stronger observation takes it over. */
  function Absorb(candidates: seq<Candidate>, c: Candidate): (r: seq<Candidate>)
    ensures forall x :: x in r ==> x.raw == c.raw || exists y :: y in candidates && y.raw == x.raw
  {
    if c.pn == "" || candidates == [] then candidates + [c]
    else if candidates[0].pn != "" && SameIdentity(candidates[0].pn, c.pn) then
      if Wins(c, candidates[0])
      then [c.(pn := PreferFull(candidates[0].pn, c.pn))] + candidates[1..]
      else candidates
    else [candidates[0]] + Absorb(candidates[1..], c)
  }

  /** `observed_sessions`: one candidate per collector, in inventory order. */
  function Projection(inventory: Inventory): (r: seq<Candidate>)
    ensures forall c :: c in r ==> c.raw in inventory && c.raw.id != ""
  {
    if inventory == [] then []
    else
      var s := inventory[|inventory| - 1];
      var before := Projection(inventory[..|inventory| - 1]);
      if s.id == "" then before else Absorb(before, Candidate(s, s.pn))
  }

  /** No two candidates are the same collector. */
  predicate DistinctCollectors(candidates: seq<Candidate>) {
    forall i, j :: 0 <= i < j < |candidates| && candidates[i].pn != "" && candidates[j].pn != "" ==>
      !SameIdentity(candidates[i].pn, candidates[j].pn)
  }

  /** Growing into a fuller PN makes nobody the same collector who was not. */
  lemma FullerPnStaysApart(held: string, pn: string, other: string)
    requires SameIdentity(held, pn) && !SameIdentity(held, other)
    ensures !SameIdentity(PreferFull(held, pn), other)
  {
    var a, b, c := Strip(held), Strip(pn), Strip(other);
    if a <= b && b <= c {
      assert a <= c;
    } else if a <= b && c <= b {
      assert a <= c || c <= a;
    }
  }

  lemma {:induction false} AbsorbKeepsCollectorsDistinct(candidates: seq<Candidate>, c: Candidate)
    requires DistinctCollectors(candidates)
    ensures DistinctCollectors(Absorb(candidates, c))
    ensures c.pn == "" ==> Absorb(candidates, c) == candidates + [c]
    ensures forall h: string ::
      h != "" && (c.pn != "" ==> !SameIdentity(h, c.pn))
      && (forall x :: x in candidates && x.pn != "" ==> !SameIdentity(h, x.pn)) ==>
        forall x :: x in Absorb(candidates, c) && x.pn != "" ==> !SameIdentity(h, x.pn)
  {
    hide SameIdentity, PreferFull;
    if c.pn != "" && candidates != [] {
      var head, rest := candidates[0], candidates[1..];
      assert candidates == [head] + rest;
      if head.pn != "" && SameIdentity(head.pn, c.pn) {
        forall j | 0 <= j < |rest| && rest[j].pn != ""
          ensures !SameIdentity(PreferFull(head.pn, c.pn), rest[j].pn)
        {
          assert rest[j] == candidates[j + 1];
          FullerPnStaysApart(head.pn, c.pn, rest[j].pn);
        }
        forall h: string | h != "" && !SameIdentity(h, c.pn) && !SameIdentity(h, head.pn)
          ensures !SameIdentity(h, PreferFull(head.pn, c.pn))
        {
          PreferFullIsOneOfBoth(head.pn, c.pn, h);
        }
      } else {
        AbsorbKeepsCollectorsDistinct(rest, c);
        if head.pn != "" {
          forall x | x in rest && x.pn != "" ensures !SameIdentity(head.pn, x.pn) {
            var j :| 0 <= j < |rest| && rest[j] == x;
            assert candidates[j + 1] == x;
          }
        }
      }
    }
  }

  lemma PreferFullIsOneOfBoth(a: string, b: string, h: string)
    requires !SameIdentity(h, a) && !SameIdentity(h, b)
    ensures !SameIdentity(h, PreferFull(a, b))
  {
  }

  /** Coalescing leaves one candidate per collector. */
  lemma {:induction false} ProjectionHasDistinctCollectors(inventory: Inventory)
    ensures DistinctCollectors(Projection(inventory))
  {
    hide SameIdentity, Absorb;
    if inventory != [] {
      var n := |inventory| - 1;
      ProjectionHasDistinctCollectors(inventory[..n]);
      AbsorbKeepsCollectorsDistinct(Projection(inventory[..n]), Candidate(inventory[n], inventory[n].pn));
    }
  }

  /** The candidate that absorbs an observation is the same collector, at least as strongly identified. */
  lemma {:induction false} AbsorbedByTheSameCollector(candidates: seq<Candidate>, c: Candidate)
    requires Strip(c.pn) != ""
    ensures exists x :: x in Absorb(candidates, c) && SameIdentity(x.pn, c.pn)
                        && (StrongSource(c.raw.source) ==> StrongSource(x.raw.source))
  {
    hide StrongSource, Strip;
    if candidates == [] {
      assert c in Absorb(candidates, c);
    } else if candidates[0].pn != "" && SameIdentity(candidates[0].pn, c.pn) {
      var x := Absorb(candidates, c)[0];
      assert x in Absorb(candidates, c);
      PreferFullIsTheSame(candidates[0].pn, c.pn);
    } else {
      AbsorbedByTheSameCollector(candidates[1..], c);
      var x :| x in Absorb(candidates[1..], c) && SameIdentity(x.pn, c.pn)
               && (StrongSource(c.raw.source) ==> StrongSource(x.raw.source));
      assert x in Absorb(candidates, c);
    }
  }

  lemma PreferFullIsTheSame(a: string, b: string)
    requires SameIdentity(a, b)
    ensures SameIdentity(PreferFull(a, b), b)
  {
  }

  predicate Discoverable(s: Session) {
    match s.state
    case Live => true
    case Closed => false
    case RouteMismatch => StrongSource(s.source)
    case WaitingForIdentity => false
  }

  function Raws(candidates: seq<Candidate>): (r: seq<Session>)
    ensures |r| == |candidates| && forall i :: 0 <= i < |r| ==> r[i] == candidates[i].raw
  {
    seq(|candidates|, i requires 0 <= i < |candidates| => candidates[i].raw)
  }

  function FreeAmong(sessions: seq<Session>): (r: seq<Session>)
    ensures forall s :: s in r <==> s in sessions && s.owner == "" && Discoverable(s)
  {
    if sessions == [] then []
    else if sessions[0].owner == "" && Discoverable(sessions[0]) then [sessions[0]] + FreeAmong(sessions[1..])
    else FreeAmong(sessions[1..])
  }

  /** `list_unclaimed_sessions`, as the raw sessions discovery works on. */
  function Unclaimed(inventory: Inventory): (r: seq<Session>)
    ensures forall s :: s in r <==> s in Raws(Projection(inventory)) && s.owner == "" && Discoverable(s)
    ensures forall s :: s in r ==> s in inventory && s.id != ""
  {
    FreeAmong(Raws(Projection(inventory)))
  }
}
