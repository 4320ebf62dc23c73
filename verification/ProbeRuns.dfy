/** Probe suppression over every run: what puts a socket there, and what lets go of it. */
module ProbeRuns {
  import opened Numbers
  import opened Text
  import opened Identity
  import opened Registry
  import opened DiscoverySpec
  import opened DiscoveryRuns

  /** After every poll, each live socket new to an open scope is suppressed, and no marker outlives its socket. */
  lemma PollSuppressesNewSockets(st: State, w: World)
    requires w.canPublish
    ensures var after := Poll(st, w).st;
      && (forall t, k :: t in after.scopes && k in Sockets(w.inventory) && k !in after.scopes[t] ==> k in after.probed)
      && after.probed <= Sockets(w.inventory) && after.retired <= Sockets(w.inventory)
      && after.quarantined <= Sockets(w.inventory)
      && (forall o :: o in after.pending ==> after.pending[o] != {} && after.pending[o] <= Sockets(w.inventory))
  {
    hide Projection, Unclaimed, PublishAll;
    PollKeepsCapturedSets(st, w);
  }

  /** The sockets that are new to a scope. */
  function Arrived(st: State, scope: string, inventory: Inventory): set<Socket>
    requires Strip(scope) in st.scopes
  {
    Sockets(inventory) - st.scopes[Strip(scope)]
  }

  predicate Ends(st: State, e: Event) { e.EndEvent? && Strip(e.scope) in st.scopes }

  /** The event suppresses the socket: a look finds it new to an open scope, or a scope ends and keeps it. */
  predicate Marks(st: State, e: Event, k: Socket) {
    || (Looks(e) && k in NewToSome(st.scopes, Sockets(e.world.inventory)))
    || (Ends(st, e) && match e.retain
          case None => k in Arrived(st, e.scope, e.inventory)
          case Some(ids) => k in Retained(e.inventory, ids))
  }

  /** The event lets go of a suppression: show-again, a look that misses the socket, or a scope that releases it. */
  predicate Clears(st: State, e: Event, k: Socket) {
    || e.ShowAgainEvent?
    || SeesGone(e, k)
    || (Ends(st, e) && e.retain.Some? && k in Arrived(st, e.scope, e.inventory)
        && k !in NewToSome(st.scopes - {Strip(e.scope)}, Sockets(e.inventory)))
  }

  /** Exactly what one event does to the probe suppression of one socket. */
  lemma ProbedStep(st: State, e: Event, k: Socket)
    ensures k in Next(st, e).probed <==> Marks(st, e, k) || (k in st.probed && !Clears(st, e, k))
  {
    hide Projection, Unclaimed, TicketOf, PublishAll, Retained, NewToSome;
    if Looks(e) {
      PollKeepsCapturedSets(if e.PollEvent? then st else st.(notified := {}, probed := {}, retired := {}), e.world);
      NewSocketsAreThere(st.scopes, Sockets(e.world.inventory));
    }
  }

  lemma NewSocketsAreThere(scopes: map<string, set<Socket>>, current: set<Socket>)
    ensures NewToSome(scopes, current) <= current
  {
  }

  /** Event `i` marks the socket, and no later event of the run lets go of it. */
  predicate MarkedAt(st: State, events: seq<Event>, i: nat, k: Socket) {
    && i < |events|
    && Marks(At(st, events, i), events[i], k)
    && forall j: nat :: i < j < |events| ==> !Clears(At(st, events, j), events[j], k)
  }

  ghost predicate Marked(st: State, events: seq<Event>, k: Socket) { exists i: nat :: MarkedAt(st, events, i, k) }

  lemma MarkedStep(st: State, events: seq<Event>, k: Socket)
    requires events != []
    ensures var n := |events| - 1;
      var before := RunFrom(st, events[..n]);
      Marked(st, events, k) <==>
        Marks(before, events[n], k) || (!Clears(before, events[n], k) && Marked(st, events[..n], k))
  {
    hide Marks, Clears, RunFrom;
    var n := |events| - 1;
    if Marks(RunFrom(st, events[..n]), events[n], k) {
      assert MarkedAt(st, events, n, k);
    }
    forall i: nat | i < n
      ensures MarkedAt(st, events, i, k) <==>
        MarkedAt(st, events[..n], i, k) && !Clears(RunFrom(st, events[..n]), events[n], k)
    {
      MarkedAtStep(st, events, i, k);
    }
  }

  lemma MarkedAtStep(st: State, events: seq<Event>, i: nat, k: Socket)
    requires i < |events| - 1
    ensures var n := |events| - 1;
      MarkedAt(st, events, i, k) <==>
        MarkedAt(st, events[..n], i, k) && !Clears(RunFrom(st, events[..n]), events[n], k)
  {
    hide Marks, Clears, RunFrom;
    var n := |events| - 1;
    assert events[..n][..i] == events[..i];
    assert At(st, events, n) == RunFrom(st, events[..n]);
    forall j: nat | j < n ensures At(st, events[..n], j) == At(st, events, j) && events[..n][j] == events[j] {
      assert events[..n][..j] == events[..j];
    }
  }

  /** Over every run a socket is suppressed by probing exactly when an event marked it and none since let go. */
  lemma {:induction false} ProbedIffMarked(st: State, events: seq<Event>, k: Socket)
    requires k !in st.probed
    ensures k in RunFrom(st, events).probed <==> Marked(st, events, k)
  {
    hide Marks, Clears, Marked, Next;
    if events == [] {
      NothingMarks(st, k);
    } else {
      var n := |events| - 1;
      ProbedIffMarked(st, events[..n], k);
      ProbedStep(RunFrom(st, events[..n]), events[n], k);
      MarkedStep(st, events, k);
    }
  }

  lemma NothingMarks(st: State, k: Socket)
    ensures !Marked(st, [], k)
  {
  }

  /** Ending a scope with a retain set releases exactly its own new sockets that nobody keeps, and touches no others. */
  lemma EndScopeReleasesExactly(st: State, scope: string, ids: set<string>, inventory: Inventory, k: Socket)
    requires Strip(scope) in st.scopes
    ensures var own := Arrived(st, scope, inventory);
      var others := NewToSome(st.scopes - {Strip(scope)}, Sockets(inventory));
      var kept := Retained(inventory, ids);
      var after := Next(st, EndEvent(scope, Some(ids), inventory));
      && (k in st.probed && k !in after.probed <==> k in st.probed && k in own && k !in kept && k !in others)
      && (k !in st.probed && k in after.probed <==> k !in st.probed && k in kept)
      && (k !in own && k !in kept ==> (k in after.probed <==> k in st.probed))
  {
    hide Next, Retained, NewToSome;
    ProbedStep(st, EndEvent(scope, Some(ids), inventory), k);
  }

  // ---- sockets older than every open scope ----------------------------------------------------------------

  /** Every open scope had seen the socket when it began. */
  ghost predicate KnownToScopes(st: State, k: Socket) { forall t :: t in st.scopes ==> k in st.scopes[t] }

  /** A scope begins while the inventory misses the socket. */
  predicate Misses(e: Event, k: Socket) { e.BeginEvent? && Strip(e.scope) != "" && k !in Sockets(e.inventory) }

  /** The event ends an open scope whose retain set names the socket's id. */
  predicate Retains(st: State, e: Event, k: Socket) {
    Ends(st, e) && e.retain.Some? && k in Retained(e.inventory, e.retain.value)
  }

  lemma KnownToScopesStep(st: State, e: Event, k: Socket)
    requires KnownToScopes(st, k) && !Misses(e, k)
    ensures KnownToScopes(Next(st, e), k)
    ensures Marks(st, e, k) <==> Retains(st, e, k)
    ensures Clears(st, e, k) <==> e.ShowAgainEvent? || SeesGone(e, k)
  {
    hide Projection, Unclaimed, TicketOf, PublishAll, Retained;
    if Looks(e) {
      PollKeepsCapturedSets(if e.PollEvent? then st else st.(notified := {}, probed := {}, retired := {}), e.world);
    }
  }

  /**
   A socket seen before any scope was open can only be suppressed because of a retain set that names
   it, or because a scope began while the inventory missed it.
   */
  lemma {:induction false} EarlierSocketNeedsRetainOrMiss(st: State, events: seq<Event>, k: Socket, n: nat)
    requires st.scopes == map[] && n <= |events|
    requires forall i: nat :: i < n ==> !Misses(events[i], k)
    ensures KnownToScopes(At(st, events, n), k)
    ensures n < |events| && !Misses(events[n], k) && Marks(At(st, events, n), events[n], k) ==>
      Retains(At(st, events, n), events[n], k)
  {
    hide Marks, Clears, Retains, Misses, KnownToScopes, Next, SeesGone;
    if n == 0 {
      NoScopeIsOpen(st, k);
    } else {
      EarlierSocketNeedsRetainOrMiss(st, events, k, n - 1);
      AtSteps(st, events, n - 1);
      KnownToScopesStep(At(st, events, n - 1), events[n - 1], k);
    }
    if n < |events| && !Misses(events[n], k) {
      KnownToScopesStep(At(st, events, n), events[n], k);
    }
  }

  lemma NoScopeIsOpen(st: State, k: Socket)
    requires st.scopes == map[]
    ensures KnownToScopes(st, k)
  {
  }

  /** Event `i` retained the socket, and neither a show-again nor its closing came since. */
  ghost predicate RetainedAt(st: State, events: seq<Event>, i: nat, k: Socket) {
    && i < |events|
    && Retains(At(st, events, i), events[i], k)
    && forall j: nat :: i < j < |events| ==> !events[j].ShowAgainEvent? && !SeesGone(events[j], k)
  }

  /** When every baseline lists the earlier socket, only a retain set can have suppressed it. */
  lemma EarlierSocketIsProbedIffRetained(st: State, events: seq<Event>, k: Socket)
    requires st.scopes == map[] && k !in st.probed
    requires forall i: nat :: i < |events| ==> !Misses(events[i], k)
    ensures k in RunFrom(st, events).probed <==> exists i: nat :: RetainedAt(st, events, i, k)
  {
    hide Marks, Clears, Retains, Misses, Next, SeesGone, RunFrom;
    ProbedIffMarked(st, events, k);
    forall i: nat | i < |events|
      ensures Marks(At(st, events, i), events[i], k) <==> Retains(At(st, events, i), events[i], k)
      ensures Clears(At(st, events, i), events[i], k) <==> events[i].ShowAgainEvent? || SeesGone(events[i], k)
    {
      EarlierSocketNeedsRetainOrMiss(st, events, k, i);
      KnownToScopesStep(At(st, events, i), events[i], k);
    }
    forall i: nat ensures MarkedAt(st, events, i, k) <==> RetainedAt(st, events, i, k) {
    }
  }

  /** Begin a scope with the socket already there, end it retaining its id: an old socket is suppressed. */
  lemma EarlierSocketCanBeProbed()
    ensures exists s: Session, events: seq<Event> ::
      && |events| == 2 && events[0].BeginEvent? && s.Key() in Sockets(events[0].inventory)
      && s.Key() in RunFrom(INITIAL, events).probed
  {
    hide Retained, BeginScope, EndScope;
    var s := Session(502, "s1", "E5000020300001", "10.0.0.9", "at_dtupn", Live, DefaultHost, "");
    var begin, end := BeginEvent("scan", [s]), EndEvent("scan", Some({"s1"}), [s]);
    var events := [begin, end];
    RunOfTwo(begin, end);
    RetainingAnEarlierSocket(s);
    assert s in [s] && s.Key() in Sockets([s]);
  }

  lemma RetainingAnEarlierSocket(s: Session)
    requires s.id == "s1"
    ensures s.Key() in EndScope(BeginScope(INITIAL, "scan", [s]), "scan", Some({"s1"}), [s]).probed
  {
    assert Strip("scan") == "scan" && Strip("s1") == "s1";
    assert s in [s] && "s1" in {"s1"} && s.Key() in Retained([s], {"s1"});
  }

  /** A poll sees the socket, a scope begins while its listener does not answer, a poll sees it again: suppressed. */
  lemma MissedSocketCanBeProbed()
    ensures exists s: Session, w: World ::
      && w.canPublish && s.Key() in Sockets(w.inventory)
      && s.Key() in RunFrom(INITIAL, [PollEvent(w), BeginEvent("scan", []), PollEvent(w)]).probed
  {
    hide Poll, Unclaimed, Marks, Clears;
    var s := Session(502, "s1", "E5000020300001", "10.0.0.9", "at_dtupn", Live, DefaultHost, "");
    var w := World([s], map[], true, [], [], {});
    var events := [PollEvent(w), BeginEvent("scan", []), PollEvent(w)];
    assert s in [s] && s.Key() in Sockets([s]);
    var begun := BeginScope(Poll(INITIAL, w).st, "scan", []);
    RunOfTwo(PollEvent(w), BeginEvent("scan", []));
    assert events[..2] == [PollEvent(w), BeginEvent("scan", [])];
    assert RunFrom(INITIAL, events[..2]) == begun;
    assert RunFrom(INITIAL, events) == Next(begun, PollEvent(w));
    MissedBaseline(Poll(INITIAL, w).st, w, s);
    ProbedStep(begun, PollEvent(w), s.Key());
  }

  lemma MissedBaseline(st: State, w: World, s: Session)
    requires w.canPublish && s in w.inventory && s.id != ""
    ensures Marks(BeginScope(st, "scan", []), PollEvent(w), s.Key())
  {
    assert Strip("scan") == "scan";
    assert "scan" in BeginScope(st, "scan", []).scopes && BeginScope(st, "scan", []).scopes["scan"] == {};
    assert s.Key() in Sockets(w.inventory);
  }
}
