/** Removal tickets over every run: which socket they name, and whether it is still there. */
module TicketRuns {
  import opened Numbers
  import opened Text
  import opened Identity
  import opened Registry
  import opened DiscoverySpec
  import opened DiscoveryRuns

  function SocketOf(t: Ticket): Socket { Socket(t.port, t.id) }

  /** The event unloads this entry. */
  predicate Unloads(e: Event, owner: string) { e.RetireEvent? && Strip(e.entry) == owner && owner != "" }

  /** A ticket names a socket its owner held at that moment. */
  lemma TicketNamesOwnedSocket(w: World, owner: string)
    ensures TicketOf(w, owner).Some? ==> SocketOf(TicketOf(w, owner).value) in OwnedSockets(w.inventory, owner)
  {
    if TicketOf(w, owner).Some? {
      var claimed := if owner in w.claims then w.claims[owner] else "";
      var s := Selected(EligibleAmong(w.inventory, owner), claimed).value;
      assert s in w.inventory && OwnedBy(s, owner);
    }
  }

  /** How one event leaves the ticket of an entry, if it leaves one. */
  lemma TicketStep(st: State, e: Event, owner: string)
    requires st.tickets.Keys <= st.pending.Keys
    ensures Next(st, e).tickets.Keys <= Next(st, e).pending.Keys
    ensures owner in Next(st, e).tickets && Unloads(e, owner) ==>
      SocketOf(Next(st, e).tickets[owner]) in PendingOf(Next(st, e), owner)
    ensures owner in Next(st, e).tickets && !Unloads(e, owner) ==>
      && owner in st.tickets && Next(st, e).tickets[owner] == st.tickets[owner]
      && var k := SocketOf(st.tickets[owner]);
         k in PendingOf(Next(st, e), owner) <==> k in PendingOf(st, owner) && !SeesGone(e, k)
  {
    hide Projection, Unclaimed, TicketOf, PublishAll, OwnedSockets;
    if e.RetireEvent? {
      TicketNamesOwnedSocket(e.world, Strip(e.entry));
    }
    if Looks(e) {
      PollKeepsCapturedSets(if e.PollEvent? then st else st.(notified := {}, probed := {}, retired := {}), e.world);
    }
  }

  /** Exactly when one event leaves an entry a ticket, and which. */
  lemma TicketStepExactly(st: State, e: Event, owner: string)
    requires st.tickets.Keys <= st.pending.Keys && owner != ""
    ensures Unloads(e, owner) ==>
      if TicketOf(e.world, owner).Some? then
        owner in Next(st, e).tickets && Next(st, e).tickets[owner] == TicketOf(e.world, owner).value
      else owner !in Next(st, e).tickets
    ensures !Unloads(e, owner) ==>
      (owner in Next(st, e).tickets <==>
        && owner in st.tickets
        && !((e.ResumeEvent? || e.TakeEvent?) && Strip(e.entry) == owner)
        && (Looks(e) ==> exists k :: k in PendingOf(st, owner) && k in Sockets(e.world.inventory)))
    ensures e.TakeEvent? && Strip(e.entry) == owner ==>
      TakenTicket(st, e.entry) == if owner in st.tickets then Some(st.tickets[owner]) else None
  {
    hide Projection, Unclaimed, TicketOf, PublishAll, OwnedSockets, Sockets;
    if Looks(e) {
      PollKeepsCapturedSets(if e.PollEvent? then st else st.(notified := {}, probed := {}, retired := {}), e.world);
      if owner in st.pending {
        SetsMeet(st.pending[owner], Sockets(e.world.inventory));
      }
    }
  }

  lemma SetsMeet(a: set<Socket>, b: set<Socket>)
    ensures a * b != {} <==> exists k :: k in a && k in b
  {
    if k :| k in a && k in b {
      assert k in a * b;
    }
    if a * b != {} {
      var k :| k in a * b;
    }
  }

  /** Over every run an entry has a ticket only while it has a pending socket. */
  lemma {:induction false} TicketsNeedPendingSockets(events: seq<Event>)
    ensures RunFrom(INITIAL, events).tickets.Keys <= RunFrom(INITIAL, events).pending.Keys
  {
    hide Next;
    if events != [] {
      TicketsNeedPendingSockets(events[..|events| - 1]);
      TicketStep(RunFrom(INITIAL, events[..|events| - 1]), events[|events| - 1], "");
    }
  }

  /** Since the latest unload of the entry, at event `i`, nothing has seen the socket gone. */
  predicate SeenSinceUnload(events: seq<Event>, i: nat, owner: string, k: Socket) {
    && i < |events| && Unloads(events[i], owner)
    && forall j: nat :: i < j < |events| ==> !Unloads(events[j], owner) && !SeesGone(events[j], k)
  }

  ghost predicate StillSeen(events: seq<Event>, owner: string, k: Socket) {
    exists i: nat :: SeenSinceUnload(events, i, owner, k)
  }

  lemma StillSeenStep(events: seq<Event>, owner: string, k: Socket)
    requires events != []
    ensures var n := |events| - 1;
      StillSeen(events, owner, k) <==>
        Unloads(events[n], owner) || (!SeesGone(events[n], k) && StillSeen(events[..n], owner, k))
  {
    hide Unloads, SeesGone;
    var n := |events| - 1;
    if Unloads(events[n], owner) {
      assert SeenSinceUnload(events, n, owner, k);
    } else if StillSeen(events, owner, k) {
      var i: nat :| SeenSinceUnload(events, i, owner, k);
      assert SeenSinceUnload(events[..n], i, owner, k);
    }
    if !Unloads(events[n], owner) && !SeesGone(events[n], k) && StillSeen(events[..n], owner, k) {
      var i: nat :| SeenSinceUnload(events[..n], i, owner, k);
      forall j: nat | i < j < |events| ensures !Unloads(events[j], owner) && !SeesGone(events[j], k) {
        assert j == n || events[..n][j] == events[j];
      }
      assert SeenSinceUnload(events, i, owner, k);
    }
  }

  /**
   Over every run, the socket a ticket names is still pending for its entry exactly when no look at
   the inventory since the entry's latest unload saw it gone.
   */
  lemma {:induction false} TicketNamesPendingSocketIff(events: seq<Event>, owner: string)
    requires owner in RunFrom(INITIAL, events).tickets
    ensures var k := SocketOf(RunFrom(INITIAL, events).tickets[owner]);
      k in PendingOf(RunFrom(INITIAL, events), owner) <==> StillSeen(events, owner, k)
  {
    hide Next, StillSeen, Unloads, SeesGone;
    var n := |events| - 1;
    var before := RunFrom(INITIAL, events[..n]);
    TicketsNeedPendingSockets(events[..n]);
    TicketStep(before, events[n], owner);
    StillSeenStep(events, owner, SocketOf(RunFrom(INITIAL, events).tickets[owner]));
    if !Unloads(events[n], owner) {
      TicketNamesPendingSocketIff(events[..n], owner);
    }
  }

  /** Two sockets pending, the one on the ticket closes: the ticket is still there to be taken. */
  lemma TicketCanOutliveItsSocket()
    ensures exists events: seq<Event>, owner: string ::
      var st := RunFrom(INITIAL, events);
      && TakenTicket(st, owner).Some?
      && SocketOf(TakenTicket(st, owner).value) !in PendingOf(st, owner)
      && Looks(events[|events| - 1])
      && SocketOf(TakenTicket(st, owner).value) !in Sockets(events[|events| - 1].world.inventory)
  {
    hide TicketOf, OwnedSockets, Poll, Capturing;
    var s := Session(502, "s1", "E5000020300001", "10.0.0.9", "at_dtupn", Live, DefaultHost, "a");
    var t := s.(id := "s2");
    var w := World([s, t], map["a" := "s1"], true, [], [], {});
    var later := World([t], map[], true, [], [], {});
    var events := [RetireEvent("a", w), PollEvent(later)];
    var retired := Retire(INITIAL, "a", w);
    RunOfTwo(RetireEvent("a", w), PollEvent(later));
    TwoSockets(s, t, w);
    assert Strip("a") == "a";
    OneSocketLeft(retired, "a", s.Key(), t);
  }

  /** One of two pending sockets is still there: it stays pending, and the ticket stays. */
  lemma OneSocketLeft(st: State, owner: string, gone: Socket, t: Session)
    requires owner in st.pending && st.pending[owner] == {gone, t.Key()} && t.Key() != gone && t.id != ""
    ensures var w := World([t], map[], true, [], [], {});
      && Sockets([t]) == {t.Key()} && PendingOf(Poll(st, w).st, owner) == {t.Key()}
      && (owner in st.tickets ==> owner in Poll(st, w).st.tickets && Poll(st, w).st.tickets[owner] == st.tickets[owner])
  {
    hide Unclaimed, Projection, PublishAll;
    PollKeepsCapturedSets(st, World([t], map[], true, [], [], {}));
    assert t in [t] && Sockets([t]) == {t.Key()};
    assert t.Key() in st.pending[owner] * {t.Key()};
  }

  lemma TwoSockets(s: Session, t: Session, w: World)
    requires s == Session(502, "s1", "E5000020300001", "10.0.0.9", "at_dtupn", Live, DefaultHost, "a")
    requires t == s.(id := "s2") && w == World([s, t], map["a" := "s1"], true, [], [], {})
    ensures OwnedSockets([s, t], "a") == {s.Key(), t.Key()} && s.Key() != t.Key()
    ensures TicketOf(w, "a") == Some(Ticket(s.pn, s.source, s.id, "0.0.0.0", 502))
  {
    assert s in [s, t] && t in [s, t] && "s1"[1] != "s2"[1];
    assert Strip("at_dtupn") == "at_dtupn";
    assert [s, t][1..] == [t] && [t][1..] == [];
    assert EligibleAmong([t], "a") == [t] + EligibleAmong([], "a");
    assert EligibleAmong([s, t], "a") == [s] + EligibleAmong([t], "a");
    assert FirstWithId([s, t], "s1") == Some(s);
  }

  // ---- which socket a ticket is for -----------------------------------------------------------------------

  /** A row of the entry that is strongly identified, not closed, and on a real port. */
  predicate Restartable(s: Session, owner: string) {
    s.id != "" && s.owner == owner && StrongSource(s.source) && s.state != Closed && s.port >= 1
  }

  /** The ticket says what the row says, with the wildcard address for a missing host. */
  predicate Describes(t: Ticket, s: Session) {
    && t.pn == s.pn && t.source == s.source && t.id == s.id && t.port == s.port <= 65535
    && (s.host == DefaultHost || s.host == HostText("") ==> t.host == "0.0.0.0")
    && (s.host.HostText? && s.host.text != "" ==> t.host == s.host.text) && s.host != HostOther
    && Normalized(t.pn) && Normalized(t.source) && Normalized(t.id) && Normalized(t.host)
  }

  predicate Pinned(w: World, owner: string, id: string) { owner in w.claims && w.claims[owner] == id != "" }

  predicate Unpinned(w: World, owner: string) { owner !in w.claims || w.claims[owner] == "" }

  /** The row is the first restartable one with its id. */
  predicate FirstOfId(inventory: Inventory, i: nat, owner: string) {
    && i < |inventory| && Restartable(inventory[i], owner)
    && forall j :: 0 <= j < i ==> !(Restartable(inventory[j], owner) && inventory[j].id == inventory[i].id)
  }

  /** The row is the only restartable one. */
  predicate Lone(inventory: Inventory, i: nat, owner: string) {
    && i < |inventory| && Restartable(inventory[i], owner)
    && forall j :: 0 <= j < |inventory| && j != i ==> !Restartable(inventory[j], owner)
  }

  /** The one row a ticket may be for: the pinned one, or the only one. */
  predicate Chosen(w: World, i: nat, owner: string) {
    || (FirstOfId(w.inventory, i, owner) && Pinned(w, owner, w.inventory[i].id))
    || (Lone(w.inventory, i, owner) && Unpinned(w, owner))
  }

  lemma EligibleIsRestartable(s: Session, owner: string)
    ensures Eligible(s, owner) <==> Restartable(s, owner)
  {
  }

  lemma {:induction false} FirstEligibleOfId(inventory: Inventory, i: nat, owner: string)
    requires FirstOfId(inventory, i, owner)
    ensures FirstWithId(EligibleAmong(inventory, owner), inventory[i].id) == Some(inventory[i])
  {
    hide StrongSource;
    EligibleIsRestartable(inventory[0], owner);
    if i > 0 {
      assert forall j :: 0 <= j < i - 1 ==> inventory[1..][j] == inventory[j + 1];
      FirstEligibleOfId(inventory[1..], i - 1, owner);
      var rest := EligibleAmong(inventory[1..], owner);
      if Eligible(inventory[0], owner) {
        assert ([inventory[0]] + rest)[1..] == rest;
      }
    }
  }

  lemma {:induction false} NoneEligible(inventory: Inventory, owner: string)
    requires forall j :: 0 <= j < |inventory| ==> !Restartable(inventory[j], owner)
    ensures EligibleAmong(inventory, owner) == []
  {
    hide StrongSource;
    if inventory != [] {
      EligibleIsRestartable(inventory[0], owner);
      assert forall j :: 0 <= j < |inventory| - 1 ==> inventory[1..][j] == inventory[j + 1];
      NoneEligible(inventory[1..], owner);
    }
  }

  lemma {:induction false} LoneEligible(inventory: Inventory, i: nat, owner: string)
    requires Lone(inventory, i, owner)
    ensures EligibleAmong(inventory, owner) == [inventory[i]]
  {
    hide StrongSource;
    EligibleIsRestartable(inventory[0], owner);
    assert forall j :: 0 <= j < |inventory| - 1 ==> inventory[1..][j] == inventory[j + 1];
    if i == 0 {
      NoneEligible(inventory[1..], owner);
    } else {
      LoneEligible(inventory[1..], i - 1, owner);
    }
  }

  /** Which row each eligible one comes from. */
  lemma {:induction false} EligibleComesFrom(inventory: Inventory, owner: string, e: nat) returns (i: nat)
    requires e < |EligibleAmong(inventory, owner)|
    ensures i < |inventory| && inventory[i] == EligibleAmong(inventory, owner)[e] && Restartable(inventory[i], owner)
  {
    hide StrongSource;
    EligibleIsRestartable(inventory[0], owner);
    if Eligible(inventory[0], owner) && e == 0 {
      i := 0;
    } else {
      var rest := EligibleComesFrom(inventory[1..], owner, if Eligible(inventory[0], owner) then e - 1 else e);
      i := rest + 1;
    }
  }

  lemma TicketDescribes(s: Session, owner: string)
    requires Restartable(s, owner)
    ensures TicketFor(s).Some? ==> Describes(TicketFor(s).value, s)
    ensures forall t :: Describes(t, s) ==> TicketFor(s) == Some(t)
  {
    hide StrongSource, Trimmed;
    WildcardIsNormal();
  }

  lemma WildcardIsNormal()
    ensures Normalized("0.0.0.0")
  {
  }

  /** A row chosen for the ticket gets it, exactly when a ticket can describe it. */
  lemma ChosenRowGetsTheTicket(w: World, i: nat, owner: string, t: Ticket)
    requires Chosen(w, i, owner)
    ensures TicketOf(w, owner) == Some(t) <==> Describes(t, w.inventory[i])
  {
    hide StrongSource, TicketFor, Describes, EligibleAmong, FirstWithId;
    if FirstOfId(w.inventory, i, owner) && Pinned(w, owner, w.inventory[i].id) {
      FirstEligibleOfId(w.inventory, i, owner);
    } else {
      LoneEligible(w.inventory, i, owner);
    }
    TicketDescribes(w.inventory[i], owner);
  }

  lemma {:induction false} EachRestartableCounts(inventory: Inventory, owner: string, i: nat, j: nat)
    requires i <= j < |inventory| && Restartable(inventory[i], owner) && Restartable(inventory[j], owner)
    ensures |EligibleAmong(inventory, owner)| >= (if i == j then 1 else 2)
  {
    hide StrongSource;
    EligibleIsRestartable(inventory[0], owner);
    if j > 0 {
      EachRestartableCounts(inventory[1..], owner, if i == 0 then j - 1 else i - 1, j - 1);
    }
  }

  lemma {:induction false} FirstIndexOfId(inventory: Inventory, owner: string, i: nat) returns (first: nat)
    requires i < |inventory| && Restartable(inventory[i], owner)
    ensures FirstOfId(inventory, first, owner) && inventory[first].id == inventory[i].id
    decreases i
  {
    hide Restartable;
    if j: nat :| j < i && Restartable(inventory[j], owner) && inventory[j].id == inventory[i].id {
      first := FirstIndexOfId(inventory, owner, j);
    } else {
      first := i;
    }
  }

  lemma FoundIsThere(sessions: seq<Session>, id: string) returns (e: nat)
    requires FirstWithId(sessions, id).Some?
    ensures e < |sessions| && sessions[e].id == id
  {
    e :| 0 <= e < |sessions| && sessions[e] == FirstWithId(sessions, id).value;
  }

  /** A ticket is always for a chosen row: nothing else gets one. */
  lemma TicketsAreForChosenRows(w: World, owner: string) returns (i: nat)
    requires TicketOf(w, owner).Some?
    ensures Chosen(w, i, owner) && Describes(TicketOf(w, owner).value, w.inventory[i])
  {
    hide StrongSource, TicketFor, Describes, EligibleAmong, FirstWithId, Restartable;
    var claimed := if owner in w.claims then w.claims[owner] else "";
    var eligible := EligibleAmong(w.inventory, owner);
    if claimed != "" {
      var e := FoundIsThere(eligible, claimed);
      i := EligibleComesFrom(w.inventory, owner, e);
      i := FirstIndexOfId(w.inventory, owner, i);
    } else {
      i := EligibleComesFrom(w.inventory, owner, 0);
      forall j | 0 <= j < |w.inventory| && j != i ensures !Restartable(w.inventory[j], owner) {
        if Restartable(w.inventory[j], owner) {
          EachRestartableCounts(w.inventory, owner, if i < j then i else j, if i < j then j else i);
        }
      }
    }
    ChosenRowGetsTheTicket(w, i, owner, TicketOf(w, owner).value);
  }
}
