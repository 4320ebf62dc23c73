/** `PassiveCallbackDiscovery`: the mutable service, proved against the state machine. */
module Discovery {
  import opened Numbers
  import opened Text
  import opened Identity
  import opened Registry
  import opened DiscoverySpec

  datatype RefreshResult = RefreshResult(connectedUnclaimed: nat, suppressedCandidates: nat)

  /** How many candidates a refresh is about to bring back. */
  function HiddenCount(st: State, candidates: seq<Session>): nat {
    if candidates == [] then 0
    else
      var s := candidates[|candidates| - 1];
      HiddenCount(st, candidates[..|candidates| - 1])
      + if Suppressed(st, s) || (s.pn != "" && AlreadyNotified(st.notified, s)) then 1 else 0
  }

  class PassiveCallbackDiscovery {
    var notified: set<Note>
    var scopes: map<string, set<Socket>>
    var probed: set<Socket>
    var retired: set<Socket>
    var pending: map<string, set<Socket>>
    var quarantined: set<Socket>
    var tickets: map<string, Ticket>

    ghost function View(): State
      reads this
    {
      State(notified, scopes, probed, retired, pending, quarantined, tickets)
    }

    constructor ()
      ensures View() == INITIAL
    {
      notified, scopes, probed, retired := {}, map[], {}, {};
      pending, quarantined, tickets := map[], {}, map[];
    }

    method BeginActiveProbeScope(scope: string, inventory: Inventory)
      modifies this
      ensures View() == BeginScope(old(View()), scope, inventory)
    {
      var token := Strip(scope);
      if token == "" {
        return;
      }
      scopes := scopes[token := Sockets(inventory)];
    }

    method EndActiveProbeScope(scope: string, retain: Option<set<string>>, inventory: Inventory)
      modifies this
      ensures View() == EndScope(old(View()), scope, retain, inventory)
    {
      var token := Strip(scope);
      if token !in scopes {
        return;
      }
      var current := Sockets(inventory);
      var arrived := current - scopes[token];
      scopes := scopes - {token};
      if retain.None? {
        probed := probed + arrived;
        return;
      }
      var kept := RetainedSockets(inventory, retain.value);
      var otherScopes := NewSockets(scopes, current);
      probed := probed - (arrived - kept - otherScopes);
      probed := probed + kept;
    }

    /** Retires every socket the entry owns and captures at most one exact restart ticket. */
    method RetireEntrySessions(entry: string, w: World)
      modifies this
      ensures View() == Retire(old(View()), entry, w)
    {
      hide TicketOf, OwnedBy, OwnedSockets;
      var owner := Strip(entry);
      if owner == "" {
        return;
      }
      var keys: set<Socket> := {};
      var i := 0;
      OwnedSocketsOfNone(w.inventory, owner);
      while i < |w.inventory|
        invariant 0 <= i <= |w.inventory|
        invariant keys == OwnedSockets(w.inventory[..i], owner)
        invariant retired == old(retired) + keys && quarantined == old(quarantined) + keys
        invariant notified == old(notified) && scopes == old(scopes) && probed == old(probed)
        invariant pending == old(pending) && tickets == old(tickets)
      {
        var s := w.inventory[i];
        OwnedSocketsOneMore(w.inventory, i, owner);
        if OwnedBy(s, owner) {
          retired, quarantined, keys := retired + {s.Key()}, quarantined + {s.Key()}, keys + {s.Key()};
        }
        i := i + 1;
      }
      assert w.inventory[..i] == w.inventory;
      if keys != {} {
        pending := pending[owner := keys];
      }
      var ticket := TicketOf(w, owner);
      tickets := if ticket.Some? then tickets[owner := ticket.value] else tickets - {owner};
    }

    method ResumeEntrySessions(entry: string)
      modifies this
      ensures View() == Resume(old(View()), entry)
    {
      var owner := Strip(entry);
      if owner == "" {
        return;
      }
      var keys := if owner in pending then pending[owner] else {};
      pending := pending - {owner};
      quarantined := quarantined - keys;
      tickets := tickets - {owner};
    }

    method TakeEntryRemovalTicket(entry: string) returns (ticket: Option<Ticket>)
      modifies this
      ensures View() == Take(old(View()), entry)
      ensures ticket == TakenTicket(old(View()), entry)
    {
      var owner := Strip(entry);
      if owner == "" {
        return None;
      }
      pending := pending - {owner};
      ticket := if owner in tickets then Some(tickets[owner]) else None;
      tickets := tickets - {owner};
    }

    /** The candidates a user-started search may show. */
    method SnapshotUnclaimedCollectorSessions(w: World) returns (shown: seq<Session>)
      ensures forall s :: s in shown <==> Interactive(View(), w, s)
    {
      hide Unclaimed, WellFormed;
      shown := [];
      var candidates := Unclaimed(w.inventory);
      var i := 0;
      while i < |candidates|
        invariant 0 <= i <= |candidates|
        invariant forall s :: s in shown <==> s in candidates[..i] && s.Key() !in quarantined && WellFormed(s)
      {
        var s := candidates[i];
        assert candidates[..i + 1] == candidates[..i] + [s];
        if s.Key() !in quarantined && WellFormed(s) {
          shown := shown + [s];
        }
        i := i + 1;
      }
      assert candidates[..i] == candidates;
    }

    /** Keeps every exact-socket marker within the sockets that are still there. */
    method CaptureActiveProbeSessions(inventory: Inventory)
      modifies this
      ensures View() == Capture(old(View()), inventory)
    {
      hide NewToSome;
      var current := Sockets(inventory);
      var arrived := NewSockets(scopes, current);
      probed := probed + arrived;
      probed := probed * current;
      retired := retired * current;
      quarantined := quarantined * current;
      TrimPending(current);
    }

    /** Drops closed sockets from every pending removal, and removals with none left. */
    method TrimPending(current: set<Socket>)
      modifies this`pending, this`tickets
      ensures pending == Capturing(old(pending), current)
      ensures tickets == old(tickets) - Emptied(old(pending), current)
    {
      var gone := EmptiedOwners(pending, current);
      pending := map o | o in pending && o !in gone :: pending[o] * current;
      tickets := tickets - gone;
    }

    method PruneNotifiedForObservedSessions(projection: seq<Session>)
      modifies this
      ensures View() == Prune(old(View()), projection)
    {
      var pruned: set<Note> := {};
      var todo := notified;
      while todo != {}
        invariant todo <= notified && View() == old(View())
        invariant pruned == set n | n in notified && n !in todo && StillShown(n, projection)
        decreases |todo|
      {
        var note :| note in todo;
        todo := todo - {note};
        if StillShown(note, projection) {
          pruned := pruned + {note};
        }
      }
      notified := pruned;
    }

    method ForgetAborted(aborts: seq<Forgotten>)
      modifies this
      ensures View() == old(View()).(notified := ForgetAll(old(notified), aborts))
    {
      var i := 0;
      while i < |aborts|
        invariant 0 <= i <= |aborts|
        invariant View() == old(View()).(notified := ForgetAll(old(notified), aborts[..i]))
      {
        assert aborts[..i + 1][..i] == aborts[..i];
        notified := notified - {PnNote(aborts[i].port, aborts[i].pn)};
        if aborts[i].id != "" {
          notified := notified - {SessionNote(aborts[i].port, aborts[i].id)};
        }
        i := i + 1;
      }
      assert aborts[..i] == aborts;
    }

    /** One poll: clean up, capture, prune, then publish what is new. */
    method PollOnce(w: World) returns (cards: seq<Session>)
      modifies this
      ensures Published(View(), cards) == Poll(old(View()), w)
    {
      hide Capture, Prune, ForgetAll, Publishable, Unclaimed, Projection, NotesFor;
      cards := [];
      if !w.canPublish {
        return;
      }
      ForgetAborted(w.weakAborts);
      CaptureActiveProbeSessions(w.inventory);
      PruneNotifiedForObservedSessions(Raws(Projection(w.inventory)));
      ForgetAborted(w.configuredAborts);
      ghost var start := View();
      assert start == BeforePublishing(old(View()), w);
      var candidates := Unclaimed(w.inventory);
      var i := 0;
      while i < |candidates|
        invariant 0 <= i <= |candidates|
        invariant Published(View(), cards) == PublishAll(start, w, candidates[..i])
      {
        assert candidates[..i + 1][..i] == candidates[..i];
        var s := candidates[i];
        var published := TryPublish(w, s);
        if published {
          cards := cards + [s];
        }
        i := i + 1;
      }
      assert candidates[..i] == candidates;
    }

    /** Publishes one candidate unless some check holds it back. */
    method TryPublish(w: World, s: Session) returns (published: bool)
      modifies this
      ensures published == Publishable(old(View()), w, s)
      ensures View() == old(View()).(notified := if published then old(notified) + NotesFor(s) else old(notified))
    {
      if s.id != "" && (s.Key() in probed || s.Key() in retired || s.Key() in quarantined) {
        return false;
      }
      if !WireSafe(s.pn) || s.peer == "" {
        return false;
      }
      if s in w.held {
        return false;
      }
      if PnNote(s.port, s.pn) in notified || (s.id != "" && SessionNote(s.port, s.id) in notified) {
        return false;
      }
      notified := notified - {PnNote(s.port, s.pn)} + {PnNote(s.port, s.pn)};
      if s.id != "" {
        notified := notified + {SessionNote(s.port, s.id)};
      }
      published := true;
    }

    method ShowDiscoveredDevicesAgain(w: World) returns (result: RefreshResult, cards: seq<Session>)
      modifies this
      ensures Published(View(), cards) == ShowAgain(old(View()), w)
      ensures result.connectedUnclaimed == |Unclaimed(w.inventory)|
      ensures result.suppressedCandidates == HiddenCount(old(View()), Unclaimed(w.inventory))
    {
      hide Poll, Unclaimed, HiddenCount;
      var candidates := Unclaimed(w.inventory);
      var hidden := CountHidden(candidates);
      notified, probed, retired := {}, {}, {};
      cards := PollOnce(w);
      result := RefreshResult(|candidates|, hidden);
    }

    /** How many candidates the passive history keeps from being published. */
    method CountHidden(candidates: seq<Session>) returns (hidden: nat)
      ensures hidden == HiddenCount(View(), candidates)
    {
      hidden := 0;
      var i := 0;
      while i < |candidates|
        invariant 0 <= i <= |candidates|
        invariant hidden == HiddenCount(View(), candidates[..i])
      {
        var s := candidates[i];
        assert candidates[..i + 1][..i] == candidates[..i];
        if (s.id != "" && (s.Key() in probed || s.Key() in retired || s.Key() in quarantined))
          || (s.pn != "" && (PnNote(s.port, s.pn) in notified || (s.id != "" && SessionNote(s.port, s.id) in notified))) {
          hidden := hidden + 1;
        }
        i := i + 1;
      }
      assert candidates[..i] == candidates;
    }
  }

  lemma OwnedSocketsOfNone(inventory: Inventory, owner: string)
    ensures OwnedSockets(inventory[..0], owner) == {}
  {
  }

  lemma OwnedSocketsOneMore(inventory: Inventory, i: nat, owner: string)
    requires i < |inventory|
    ensures OwnedSockets(inventory[..i + 1], owner) ==
      OwnedSockets(inventory[..i], owner) + if OwnedBy(inventory[i], owner) then {inventory[i].Key()} else {}
  {
    hide OwnedBy;
    assert inventory[..i + 1] == inventory[..i] + [inventory[i]];
    assert forall s :: s in inventory[..i + 1] <==> s in inventory[..i] || s == inventory[i];
  }

  /** The owners with no pending socket left, owner by owner. */
  method EmptiedOwners(pending: map<string, set<Socket>>, current: set<Socket>) returns (gone: set<string>)
    ensures gone == Emptied(pending, current)
  {
    gone := {};
    var todo := pending.Keys;
    while todo != {}
      invariant todo <= pending.Keys
      invariant gone == set o | o in pending && o !in todo && pending[o] * current == {}
      decreases |todo|
    {
      var owner :| owner in todo;
      todo := todo - {owner};
      if pending[owner] * current == {} {
        gone := gone + {owner};
      }
    }
  }

  /** The sockets that appeared since some of these scopes began, scope by scope. */
  method NewSockets(scopes: map<string, set<Socket>>, current: set<Socket>) returns (arrived: set<Socket>)
    ensures arrived == NewToSome(scopes, current)
  {
    arrived := {};
    var todo := scopes.Keys;
    while todo != {}
      invariant todo <= scopes.Keys
      invariant arrived == set t, k | t in scopes && t !in todo && k in current && k !in scopes[t] :: k
      decreases |todo|
    {
      var token :| token in todo;
      todo := todo - {token};
      arrived := arrived + (current - scopes[token]);
    }
  }

  method RetainedSockets(inventory: Inventory, ids: set<string>) returns (kept: set<Socket>)
    ensures kept == Retained(inventory, ids)
  {
    kept := {};
    var i := 0;
    while i < |inventory|
      invariant 0 <= i <= |inventory|
      invariant kept == set s | s in inventory[..i] && s.id != "" && (exists x :: x in ids && Strip(x) == s.id) :: s.Key()
    {
      var s := inventory[i];
      assert inventory[..i + 1] == inventory[..i] + [s];
      if s.id != "" && (exists x :: x in ids && Strip(x) == s.id) {
        kept := kept + {s.Key()};
      }
      i := i + 1;
    }
    assert inventory[..i] == inventory;
  }
}
