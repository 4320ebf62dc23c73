/** `iter_observed_sessions`: one inventory from many listeners. */
module ListenerInventory {
  import opened Numbers
  import opened Registry

  /** One row of a listener; a port of its own goes before the listener's. */
  datatype Row = Row(ownPort: Option<int>, session: Session)

  /** A listener and what its inventory provider answered, if it did. */
  datatype Listener = Listener(port: int, rows: Option<seq<Row>>)

  /** A row as it was seen on one listener. */
  datatype Sighting = Sighting(listener: int, session: Session)

  function See(port: int, row: Row): Sighting {
    Sighting(port, row.session.(port := if row.ownPort.Some? then row.ownPort.value else port))
  }

  function SightingsOn(port: int, rows: seq<Row>): (r: seq<Sighting>)
    ensures |r| == |rows| && forall i :: 0 <= i < |r| ==> r[i] == See(port, rows[i])
  {
    seq(|rows|, i requires 0 <= i < |rows| => See(port, rows[i]))
  }

  /** Every row of every listener, in order. */
  function Sightings(listeners: seq<Listener>): seq<Sighting> {
    if listeners == [] then []
    else
      var last := listeners[|listeners| - 1];
      Sightings(listeners[..|listeners| - 1]) + if last.rows.Some? then SightingsOn(last.port, last.rows.value) else []
  }

  predicate SameSocket(a: Sighting, b: Sighting) { a.listener == b.listener && a.session.id == b.session.id }

  /** The sighting repeats an earlier one of the same socket. */
  predicate Repeats(sightings: seq<Sighting>, n: nat)
    requires n < |sightings|
  {
    sightings[n].session.id != "" && exists i :: 0 <= i < n && SameSocket(sightings[i], sightings[n])
  }

  /** The sightings that repeat no earlier one. */
  function Firsts(sightings: seq<Sighting>): seq<Sighting> {
    if sightings == [] then []
    else
      var n := |sightings| - 1;
      Firsts(sightings[..n]) + if Repeats(sightings, n) then [] else [sightings[n]]
  }

  function Sessions(sightings: seq<Sighting>): (r: Inventory)
    ensures |r| == |sightings| && forall i :: 0 <= i < |r| ==> r[i] == sightings[i].session
  {
    seq(|sightings|, i requires 0 <= i < |sightings| => sightings[i].session)
  }

  function FirstSightings(sightings: seq<Sighting>): Inventory { Sessions(Firsts(sightings)) }

  /** The loop over one listener's rows. */
  method AddSightings(before: seq<Sighting>, port: int, rows: seq<Row>, sessions: Inventory, seen: set<Socket>)
    returns (all: Inventory, allSeen: set<Socket>)
    requires sessions == FirstSightings(before)
    requires forall k :: k in seen <==> exists x :: x in before && x.session.id != "" && k == Socket(x.listener, x.session.id)
    ensures all == FirstSightings(before + SightingsOn(port, rows))
    ensures forall k :: k in allSeen <==>
      exists x :: x in before + SightingsOn(port, rows) && x.session.id != "" && k == Socket(x.listener, x.session.id)
  {
    hide FirstSightings, Firsts, SightingsOn;
    all, allSeen := sessions, seen;
    ghost var sightings := before;
    assert sightings + [] == sightings;
    var i := 0;
    while i < |rows|
      invariant 0 <= i <= |rows|
      invariant sightings == before + SightingsOn(port, rows[..i])
      invariant all == FirstSightings(sightings)
      invariant forall k :: k in allSeen <==>
        exists x :: x in sightings && x.session.id != "" && k == Socket(x.listener, x.session.id)
    {
      var sighting := See(port, rows[i]);
      assert before + SightingsOn(port, rows[..i + 1]) == sightings + [sighting];
      OneMoreSighting(sightings, sighting);
      var key := Socket(port, rows[i].session.id);
      if !(rows[i].session.id != "" && key in allSeen) {
        all := all + [sighting.session];
      }
      if rows[i].session.id != "" {
        allSeen := allSeen + {key};
      }
      sightings, i := sightings + [sighting], i + 1;
    }
    assert rows[..i] == rows;
  }

  lemma OneMoreSighting(sightings: seq<Sighting>, x: Sighting)
    ensures var repeated := x.session.id != "" && exists y :: y in sightings && SameSocket(y, x);
      && Firsts(sightings + [x]) == Firsts(sightings) + (if repeated then [] else [x])
      && FirstSightings(sightings + [x]) == FirstSightings(sightings) + if repeated then [] else [x.session]
  {
    var all := sightings + [x];
    assert all[..|sightings|] == sightings;
    forall y | y in sightings && SameSocket(y, x) ensures exists i :: 0 <= i < |sightings| && SameSocket(all[i], x) {
      var i :| 0 <= i < |sightings| && sightings[i] == y;
      assert all[i] == y;
    }
    assert forall i :: 0 <= i < |sightings| ==> all[i] in sightings;
  }

  /** `iter_observed_sessions`: a socket seen through more than one source is counted once. */
  method IterObservedSessions(listeners: seq<Listener>) returns (sessions: Inventory)
    ensures sessions == FirstSightings(Sightings(listeners))
  {
    hide FirstSightings, Firsts, SightingsOn;
    sessions := [];
    var seen: set<Socket> := {};
    NothingSighted();
    var i := 0;
    while i < |listeners|
      invariant 0 <= i <= |listeners|
      invariant sessions == FirstSightings(Sightings(listeners[..i]))
      invariant forall k :: k in seen <==>
        exists x :: x in Sightings(listeners[..i]) && x.session.id != "" && k == Socket(x.listener, x.session.id)
    {
      assert listeners[..i + 1][..i] == listeners[..i];
      var before := Sightings(listeners[..i]);
      assert before + [] == before;
      if listeners[i].rows.Some? {
        sessions, seen := AddSightings(before, listeners[i].port, listeners[i].rows.value, sessions, seen);
      }
      i := i + 1;
    }
    assert listeners[..i] == listeners;
  }

  lemma NothingSighted()
    ensures FirstSightings([]) == [] && Firsts([]) == [] && Sightings([]) == []
  {
  }

  /** The sockets with an id among these sightings, each by its listener. */
  function Sighted(sightings: seq<Sighting>): set<Socket> {
    set x | x in sightings && x.session.id != "" :: Socket(x.listener, x.session.id)
  }

  predicate NoSocketTwice(firsts: seq<Sighting>) {
    forall i, j :: 0 <= i < j < |firsts| && firsts[i].session.id != "" ==> !SameSocket(firsts[i], firsts[j])
  }

  /** The inventory loop keeps exactly one sighting of each socket, whatever ports the rows name. */
  lemma {:induction false} FirstsAreOnePerSocket(sightings: seq<Sighting>)
    ensures Sighted(Firsts(sightings)) == Sighted(sightings) && NoSocketTwice(Firsts(sightings))
    ensures forall x :: x in Firsts(sightings) ==> x in sightings
  {
    hide Firsts, NoSocketTwice, Sighted;
    if sightings == [] {
      NothingSighted();
      NothingKept();
    } else {
      var n := |sightings| - 1;
      var front, last := sightings[..n], sightings[n];
      assert sightings == front + [last];
      FirstsAreOnePerSocket(front);
      OneMoreSighting(front, last);
      SightedOneMore(front, last);
      SightedOneMore(Firsts(front), last);
      if last.session.id != "" && exists y :: y in front && SameSocket(y, last) {
        assert Firsts(sightings) == Firsts(front) + [] == Firsts(front);
      } else {
        assert Firsts(sightings) == Firsts(front) + [last];
        KeepOneMore(Firsts(front), last);
      }
    }
  }

  lemma NothingKept()
    ensures NoSocketTwice([])
  {
  }

  lemma SightedOneMore(front: seq<Sighting>, last: Sighting)
    ensures Sighted(front + [last]) ==
      Sighted(front) + if last.session.id == "" then {} else {Socket(last.listener, last.session.id)}
    ensures last.session.id != "" ==>
      (Socket(last.listener, last.session.id) in Sighted(front) <==> exists y :: y in front && SameSocket(y, last))
  {
    assert forall x :: x in front + [last] <==> x in front || x == last;
  }

  lemma KeepOneMore(firsts: seq<Sighting>, last: Sighting)
    requires NoSocketTwice(firsts)
    requires !(last.session.id != "" && exists y :: y in firsts && SameSocket(y, last))
    ensures NoSocketTwice(firsts + [last])
  {
    forall i | 0 <= i < |firsts| && firsts[i].session.id != "" ensures !SameSocket(firsts[i], last) {
      assert firsts[i] in firsts;
    }
  }

  predicate NoneTwice(inventory: Inventory) {
    forall i, j :: 0 <= i < j < |inventory| && inventory[i].id != "" ==> inventory[i].Key() != inventory[j].Key()
  }

  /** Two listeners report sockets under one id, and their rows name one port for both. */
  ghost predicate PortsClash(firsts: seq<Sighting>) {
    exists x, y :: x in firsts && y in firsts && x.listener != y.listener
                   && x.session.id == y.session.id != "" && x.session.port == y.session.port
  }

  /** The inventory lists a socket key twice exactly when the ports that rows name themselves clash. */
  lemma InventoryListsSocketsOnceIff(sightings: seq<Sighting>)
    ensures NoneTwice(FirstSightings(sightings)) <==> !PortsClash(Firsts(sightings))
    ensures (forall x :: x in sightings ==> x.session.port == x.listener) ==> NoneTwice(FirstSightings(sightings))
  {
    hide Firsts, Sighted;
    FirstsAreOnePerSocket(sightings);
    var firsts := Firsts(sightings);
    if PortsClash(firsts) {
      var x, y :| x in firsts && y in firsts && x.listener != y.listener
                  && x.session.id == y.session.id != "" && x.session.port == y.session.port;
      var i :| 0 <= i < |firsts| && firsts[i] == x;
      var j :| 0 <= j < |firsts| && firsts[j] == y;
      var lo, hi := if i < j then i else j, if i < j then j else i;
      assert FirstSightings(sightings)[lo].Key() == FirstSightings(sightings)[hi].Key();
    } else {
      forall i, j | 0 <= i < j < |firsts| && firsts[i].session.id != ""
        ensures firsts[i].session.Key() != firsts[j].session.Key()
      {
        assert firsts[i] in firsts && firsts[j] in firsts && !SameSocket(firsts[i], firsts[j]);
      }
    }
  }

  /** Two listeners whose rows name the same third port: one socket key, listed twice. */
  lemma ForeignPortsCanListASocketTwice(s: Session)
    requires s.id != ""
    ensures var rows := [Row(Some(502), s)];
      !NoneTwice(FirstSightings(Sightings([Listener(8899, Some(rows)), Listener(18899, Some(rows))])))
  {
    hide Firsts, FirstSightings;
    var rows := [Row(Some(502), s)];
    var one, two := See(8899, rows[0]), See(18899, rows[0]);
    var listeners := [Listener(8899, Some(rows)), Listener(18899, Some(rows))];
    assert listeners[..1][..0] == [] && listeners[..1] == [listeners[0]];
    assert Sightings([listeners[0]]) == [] + [one];
    assert Sightings(listeners) == [one] + [two];
    NothingSighted();
    OneMoreSighting([], one);
    OneMoreSighting([one], two);
    assert [] + [one] == [one];
    assert Firsts([one] + [two]) == [one, two];
    assert one in Firsts(Sightings(listeners)) && two in Firsts(Sightings(listeners));
    InventoryListsSocketsOnceIff(Sightings(listeners));
  }

  /** A row's own port goes before its listener's; everything else is the row's. */
  lemma RowsKeepTheirPort(port: int, row: Row)
    ensures See(port, row).listener == port && See(port, row).session.(port := 0) == row.session.(port := 0)
    ensures row.ownPort == None ==> See(port, row).session.port == port
    ensures row.ownPort.Some? ==> See(port, row).session.port == row.ownPort.value
  {
  }
}
