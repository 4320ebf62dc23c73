/** Safety of passive discovery over every interleaving of its operations. */
module DiscoveryRuns {
  import opened Numbers
  import opened Text
  import opened Identity
  import opened Registry
  import opened DiscoverySpec

  datatype Event =
    | BeginEvent(scope: string, inventory: Inventory)
    | EndEvent(scope: string, retain: Option<set<string>>, inventory: Inventory)
    | RetireEvent(entry: string, world: World)
    | ResumeEvent(entry: string)
    | TakeEvent(entry: string)
    | PollEvent(world: World)
    | ShowAgainEvent(world: World)

  function Outcome(st: State, e: Event): Published {
    match e
    case BeginEvent(scope, inventory) => Published(BeginScope(st, scope, inventory), [])
    case EndEvent(scope, retain, inventory) => Published(EndScope(st, scope, retain, inventory), [])
    case RetireEvent(entry, w) => Published(Retire(st, entry, w), [])
    case ResumeEvent(entry) => Published(Resume(st, entry), [])
    case TakeEvent(entry) => Published(Take(st, entry), [])
    case PollEvent(w) => Poll(st, w)
    case ShowAgainEvent(w) => ShowAgain(st, w)
  }

  function Next(st: State, e: Event): State { Outcome(st, e).st }

  /** The discovery cards one event puts up. */
  function Cards(st: State, e: Event): seq<Session> { Outcome(st, e).cards }

  function RunFrom(st: State, events: seq<Event>): State {
    if events == [] then st else Next(RunFrom(st, events[..|events| - 1]), events[|events| - 1])
  }

  /** The state in which event `i` of a run happens. */
  function At(st: State, events: seq<Event>, i: nat): State
    requires i <= |events|
  {
    RunFrom(st, events[..i])
  }

  lemma AtSteps(st: State, events: seq<Event>, i: nat)
    requires i < |events|
    ensures At(st, events, i + 1) == Next(At(st, events, i), events[i])
  {
    assert events[..i + 1][..i] == events[..i];
  }

  /** Looks at the inventory: the events that notice closed sockets. */
  predicate Looks(e: Event) {
    (e.PollEvent? || e.ShowAgainEvent?) && e.world.canPublish
  }

  // ---- what a poll does to the socket sets ----------------------------------------------

  lemma {:induction false} PublishingTouchesOnlyNotes(st: State, w: World, candidates: seq<Session>)
    ensures var p := PublishAll(st, w, candidates);
      && p.st == st.(notified := p.st.notified)
      && st.notified <= p.st.notified
      && forall s :: s in p.cards ==> s in candidates && !Suppressed(st, s) && WireSafe(s.pn)
                                      && NotesFor(s) <= p.st.notified && !AlreadyNotified(st.notified, s)
  {
    if candidates != [] {
      PublishingTouchesOnlyNotes(st, w, candidates[..|candidates| - 1]);
    }
  }

  lemma PollKeepsCapturedSets(st: State, w: World)
    requires w.canPublish
    ensures Poll(st, w).st == Capture(st, w.inventory).(notified := Poll(st, w).st.notified)
    ensures forall s :: s in Poll(st, w).cards ==> s in Unclaimed(w.inventory) && !Suppressed(Poll(st, w).st, s)
  {
    PublishingTouchesOnlyNotes(BeforePublishing(st, w), w, Unclaimed(w.inventory));
  }

  // ---- removal: quarantined until the socket closes ----------------------------------------

  /** The event captures the socket for an entry being unloaded. */
  predicate Captures(e: Event, k: Socket) {
    e.RetireEvent? && Strip(e.entry) != "" && k in OwnedSockets(e.world.inventory, Strip(e.entry))
  }

  /** The event cancels the removal of an entry that still holds the socket. */
  predicate Releases(st: State, e: Event, k: Socket) {
    e.ResumeEvent? && Strip(e.entry) != "" && k in PendingOf(st, Strip(e.entry))
  }

  /** The event sees that the socket is gone. */
  predicate SeesGone(e: Event, k: Socket) { Looks(e) && k !in Sockets(e.world.inventory) }

  /** Exactly what one event does to the quarantine of one socket. */
  lemma QuarantineStep(st: State, e: Event, k: Socket)
    ensures k in Next(st, e).quarantined <==>
      Captures(e, k) || (k in st.quarantined && !Releases(st, e, k) && !SeesGone(e, k))
  {
    hide Projection, Unclaimed, TicketOf, PublishAll;
    if Looks(e) {
      PollKeepsCapturedSets(if e.PollEvent? then st else st.(notified := {}, probed := {}, retired := {}), e.world);
    }
  }

  /** A quarantined socket is neither shown interactively nor put on a card. */
  lemma QuarantinedIsHidden(st: State, e: Event, w: World, s: Session)
    ensures s.Key() in st.quarantined ==> !Interactive(st, w, s)
    ensures s in Cards(st, e) ==> s.Key() !in Next(st, e).quarantined && !Releases(st, e, s.Key()) && !SeesGone(e, s.Key())
  {
    hide Projection, TicketOf, PublishAll;
    if s in Cards(st, e) {
      PollKeepsCapturedSets(if e.PollEvent? then st else st.(notified := {}, probed := {}, retired := {}), e.world);
      assert s in e.world.inventory && s.id != "";
      assert s.Key() in Sockets(e.world.inventory);
    }
  }

  /** No event of the run releases the socket or sees it gone. */
  ghost predicate StaysQuarantined(st: State, events: seq<Event>, k: Socket) {
    forall i: nat :: i < |events| ==> !Releases(At(st, events, i), events[i], k) && !SeesGone(events[i], k)
  }

  lemma {:induction false} QuarantineHolds(st: State, events: seq<Event>, k: Socket, n: nat)
    requires n <= |events| && k in st.quarantined && StaysQuarantined(st, events, k)
    ensures k in At(st, events, n).quarantined
  {
    if n > 0 {
      QuarantineHolds(st, events, k, n - 1);
      AtSteps(st, events, n - 1);
      QuarantineStep(At(st, events, n - 1), events[n - 1], k);
    }
  }

  /**
   From the moment a ticket is taken, every socket that is pending and quarantined stays out of the
   interactive snapshot and of every card, whatever interleaves, until a poll sees it gone or an
   entry that still holds it is resumed.
   */
  lemma TakenSocketStaysHidden(
      st: State, entry: string, events: seq<Event>, k: Socket, i: nat, w: World, s: Session)
    requires k in PendingOf(st, Strip(entry)) && k in st.quarantined
    requires StaysQuarantined(Take(st, entry), events, k)
    requires i <= |events| && s.Key() == k
    ensures !Interactive(At(Take(st, entry), events, i), w, s)
    ensures i < |events| ==> s !in Cards(At(Take(st, entry), events, i), events[i])
  {
    QuarantineHolds(Take(st, entry), events, k, i);
    var now := At(Take(st, entry), events, i);
    QuarantinedIsHidden(now, TakeEvent(entry), w, s);
    if i < |events| {
      QuarantineStep(now, events[i], k);
      QuarantinedIsHidden(now, events[i], w, s);
    }
  }

  /** Once released, the same socket is shown again to any search that lists it well formed. */
  lemma ReleasedSocketIsShown(st: State, entry: string, w: World, s: Session)
    requires s.Key() in PendingOf(st, Strip(entry)) && Strip(entry) != ""
    requires s in Unclaimed(w.inventory) && WellFormed(s)
    ensures Interactive(Resume(st, entry), w, s)
  {
  }

  // ---- pending does not always mean quarantined -----------------------------------------------

  lemma LoneOwnedSocket(s: Session)
    requires s.id != "" && s.owner != ""
    ensures OwnedSockets([s], s.owner) == {s.Key()}
  {
    assert s in [s] && OwnedBy(s, s.owner);
  }

  lemma RunAppends(st: State, events: seq<Event>, e: Event)
    ensures RunFrom(st, events + [e]) == Next(RunFrom(st, events), e)
  {
    assert (events + [e])[..|events|] == events;
  }

  /** Two entries can hold one socket; resuming the first lifts the quarantine the second relies on. */
  lemma PendingSocketCanBeShown()
    ensures exists events: seq<Event>, w: World, s: Session, entry: string ::
      var st := RunFrom(INITIAL, events);
      s.Key() in PendingOf(st, entry) && Interactive(Take(st, entry), w, s)
  {
    hide Next, TicketOf, Unclaimed, OwnedSockets, Retire, Resume, Take, RunFrom, Interactive;
    var s := Session(502, "s1", "E5000020300001", "10.0.0.9", "at_dtupn", Live, DefaultHost, "");
    var first, second := s.(owner := "a"), s.(owner := "b");
    var wa, wb := World([first], map[], true, [], [], {}), World([second], map[], true, [], [], {});
    var events := [] + [RetireEvent("a", wa)] + [RetireEvent("b", wb)] + [ResumeEvent("a")];
    var st := Resume(Retire(Retire(INITIAL, "a", wa), "b", wb), "a");
    RunOfNone();
    NextOf(INITIAL, wa, wb);
    RunAppends(INITIAL, [], RetireEvent("a", wa));
    RunAppends(INITIAL, [] + [RetireEvent("a", wa)], RetireEvent("b", wb));
    RunAppends(INITIAL, [] + [RetireEvent("a", wa)] + [RetireEvent("b", wb)], ResumeEvent("a"));
    assert RunFrom(INITIAL, events) == st;
    LoneOwnedSocket(first);
    LoneOwnedSocket(second);
    TwoHoldersOneResumed(wa, wb, s.Key());
    LoneUnclaimed(s);
    ReleasedAndListedIsInteractive(st, "b", s);
  }

  lemma RunOfNone()
    ensures RunFrom(INITIAL, []) == INITIAL
  {
  }

  /** Two entries retire one socket and the first resumes: it is pending for the second, and not quarantined. */
  lemma TwoHoldersOneResumed(wa: World, wb: World, k: Socket)
    requires OwnedSockets(wa.inventory, "a") == {k} && OwnedSockets(wb.inventory, "b") == {k}
    ensures var st := Resume(Retire(Retire(INITIAL, "a", wa), "b", wb), "a");
      k in PendingOf(st, "b") && k !in st.quarantined
  {
    hide TicketOf, OwnedSockets;
    assert Strip("a") == "a" && Strip("b") == "b" && "a"[0] != "b"[0];
  }

  lemma ReleasedAndListedIsInteractive(st: State, entry: string, s: Session)
    requires s.Key() !in st.quarantined && Unclaimed([s]) == [s] && WellFormed(s)
    ensures Interactive(Take(st, entry), World([s], map[], true, [], [], {}), s)
  {
    hide Unclaimed, WellFormed;
  }

  lemma NextOf(st: State, wa: World, wb: World)
    ensures Next(st, RetireEvent("a", wa)) == Retire(st, "a", wa)
    ensures Next(Retire(st, "a", wa), RetireEvent("b", wb)) == Retire(Retire(st, "a", wa), "b", wb)
    ensures Next(Retire(Retire(st, "a", wa), "b", wb), ResumeEvent("a"))
         == Resume(Retire(Retire(st, "a", wa), "b", wb), "a")
  {
    hide Retire, Resume;
  }

  /** Since event `i`, nothing has captured the socket again. */
  ghost predicate ReleasedFor(st: State, events: seq<Event>, i: nat, k: Socket) {
    && i < |events|
    && Releases(At(st, events, i), events[i], k)
    && forall j: nat :: i < j < |events| ==> !Captures(events[j], k)
  }

  lemma {:induction false} PrefixAt(st: State, events: seq<Event>, n: nat, i: nat)
    requires i <= n <= |events|
    ensures At(st, events[..n], i) == At(st, events, i)
  {
    assert events[..n][..i] == events[..i];
  }

  lemma PendingStep(st: State, e: Event, owner: string, k: Socket)
    requires k in PendingOf(Next(st, e), owner)
    ensures k in PendingOf(st, owner) || Captures(e, k)
    ensures !SeesGone(e, k)
  {
    hide Projection, Unclaimed, TicketOf, PublishAll;
    if Looks(e) {
      PollKeepsCapturedSets(if e.PollEvent? then st else st.(notified := {}, probed := {}, retired := {}), e.world);
    }
  }

  /** Exactly what one event does to the sockets pending for an entry. */
  lemma PendingStepExactly(st: State, e: Event, owner: string, k: Socket)
    requires owner != ""
    ensures k in PendingOf(Next(st, e), owner) <==>
      if e.RetireEvent? && Strip(e.entry) == owner && OwnsSome(e.world.inventory, owner) then
        exists s :: s in e.world.inventory && s.id != "" && s.owner == owner && s.Key() == k
      else
        && k in PendingOf(st, owner) && !SeesGone(e, k)
        && !((e.ResumeEvent? || e.TakeEvent?) && Strip(e.entry) == owner)
  {
    hide Projection, Unclaimed, TicketOf, PublishAll;
    if Looks(e) {
      PollKeepsCapturedSets(if e.PollEvent? then st else st.(notified := {}, probed := {}, retired := {}), e.world);
    }
    if e.RetireEvent? {
      OwnedIffOwnsSome(e.world.inventory, owner);
    }
  }

  predicate OwnsSome(inventory: Inventory, owner: string) {
    exists i :: 0 <= i < |inventory| && inventory[i].id != "" && inventory[i].owner == owner
  }

  lemma OwnedIffOwnsSome(inventory: Inventory, owner: string)
    ensures OwnedSockets(inventory, owner) != {} <==> OwnsSome(inventory, owner)
  {
    if OwnsSome(inventory, owner) {
      var i :| 0 <= i < |inventory| && inventory[i].id != "" && inventory[i].owner == owner;
      assert inventory[i].Key() in OwnedSockets(inventory, owner);
    }
    if OwnedSockets(inventory, owner) != {} {
      var k :| k in OwnedSockets(inventory, owner);
      var s :| s in inventory && OwnedBy(s, owner) && s.Key() == k;
      var i :| 0 <= i < |inventory| && inventory[i] == s;
    }
  }

  lemma ReleasedForPrefix(events: seq<Event>, i: nat, k: Socket)
    requires events != [] && !Captures(events[|events| - 1], k)
    requires !Releases(RunFrom(INITIAL, events[..|events| - 1]), events[|events| - 1], k)
    ensures ReleasedFor(INITIAL, events, i, k) <==> ReleasedFor(INITIAL, events[..|events| - 1], i, k)
  {
    hide Releases, Captures, RunFrom;
    var n := |events| - 1;
    if i < n {
      PrefixAt(INITIAL, events, n, i);
      assert events[..n][i] == events[i];
      if ReleasedFor(INITIAL, events[..n], i, k) {
        forall j: nat | i < j < |events| ensures !Captures(events[j], k) {
          assert j == n || !Captures(events[..n][j], k);
        }
      }
    }
  }

  /**
   The exact condition under which a pending socket is not quarantined: after the last capture of the
   socket, some entry that also held it was resumed.
   */
  lemma {:induction false} PendingIsQuarantinedUnlessReleased(events: seq<Event>, owner: string, k: Socket)
    requires k in PendingOf(RunFrom(INITIAL, events), owner)
    ensures k !in RunFrom(INITIAL, events).quarantined <==> exists i: nat :: ReleasedFor(INITIAL, events, i, k)
  {
    hide Next, SeesGone, OwnedSockets;
    var n := |events| - 1;
    var e := events[n];
    var before := RunFrom(INITIAL, events[..n]);
    PendingStep(before, e, owner, k);
    QuarantineStep(before, e, k);
    if Captures(e, k) {
      assert forall i: nat :: i < n ==> !ReleasedFor(INITIAL, events, i, k);
      assert !ReleasedFor(INITIAL, events, n, k);
    } else if Releases(before, e, k) {
      assert ReleasedFor(INITIAL, events, n, k);
    } else {
      PendingIsQuarantinedUnlessReleased(events[..n], owner, k);
      forall i: nat
        ensures ReleasedFor(INITIAL, events, i, k) <==> ReleasedFor(INITIAL, events[..n], i, k)
      {
        ReleasedForPrefix(events, i, k);
      }
    }
  }

  /**
   Over every run from the start: once a removal has taken its ticket, each socket pending for the
   entry that no resume of another holder has released stays out of the interactive snapshot and off
   every card, under every interleaving, until it is released or seen gone.
   */
  lemma RemovedSocketStaysHidden(
      events: seq<Event>, entry: string, later: seq<Event>, k: Socket, i: nat, w: World, s: Session)
    requires k in PendingOf(RunFrom(INITIAL, events), Strip(entry))
    requires forall j: nat :: !ReleasedFor(INITIAL, events, j, k)
    requires StaysQuarantined(Take(RunFrom(INITIAL, events), entry), later, k)
    requires i <= |later| && s.Key() == k
    ensures !Interactive(At(Take(RunFrom(INITIAL, events), entry), later, i), w, s)
    ensures i < |later| ==> s !in Cards(At(Take(RunFrom(INITIAL, events), entry), later, i), later[i])
  {
    hide Take, RunFrom, Next, Interactive, Cards, StaysQuarantined, ReleasedFor;
    PendingIsQuarantinedUnlessReleased(events, Strip(entry), k);
    TakenSocketStaysHidden(RunFrom(INITIAL, events), entry, later, k, i, w, s);
  }

  // ---- reload: shown interactively, but not published ----------------------------------------------

  /** Exactly what one event does to the retirement of one socket; a retired socket gets no card. */
  lemma RetiredStep(st: State, e: Event, k: Socket)
    ensures k in Next(st, e).retired <==>
      Captures(e, k) || (k in st.retired && !e.ShowAgainEvent? && !SeesGone(e, k))
    ensures k in st.retired && !e.ShowAgainEvent? ==> forall s :: s in Cards(st, e) ==> s.Key() != k
  {
    hide Projection, Unclaimed, TicketOf, PublishAll;
    if Looks(e) {
      PollKeepsCapturedSets(if e.PollEvent? then st else st.(notified := {}, probed := {}, retired := {}), e.world);
      if e.PollEvent? {
        CardsAreOfLiveSockets(st, e.world);
      }
    }
  }

  lemma CardsAreOfLiveSockets(st: State, w: World)
    requires w.canPublish
    ensures forall s :: s in Poll(st, w).cards ==> s.id != "" && s.Key() in Sockets(w.inventory)
  {
    PollKeepsCapturedSets(st, w);
    forall s | s in Poll(st, w).cards ensures s.id != "" && s.Key() in Sockets(w.inventory) {
      assert s in w.inventory;
    }
  }

  /** Event `i` is a show-again, and since then nothing has captured the socket again. */
  predicate ShownAgainAt(events: seq<Event>, i: nat, k: Socket) {
    && i < |events|
    && events[i].ShowAgainEvent?
    && forall j: nat :: i < j < |events| ==> !Captures(events[j], k)
  }

  /** After the last capture of the socket the user asked to see everything again. */
  ghost predicate ShownAgain(events: seq<Event>, k: Socket) { exists i: nat :: ShownAgainAt(events, i, k) }

  lemma ShownAgainStep(events: seq<Event>, k: Socket)
    requires events != []
    ensures var n := |events| - 1;
      ShownAgain(events, k) <==>
        events[n].ShowAgainEvent? || (!Captures(events[n], k) && ShownAgain(events[..n], k))
  {
    hide Captures;
    var n := |events| - 1;
    if events[n].ShowAgainEvent? {
      assert ShownAgainAt(events, n, k);
    } else if ShownAgain(events, k) {
      var i: nat :| ShownAgainAt(events, i, k);
      assert ShownAgainAt(events[..n], i, k);
      assert !Captures(events[n], k);
    }
    if !events[n].ShowAgainEvent? && !Captures(events[n], k) && ShownAgain(events[..n], k) {
      var i: nat :| ShownAgainAt(events[..n], i, k);
      forall j: nat | i < j < |events| ensures !Captures(events[j], k) {
        assert j == n || events[..n][j] == events[j];
      }
      assert ShownAgainAt(events, i, k);
    }
  }

  /** Over every run, a pending socket is not retired exactly when a show-again followed its last capture. */
  lemma {:induction false} PendingIsRetiredUnlessShownAgain(events: seq<Event>, owner: string, k: Socket)
    requires k in PendingOf(RunFrom(INITIAL, events), owner)
    ensures k !in RunFrom(INITIAL, events).retired <==> ShownAgain(events, k)
  {
    hide Next, SeesGone, OwnedSockets, ShownAgain, Captures;
    var n := |events| - 1;
    var before := RunFrom(INITIAL, events[..n]);
    PendingStep(before, events[n], owner, k);
    RetiredStep(before, events[n], k);
    ShownAgainStep(events, k);
    CapturesIsNotShowAgain(events[n], k);
    if !Captures(events[n], k) {
      PendingIsRetiredUnlessShownAgain(events[..n], owner, k);
    }
  }

  lemma CapturesIsNotShowAgain(e: Event, k: Socket)
    ensures Captures(e, k) ==> !e.ShowAgainEvent?
  {
  }

  /** A retired socket stays retired, and off every card, until it closes or show-again runs. */
  lemma {:induction false} RetiredSocketStaysUnpublished(st: State, events: seq<Event>, k: Socket, i: nat)
    requires k in st.retired && i <= |events|
    requires forall j: nat :: j < |events| ==> !events[j].ShowAgainEvent? && !SeesGone(events[j], k)
    ensures k in At(st, events, i).retired
    ensures i < |events| ==> forall s :: s in Cards(At(st, events, i), events[i]) ==> s.Key() != k
  {
    if i > 0 {
      RetiredSocketStaysUnpublished(st, events, k, i - 1);
      AtSteps(st, events, i - 1);
      RetiredStep(At(st, events, i - 1), events[i - 1], k);
    }
    if i < |events| {
      RetiredStep(At(st, events, i), events[i], k);
    }
  }

  /**
   Over every run from the start: when a reload resumes an entry, each of its pending sockets that no
   show-again has touched since its capture stays off every card, under every interleaving, until the
   socket closes or show-again runs.
   */
  lemma ResumedSocketStaysUnpublished(
      events: seq<Event>, entry: string, later: seq<Event>, k: Socket, i: nat)
    requires k in PendingOf(RunFrom(INITIAL, events), Strip(entry)) && !ShownAgain(events, k)
    requires forall j: nat :: j < |later| ==> !later[j].ShowAgainEvent? && !SeesGone(later[j], k)
    requires i < |later|
    ensures forall s :: s in Cards(At(Resume(RunFrom(INITIAL, events), entry), later, i), later[i]) ==> s.Key() != k
  {
    PendingIsRetiredUnlessShownAgain(events, Strip(entry), k);
    RetiredSocketStaysUnpublished(Resume(RunFrom(INITIAL, events), entry), later, k, i);
  }

  /**
   What holds a resumed socket back, exactly: with no other entry holding it quarantined, it is
   suppressed if and only if probing suppressed it or no show-again followed its last capture.
   */
  lemma ResumedSocketIsSuppressedIff(events: seq<Event>, entry: string, s: Session)
    requires s.id != "" && Strip(entry) != ""
    requires s.Key() in PendingOf(RunFrom(INITIAL, events), Strip(entry))
    ensures Suppressed(Resume(RunFrom(INITIAL, events), entry), s) <==>
      s.Key() in RunFrom(INITIAL, events).probed || !ShownAgain(events, s.Key())
  {
    hide RunFrom, ShownAgain;
    PendingIsRetiredUnlessShownAgain(events, Strip(entry), s.Key());
  }

  /** Retire, show-again, resume: the next poll puts the very same socket on a card. */
  lemma ResumedSocketCanBePublished()
    ensures exists events: seq<Event>, entry: string, w: World, s: Session ::
      var st := RunFrom(INITIAL, events);
      s.Key() in PendingOf(st, entry) && Cards(Resume(st, entry), PollEvent(w)) == [s]
  {
    hide TicketOf, Unclaimed, OwnedSockets, Outcome, RunFrom, Poll, ShowAgain;
    var s := Session(502, "s1", "E5000020300001", "10.0.0.9", "at_dtupn", Live, DefaultHost, "");
    var owned := s.(owner := "a");
    var wa, wb := World([owned], map[], true, [], [], {}), World([s], map[], true, [], [], {});
    var events := [RetireEvent("a", wa), ShowAgainEvent(wa)];
    var retired := Retire(INITIAL, "a", wa);
    var st := ShowAgain(retired, wa).st;
    RunOfTwo(RetireEvent("a", wa), ShowAgainEvent(wa));
    StepsOfTwo(wa);
    assert Strip("a") == "a";
    LoneOwnedSocket(owned);
    ShowAgainKeepsPending(retired, wa);
    LoneUnclaimed(owned);
    ShowAgainOfNothing(retired, wa);
    assert Publishes(s);
    assert s.Key() in PendingOf(st, "a");
    LoneSocketGetsACard(Resume(st, "a"), s);
    OutcomeOfPoll(Resume(st, "a"), wb);
    assert Cards(Resume(st, "a"), PollEvent(wb)) == [s];
  }

  lemma RunOfTwo(e: Event, f: Event)
    ensures RunFrom(INITIAL, [e, f]) == Next(Next(INITIAL, e), f)
  {
    hide Next;
    assert [e, f][..1] == [e] && [e][..0] == [];
    assert RunFrom(INITIAL, []) == INITIAL && RunFrom(INITIAL, [e]) == Next(INITIAL, e);
  }

  lemma StepsOfTwo(w: World)
    ensures Next(Next(INITIAL, RetireEvent("a", w)), ShowAgainEvent(w)) == ShowAgain(Retire(INITIAL, "a", w), w).st
  {
    hide Retire, ShowAgain;
  }

  lemma OutcomeOfPoll(st: State, w: World)
    ensures Cards(st, PollEvent(w)) == Poll(st, w).cards
  {
  }

  lemma ShowAgainOfNothing(st: State, w: World)
    requires Unclaimed(w.inventory) == [] && w.weakAborts == [] && w.configuredAborts == [] && w.canPublish
    ensures ShowAgain(st, w).st.notified == {}
  {
    hide Projection, Unclaimed;
  }

  predicate Publishes(s: Session) {
    s.id != "" && s.owner == "" && s.state.Live? && WireSafe(s.pn) && s.peer != ""
  }

  /** A free socket that nothing holds back is put on a card by the next poll. */
  lemma LoneSocketGetsACard(st: State, s: Session)
    requires Publishes(s) && st.notified == {} && st.scopes == map[] && !Suppressed(st, s)
    ensures Poll(st, World([s], map[], true, [], [], {})).cards == [s]
  {
    hide Projection, WireSafe;
    var w := World([s], map[], true, [], [], {});
    LoneUnclaimed(s);
    var from := BeforePublishing(st, w);
    assert from.notified == {} && !Suppressed(from, s);
    assert [s][..0] == [];
    assert PublishAll(from, w, [s]).cards == [] + [s];
  }

  lemma LoneUnclaimed(s: Session)
    requires s.id != ""
    ensures Unclaimed([s]) == if s.owner == "" && Discoverable(s) then [s] else []
  {
    assert [s][..0] == [] && Projection([]) == [];
    assert Projection([s]) == Absorb([], Candidate(s, s.pn)) == [Candidate(s, s.pn)];
    assert Raws([Candidate(s, s.pn)]) == [s] && [s][1..] == [];
    assert FreeAmong([]) == [];
    assert FreeAmong([s]) == if s.owner == "" && Discoverable(s) then [s] + FreeAmong([]) else FreeAmong([]);
  }

  /** Show-again forgets probing and retirement, and keeps what is pending and still there. */
  lemma ShowAgainKeepsPending(st: State, w: World)
    requires w.canPublish && st.scopes == map[] && w.weakAborts == [] && w.configuredAborts == []
    ensures var after := ShowAgain(st, w).st;
      && after.probed == {} && after.retired == {} && after.scopes == map[]
      && after.pending == Capturing(st.pending, Sockets(w.inventory))
      && after.quarantined == st.quarantined * Sockets(w.inventory)
  {
    hide Projection, Unclaimed, PublishAll;
    PollKeepsCapturedSets(st.(notified := {}, probed := {}, retired := {}), w);
  }

  // ---- one card per edge ---------------------------------------------------------------------------

  /** The event lets a publication of `(port, pn)` happen again. */
  predicate ReopensEdge(e: Event, port: int, pn: string) {
    || e.ShowAgainEvent?
    || (Looks(e)
        && ((exists f :: f in e.world.weakAborts + e.world.configuredAborts && f.port == port && f.pn == pn)
            || !(exists s :: s in Raws(Projection(e.world.inventory)) && s.port == port && s.pn == pn)))
  }

  lemma {:induction false} ForgetAllKeeps(notified: set<Note>, aborts: seq<Forgotten>, port: int, pn: string)
    requires PnNote(port, pn) in notified
    requires forall f :: f in aborts ==> f.port != port || f.pn != pn
    ensures PnNote(port, pn) in ForgetAll(notified, aborts)
  {
    if aborts != [] {
      assert aborts[|aborts| - 1] in aborts;
      ForgetAllKeeps(notified, aborts[..|aborts| - 1], port, pn);
    }
  }

  lemma NoteOutlivesClosedEdge(st: State, e: Event, port: int, pn: string)
    requires PnNote(port, pn) in st.notified && pn != "" && !ReopensEdge(e, port, pn)
    ensures PnNote(port, pn) in Next(st, e).notified
    ensures forall s :: s in Cards(st, e) ==> s.port != port || s.pn != pn
  {
    hide Projection, TicketOf, Unclaimed;
    if Looks(e) {
      var w := e.world;
      forall f | f in w.weakAborts || f in w.configuredAborts ensures f.port != port || f.pn != pn {
        assert f in w.weakAborts + w.configuredAborts;
      }
      ForgetAllKeeps(st.notified, w.weakAborts, port, pn);
      var aborted := st.(notified := ForgetAll(st.notified, w.weakAborts));
      var captured := Prune(Capture(aborted, w.inventory), Raws(Projection(w.inventory)));
      assert PnNote(port, pn) in captured.notified;
      ForgetAllKeeps(captured.notified, w.configuredAborts, port, pn);
      PublishingTouchesOnlyNotes(BeforePublishing(st, w), w, Unclaimed(w.inventory));
    }
  }

  lemma CardLeavesNote(st: State, e: Event, s: Session)
    requires s in Cards(st, e)
    ensures PnNote(s.port, s.pn) in Next(st, e).notified && s.pn != ""
  {
    hide Projection, TicketOf, Unclaimed;
    var from := if e.PollEvent? then st else st.(notified := {}, probed := {}, retired := {});
    PublishingTouchesOnlyNotes(BeforePublishing(from, e.world), e.world, Unclaimed(e.world.inventory));
  }

  lemma {:induction false} NoteOutlivesClosedRun(st: State, events: seq<Event>, lo: nat, hi: nat, port: int, pn: string)
    requires lo <= hi <= |events| && pn != "" && PnNote(port, pn) in At(st, events, lo).notified
    requires forall m: nat :: lo <= m < hi ==> !ReopensEdge(events[m], port, pn)
    ensures PnNote(port, pn) in At(st, events, hi).notified
  {
    hide ReopensEdge, RunFrom, Next, At;
    if lo < hi {
      NoteOutlivesClosedRun(st, events, lo, hi - 1, port, pn);
      AtSteps(st, events, hi - 1);
      NoteOutlivesClosedEdge(At(st, events, hi - 1), events[hi - 1], port, pn);
    }
  }

  /**
   Publication is edge-triggered: between two cards for one identity on one port there is a poll that
   no longer saw it or forgot it, or an explicit show-again.
   */
  lemma CardsAreEdgeTriggered(st: State, events: seq<Event>, i: nat, j: nat, s: Session, t: Session)
    requires i < j < |events| && s.port == t.port && s.pn == t.pn
    requires s in Cards(At(st, events, i), events[i]) && t in Cards(At(st, events, j), events[j])
    ensures exists m: nat :: i < m <= j && ReopensEdge(events[m], s.port, s.pn)
  {
    if forall m: nat :: i < m <= j ==> !ReopensEdge(events[m], s.port, s.pn) {
      CardLeavesNote(At(st, events, i), events[i], s);
      AtSteps(st, events, i);
      NoteOutlivesClosedRun(st, events, i + 1, j, s.port, s.pn);
      NoteOutlivesClosedEdge(At(st, events, j), events[j], s.port, s.pn);
    }
  }

  /** One poll never puts up two cards for one identity on one port. */
  lemma {:induction false} CardsOfOnePollDiffer(st: State, w: World, candidates: seq<Session>, i: nat, j: nat)
    requires i < j < |PublishAll(st, w, candidates).cards|
    ensures var cards := PublishAll(st, w, candidates).cards;
      cards[i].port != cards[j].port || cards[i].pn != cards[j].pn
  {
    var front := candidates[..|candidates| - 1];
    var before := PublishAll(st, w, front);
    PublishingTouchesOnlyNotes(st, w, front);
    if j < |before.cards| {
      CardsOfOnePollDiffer(st, w, front, i, j);
    } else {
      assert before.cards[i] in before.cards;
    }
  }
}
