/** Publication over every run: which candidates a poll puts on a card, and what it remembers and forgets. */
module PublicationRuns {
  import opened Numbers
  import opened Text
  import opened Identity
  import opened Registry
  import opened DiscoverySpec
  import opened DiscoveryRuns

  // ---- what is remembered -----------------------------------------------------------------

  /** The coalesced view has a row for what the note stands for. */
  predicate Listed(inventory: Inventory, n: Note) {
    match n
    case PnNote(port, pn) =>
      exists i :: 0 <= i < |Projection(inventory)| && Projection(inventory)[i].raw.port == port
                  && Projection(inventory)[i].raw.pn == pn != ""
    case SessionNote(port, id) =>
      exists i :: 0 <= i < |Projection(inventory)| && Projection(inventory)[i].raw.port == port
                  && Projection(inventory)[i].raw.id == id != ""
  }

  /** An aborted flow of the same port and PN, or of the same port and session, takes the note with it. */
  predicate Drops(f: Forgotten, n: Note) {
    match n
    case PnNote(port, pn) => f.port == port && f.pn == pn
    case SessionNote(port, id) => f.port == port && f.id == id != ""
  }

  predicate Aborted(w: World, n: Note) {
    || (exists f :: f in w.weakAborts && Drops(f, n))
    || (exists f :: f in w.configuredAborts && Drops(f, n))
  }

  /** What a poll still remembers when it comes to publishing. */
  predicate Remembered(st: State, e: Event, n: Note) {
    && n in st.notified && !e.ShowAgainEvent?
    && (Looks(e) ==> Listed(e.world.inventory, n) && !Aborted(e.world, n))
  }

  lemma {:induction false} ForgettingDrops(notified: set<Note>, aborts: seq<Forgotten>, n: Note)
    ensures n in ForgetAll(notified, aborts) <==> n in notified && !exists f :: f in aborts && Drops(f, n)
  {
    if aborts != [] {
      var front, last := aborts[..|aborts| - 1], aborts[|aborts| - 1];
      ForgettingDrops(notified, front, n);
      assert aborts == front + [last];
      assert forall f :: f in aborts <==> f in front || f == last;
      assert n in Forget(ForgetAll(notified, front), last) <==> n in ForgetAll(notified, front) && !Drops(last, n);
    }
  }

  lemma PruningKeepsListed(st: State, inventory: Inventory, n: Note)
    ensures n in Prune(st, Raws(Projection(inventory))).notified <==> n in st.notified && Listed(inventory, n)
  {
    hide Projection;
    var rows := Projection(inventory);
    forall i | 0 <= i < |rows| ensures Raws(rows)[i] == rows[i].raw && rows[i].raw in Raws(rows) {
      assert Raws(rows)[i] in Raws(rows);
    }
    forall s | s in Raws(rows) ensures exists i :: 0 <= i < |rows| && rows[i].raw == s {
      var i :| 0 <= i < |rows| && Raws(rows)[i] == s;
    }
  }

  lemma RememberedWhenPublishing(st: State, w: World, n: Note)
    ensures n in BeforePublishing(st, w).notified <==>
      n in st.notified && Listed(w.inventory, n) && !Aborted(w, n)
  {
    hide Projection, Prune, Listed, Drops, ForgetAll, Capture;
    var aborted := st.(notified := ForgetAll(st.notified, w.weakAborts));
    var captured := Capture(aborted, w.inventory);
    CaptureKeepsNotes(aborted, w.inventory);
    ForgettingDrops(st.notified, w.weakAborts, n);
    PruningKeepsListed(captured, w.inventory, n);
    ForgettingDrops(Prune(captured, Raws(Projection(w.inventory))).notified, w.configuredAborts, n);
  }

  lemma CaptureKeepsNotes(st: State, inventory: Inventory)
    ensures Capture(st, inventory).notified == st.notified
  {
  }

  /** A note of a card: its port and PN, or its port and session. */
  predicate NoteOf(s: Session, n: Note) {
    match n
    case PnNote(port, pn) => s.port == port && s.pn == pn
    case SessionNote(port, id) => s.port == port && s.id == id != ""
  }

  lemma {:induction false} NotesComeFromCards(st: State, w: World, candidates: seq<Session>, n: Note)
    ensures n in PublishAll(st, w, candidates).st.notified <==>
      n in st.notified || exists c :: c in PublishAll(st, w, candidates).cards && NoteOf(c, n)
  {
    hide Publishable;
    if candidates != [] {
      var front, s := candidates[..|candidates| - 1], candidates[|candidates| - 1];
      NotesComeFromCards(st, w, front, n);
      assert n in NotesFor(s) <==> NoteOf(s, n);
      var before, after := PublishAll(st, w, front), PublishAll(st, w, candidates);
      if Publishable(before.st, w, s) {
        assert after.cards == before.cards + [s];
        assert forall c :: c in after.cards <==> c in before.cards || c == s;
      }
    }
  }

  /** Exactly what one event leaves in the publication history. */
  lemma NoteStep(st: State, e: Event, n: Note)
    ensures n in Next(st, e).notified <==> Remembered(st, e, n) || exists c :: c in Cards(st, e) && NoteOf(c, n)
  {
    hide Projection, Unclaimed, Listed, Aborted, TicketOf, PublishAll, BeforePublishing;
    if Looks(e) {
      var from := if e.PollEvent? then st else st.(notified := {}, probed := {}, retired := {});
      RememberedWhenPublishing(from, e.world, n);
      NotesComeFromCards(BeforePublishing(from, e.world), e.world, Unclaimed(e.world.inventory), n);
    }
  }

  lemma CardsAreListed(st: State, e: Event, c: Session, n: Note)
    requires c in Cards(st, e) && NoteOf(c, n)
    ensures Looks(e) && (n.SessionNote? || c.pn != "") && Listed(e.world.inventory, n)
  {
    hide Projection, TicketOf, PublishAll, Unclaimed;
    var from := if e.PollEvent? then st else st.(notified := {}, probed := {}, retired := {});
    PublishingTouchesOnlyNotes(BeforePublishing(from, e.world), e.world, Unclaimed(e.world.inventory));
    UnclaimedIsProjected(e.world.inventory, c);
  }

  lemma UnclaimedIsProjected(inventory: Inventory, s: Session)
    requires s in Unclaimed(inventory)
    ensures exists i :: 0 <= i < |Projection(inventory)| && Projection(inventory)[i].raw == s
  {
    hide Projection;
    var i :| 0 <= i < |Raws(Projection(inventory))| && Raws(Projection(inventory))[i] == s;
  }

  /** A look that no longer lists a PN on a port, or a session, leaves no memory of it. */
  lemma UnlistedIsForgotten(st: State, e: Event, n: Note)
    requires Looks(e) && !Listed(e.world.inventory, n)
    ensures n !in Next(st, e).notified
  {
    hide Cards, Next, Listed, Aborted;
    NoteStep(st, e, n);
    forall c | c in Cards(st, e) && NoteOf(c, n) ensures false {
      CardsAreListed(st, e, c, n);
    }
  }

  // ---- what is published ---------------------------------------------------------------------

  /** Nothing about the candidate itself forbids a card: a checkable PN, a peer, nobody who holds it. */
  predicate Presentable(w: World, s: Session) { WireSafe(s.pn) && s.peer != "" && s !in w.held }

  /** No set that hides sockets has it. */
  predicate Unhidden(st: State, k: Socket) { k !in st.probed && k !in st.retired && k !in st.quarantined }

  lemma {:induction false} FreeCandidatesArePublished(st: State, w: World, candidates: seq<Session>, s: Session)
    requires s in candidates && s.id != "" && Presentable(w, s) && Unhidden(st, s.Key())
    requires PnNote(s.port, s.pn) !in st.notified && SessionNote(s.port, s.id) !in st.notified
    ensures exists c :: c in PublishAll(st, w, candidates).cards && c.port == s.port && (c.pn == s.pn || c.id == s.id)
  {
    hide WireSafe;
    var front, last := candidates[..|candidates| - 1], candidates[|candidates| - 1];
    assert candidates == front + [last];
    var before := PublishAll(st, w, front);
    PublishingTouchesOnlyNotes(st, w, front);
    if s in front {
      FreeCandidatesArePublished(st, w, front, s);
      var c :| c in before.cards && c.port == s.port && (c.pn == s.pn || c.id == s.id);
      assert c in PublishAll(st, w, candidates).cards;
    } else if Publishable(before.st, w, s) {
      assert PublishAll(st, w, candidates).cards == before.cards + [s];
      assert s in PublishAll(st, w, candidates).cards;
    } else {
      NotesComeFromCards(st, w, front, PnNote(s.port, s.pn));
      NotesComeFromCards(st, w, front, SessionNote(s.port, s.id));
      var c :| c in before.cards && c.port == s.port && (c.pn == s.pn || c.id == s.id);
      assert c in PublishAll(st, w, candidates).cards;
    }
  }

  /**
   A poll puts every free, discoverable candidate that nothing hides or holds, and that it does not
   remember, on a card; or another candidate of the same PN or session on the same port.
   */
  lemma PollPublishes(st: State, e: Event, s: Session)
    requires Looks(e) && s in Unclaimed(e.world.inventory)
    requires Presentable(e.world, s) && Unhidden(Next(st, e), s.Key())
    requires !Remembered(st, e, PnNote(s.port, s.pn)) && !Remembered(st, e, SessionNote(s.port, s.id))
    ensures exists c :: c in Cards(st, e) && c.port == s.port && (c.pn == s.pn || c.id == s.id)
  {
    hide Projection, Unclaimed, Listed, Aborted, TicketOf, PublishAll, Presentable;
    var from := if e.PollEvent? then st else st.(notified := {}, probed := {}, retired := {});
    PollKeepsCapturedSets(from, e.world);
    BeforePublishingHidesTheSame(from, e.world);
    RememberedWhenPublishing(from, e.world, PnNote(s.port, s.pn));
    RememberedWhenPublishing(from, e.world, SessionNote(s.port, s.id));
    FreeCandidatesArePublished(BeforePublishing(from, e.world), e.world, Unclaimed(e.world.inventory), s);
  }

  lemma BeforePublishingHidesTheSame(st: State, w: World)
    ensures BeforePublishing(st, w).probed == Capture(st, w.inventory).probed
    ensures BeforePublishing(st, w).retired == Capture(st, w.inventory).retired
    ensures BeforePublishing(st, w).quarantined == Capture(st, w.inventory).quarantined
  {
    hide Projection;
  }

  lemma {:induction false} CardsAreFree(st: State, w: World, candidates: seq<Session>, c: Session)
    requires c in PublishAll(st, w, candidates).cards && c.id != ""
    ensures c in candidates && Presentable(w, c) && Unhidden(st, c.Key())
    ensures PnNote(c.port, c.pn) !in st.notified && SessionNote(c.port, c.id) !in st.notified
  {
    hide WireSafe;
    var front, last := candidates[..|candidates| - 1], candidates[|candidates| - 1];
    assert candidates == front + [last];
    PublishingTouchesOnlyNotes(st, w, front);
    if c in PublishAll(st, w, front).cards {
      CardsAreFree(st, w, front, c);
    }
  }

  /** And only those: a card is free, unhidden, presentable and not remembered. */
  lemma CardsArePublishedRightly(st: State, e: Event, c: Session)
    requires c in Cards(st, e)
    ensures Looks(e) && c in Unclaimed(e.world.inventory)
    ensures Presentable(e.world, c) && Unhidden(Next(st, e), c.Key())
    ensures !Remembered(st, e, PnNote(c.port, c.pn)) && !Remembered(st, e, SessionNote(c.port, c.id))
  {
    hide Projection, Unclaimed, Listed, Aborted, TicketOf, PublishAll, Presentable;
    var from := if e.PollEvent? then st else st.(notified := {}, probed := {}, retired := {});
    PollKeepsCapturedSets(from, e.world);
    BeforePublishingHidesTheSame(from, e.world);
    CardsAreFree(BeforePublishing(from, e.world), e.world, Unclaimed(e.world.inventory), c);
    RememberedWhenPublishing(from, e.world, PnNote(c.port, c.pn));
    RememberedWhenPublishing(from, e.world, SessionNote(c.port, c.id));
  }

  // ---- a collector that comes back -----------------------------------------------------------------

  /**
   Whatever came before: after a poll that lists neither the collector nor its new session, a later
   look at its new free socket, the next event about it, puts it up again.
   */
  lemma ReturningCollectorIsPublished(st: State, gone: Event, back: Event, s: Session)
    requires Looks(gone) && !Listed(gone.world.inventory, PnNote(s.port, s.pn))
    requires !Listed(gone.world.inventory, SessionNote(s.port, s.id))
    requires Looks(back) && s in Unclaimed(back.world.inventory) && Presentable(back.world, s)
    requires Unhidden(Next(Next(st, gone), back), s.Key())
    ensures exists c :: c in Cards(Next(st, gone), back) && c.port == s.port && (c.pn == s.pn || c.id == s.id)
  {
    hide Next, Cards, Listed, Aborted, Unclaimed, Presentable, Unhidden;
    UnlistedIsForgotten(st, gone, PnNote(s.port, s.pn));
    UnlistedIsForgotten(st, gone, SessionNote(s.port, s.id));
    PollPublishes(Next(st, gone), back, s);
  }

  /** Seen, gone, and back on another socket: three polls from the start, and a card at the first and the third. */
  lemma ReturningCollectorFromTheStart(s: Session, t: Session)
    requires Publishes(s) && Publishes(t) && s.port == t.port && s.pn == t.pn && s.id != t.id
    ensures var here, gone, back := OnlyPoll([s]), OnlyPoll([]), OnlyPoll([t]);
      && Cards(INITIAL, here) == [s]
      && Cards(Next(INITIAL, here), gone) == []
      && t in Cards(Next(Next(INITIAL, here), gone), back)
  {
    hide Next, Unclaimed, Listed, Presentable, Publishes, Poll, Remembered;
    var here, gone, back := OnlyPoll([s]), OnlyPoll([]), OnlyPoll([t]);
    PublishesIsPresentable(s);
    PublishesIsPresentable(t);
    NothingHidesAtFirst(s);
    LoneSocketGetsACard(INITIAL, s);
    OutcomeOfPoll(INITIAL, here.world);
    NobodyIsListed(PnNote(s.port, s.pn));
    NobodyIsListed(SessionNote(t.port, t.id));
    LoneUnclaimed(s);
    LoneUnclaimed(t);
    var st := Next(Next(INITIAL, here), gone);
    NobodyIsPublished(Next(INITIAL, here));
    OutcomeOfPoll(Next(INITIAL, here), gone.world);
    NothingIsEverHidden(here.world, gone.world, back.world, t.Key());
    ReturningCollectorIsPublished(Next(INITIAL, here), gone, back, t);
    var c :| c in Cards(st, back) && c.port == t.port && (c.pn == t.pn || c.id == t.id);
    CardsArePublishedRightly(st, back, c);
    assert c in [t];
  }

  function OnlyPoll(inventory: Inventory): Event { PollEvent(World(inventory, map[], true, [], [], {})) }

  lemma PublishesIsPresentable(s: Session)
    requires Publishes(s)
    ensures s.id != "" && s.owner == "" && Discoverable(s) && Presentable(OnlyPoll([s]).world, s)
  {
    hide WireSafe;
  }

  lemma NothingHidesAtFirst(s: Session)
    ensures !Suppressed(INITIAL, s) && INITIAL.notified == {} && INITIAL.scopes == map[]
  {
  }

  lemma NobodyIsListed(n: Note)
    ensures !Listed([], n)
  {
    assert Projection([]) == [];
  }

  lemma NobodyIsPublished(st: State)
    ensures Poll(st, OnlyPoll([]).world).cards == []
  {
    assert Projection([]) == [] && Raws([]) == [] && FreeAmong([]) == [];
  }

  /** Without scopes and retirements, polls hide nothing. */
  lemma NothingIsEverHidden(a: World, b: World, c: World, k: Socket)
    ensures Unhidden(Next(Next(Next(INITIAL, PollEvent(a)), PollEvent(b)), PollEvent(c)), k)
  {
    hide Next;
    PollHidesNothing(INITIAL, a);
    PollHidesNothing(Next(INITIAL, PollEvent(a)), b);
    PollHidesNothing(Next(Next(INITIAL, PollEvent(a)), PollEvent(b)), c);
  }

  lemma PollHidesNothing(st: State, w: World)
    requires st.scopes == map[] && st.probed == {} && st.retired == {} && st.quarantined == {}
    ensures var after := Next(st, PollEvent(w));
      after.scopes == map[] && after.probed == {} && after.retired == {} && after.quarantined == {}
  {
    hide Projection, Unclaimed, PublishAll;
    if w.canPublish {
      PollKeepsCapturedSets(st, w);
    }
  }

  // ---- the interactive snapshot -------------------------------------------------------------------------

  /** A search shows the free, discoverable candidates outside the quarantine that say who and where they are. */
  lemma SnapshotShows(st: State, w: World, s: Session)
    ensures Interactive(st, w, s) <==>
      && s in Unclaimed(w.inventory) && s.Key() !in st.quarantined
      && s.pn != "" && Trimmed(s.pn) && s.id != "" && Trimmed(s.id) && s.peer != "" && Trimmed(s.peer) && Trimmed(s.source)
      && s.port > 0 && s.port < 65536
  {
    hide Unclaimed, Trimmed;
  }
}
