/**
 Passive discovery with polls taken apart at their awaits: other operations, and other polls, may come
 between any two steps of a poll. A poll that nothing interrupts is one of these runs.
 */
module DiscoverySteps {
  import opened Numbers
  import opened Text
  import opened Identity
  import opened Registry
  import opened DiscoverySpec
  import opened DiscoveryRuns

  datatype Step =
    // an operation that awaits nothing, or a poll that nothing interrupts
    | WholeStep(event: Event)
    // a discovery flow was aborted
    | ForgetStep(forgotten: Forgotten)
    // one synchronous look at the inventory: capture, then prune
    | LookStep(inventory: Inventory)
    // a listed candidate (which has an id) is checked, and its flow is started unless something holds it back
    | OfferStep(session: Session, held: set<Session>)
    // the flow was started: the candidate is remembered
    | RememberStep(session: Session)
    // show-again clears the passive history, before its own poll
    | ClearStep

  /** The world an offer sees: only what holds the candidate back matters. */
  function Holding(held: set<Session>): World { World([], map[], true, [], [], held) }

  predicate Offerable(st: State, s: Session, held: set<Session>) { s.id != "" && Publishable(st, Holding(held), s) }

  function Result(st: State, step: Step): Published {
    match step
    case WholeStep(e) => Outcome(st, e)
    case ForgetStep(f) => Published(st.(notified := Forget(st.notified, f)), [])
    case LookStep(inventory) => Published(Prune(Capture(st, inventory), Raws(Projection(inventory))), [])
    case OfferStep(s, held) => Published(st, if Offerable(st, s, held) then [s] else [])
    case RememberStep(s) => Published(st.(notified := st.notified + NotesFor(s)), [])
    case ClearStep => Published(st.(notified := {}, probed := {}, retired := {}), [])
  }

  function After(st: State, steps: seq<Step>): State {
    if steps == [] then st else Result(After(st, steps[..|steps| - 1]), steps[|steps| - 1]).st
  }

  /** The cards of a run, in order. */
  function CardsOf(st: State, steps: seq<Step>): seq<Session> {
    if steps == [] then []
    else
      var n := |steps| - 1;
      CardsOf(st, steps[..n]) + Result(After(st, steps[..n]), steps[n]).cards
  }

  /** The state in which step `i` happens. */
  function Before(st: State, steps: seq<Step>, i: nat): State
    requires i <= |steps|
  {
    After(st, steps[..i])
  }

  lemma BeforeSteps(st: State, steps: seq<Step>, i: nat)
    requires i < |steps|
    ensures Before(st, steps, i + 1) == Result(Before(st, steps, i), steps[i]).st
  {
    assert steps[..i + 1][..i] == steps[..i];
  }

  // ---- an uninterrupted poll is its steps -----------------------------------------------------

  lemma {:induction false} AfterBoth(st: State, first: seq<Step>, second: seq<Step>)
    ensures After(st, first + second) == After(After(st, first), second)
    ensures CardsOf(st, first + second) == CardsOf(st, first) + CardsOf(After(st, first), second)
  {
    hide Result;
    if second == [] {
      assert first + second == first;
    } else {
      var n := |second| - 1;
      AfterBoth(st, first, second[..n]);
      assert (first + second)[..|first| + n] == first + second[..n];
    }
  }

  function Forgets(aborts: seq<Forgotten>): (r: seq<Step>)
    ensures |r| == |aborts| && forall i :: 0 <= i < |r| ==> r[i] == ForgetStep(aborts[i])
  {
    seq(|aborts|, i requires 0 <= i < |aborts| => ForgetStep(aborts[i]))
  }

  lemma {:induction false} ForgetsForgetAll(st: State, aborts: seq<Forgotten>)
    ensures After(st, Forgets(aborts)) == st.(notified := ForgetAll(st.notified, aborts))
    ensures CardsOf(st, Forgets(aborts)) == []
  {
    if aborts == [] {
      assert Forgets(aborts) == [];
    } else {
      var n := |aborts| - 1;
      ForgetsForgetAll(st, aborts[..n]);
      assert Forgets(aborts)[..n] == Forgets(aborts[..n]);
    }
  }

  /** Offer each candidate, and remember it when its flow was started. */
  function Offers(st: State, held: set<Session>, candidates: seq<Session>): seq<Step> {
    if candidates == [] then []
    else
      var n := |candidates| - 1;
      var before := Offers(st, held, candidates[..n]);
      before + [OfferStep(candidates[n], held)]
      + if Offerable(After(st, before), candidates[n], held) then [RememberStep(candidates[n])] else []
  }

  lemma {:induction false} OffersPublishAll(st: State, w: World, candidates: seq<Session>)
    requires forall s :: s in candidates ==> s.id != ""
    ensures Published(After(st, Offers(st, w.held, candidates)), CardsOf(st, Offers(st, w.held, candidates)))
         == PublishAll(st, w, candidates)
  {
    hide Publishable, NotesFor, After, CardsOf, Result;
    if candidates == [] {
      NothingOffered(st);
    } else {
      var n := |candidates| - 1;
      var s := candidates[n];
      assert s in candidates && forall x :: x in candidates[..n] ==> x in candidates;
      OffersPublishAll(st, w, candidates[..n]);
      OfferOneMore(st, w, Offers(st, w.held, candidates[..n]), s);
    }
  }

  lemma NothingOffered(st: State)
    ensures After(st, []) == st && CardsOf(st, []) == []
  {
  }

  /** One more offer, remembered when it puts up a card, publishes as one more round of the poll's loop. */
  lemma OfferOneMore(st: State, w: World, before: seq<Step>, s: Session)
    requires s.id != ""
    ensures var from := After(st, before);
      var steps := before + [OfferStep(s, w.held)] + if Offerable(from, s, w.held) then [RememberStep(s)] else [];
      && (Offerable(from, s, w.held) <==> Publishable(from, w, s))
      && After(st, steps) ==
           (if Publishable(from, w, s) then from.(notified := from.notified + NotesFor(s)) else from)
      && CardsOf(st, steps) == CardsOf(st, before) + if Publishable(from, w, s) then [s] else []
  {
    hide After, CardsOf, NotesFor, Suppressed, WireSafe, AlreadyNotified;
    var offered := before + [OfferStep(s, w.held)];
    OneMoreStep(st, before, OfferStep(s, w.held));
    OneMoreStep(st, offered, RememberStep(s));
    assert offered + [] == offered;
  }

  lemma OneMoreStep(st: State, steps: seq<Step>, step: Step)
    ensures After(st, steps + [step]) == Result(After(st, steps), step).st
    ensures CardsOf(st, steps + [step]) == CardsOf(st, steps) + Result(After(st, steps), step).cards
  {
    hide Result;
    assert (steps + [step])[..|steps|] == steps;
  }

  /** The steps of one poll, up to its offers. */
  function Preparation(w: World): seq<Step> {
    Forgets(w.weakAborts) + [LookStep(w.inventory)] + Forgets(w.configuredAborts)
  }

  /** A poll that nothing interrupts does what its steps do. */
  lemma PollIsItsSteps(st: State, w: World)
    requires w.canPublish
    ensures var steps := Preparation(w) + Offers(BeforePublishing(st, w), w.held, Unclaimed(w.inventory));
      Published(After(st, steps), CardsOf(st, steps)) == Poll(st, w)
  {
    hide After, CardsOf, Offers, PublishAll, Unclaimed, Projection, Capture, Prune, Forgets;
    var from := BeforePublishing(st, w);
    ForgetsForgetAll(st, w.weakAborts);
    var aborted := st.(notified := ForgetAll(st.notified, w.weakAborts));
    OneMoreStep(st, Forgets(w.weakAborts), LookStep(w.inventory));
    var looked := Prune(Capture(aborted, w.inventory), Raws(Projection(w.inventory)));
    ForgetsForgetAll(looked, w.configuredAborts);
    AfterBoth(st, Forgets(w.weakAborts) + [LookStep(w.inventory)], Forgets(w.configuredAborts));
    AfterBoth(st, Preparation(w), Offers(from, w.held, Unclaimed(w.inventory)));
    OffersPublishAll(from, w, Unclaimed(w.inventory));
  }

  // ---- quarantine and retirement, step by step ---------------------------------------------------

  /** The step captures the socket for an entry being unloaded. */
  predicate StepCaptures(step: Step, k: Socket) { step.WholeStep? && Captures(step.event, k) }

  predicate StepReleases(st: State, step: Step, k: Socket) { step.WholeStep? && Releases(st, step.event, k) }

  predicate StepSeesGone(step: Step, k: Socket) {
    || (step.WholeStep? && SeesGone(step.event, k))
    || (step.LookStep? && k !in Sockets(step.inventory))
  }

  predicate StepShowsAgain(step: Step) { step.ClearStep? || (step.WholeStep? && step.event.ShowAgainEvent?) }

  /** Exactly what one step does to the quarantine and the retirement of one socket. */
  lemma SocketStep(st: State, step: Step, k: Socket)
    ensures k in Result(st, step).st.quarantined <==>
      StepCaptures(step, k) || (k in st.quarantined && !StepReleases(st, step, k) && !StepSeesGone(step, k))
    ensures k in Result(st, step).st.retired <==>
      StepCaptures(step, k) || (k in st.retired && !StepShowsAgain(step) && !StepSeesGone(step, k))
  {
    hide Outcome, Captures, Releases, SeesGone, Projection, Sockets;
    if step.WholeStep? {
      QuarantineStep(st, step.event, k);
      RetiredStep(st, step.event, k);
      NextIsOutcome(st, step.event);
    }
  }

  lemma NextIsOutcome(st: State, e: Event)
    ensures Next(st, e) == Outcome(st, e).st && Cards(st, e) == Outcome(st, e).cards
  {
    hide Outcome;
  }

  /** A step puts no card up for a socket that is quarantined, or that is retired and not shown again. */
  lemma HiddenSocketGetsNoCard(st: State, step: Step, s: Session)
    requires s in Result(st, step).cards
    ensures s.Key() in st.quarantined ==> StepReleases(st, step, s.Key()) || StepSeesGone(step, s.Key())
    ensures s.Key() in st.retired ==> StepShowsAgain(step)
  {
    hide Outcome, Releases, SeesGone, Projection, Sockets, WireSafe;
    if step.WholeStep? {
      NextIsOutcome(st, step.event);
      QuarantineStep(st, step.event, s.Key());
      QuarantinedIsHidden(st, step.event, Holding({}), s);
      RetiredStep(st, step.event, s.Key());
    }
  }

  /** No step of the run releases the socket or sees it gone. */
  ghost predicate StaysHidden(st: State, steps: seq<Step>, k: Socket) {
    forall i: nat :: i < |steps| ==> !StepReleases(Before(st, steps, i), steps[i], k) && !StepSeesGone(steps[i], k)
  }

  lemma {:induction false} QuarantineHoldsInside(st: State, steps: seq<Step>, k: Socket, n: nat)
    requires n <= |steps| && k in st.quarantined && StaysHidden(st, steps, k)
    ensures k in Before(st, steps, n).quarantined
  {
    hide Result, StepReleases, StepSeesGone, StepCaptures;
    if n > 0 {
      QuarantineHoldsInside(st, steps, k, n - 1);
      BeforeSteps(st, steps, n - 1);
      SocketStep(Before(st, steps, n - 1), steps[n - 1], k);
    }
  }

  /**
   A removed socket stays out of the interactive snapshot and off every card also when operations and
   other polls come between the steps of a poll.
   */
  lemma RemovedSocketStaysHiddenInside(
      events: seq<Event>, entry: string, steps: seq<Step>, k: Socket, i: nat, w: World, s: Session)
    requires k in PendingOf(RunFrom(INITIAL, events), Strip(entry))
    requires forall j: nat :: !ReleasedFor(INITIAL, events, j, k)
    requires StaysHidden(Take(RunFrom(INITIAL, events), entry), steps, k)
    requires i <= |steps| && s.Key() == k
    ensures !Interactive(Before(Take(RunFrom(INITIAL, events), entry), steps, i), w, s)
    ensures i < |steps| ==> s !in Result(Before(Take(RunFrom(INITIAL, events), entry), steps, i), steps[i]).cards
  {
    hide RunFrom, Result, Before, StepReleases, StepSeesGone, ReleasedFor, Interactive;
    var st := Take(RunFrom(INITIAL, events), entry);
    PendingIsQuarantinedUnlessReleased(events, Strip(entry), k);
    QuarantineHoldsInside(st, steps, k, i);
    QuarantinedIsHidden(Before(st, steps, i), TakeEvent(entry), w, s);
    if i < |steps| && s in Result(Before(st, steps, i), steps[i]).cards {
      HiddenSocketGetsNoCard(Before(st, steps, i), steps[i], s);
    }
  }

  /** A retired socket stays off every card until it closes or show-again runs, also inside polls. */
  lemma {:induction false} RetiredSocketStaysUnpublishedInside(st: State, steps: seq<Step>, k: Socket, i: nat)
    requires k in st.retired && i <= |steps|
    requires forall j: nat :: j < |steps| ==> !StepShowsAgain(steps[j]) && !StepSeesGone(steps[j], k)
    ensures k in Before(st, steps, i).retired
    ensures i < |steps| ==> forall s :: s in Result(Before(st, steps, i), steps[i]).cards ==> s.Key() != k
  {
    hide Result, StepSeesGone, StepShowsAgain, StepCaptures;
    if i > 0 {
      RetiredSocketStaysUnpublishedInside(st, steps, k, i - 1);
      BeforeSteps(st, steps, i - 1);
      SocketStep(Before(st, steps, i - 1), steps[i - 1], k);
    }
    if i < |steps| {
      forall s | s in Result(Before(st, steps, i), steps[i]).cards ensures s.Key() != k {
        HiddenSocketGetsNoCard(Before(st, steps, i), steps[i], s);
      }
    }
  }

  // ---- one card per edge, once it is remembered -----------------------------------------------------

  /** The step lets a publication of `(port, pn)` happen again. */
  predicate StepReopens(step: Step, port: int, pn: string) {
    match step
    case WholeStep(e) => ReopensEdge(e, port, pn)
    case ForgetStep(f) => f.port == port && f.pn == pn
    case LookStep(inventory) => !exists s :: s in Raws(Projection(inventory)) && s.port == port && s.pn == pn
    case ClearStep => true
    case _ => false
  }

  /** A remembered publication stays remembered, and is not repeated, by a step that does not reopen it. */
  lemma NoteOutlivesStep(st: State, step: Step, port: int, pn: string)
    requires PnNote(port, pn) in st.notified && pn != "" && !StepReopens(step, port, pn)
    ensures PnNote(port, pn) in Result(st, step).st.notified
    ensures forall s :: s in Result(st, step).cards ==> s.port != port || s.pn != pn
  {
    hide Outcome, ReopensEdge, Projection, Suppressed, WireSafe, NewToSome;
    if step.WholeStep? {
      NextIsOutcome(st, step.event);
      NoteOutlivesClosedEdge(st, step.event, port, pn);
    }
  }

  lemma {:induction false} NoteOutlivesSteps(st: State, steps: seq<Step>, lo: nat, hi: nat, port: int, pn: string)
    requires lo <= hi <= |steps| && pn != "" && PnNote(port, pn) in Before(st, steps, lo).notified
    requires forall m: nat :: lo <= m < hi ==> !StepReopens(steps[m], port, pn)
    ensures PnNote(port, pn) in Before(st, steps, hi).notified
  {
    hide Result, StepReopens, After, Before;
    if lo < hi {
      NoteOutlivesSteps(st, steps, lo, hi - 1, port, pn);
      BeforeSteps(st, steps, hi - 1);
      NoteOutlivesStep(Before(st, steps, hi - 1), steps[hi - 1], port, pn);
    }
  }

  /**
   Publication is edge-triggered from the moment it is remembered: a later card for the same identity
   on the same port needs a step in between that reopened it.
   */
  lemma RememberedCardsAreEdgeTriggered(st: State, steps: seq<Step>, r: nat, j: nat, s: Session, t: Session)
    requires r < j < |steps| && steps[r] == RememberStep(s) && s.pn != ""
    requires t in Result(Before(st, steps, j), steps[j]).cards && s.port == t.port && s.pn == t.pn
    ensures exists m: nat :: r < m <= j && StepReopens(steps[m], s.port, s.pn)
  {
    hide Result, StepReopens, After, Before;
    if forall m: nat :: r < m <= j ==> !StepReopens(steps[m], s.port, s.pn) {
      RememberingLeavesNote(Before(st, steps, r), s);
      BeforeSteps(st, steps, r);
      NoteOutlivesSteps(st, steps, r + 1, j, s.port, s.pn);
      NoteOutlivesStep(Before(st, steps, j), steps[j], s.port, s.pn);
    }
  }

  lemma RememberingLeavesNote(st: State, s: Session)
    ensures PnNote(s.port, s.pn) in Result(st, RememberStep(s)).st.notified
  {
  }

  /**
   Two polls that check one candidate before either has remembered it: both put up its card, and
   nothing in between reopened the edge.
   */
  lemma OverlappingPollsCanPublishTwice(s: Session)
    requires WireSafe(s.pn) && s.peer != "" && s.id != ""
    ensures var steps := [OfferStep(s, {}), OfferStep(s, {}), RememberStep(s), RememberStep(s)];
      && CardsOf(INITIAL, steps) == [s, s]
      && forall m :: 0 <= m < |steps| ==> !StepReopens(steps[m], s.port, s.pn)
  {
    hide WireSafe, After, CardsOf, Result, StepReopens;
    var offer, remember := OfferStep(s, {}), RememberStep(s);
    var steps := [offer, offer, remember, remember];
    NothingOffered(INITIAL);
    OneMoreStep(INITIAL, [], offer);
    OneMoreStep(INITIAL, [] + [offer], offer);
    OneMoreStep(INITIAL, [] + [offer] + [offer], remember);
    OneMoreStep(INITIAL, [] + [offer] + [offer] + [remember], remember);
    FirstOffer(s);
    RememberingPutsUpNothing(INITIAL, s);
    RememberingPutsUpNothing(Result(INITIAL, remember).st, s);
    assert [] + [offer] + [offer] + [remember] + [remember] == steps;
    assert [] + [s] + [s] + [] + [] == [s, s];
    assert forall m :: 0 <= m < |steps| ==> steps[m] == offer || steps[m] == remember;
    OffersReopenNothing(s);
  }

  lemma FirstOffer(s: Session)
    requires WireSafe(s.pn) && s.peer != "" && s.id != ""
    ensures Result(INITIAL, OfferStep(s, {})) == Published(INITIAL, [s])
  {
    hide WireSafe;
  }

  lemma RememberingPutsUpNothing(st: State, s: Session)
    ensures Result(st, RememberStep(s)).cards == []
  {
  }

  lemma OffersReopenNothing(s: Session)
    ensures !StepReopens(OfferStep(s, {}), s.port, s.pn) && !StepReopens(RememberStep(s), s.port, s.pn)
  {
  }

  /** Until a started flow is remembered, the same offer starts it again; from then on it does not. */
  lemma OfferRepeatsUntilRemembered(st: State, s: Session, held: set<Session>)
    requires s in Result(st, OfferStep(s, held)).cards
    ensures s in Result(Result(st, OfferStep(s, held)).st, OfferStep(s, held)).cards
    ensures s !in Result(Result(st, RememberStep(s)).st, OfferStep(s, held)).cards
  {
  }
}
