/**
 The lifecycle of passive discovery as a state machine: what each operation of
 `passive_discovery.py` does to the sets it keeps about physical sockets.
 */
module DiscoverySpec {
  import opened Numbers
  import opened Text
  import opened Identity
  import opened Registry

  /** One remembered publication, by identity and by socket. */
  datatype Note = PnNote(port: int, pn: string) | SessionNote(port: int, id: string)

  datatype Ticket = Ticket(pn: string, source: string, id: string, host: string, port: int)

  datatype State = State(
    notified: set<Note>,
    scopes: map<string, set<Socket>>,
    probed: set<Socket>,
    retired: set<Socket>,
    pending: map<string, set<Socket>>,
    quarantined: set<Socket>,
    tickets: map<string, Ticket>)

  const INITIAL := State({}, map[], {}, {}, map[], {}, map[])

  /** A publication history entry dropped because its discovery flow was aborted. */
  datatype Forgotten = Forgotten(port: int, pn: string, id: string)

  /**
   What one operation sees of the world: the listener inventory with owners, the registry claims by
   owner, whether flows can be started, the flows aborted around the poll, and the candidates that a
   config entry, an active flow or a still settling weak identity keeps from being published.
   */
  datatype World = World(
    inventory: Inventory,
    claims: map<string, string>,
    canPublish: bool,
    weakAborts: seq<Forgotten>,
    configuredAborts: seq<Forgotten>,
    held: set<Session>)

  // ---- probe scopes -----------------------------------------------------------

  function BeginScope(st: State, scope: string, inventory: Inventory): State {
    var token := Strip(scope);
    if token == "" then st else st.(scopes := st.scopes[token := Sockets(inventory)])
  }

  /** Sockets that appeared since some of these scopes began. */
  function NewToSome(scopes: map<string, set<Socket>>, current: set<Socket>): set<Socket> {
    set t, k | t in scopes && k in current && k !in scopes[t] :: k
  }

  function Retained(inventory: Inventory, ids: set<string>): set<Socket> {
    set s | s in inventory && s.id != "" && (exists x :: x in ids && Strip(x) == s.id) :: s.Key()
  }

  function EndScope(st: State, scope: string, retain: Option<set<string>>, inventory: Inventory): State {
    var token := Strip(scope);
    if token !in st.scopes then st
    else
      var current := Sockets(inventory);
      var others := st.scopes - {token};
      var arrived := current - st.scopes[token];
      match retain
      case None => st.(scopes := others, probed := st.probed + arrived)
      case Some(ids) =>
        var kept := Retained(inventory, ids);
        st.(scopes := others, probed := st.probed - (arrived - kept - NewToSome(others, current)) + kept)
  }

  // ---- retirement, removal and resumption -----------------------------------------

  predicate OwnedBy(s: Session, owner: string) { s.id != "" && s.owner == owner }

  /** The sockets an entry owns right now. */
  function OwnedSockets(inventory: Inventory, owner: string): set<Socket> {
    set s | s in inventory && OwnedBy(s, owner) :: s.Key()
  }

  /** A socket exact enough to restart: strongly identified, open, and on a real port. */
  predicate Eligible(s: Session, owner: string) {
    OwnedBy(s, owner) && StrongSource(s.source) && !s.state.Closed? && s.port > 0
  }

  function EligibleAmong(sessions: seq<Session>, owner: string): (r: seq<Session>)
    ensures forall s :: s in r ==> s in sessions && Eligible(s, owner)
  {
    if sessions == [] then []
    else if Eligible(sessions[0], owner) then [sessions[0]] + EligibleAmong(sessions[1..], owner)
    else EligibleAmong(sessions[1..], owner)
  }

  function FirstWithId(sessions: seq<Session>, id: string): (r: Option<Session>)
    ensures r.Some? ==> r.value in sessions && r.value.id == id
  {
    if sessions == [] then None
    else if sessions[0].id == id then Some(sessions[0])
    else FirstWithId(sessions[1..], id)
  }

  /** The pinned socket, or the only eligible one; never a choice among several. */
  function Selected(eligible: seq<Session>, claimed: string): Option<Session> {
    if claimed != "" then FirstWithId(eligible, claimed)
    else if |eligible| == 1 then Some(eligible[0])
    else None
  }

  /** The restart ticket, when the constructor accepts it. */
  function TicketFor(s: Session): Option<Ticket> {
    var host := match s.host case DefaultHost => "0.0.0.0" case HostText(t) => (if t == "" then "0.0.0.0" else t)
                             case HostOther => "";
    if Normalized(s.pn) && Normalized(s.source) && Normalized(s.id) && Normalized(host) && 1 <= s.port <= 65535
    then Some(Ticket(s.pn, s.source, s.id, host, s.port)) else None
  }

  function TicketOf(w: World, owner: string): Option<Ticket> {
    var claimed := if owner in w.claims then w.claims[owner] else "";
    match Selected(EligibleAmong(w.inventory, owner), claimed)
    case Some(s) => TicketFor(s)
    case None => None
  }

  function Retire(st: State, entry: string, w: World): State {
    var owner := Strip(entry);
    if owner == "" then st
    else
      var keys := OwnedSockets(w.inventory, owner);
      var ticket := TicketOf(w, owner);
      st.(retired := st.retired + keys,
          quarantined := st.quarantined + keys,
          pending := if keys == {} then st.pending else st.pending[owner := keys],
          tickets := if ticket.Some? then st.tickets[owner := ticket.value] else st.tickets - {owner})
  }

  /** The sockets still awaiting the fate of an entry. */
  function PendingOf(st: State, owner: string): set<Socket> {
    if owner in st.pending then st.pending[owner] else {}
  }

  function Resume(st: State, entry: string): State {
    var owner := Strip(entry);
    if owner == "" then st
    else st.(pending := st.pending - {owner},
             quarantined := st.quarantined - PendingOf(st, owner),
             tickets := st.tickets - {owner})
  }

  function Take(st: State, entry: string): State {
    var owner := Strip(entry);
    if owner == "" then st
    else st.(pending := st.pending - {owner}, tickets := st.tickets - {owner})
  }

  function TakenTicket(st: State, entry: string): Option<Ticket> {
    var owner := Strip(entry);
    if owner in st.tickets && owner != "" then Some(st.tickets[owner]) else None
  }

  // ---- one look at the inventory -----------------------------------------------------

  /** Owners whose pending sockets have all closed. */
  function Emptied(pending: map<string, set<Socket>>, current: set<Socket>): set<string> {
    set o | o in pending && pending[o] * current == {}
  }

  /** What is left of the pending sockets. */
  function Capturing(pending: map<string, set<Socket>>, current: set<Socket>): map<string, set<Socket>> {
    map o | o in pending && o !in Emptied(pending, current) :: pending[o] * current
  }

  function Capture(st: State, inventory: Inventory): State {
    var current := Sockets(inventory);
    var gone := Emptied(st.pending, current);
    st.(probed := (st.probed + NewToSome(st.scopes, current)) * current,
        retired := st.retired * current,
        quarantined := st.quarantined * current,
        pending := Capturing(st.pending, current),
        tickets := st.tickets - gone)
  }

  predicate Suppressed(st: State, s: Session) {
    s.id != "" && (s.Key() in st.probed || s.Key() in st.retired || s.Key() in st.quarantined)
  }

  // ---- publication history ---------------------------------------------------------------

  /** A note survives a poll while the projection still shows what it stands for. */
  predicate StillShown(n: Note, projection: seq<Session>) {
    match n
    case PnNote(port, pn) => pn != "" && exists s :: s in projection && s.port == port && s.pn == pn
    case SessionNote(port, id) => exists s :: s in projection && s.port == port && s.id == id && id != ""
  }

  function Prune(st: State, projection: seq<Session>): State {
    st.(notified := set n | n in st.notified && StillShown(n, projection))
  }

  function Forget(notified: set<Note>, f: Forgotten): set<Note> {
    notified - {PnNote(f.port, f.pn)} - (if f.id == "" then {} else {SessionNote(f.port, f.id)})
  }

  function ForgetAll(notified: set<Note>, aborts: seq<Forgotten>): set<Note> {
    if aborts == [] then notified
    else Forget(ForgetAll(notified, aborts[..|aborts| - 1]), aborts[|aborts| - 1])
  }

  function NotesFor(s: Session): set<Note> {
    {PnNote(s.port, s.pn)} + if s.id == "" then {} else {SessionNote(s.port, s.id)}
  }

  predicate AlreadyNotified(notified: set<Note>, s: Session) {
    PnNote(s.port, s.pn) in notified || (s.id != "" && SessionNote(s.port, s.id) in notified)
  }

  /** The checks between an unclaimed candidate and its discovery card, in order. */
  predicate Publishable(st: State, w: World, s: Session) {
    && !Suppressed(st, s)
    && WireSafe(s.pn) && s.peer != ""
    && s !in w.held
    && !AlreadyNotified(st.notified, s)
  }

  datatype Published = Published(st: State, cards: seq<Session>)

  /** Publishing the candidates of one poll, first to last. */
  function PublishAll(st: State, w: World, candidates: seq<Session>): Published {
    if candidates == [] then Published(st, [])
    else
      var before := PublishAll(st, w, candidates[..|candidates| - 1]);
      var s := candidates[|candidates| - 1];
      if Publishable(before.st, w, s)
      then Published(before.st.(notified := before.st.notified + NotesFor(s)), before.cards + [s])
      else before
  }

  /** The state a poll publishes from. */
  function BeforePublishing(st: State, w: World): State {
    var aborted := st.(notified := ForgetAll(st.notified, w.weakAborts));
    var captured := Prune(Capture(aborted, w.inventory), Raws(Projection(w.inventory)));
    captured.(notified := ForgetAll(captured.notified, w.configuredAborts))
  }

  /** `_async_poll_once`, as one step. */
  function Poll(st: State, w: World): Published {
    if !w.canPublish then Published(st, [])
    else PublishAll(BeforePublishing(st, w), w, Unclaimed(w.inventory))
  }

  /** `async_show_discovered_devices_again`: forget every passive suppression but the quarantine, then poll. */
  function ShowAgain(st: State, w: World): Published {
    Poll(st.(notified := {}, probed := {}, retired := {}), w)
  }

  // ---- the interactive view ------------------------------------------------------------------

  /** What the interactive snapshot requires of a session it shows. */
  predicate WellFormed(s: Session) {
    && Normalized(s.pn) && Normalized(s.id) && Normalized(s.peer) && Trimmed(s.source)
    && 1 <= s.port <= 65535
  }

  predicate Interactive(st: State, w: World, s: Session) {
    s in Unclaimed(w.inventory) && s.Key() !in st.quarantined && WellFormed(s)
  }
}
