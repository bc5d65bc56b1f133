// The browser bridge as a protocol: connected extensions, calls in flight, and
// what every event does to them.
module BridgeProtocol {
  import opened Basics
  import opened Strings

  const CALL_STALE_MS: int := 45_000

  datatype Socket = Socket(n: nat)
  datatype CallId = CallId(n: nat)

  datatype Client = Client(ws: Socket, browser: string, connectedAt: int, lastSeenAt: int)

  // A call waiting for its answer.
  datatype Flight = Flight(id: CallId, ws: Socket)

  // What an extension sends: a reply names a call; anything else is only a sign of life.
  datatype Reply = Result(value: nat) | Failure(code: string)
  datatype Frame = NoReply | ReplyTo(id: CallId, reply: Reply)

  datatype Outcome = Answered(who: Socket, reply: Reply) | TimedOut | SendFailed | Dropped(ws: Socket, stale: bool)
  datatype Settlement = Settlement(id: CallId, outcome: Outcome)
  datatype Sent = Sent(ws: Socket, browser: string, named: string)

  // clients and pending are in insertion order. log and sent record every
  // settling of a call's promise and every call that was put on a socket.
  datatype State = State(
    clients: seq<Client>, pending: seq<Flight>, timers: set<CallId>, nextId: nat,
    log: seq<Settlement>, sent: map<CallId, Sent>)

  datatype Refusal = Disconnected | UnknownBrowser | Ambiguous
  datatype Target = Chosen(client: Client) | Refused(why: Refusal)

  function BrowserId(n: nat, run: string): string {
    "b" + Numeral(n) + "-" + run
  }

  const START: State := State([], [], {}, 1, [], map[])

  // ---- Lists ----

  function FindClient(clients: seq<Client>, ws: Socket): (i: nat)
    ensures i <= |clients|
    ensures i < |clients| ==> clients[i].ws == ws
    ensures forall k :: 0 <= k < i ==> clients[k].ws != ws
  {
    if clients == [] || clients[0].ws == ws then 0 else 1 + FindClient(clients[1..], ws)
  }

  predicate Connected(clients: seq<Client>, ws: Socket) {
    exists i :: 0 <= i < |clients| && clients[i].ws == ws
  }

  function OtherClients(clients: seq<Client>, ws: Socket): seq<Client> {
    if clients == [] then []
    else OtherClients(Front(clients), ws) + if Last(clients).ws == ws then [] else [Last(clients)]
  }

  function FindFlight(pending: seq<Flight>, id: CallId): (i: nat)
    ensures i <= |pending|
    ensures i < |pending| ==> pending[i].id == id
    ensures forall k :: 0 <= k < i ==> pending[k].id != id
  {
    if pending == [] || pending[0].id == id then 0 else 1 + FindFlight(pending[1..], id)
  }

  function WithoutCall(pending: seq<Flight>, id: CallId): seq<Flight> {
    if FindFlight(pending, id) < |pending| then Without(pending, FindFlight(pending, id)) else pending
  }

  // The calls in flight on other sockets, and the settlements of those on this one.
  function Kept(pending: seq<Flight>, ws: Socket): seq<Flight> {
    if pending == [] then []
    else Kept(Front(pending), ws) + if Last(pending).ws == ws then [] else [Last(pending)]
  }

  function Failed(pending: seq<Flight>, ws: Socket, stale: bool): seq<Settlement> {
    if pending == [] then []
    else Failed(Front(pending), ws, stale)
         + if Last(pending).ws == ws then [Settlement(Last(pending).id, Dropped(ws, stale))] else []
  }

  function CallsOn(pending: seq<Flight>, ws: Socket): set<CallId> {
    set i | 0 <= i < |pending| && pending[i].ws == ws :: pending[i].id
  }

  // ---- What each event does ----

  function Drop(s: State, ws: Socket, stale: bool): State {
    s.(clients := OtherClients(s.clients, ws), pending := Kept(s.pending, ws),
       timers := s.timers - CallsOn(s.pending, ws), log := s.log + Failed(s.pending, ws, stale))
  }

  predicate IsStale(c: Client, now: int) {
    now - c.lastSeenAt >= CALL_STALE_MS
  }

  // Those that have not gone silent.
  function FreshOnly(clients: seq<Client>, now: int): seq<Client> {
    if clients == [] then []
    else FreshOnly(Front(clients), now) + if IsStale(Last(clients), now) then [] else [Last(clients)]
  }

  // Drop the stale ones of the first clients listed.
  function Sweep(s: State, snapshot: seq<Client>, now: int): State {
    if snapshot == [] then s
    else
      var before := Sweep(s, Front(snapshot), now);
      if IsStale(Last(snapshot), now) then Drop(before, Last(snapshot).ws, true) else before
  }

  function Live(s: State, now: int): State {
    Sweep(s, s.clients, now)
  }

  function Open(s: State, ws: Socket, now: int, run: string): State {
    var c := Client(ws, BrowserId(s.nextId, run), now, now);
    var i := FindClient(s.clients, ws);
    s.(clients := if i < |s.clients| then s.clients[i := c] else s.clients + [c], nextId := s.nextId + 1)
  }

  function Close(s: State, ws: Socket): State {
    if FindClient(s.clients, ws) < |s.clients| then Drop(s, ws, false) else s
  }

  function Touch(clients: seq<Client>, ws: Socket, now: int): seq<Client> {
    var i := FindClient(clients, ws);
    if i < |clients| then clients[i := clients[i].(lastSeenAt := now)] else clients
  }

  function Settle(s: State, id: CallId, outcome: Outcome): State {
    s.(pending := WithoutCall(s.pending, id), timers := s.timers - {id}, log := s.log + [Settlement(id, outcome)])
  }

  function Receive(s: State, ws: Socket, frame: Frame, now: int): State {
    var t := s.(clients := Touch(s.clients, ws, now));
    if frame.NoReply? then t
    else
      var i := FindFlight(t.pending, frame.id);
      if i == |t.pending| || t.pending[i].ws != ws then t
      else Settle(t, frame.id, Answered(ws, frame.reply))
  }

  function FindBrowser(clients: seq<Client>, browser: string): (i: nat)
    ensures i <= |clients|
    ensures i < |clients| ==> clients[i].browser == browser
    ensures forall k :: 0 <= k < i ==> clients[k].browser != browser
  {
    if clients == [] || clients[0].browser == browser then 0 else 1 + FindBrowser(clients[1..], browser)
  }

  // An empty name stands for none.
  function Choose(clients: seq<Client>, browser: string): Target {
    if clients == [] then Refused(Disconnected)
    else if browser != "" then
      var i := FindBrowser(clients, browser);
      if i < |clients| then Chosen(clients[i]) else Refused(UnknownBrowser)
    else if |clients| > 1 then Refused(Ambiguous)
    else Chosen(clients[0])
  }

  // A new call on a client's socket.
  function Launch(s: State, id: CallId, c: Client, named: string): State {
    s.(pending := s.pending + [Flight(id, c.ws)], timers := s.timers + {id},
      sent := s.sent[id := Sent(c.ws, c.browser, named)])
  }

  function Call(s: State, id: CallId, browser: string, now: int, sendOk: bool): State {
    var t := Live(s, now);
    var target := Choose(t.clients, browser);
    if target.Refused? then t
    else
      var u := Launch(t, id, target.client, browser);
      if sendOk then u else Settle(u, id, SendFailed)
  }

  datatype Event =
    | Opens(ws: Socket, now: int)
    | Closes(ws: Socket)
    | Receives(ws: Socket, frame: Frame, now: int)
    | Calls(id: CallId, browser: string, now: int, sendOk: bool)
    | Fires(id: CallId)
    | Looks(now: int)

  // A call id is a fresh random one, and only an armed timer fires.
  predicate Enabled(s: State, e: Event) {
    match e
    case Calls(id, _, _, _) => id !in s.sent
    case Fires(id) => id in s.timers
    case _ => true
  }

  function Step(s: State, e: Event, run: string): State {
    match e
    case Opens(ws, now) => Open(s, ws, now, run)
    case Closes(ws) => Close(s, ws)
    case Receives(ws, frame, now) => Receive(s, ws, frame, now)
    case Calls(id, browser, now, sendOk) => Call(s, id, browser, now, sendOk)
    case Fires(id) => Settle(s, id, TimedOut)
    case Looks(now) => Live(s, now)
  }

  // ---- What holds throughout ----

  function PendingIds(pending: seq<Flight>): seq<CallId> {
    seq(|pending|, i requires 0 <= i < |pending| => pending[i].id)
  }

  function IdsOf(pending: seq<Flight>): set<CallId> {
    set i | 0 <= i < |pending| :: pending[i].id
  }

  function SettledIds(log: seq<Settlement>): seq<CallId> {
    seq(|log|, i requires 0 <= i < |log| => log[i].id)
  }

  // Every call sent is waiting once or settled once.
  ghost predicate Accounted(pending: seq<Flight>, log: seq<Settlement>, sent: map<CallId, Sent>) {
    multiset(PendingIds(pending)) + multiset(SettledIds(log)) == multiset(sent.Keys)
  }

  // Each is on the socket of a connected client.
  ghost predicate PendingSound(pending: seq<Flight>, sent: map<CallId, Sent>, clients: seq<Client>) {
    forall i :: 0 <= i < |pending| ==>
      var f := pending[i];
      f.id in sent && f.ws == sent[f.id].ws && Connected(clients, f.ws)
  }

  // Only the socket a call was put on can have answered it or taken it down.
  ghost predicate LogSound(log: seq<Settlement>, sent: map<CallId, Sent>) {
    forall i :: 0 <= i < |log| ==>
      && log[i].id in sent
      && (log[i].outcome.Answered? ==> log[i].outcome.who == sent[log[i].id].ws)
      && (log[i].outcome.Dropped? ==> log[i].outcome.ws == sent[log[i].id].ws)
  }

  ghost predicate SentSound(sent: map<CallId, Sent>) {
    forall id :: id in sent ==> sent[id].named == "" || sent[id].named == sent[id].browser
  }

  // One client a socket, each under an id of its own handed out in this run.
  ghost predicate ClientsSound(clients: seq<Client>, nextId: nat, run: string) {
    && 1 <= nextId
    && (forall i, j ::
      0 <= i < j < |clients| ==> clients[i].ws != clients[j].ws && clients[i].browser != clients[j].browser)
    && (forall i :: 0 <= i < |clients| ==> exists n :: 1 <= n < nextId && clients[i].browser == BrowserId(n, run))
  }

  ghost predicate Inv(s: State, run: string) {
    && Accounted(s.pending, s.log, s.sent)
    && s.timers == IdsOf(s.pending)
    && PendingSound(s.pending, s.sent, s.clients)
    && LogSound(s.log, s.sent)
    && SentSound(s.sent)
    && ClientsSound(s.clients, s.nextId, run)
  }
}
