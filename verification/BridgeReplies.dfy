// What each event of the bridge brings about: replies, lost sockets, silence,
// failed sends and refusals.
module BridgeReplies {
  import opened Basics
  import opened BridgeProtocol
  import opened BridgeSafety
  import opened BridgeTheorems

  lemma AfterNext(es: seq<Event>, run: string, e: Event)
    requires Feasible(es, run) && Enabled(After(es, run), e)
    ensures Feasible(es + [e], run) && After(es + [e], run) == Step(After(es, run), e, run)
  {
    assert Front(es + [e]) == es && Last(es + [e]) == e;
  }

  // ---- Replies ----

  // Settled with that outcome and no other: waiting no longer, its timer cleared,
  // and every other call as it was.
  ghost predicate SettledAlone(s: State, t: State, id: CallId, outcome: Outcome) {
    && t.log == s.log + [Settlement(id, outcome)] && id !in IdsOf(t.pending) && t.timers == s.timers - {id}
    && (forall f :: f in t.pending <==> f in s.pending && f.id != id) && t.sent == s.sent
  }

  lemma SettleAlone(s: State, run: string, i: nat, outcome: Outcome)
    requires Inv(s, run) && i < |s.pending|
    ensures SettledAlone(s, Settle(s, s.pending[i].id, outcome), s.pending[i].id, outcome)
  {
    var id := s.pending[i].id;
    SettleIds(s.pending, s.log, s.sent, i);
    assert WithoutCall(s.pending, id) == Without(s.pending, i);
    OthersDiffer(s, run, i);
    WithoutOthers(s.pending, i);
    hide FindFlight, WithoutCall, Inv, Without;
  }

  lemma OthersDiffer(s: State, run: string, i: nat)
    requires Inv(s, run) && i < |s.pending|
    ensures forall j :: 0 <= j < |s.pending| && j != i ==> s.pending[j].id != s.pending[i].id
  {
    forall j | 0 <= j < |s.pending| && j != i ensures s.pending[j].id != s.pending[i].id {
      if j < i {
        AtMostOnce(s.pending, s.log, s.sent, j, i);
      } else {
        AtMostOnce(s.pending, s.log, s.sent, i, j);
      }
    }
  }

  lemma WithoutOthers(pending: seq<Flight>, i: nat)
    requires i < |pending| && forall j :: 0 <= j < |pending| && j != i ==> pending[j].id != pending[i].id
    ensures forall f :: f in Without(pending, i) <==> f in pending && f.id != pending[i].id
  {
    var rest := Without(pending, i);
    forall f | f in rest ensures f in pending && f.id != pending[i].id {
      var k :| 0 <= k < |rest| && rest[k] == f;
      assert f == pending[if k < i then k else k + 1];
    }
    forall f | f in pending && f.id != pending[i].id ensures f in rest {
      var j :| 0 <= j < |pending| && pending[j] == f;
      assert rest[if j < i then j else j - 1] == f;
    }
  }

  // In every run, a reply that arrives on the socket a waiting call was put on
  // settles that call with it.
  lemma ReplySettles(es: seq<Event>, run: string, i: nat, reply: Reply, now: int)
    requires Feasible(es, run) && i < |After(es, run).pending|
    ensures var s := After(es, run);
      var e := Receives(s.pending[i].ws, ReplyTo(s.pending[i].id, reply), now);
      && Feasible(es + [e], run)
      && SettledAlone(s, After(es + [e], run), s.pending[i].id, Answered(s.pending[i].ws, reply))
  {
    var s := After(es, run);
    var e := Receives(s.pending[i].ws, ReplyTo(s.pending[i].id, reply), now);
    RunInv(es, run);
    AfterNext(es, run, e);
    ReceiveSettles(s, run, i, reply, now);
    hide After, Feasible, Inv, Receive, SettledAlone;
  }

  lemma ReceiveSettles(s: State, run: string, i: nat, reply: Reply, now: int)
    requires Inv(s, run) && i < |s.pending|
    ensures var f := s.pending[i];
      SettledAlone(s, Receive(s, f.ws, ReplyTo(f.id, reply), now), f.id, Answered(f.ws, reply))
  {
    var f := s.pending[i];
    SettleIds(s.pending, s.log, s.sent, i);
    SettleAlone(s, run, i, Answered(f.ws, reply));
    hide Inv, Touch, IdsOf, WithoutCall, FindFlight;
  }

  // ---- Frames keep a client fresh ----

  // A frame of any kind makes its client last seen then, and changes no other;
  // a client seen less than 45 seconds ago is not dropped.
  lemma FrameKeepsFresh(s: State, run: string, ws: Socket, frame: Frame, now: int)
    requires Inv(s, run)
    ensures var t := Receive(s, ws, frame, now);
      && |t.clients| == |s.clients|
      && forall i :: 0 <= i < |s.clients| ==>
           t.clients[i] == if s.clients[i].ws == ws then s.clients[i].(lastSeenAt := now) else s.clients[i]
  {
    hide WithoutCall, FindFlight, Accounted, PendingSound, LogSound, SentSound, IdsOf, BrowserId;
  }

  lemma FreshStay(s: State, run: string, now: int)
    requires Inv(s, run)
    ensures forall c :: c in Live(s, now).clients <==> c in s.clients && now - c.lastSeenAt < 45_000
  {
    LiveAreFresh(s, run, now);
    FreshAre(s.clients, now);
    hide Live, FreshOnly, Inv;
  }

  // A new connection is a client of its own, seen then, under the next id.
  lemma OpenConnects(s: State, run: string, ws: Socket, now: int)
    requires Inv(s, run)
    ensures var t := Open(s, ws, now, run);
      && Client(ws, BrowserId(s.nextId, run), now, now) in t.clients && t.nextId == s.nextId + 1
      && (forall c :: c in t.clients && c.ws != ws <==> c in s.clients && c.ws != ws)
      && t.pending == s.pending && t.timers == s.timers && t.log == s.log && t.sent == s.sent
  {
    var c := Client(ws, BrowserId(s.nextId, run), now, now);
    var i := FindClient(s.clients, ws);
    var t := Open(s, ws, now, run);
    hide BrowserId, Inv;
    if i < |s.clients| {
      assert t.clients[i] == c;
      forall d | d in s.clients && d.ws != ws ensures d in t.clients {
        var k :| 0 <= k < |s.clients| && s.clients[k] == d;
        assert t.clients[k] == d;
      }
    } else {
      assert t.clients[|s.clients|] == c;
    }
  }

  // ---- Lost sockets ----

  // Every call on a socket that satisfies lost is settled by its loss, and no
  // other call is touched.
  ghost predicate LostSettled(s: State, t: State, lost: Socket -> bool, stale: bool) {
    && (forall f :: f in t.pending <==> f in s.pending && !lost(f.ws)) && t.timers == IdsOf(t.pending)
    && s.log <= t.log && LostLog(s.pending, t.log[|s.log|..], lost, stale) && t.sent == s.sent
  }

  ghost predicate LostLog(pending: seq<Flight>, log: seq<Settlement>, lost: Socket -> bool, stale: bool) {
    && (forall f :: f in pending && lost(f.ws) ==> Settlement(f.id, Dropped(f.ws, stale)) in log)
    && (forall x :: x in log ==>
          x.outcome.Dropped? && x.outcome.stale == stale && lost(x.outcome.ws) && Flight(x.id, x.outcome.ws) in pending)
  }

  lemma {:induction false} FailedHas(pending: seq<Flight>, ws: Socket, stale: bool, f: Flight)
    requires f in pending && f.ws == ws
    ensures Settlement(f.id, Dropped(ws, stale)) in Failed(pending, ws, stale)
  {
    assert pending == Front(pending) + [Last(pending)];
    if f in Front(pending) {
      FailedHas(Front(pending), ws, stale, f);
    }
  }

  lemma FailedLost(pending: seq<Flight>, ws: Socket, stale: bool)
    ensures LostLog(pending, Failed(pending, ws, stale), w => w == ws, stale)
  {
    FailedAre(pending, ws, stale);
    forall f | f in pending && f.ws == ws ensures Settlement(f.id, Dropped(ws, stale)) in Failed(pending, ws, stale) {
      FailedHas(pending, ws, stale, f);
    }
    hide Failed;
  }

  lemma DropLoses(s: State, run: string, ws: Socket, stale: bool)
    requires Inv(s, run)
    ensures LostSettled(s, Drop(s, ws, stale), w => w == ws, stale)
    ensures !Connected(Drop(s, ws, stale).clients, ws)
  {
    hide Inv, Kept, Failed, IdsOf, CallsOn, OtherClients, LostLog, Connected;
    var t := Drop(s, ws, stale);
    DropKeeps(s, run, ws, stale);
    KeptAre(s.pending, ws);
    FailedLost(s.pending, ws, stale);
    assert t.log[|s.log|..] == Failed(s.pending, ws, stale);
    OthersGone(s.clients, ws);
    TimersAre(t, run);
  }

  lemma OthersGone(clients: seq<Client>, ws: Socket)
    ensures !Connected(OtherClients(clients, ws), ws)
  {
    OthersAre(clients, ws);
    var t := OtherClients(clients, ws);
    assert forall i :: 0 <= i < |t| ==> t[i] in t;
  }

  lemma TimersAre(s: State, run: string)
    requires Inv(s, run)
    ensures s.timers == IdsOf(s.pending)
  {
  }

  // In every run, a connection that closes settles every call on its socket, and
  // only those.
  lemma CloseSettles(es: seq<Event>, run: string, ws: Socket)
    requires Feasible(es, run)
    ensures Feasible(es + [Closes(ws)], run)
    ensures var s, t := After(es, run), After(es + [Closes(ws)], run);
      LostSettled(s, t, w => w == ws, false) && !Connected(t.clients, ws)
  {
    RunInv(es, run);
    AfterNext(es, run, Closes(ws));
    CloseLoses(After(es, run), run, ws);
    hide After, Feasible, Inv, LostSettled, Connected;
  }

  lemma CloseLoses(s: State, run: string, ws: Socket)
    requires Inv(s, run)
    ensures LostSettled(s, Close(s, ws), w => w == ws, false) && !Connected(Close(s, ws).clients, ws)
  {
    if FindClient(s.clients, ws) < |s.clients| {
      DropLoses(s, run, ws, false);
    } else {
      NoCalls(s, run, ws);
      TimersAre(s, run);
      hide Inv, IdsOf;
    }
  }

  lemma NoCalls(s: State, run: string, ws: Socket)
    requires Inv(s, run) && FindClient(s.clients, ws) == |s.clients|
    ensures forall f :: f in s.pending ==> f.ws != ws
    ensures !Connected(s.clients, ws)
  {
    forall f | f in s.pending ensures f.ws != ws {
      var i :| 0 <= i < |s.pending| && s.pending[i] == f;
      assert Connected(s.clients, f.ws);
    }
  }

  ghost predicate Silent(clients: seq<Client>, now: int, ws: Socket) {
    exists c :: c in clients && c.ws == ws && now - c.lastSeenAt >= 45_000
  }

  lemma {:induction false} SweepLoses(s: State, run: string, snapshot: seq<Client>, now: int)
    requires Inv(s, run)
    ensures LostSettled(s, Sweep(s, snapshot, now), w => Silent(snapshot, now, w), true)
  {
    hide Inv, Drop, LostSettled, Silent, IsStale;
    SweepKeeps(s, run, snapshot, now);
    if snapshot == [] {
      TimersAre(s, run);
      NothingLost(s, now);
    } else {
      var front, c := Front(snapshot), Last(snapshot);
      var u := Sweep(s, front, now);
      SweepLoses(s, run, front, now);
      SweepKeeps(s, run, front, now);
      SilentSnoc(snapshot, now);
      if IsStale(c, now) {
        DropLoses(u, run, c.ws, true);
        LostTwice(s, u, Drop(u, c.ws, true), w => Silent(front, now, w), w => w == c.ws, w => Silent(snapshot, now, w));
      } else {
        LostSame(s, u, w => Silent(front, now, w), w => Silent(snapshot, now, w));
      }
    }
  }

  lemma NothingLost(s: State, now: int)
    requires s.timers == IdsOf(s.pending)
    ensures LostSettled(s, s, w => Silent([], now, w), true)
  {
    hide IdsOf;
    assert s.log[|s.log|..] == [];
  }

  lemma LostSame(s: State, t: State, a: Socket -> bool, b: Socket -> bool)
    requires LostSettled(s, t, a, true) && forall w :: a(w) <==> b(w)
    ensures LostSettled(s, t, b, true)
  {
    hide IdsOf;
  }

  lemma SilentSnoc(snapshot: seq<Client>, now: int)
    requires snapshot != []
    ensures forall w ::
      Silent(snapshot, now, w)
      <==> Silent(Front(snapshot), now, w) || (Last(snapshot).ws == w && IsStale(Last(snapshot), now))
  {
    assert snapshot == Front(snapshot) + [Last(snapshot)];
  }

  lemma LostTwice(s: State, u: State, t: State, a: Socket -> bool, b: Socket -> bool, both: Socket -> bool)
    requires LostSettled(s, u, a, true) && LostSettled(u, t, b, true)
    requires forall w :: both(w) <==> a(w) || b(w)
    ensures LostSettled(s, t, both, true)
  {
    hide IdsOf, LostLog;
    assert t.log[|s.log|..] == u.log[|s.log|..] + t.log[|u.log|..];
    LogTwice(s.pending, u.pending, u.log[|s.log|..], t.log[|u.log|..], a, b, both);
  }

  lemma LogTwice(p: seq<Flight>, q: seq<Flight>, first: seq<Settlement>, second: seq<Settlement>, a: Socket -> bool,
      b: Socket -> bool, both: Socket -> bool)
    requires LostLog(p, first, a, true) && LostLog(q, second, b, true)
    requires (forall w :: both(w) <==> a(w) || b(w)) && forall f :: f in q <==> f in p && !a(f.ws)
    ensures LostLog(p, first + second, both, true)
  {
    var log := first + second;
    assert forall x :: x in log <==> x in first || x in second;
  }

  // Looking at the clients drops the silent ones and settles every call on their
  // sockets, and only those.
  lemma LookSettles(es: seq<Event>, run: string, now: int)
    requires Feasible(es, run)
    ensures Feasible(es + [Looks(now)], run)
    ensures var s, t := After(es, run), After(es + [Looks(now)], run);
      && LostSettled(s, t, w => Silent(s.clients, now, w), true)
      && (forall c :: c in t.clients <==> c in s.clients && now - c.lastSeenAt < 45_000)
  {
    RunInv(es, run);
    AfterNext(es, run, Looks(now));
    var s := After(es, run);
    SweepLoses(s, run, s.clients, now);
    FreshStay(s, run, now);
    hide After, Feasible, Inv, LostSettled, Sweep, Silent;
  }

  // ---- Calls ----

  // A call that is sent waits with its timer armed, or, if the socket does not
  // take it, is settled at once.
  lemma CallWaits(s: State, run: string, id: CallId, browser: string, now: int, sendOk: bool)
    requires Inv(s, run) && id !in s.sent
    ensures var t := Call(s, id, browser, now, sendOk);
      id in t.sent ==>
        if sendOk then Flight(id, t.sent[id].ws) in t.pending && id in t.timers
        else id !in IdsOf(t.pending) && id !in t.timers && Settlement(id, SendFailed) in t.log
  {
    SweepKeeps(s, run, s.clients, now);
    hide Inv, Sweep, Choose, Settle, Launch;
    var u := Live(s, now);
    var target := Choose(u.clients, browser);
    if target.Chosen? {
      ChosenIs(u.clients, browser);
      LaunchKeeps(u, run, id, target.client, browser);
      LaunchWaits(u, run, id, target.client, browser);
    }
  }

  lemma LaunchWaits(s: State, run: string, id: CallId, c: Client, named: string)
    requires Inv(Launch(s, id, c, named), run)
    ensures var t := Launch(s, id, c, named);
      && Flight(id, t.sent[id].ws) in t.pending && id in t.timers && id in t.sent
      && SettledAlone(t, Settle(t, id, SendFailed), id, SendFailed)
  {
    var t := Launch(s, id, c, named);
    assert t.pending[|s.pending|] == Flight(id, c.ws);
    SettleAlone(t, run, |s.pending|, SendFailed);
    hide Inv, Settle;
  }

  // Why a call is refused: nobody is connected, nobody has the name given, or no
  // name is given and more than one could be meant.
  lemma RefusedBecause(alive: seq<Client>, browser: string)
    ensures Choose(alive, browser) == Refused(Disconnected) <==> alive == []
    ensures Choose(alive, browser) == Refused(UnknownBrowser)
      <==> alive != [] && browser != "" && forall c :: c in alive ==> c.browser != browser
    ensures Choose(alive, browser) == Refused(Ambiguous) <==> browser == "" && |alive| > 1
  {
    if browser != "" && alive != [] {
      var i := FindBrowser(alive, browser);
      if i < |alive| {
        assert alive[i] in alive;
      } else {
        assert forall c :: c in alive ==> exists k :: 0 <= k < |alive| && alive[k] == c;
      }
    }
  }
}
