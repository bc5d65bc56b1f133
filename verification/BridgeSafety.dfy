// What every event of the bridge keeps.
module BridgeSafety {
  import opened Basics
  import opened Strings
  import opened BridgeProtocol

  // ---- Lists of calls ----

  lemma AtMostOnce(pending: seq<Flight>, log: seq<Settlement>, sent: map<CallId, Sent>, i: nat, j: nat)
    requires Accounted(pending, log, sent) && i < j < |pending|
    ensures pending[i].id != pending[j].id
  {
    var ids := PendingIds(pending);
    TwiceIn(ids, i, j);
    assert multiset(sent.Keys)[ids[j]] <= 1;
  }

  lemma TwiceIn(ids: seq<CallId>, i: nat, j: nat)
    requires i < j < |ids|
    ensures ids[i] == ids[j] ==> multiset(ids)[ids[j]] >= 2
  {
    assert ids == ids[..j] + [ids[j]] + ids[j + 1..];
    assert ids[..j][i] == ids[i];
  }

  lemma OneOut(ids: seq<CallId>, i: nat)
    requires i < |ids|
    ensures multiset(ids) == multiset(ids[..i] + ids[i + 1..]) + multiset{ids[i]}
  {
    assert ids == ids[..i] + [ids[i]] + ids[i + 1..];
  }

  lemma PendingSnoc(pending: seq<Flight>, f: Flight)
    ensures PendingIds(pending + [f]) == PendingIds(pending) + [f.id]
  {
  }

  lemma SettledSnoc(log: seq<Settlement>, x: Settlement)
    ensures SettledIds(log + [x]) == SettledIds(log) + [x.id]
  {
  }

  lemma SettledAppend(log: seq<Settlement>, more: seq<Settlement>)
    ensures SettledIds(log + more) == SettledIds(log) + SettledIds(more)
  {
  }

  lemma PendingWithout(pending: seq<Flight>, i: nat)
    requires i < |pending|
    ensures PendingIds(Without(pending, i)) == PendingIds(pending)[..i] + PendingIds(pending)[i + 1..]
    ensures PendingIds(pending)[i] == pending[i].id
  {
  }

  lemma SettleAccounts(pending: seq<Flight>, log: seq<Settlement>, sent: map<CallId, Sent>, i: nat, outcome: Outcome)
    requires Accounted(pending, log, sent) && i < |pending|
    ensures Accounted(Without(pending, i), log + [Settlement(pending[i].id, outcome)], sent)
  {
    OneOut(PendingIds(pending), i);
    PendingWithout(pending, i);
    SettledSnoc(log, Settlement(pending[i].id, outcome));
    hide PendingIds, SettledIds, Without;
  }

  lemma SettleIds(pending: seq<Flight>, log: seq<Settlement>, sent: map<CallId, Sent>, i: nat)
    requires Accounted(pending, log, sent) && i < |pending|
    ensures IdsOf(Without(pending, i)) == IdsOf(pending) - {pending[i].id}
    ensures FindFlight(pending, pending[i].id) == i
  {
    var rest, id := Without(pending, i), pending[i].id;
    hide Accounted, FindFlight;
    forall j | 0 <= j < |pending| && j != i ensures pending[j].id != id {
      if i < j {
        AtMostOnce(pending, log, sent, i, j);
      } else {
        AtMostOnce(pending, log, sent, j, i);
      }
    }
    FindIs(pending, id, i);
    OtherIds(pending, i);
  }

  lemma OtherIds(pending: seq<Flight>, i: nat)
    requires i < |pending| && forall j :: 0 <= j < |pending| && j != i ==> pending[j].id != pending[i].id
    ensures IdsOf(Without(pending, i)) == IdsOf(pending) - {pending[i].id}
  {
    var rest, id := Without(pending, i), pending[i].id;
    forall x | x in IdsOf(rest) ensures x in IdsOf(pending) - {id} {
      var k :| 0 <= k < |rest| && rest[k].id == x;
      assert rest[k] == pending[if k < i then k else k + 1];
    }
    forall x | x in IdsOf(pending) - {id} ensures x in IdsOf(rest) {
      var k :| 0 <= k < |pending| && pending[k].id == x;
      assert rest[if k < i then k else k - 1] == pending[k];
    }
  }

  lemma {:induction false} FindIs(pending: seq<Flight>, id: CallId, i: nat)
    requires i < |pending| && pending[i].id == id && forall k :: 0 <= k < i ==> pending[k].id != id
    ensures FindFlight(pending, id) == i
  {
    if i > 0 {
      FindIs(pending[1..], id, i - 1);
    }
  }

  lemma {:induction false} DropAccounts(pending: seq<Flight>, ws: Socket, stale: bool)
    ensures multiset(PendingIds(pending))
      == multiset(PendingIds(Kept(pending, ws))) + multiset(SettledIds(Failed(pending, ws, stale)))
  {
    if pending != [] {
      DropAccounts(Front(pending), ws, stale);
      var f := Last(pending);
      assert pending == Front(pending) + [f];
      PendingSnoc(Front(pending), f);
      KeptFailedSnoc(Front(pending), f, ws, stale);
      hide PendingIds, SettledIds, Kept, Failed;
    }
  }

  lemma KeptFailedSnoc(front: seq<Flight>, f: Flight, ws: Socket, stale: bool)
    ensures f.ws == ws ==> Kept(front + [f], ws) == Kept(front, ws)
    ensures f.ws == ws ==> SettledIds(Failed(front + [f], ws, stale)) == SettledIds(Failed(front, ws, stale)) + [f.id]
    ensures f.ws != ws ==> Failed(front + [f], ws, stale) == Failed(front, ws, stale)
    ensures f.ws != ws ==> PendingIds(Kept(front + [f], ws)) == PendingIds(Kept(front, ws)) + [f.id]
  {
    assert Front(front + [f]) == front;
    PendingSnoc(Kept(front, ws), f);
    SettledSnoc(Failed(front, ws, stale), Settlement(f.id, Dropped(ws, stale)));
    hide PendingIds, SettledIds;
  }

  lemma {:induction false} KeptAre(pending: seq<Flight>, ws: Socket)
    ensures forall f :: f in Kept(pending, ws) <==> f in pending && f.ws != ws
  {
    if pending != [] {
      KeptAre(Front(pending), ws);
      assert pending == Front(pending) + [Last(pending)];
    }
  }

  lemma {:induction false} FailedAre(pending: seq<Flight>, ws: Socket, stale: bool)
    ensures forall x ::
      x in Failed(pending, ws, stale) ==> x.outcome == Dropped(ws, stale) && Flight(x.id, ws) in pending
  {
    if pending != [] {
      FailedAre(Front(pending), ws, stale);
      assert pending == Front(pending) + [Last(pending)];
    }
  }

  lemma DropIds(pending: seq<Flight>, log: seq<Settlement>, sent: map<CallId, Sent>, ws: Socket)
    requires Accounted(pending, log, sent)
    ensures IdsOf(Kept(pending, ws)) == IdsOf(pending) - CallsOn(pending, ws)
  {
    KeptAre(pending, ws);
    hide Accounted, Kept;
    forall x ensures x in IdsOf(Kept(pending, ws)) <==> x in IdsOf(pending) - CallsOn(pending, ws) {
      if x in IdsOf(Kept(pending, ws)) {
        var k :| 0 <= k < |Kept(pending, ws)| && Kept(pending, ws)[k].id == x;
        assert Kept(pending, ws)[k] in pending;
        var i :| 0 <= i < |pending| && pending[i] == Kept(pending, ws)[k];
        forall j | 0 <= j < |pending| && pending[j].id == x ensures pending[j].ws != ws {
          if i < j {
            AtMostOnce(pending, log, sent, i, j);
          } else if j < i {
            AtMostOnce(pending, log, sent, j, i);
          }
        }
      }
      if x in IdsOf(pending) - CallsOn(pending, ws) {
        var i :| 0 <= i < |pending| && pending[i].id == x;
        assert pending[i] in Kept(pending, ws);
      }
    }
  }

  // ---- Clients ----

  // The text of an id shows which connection of which run it names.
  lemma BrowserIdsDiffer(n: nat, run: string, m: nat, run': string)
    requires BrowserId(n, run) == BrowserId(m, run')
    ensures n == m && run == run'
  {
    var s, a, b := BrowserId(n, run), Numeral(n), Numeral(m);
    DashAt(n, run);
    DashAt(m, run');
    assert s[1..|a| + 1] == a && s[1..|b| + 1] == b;
    assert s[|a| + 2..] == run && s[|b| + 2..] == run';
    NumeralValue(n);
    NumeralValue(m);
  }

  lemma DashAt(n: nat, run: string)
    ensures IndexOf(BrowserId(n, run), '-') == |Numeral(n)| + 1
  {
    var s, a := BrowserId(n, run), Numeral(n);
    forall i | 0 <= i < |a| + 1 ensures s[i] != '-' {
      assert i > 0 ==> s[i] == a[i - 1] && IsDigit(a[i - 1]);
    }
    IndexIs(s, '-', |a| + 1);
  }

  lemma {:induction false} OthersAre(clients: seq<Client>, ws: Socket)
    ensures forall c :: c in OtherClients(clients, ws) <==> c in clients && c.ws != ws
  {
    if clients != [] {
      OthersAre(Front(clients), ws);
      assert clients == Front(clients) + [Last(clients)];
    }
  }

  lemma {:induction false} OthersSplit(a: seq<Client>, c: Client, b: seq<Client>)
    requires forall d :: d in a || d in b ==> d.ws != c.ws
    ensures OtherClients(a + [c] + b, c.ws) == a + b
    decreases |b|
  {
    if b == [] {
      assert a + [c] + b == a + [c] && Front(a + [c]) == a && a + [] == a;
      OthersAll(a, c.ws);
    } else {
      assert Front(a + [c] + b) == a + [c] + Front(b) && Last(a + [c] + b) == Last(b);
      assert b == Front(b) + [Last(b)];
      OthersSplit(a, c, Front(b));
      assert a + Front(b) + [Last(b)] == a + b;
    }
  }

  lemma {:induction false} OthersAll(a: seq<Client>, ws: Socket)
    requires forall d :: d in a ==> d.ws != ws
    ensures OtherClients(a, ws) == a
  {
    if a != [] {
      assert a == Front(a) + [Last(a)];
      OthersAll(Front(a), ws);
    }
  }

  lemma OthersConnected(clients: seq<Client>, ws: Socket, w: Socket)
    requires Connected(clients, w) && w != ws
    ensures Connected(OtherClients(clients, ws), w)
  {
    OthersAre(clients, ws);
    var i :| 0 <= i < |clients| && clients[i].ws == w;
    assert clients[i] in OtherClients(clients, ws);
  }

  lemma {:induction false} OthersSound(clients: seq<Client>, nextId: nat, run: string, ws: Socket)
    requires ClientsSound(clients, nextId, run)
    ensures ClientsSound(OtherClients(clients, ws), nextId, run)
  {
    hide BrowserId;
    if clients != [] {
      var front, c := Front(clients), Last(clients);
      OthersSound(front, nextId, run, ws);
      OthersAre(front, ws);
      var others := OtherClients(front, ws);
      forall i | 0 <= i < |others| ensures others[i].ws != c.ws && others[i].browser != c.browser {
        assert others[i] in front;
      }
    }
  }

  // ---- Every event keeps the invariant ----

  lemma DropKeeps(s: State, run: string, ws: Socket, stale: bool)
    requires Inv(s, run)
    ensures Inv(Drop(s, ws, stale), run)
  {
    hide ClientsSound, SentSound;
    var t := Drop(s, ws, stale);
    OthersSound(s.clients, s.nextId, run, ws);
    DropIds(s.pending, s.log, s.sent, ws);
    DropAccounts(s.pending, ws, stale);
    SettledAppend(s.log, Failed(s.pending, ws, stale));
    DropSound(s, run, ws, stale);
    hide PendingSound, LogSound, IdsOf, PendingIds, SettledIds, Kept, Failed, OtherClients, CallsOn;
  }

  lemma DropSound(s: State, run: string, ws: Socket, stale: bool)
    requires PendingSound(s.pending, s.sent, s.clients) && LogSound(s.log, s.sent)
    ensures PendingSound(Kept(s.pending, ws), s.sent, OtherClients(s.clients, ws))
    ensures LogSound(s.log + Failed(s.pending, ws, stale), s.sent)
  {
    KeptAre(s.pending, ws);
    FailedAre(s.pending, ws, stale);
    var kept, failed := Kept(s.pending, ws), Failed(s.pending, ws, stale);
    hide Kept, Failed, Connected, OtherClients;
    forall i | 0 <= i < |kept|
      ensures kept[i].id in s.sent && kept[i].ws == s.sent[kept[i].id].ws
      && Connected(OtherClients(s.clients, ws), kept[i].ws) {
      assert kept[i] in s.pending && kept[i].ws != ws;
      OthersConnected(s.clients, ws, kept[i].ws);
    }
    forall i | 0 <= i < |failed|
      ensures failed[i].id in s.sent && failed[i].outcome == Dropped(ws, stale) && ws == s.sent[failed[i].id].ws {
      assert failed[i] in failed;
    }
  }

  lemma {:induction false} SweepKeeps(s: State, run: string, snapshot: seq<Client>, now: int)
    requires Inv(s, run)
    ensures Inv(Sweep(s, snapshot, now), run)
    ensures Sweep(s, snapshot, now).sent == s.sent && Sweep(s, snapshot, now).nextId == s.nextId
  {
    hide Inv, Drop;
    if snapshot != [] {
      SweepKeeps(s, run, Front(snapshot), now);
      DropKeeps(Sweep(s, Front(snapshot), now), run, Last(snapshot).ws, true);
      DropFrame(Sweep(s, Front(snapshot), now), Last(snapshot).ws, true);
    }
  }

  lemma DropFrame(s: State, ws: Socket, stale: bool)
    ensures Drop(s, ws, stale).sent == s.sent && Drop(s, ws, stale).nextId == s.nextId
      && s.log <= Drop(s, ws, stale).log
  {
  }

  lemma SettleKeeps(s: State, run: string, i: nat, outcome: Outcome)
    requires Inv(s, run) && i < |s.pending|
    requires outcome.Answered? ==> outcome.who == s.pending[i].ws
    requires outcome.Dropped? ==> outcome.ws == s.pending[i].ws
    ensures Inv(Settle(s, s.pending[i].id, outcome), run)
  {
    var id := s.pending[i].id;
    SettleAccounts(s.pending, s.log, s.sent, i, outcome);
    SettleIds(s.pending, s.log, s.sent, i);
    assert WithoutCall(s.pending, id) == Without(s.pending, i);
    SettleSound(s, i, outcome);
    hide Accounted, ClientsSound, SentSound, IdsOf, FindFlight, WithoutCall, Without, LogSound, PendingSound;
  }

  lemma SettleSound(s: State, i: nat, outcome: Outcome)
    requires i < |s.pending| && PendingSound(s.pending, s.sent, s.clients) && LogSound(s.log, s.sent)
    requires outcome.Answered? ==> outcome.who == s.pending[i].ws
    requires outcome.Dropped? ==> outcome.ws == s.pending[i].ws
    ensures PendingSound(Without(s.pending, i), s.sent, s.clients)
    ensures LogSound(s.log + [Settlement(s.pending[i].id, outcome)], s.sent)
  {
    hide Connected;
    var rest := Without(s.pending, i);
    forall k | 0 <= k < |rest| ensures rest[k] == s.pending[if k < i then k else k + 1] {
    }
  }

  lemma OpenKeeps(s: State, run: string, ws: Socket, now: int)
    requires Inv(s, run)
    ensures Inv(Open(s, ws, now, run), run)
  {
    hide Accounted, LogSound, SentSound, IdsOf, BrowserId, ClientsSound, PendingSound;
    NewBrowser(s.clients, s.nextId, run);
    OpenSound(s.clients, s.nextId, run, ws, now);
    OpenConnected(s, ws, now, run);
  }

  lemma NewBrowser(clients: seq<Client>, nextId: nat, run: string)
    requires ClientsSound(clients, nextId, run)
    ensures forall k :: 0 <= k < |clients| ==> clients[k].browser != BrowserId(nextId, run)
  {
    hide BrowserId;
    forall k | 0 <= k < |clients| ensures clients[k].browser != BrowserId(nextId, run) {
      var n :| 1 <= n < nextId && clients[k].browser == BrowserId(n, run);
      if BrowserId(n, run) == BrowserId(nextId, run) {
        BrowserIdsDiffer(n, run, nextId, run);
      }
    }
  }

  lemma OpenConnected(s: State, ws: Socket, now: int, run: string)
    requires PendingSound(s.pending, s.sent, s.clients)
    ensures PendingSound(s.pending, s.sent, Open(s, ws, now, run).clients)
  {
    hide BrowserId;
    var t := Open(s, ws, now, run);
    forall w | Connected(s.clients, w) ensures Connected(t.clients, w) {
      var k :| 0 <= k < |s.clients| && s.clients[k].ws == w;
      assert t.clients[k].ws == w;
    }
    hide Connected, Open;
  }

  lemma OpenSound(clients: seq<Client>, nextId: nat, run: string, ws: Socket, now: int)
    requires ClientsSound(clients, nextId, run)
    requires forall k :: 0 <= k < |clients| ==> clients[k].browser != BrowserId(nextId, run)
    ensures var i, c := FindClient(clients, ws), Client(ws, BrowserId(nextId, run), now, now);
      ClientsSound(if i < |clients| then clients[i := c] else clients + [c], nextId + 1, run)
  {
    hide BrowserId;
    var i, c := FindClient(clients, ws), Client(ws, BrowserId(nextId, run), now, now);
    var after := if i < |clients| then clients[i := c] else clients + [c];
    forall k | 0 <= k < |after| ensures exists n :: 1 <= n < nextId + 1 && after[k].browser == BrowserId(n, run) {
      if after[k] == c {
        assert after[k].browser == BrowserId(nextId, run);
      } else {
        var n :| 1 <= n < nextId && clients[k].browser == BrowserId(n, run);
      }
    }
  }

  lemma TouchKeeps(s: State, run: string, ws: Socket, now: int)
    requires Inv(s, run)
    ensures Inv(s.(clients := Touch(s.clients, ws, now)), run)
  {
    hide Accounted, LogSound, SentSound, IdsOf, BrowserId;
    var after := Touch(s.clients, ws, now);
    assert |after| == |s.clients|
      && forall k :: 0 <= k < |after| ==> after[k].ws == s.clients[k].ws && after[k].browser == s.clients[k].browser;
    forall w | Connected(s.clients, w) ensures Connected(after, w) {
      var k :| 0 <= k < |s.clients| && s.clients[k].ws == w;
      assert after[k].ws == w;
    }
    hide Connected, Touch;
  }

  lemma ReceiveKeeps(s: State, run: string, ws: Socket, frame: Frame, now: int)
    requires Inv(s, run)
    ensures Inv(Receive(s, ws, frame, now), run)
  {
    hide Inv, Touch, Settle;
    TouchKeeps(s, run, ws, now);
    var t := s.(clients := Touch(s.clients, ws, now));
    if frame.ReplyTo? {
      var i := FindFlight(t.pending, frame.id);
      if i < |t.pending| && t.pending[i].ws == ws {
        SettleKeeps(t, run, i, Answered(ws, frame.reply));
      }
    }
  }

  lemma FireKeeps(s: State, run: string, id: CallId)
    requires Inv(s, run) && id in s.timers
    ensures Inv(Settle(s, id, TimedOut), run)
  {
    var i :| 0 <= i < |s.pending| && s.pending[i].id == id;
    hide Inv, Settle;
    SettleKeeps(s, run, i, TimedOut);
  }

  lemma LaunchKeeps(s: State, run: string, id: CallId, c: Client, named: string)
    requires Inv(s, run) && id !in s.sent && c in s.clients && (named == "" || named == c.browser)
    ensures Inv(Launch(s, id, c, named), run)
  {
    var t := Launch(s, id, c, named);
    LaunchAccounts(s, id, c, named);
    assert Connected(s.clients, c.ws);
    hide Accounted, ClientsSound, Connected;
    assert t.timers == IdsOf(t.pending) by {
      forall x ensures x in IdsOf(t.pending) <==> x in IdsOf(s.pending) + {id} {
        if x in IdsOf(s.pending) {
          var i :| 0 <= i < |s.pending| && s.pending[i].id == x;
          assert t.pending[i].id == x;
        }
        assert t.pending[|s.pending|].id == id;
      }
    }
    hide IdsOf;
  }

  lemma LaunchAccounts(s: State, id: CallId, c: Client, named: string)
    requires Accounted(s.pending, s.log, s.sent) && id !in s.sent
    ensures var t := Launch(s, id, c, named); Accounted(t.pending, t.log, t.sent)
  {
    PendingSnoc(s.pending, Flight(id, c.ws));
    var before, after := s.sent.Keys, s.sent[id := Sent(c.ws, c.browser, named)].Keys;
    assert after == before + {id};
    OneMore(before, id);
    hide PendingIds, SettledIds;
  }

  lemma OneMore(a: set<CallId>, id: CallId)
    requires id !in a
    ensures multiset(a + {id}) == multiset(a) + multiset{id}
  {
  }

  lemma ChosenIs(clients: seq<Client>, browser: string)
    requires Choose(clients, browser).Chosen?
    ensures Choose(clients, browser).client in clients
      && (browser == "" || browser == Choose(clients, browser).client.browser)
  {
  }

  lemma CallKeeps(s: State, run: string, id: CallId, browser: string, now: int, sendOk: bool)
    requires Inv(s, run) && id !in s.sent
    ensures Inv(Call(s, id, browser, now, sendOk), run)
  {
    hide Inv, Sweep, Settle, Choose;
    SweepKeeps(s, run, s.clients, now);
    var t := Live(s, now);
    var target := Choose(t.clients, browser);
    if target.Chosen? {
      ChosenIs(t.clients, browser);
      LaunchKeeps(t, run, id, target.client, browser);
      if !sendOk {
        var u := Launch(t, id, target.client, browser);
        assert u.pending[|t.pending|].id == id;
        SettleKeeps(u, run, |t.pending|, SendFailed);
      }
    }
  }

  lemma StepKeeps(s: State, run: string, e: Event)
    requires Inv(s, run) && Enabled(s, e)
    ensures Inv(Step(s, e, run), run)
  {
    hide Inv, Open, Drop, Receive, Call, Settle, Sweep;
    match e
    case Opens(ws, now) => OpenKeeps(s, run, ws, now);
    case Closes(ws) => DropKeeps(s, run, ws, false);
    case Receives(ws, frame, now) => ReceiveKeeps(s, run, ws, frame, now);
    case Calls(id, browser, now, sendOk) => CallKeeps(s, run, id, browser, now, sendOk);
    case Fires(id) => FireKeeps(s, run, id);
    case Looks(now) => SweepKeeps(s, run, s.clients, now);
  }
}
