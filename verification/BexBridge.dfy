// The vault side of the browser bridge: the maps its handlers change in place.
module BexBridge {
  import opened Basics
  import opened BridgeProtocol
  import opened BridgeSafety

  // ---- Deleting from a map while walking over it ----

  ghost predicate UniqueIds(pending: seq<Flight>) {
    forall i, j :: 0 <= i < j < |pending| ==> pending[i].id != pending[j].id
  }

  lemma DropStep(all: seq<Flight>, i: nat, ws: Socket, stale: bool)
    requires i < |all| && UniqueIds(all)
    ensures all[i].ws == ws
      ==> WithoutCall(Kept(all[..i], ws) + all[i..], all[i].id) == Kept(all[..i + 1], ws) + all[i + 1..]
    ensures all[i].ws != ws ==> Kept(all[..i], ws) + all[i..] == Kept(all[..i + 1], ws) + all[i + 1..]
    ensures Failed(all[..i + 1], ws, stale)
      == Failed(all[..i], ws, stale) + if all[i].ws == ws then [Settlement(all[i].id, Dropped(ws, stale))] else []
    ensures CallsOn(all[..i + 1], ws) == CallsOn(all[..i], ws) + if all[i].ws == ws then {all[i].id} else {}
  {
    assert Front(all[..i + 1]) == all[..i] && Last(all[..i + 1]) == all[i];
    OneMoreOn(all, i, ws);
    KeptOther(all, i, ws);
    hide CallsOn, UniqueIds, WithoutCall;
    var kept, f, rest := Kept(all[..i], ws), all[i], all[i + 1..];
    assert all[i..] == [f] + rest;
    SeqParts(kept, f, rest);
    DeleteMiddle(kept, f, rest);
  }

  lemma SeqParts(kept: seq<Flight>, f: Flight, rest: seq<Flight>)
    ensures kept + ([f] + rest) == kept + [f] + rest && kept + [] == kept
  {
  }

  lemma KeptOther(all: seq<Flight>, i: nat, ws: Socket)
    requires i < |all| && UniqueIds(all)
    ensures forall k :: 0 <= k < |Kept(all[..i], ws)| ==> Kept(all[..i], ws)[k].id != all[i].id
  {
    KeptAre(all[..i], ws);
    hide Kept;
    forall k | 0 <= k < |Kept(all[..i], ws)| ensures Kept(all[..i], ws)[k].id != all[i].id {
      assert Kept(all[..i], ws)[k] in all[..i];
    }
  }

  lemma DeleteMiddle(kept: seq<Flight>, f: Flight, rest: seq<Flight>)
    requires forall k :: 0 <= k < |kept| ==> kept[k].id != f.id
    ensures WithoutCall(kept + [f] + rest, f.id) == kept + rest
  {
    hide FindFlight;
    FindIs(kept + [f] + rest, f.id, |kept|);
  }

  lemma OneMoreOn(all: seq<Flight>, i: nat, ws: Socket)
    requires i < |all|
    ensures CallsOn(all[..i + 1], ws) == CallsOn(all[..i], ws) + if all[i].ws == ws then {all[i].id} else {}
  {
    var a, b := all[..i], all[..i + 1];
    forall x | x in CallsOn(b, ws) ensures x in CallsOn(a, ws) || (all[i].ws == ws && x == all[i].id) {
      var k :| 0 <= k < |b| && b[k].ws == ws && b[k].id == x;
      assert k == i || a[k] == b[k];
    }
    forall x | x in CallsOn(a, ws) ensures x in CallsOn(b, ws) {
      var k :| 0 <= k < |a| && a[k].ws == ws && a[k].id == x;
      assert b[k] == a[k];
    }
    assert b[i] == all[i];
  }

  lemma InvUnique(s: State, run: string)
    requires Inv(s, run)
    ensures UniqueIds(s.pending)
  {
    forall i: nat, j: nat | i < j < |s.pending| ensures s.pending[i].id != s.pending[j].id {
      AtMostOnce(s.pending, s.log, s.sent, i, j);
    }
  }

  lemma DeleteClient(s: State, run: string, ws: Socket)
    requires Inv(s, run)
    ensures var i := FindClient(s.clients, ws);
      OtherClients(s.clients, ws) == if i < |s.clients| then Without(s.clients, i) else s.clients
  {
    var i := FindClient(s.clients, ws);
    if i < |s.clients| {
      assert s.clients == s.clients[..i] + [s.clients[i]] + s.clients[i + 1..];
      hide Accounted, PendingSound, LogSound, SentSound, OtherClients;
      OthersSplit(s.clients[..i], s.clients[i], s.clients[i + 1..]);
    } else {
      OthersAll(s.clients, ws);
    }
  }

  // ---- The bridge ----

  class Bridge {
    const run: string
    var clients: seq<Client>
    var pending: seq<Flight>
    var timers: set<CallId>
    var nextId: nat
    // Every settling of a promise, and every call put on a socket.
    ghost var log: seq<Settlement>
    ghost var sent: map<CallId, Sent>

    ghost function View(): State
      reads this
    {
      State(clients, pending, timers, nextId, log, sent)
    }

    ghost predicate Valid()
      reads this
    {
      Inv(View(), run)
    }

    constructor (run: string)
      ensures this.run == run && View() == START
    {
      this.run := run;
      clients, pending, timers, nextId := [], [], {}, 1;
      log, sent := [], map[];
    }

    // Fail the calls in flight on a socket.
    method FailCalls(ws: Socket, stale: bool)
      requires UniqueIds(pending)
      modifies `pending, `timers, `log
      ensures pending == Kept(old(pending), ws) && timers == old(timers) - CallsOn(old(pending), ws)
      ensures log == old(log) + Failed(old(pending), ws, stale)
    {
      hide Kept, Failed, CallsOn, UniqueIds, WithoutCall;
      var all := pending;
      Ends(all, ws, stale, timers, log);
      for i := 0 to |all|
        invariant pending == Kept(all[..i], ws) + all[i..]
        invariant timers == old(timers) - CallsOn(all[..i], ws)
        invariant log == old(log) + Failed(all[..i], ws, stale)
      {
        var entry := all[i];
        DropStep(all, i, ws, stale);
        Regroup(old(timers), CallsOn(all[..i], ws), entry.id, old(log), Failed(all[..i], ws, stale),
          Settlement(entry.id, Dropped(ws, stale)));
        if entry.ws == ws {
          pending := WithoutCall(pending, entry.id);
          timers := timers - {entry.id};
          log := log + [Settlement(entry.id, Dropped(ws, stale))];
        }
      }
    }

    method DropClient(ws: Socket, stale: bool)
      requires Valid()
      modifies `clients, `pending, `timers, `log
      ensures View() == BridgeProtocol.Drop(old(View()), ws, stale) && Valid()
    {
      hide Inv, Kept, Failed, CallsOn, UniqueIds, OtherClients, Without, FindClient;
      InvUnique(View(), run);
      DropKeeps(View(), run, ws, stale);
      DeleteClient(View(), run, ws);
      var at := FindClient(clients, ws);
      if at < |clients| {
        clients := Without(clients, at);
      }
      FailCalls(ws, stale);
    }

    method LiveClients(now: int) returns (live: seq<Client>)
      requires Valid()
      modifies `clients, `pending, `timers, `log
      ensures View() == Live(old(View()), now) && Valid() && live == clients
    {
      hide Inv, BridgeProtocol.Drop;
      var snapshot := clients;
      for i := 0 to |snapshot|
        invariant View() == Sweep(old(View()), snapshot[..i], now) && Valid()
      {
        assert Front(snapshot[..i + 1]) == snapshot[..i] && Last(snapshot[..i + 1]) == snapshot[i];
        if now - snapshot[i].lastSeenAt >= CALL_STALE_MS {
          DropClient(snapshot[i].ws, true);
        }
      }
      assert snapshot[..|snapshot|] == snapshot;
      live := clients;
    }

    method OnBexOpen(ws: Socket, now: int) returns (browser: string)
      requires Valid()
      modifies `clients, `nextId
      ensures View() == Open(old(View()), ws, now, run) && Valid()
      ensures browser == BrowserId(old(nextId), run)
    {
      OpenKeeps(View(), run, ws, now);
      hide Inv, BrowserId;
      browser := BrowserId(nextId, run);
      nextId := nextId + 1;
      var i := FindClient(clients, ws);
      var c := Client(ws, browser, now, now);
      clients := if i < |clients| then clients[i := c] else clients + [c];
    }

    method OnBexClose(ws: Socket)
      requires Valid()
      modifies `clients, `pending, `timers, `log
      ensures View() == Close(old(View()), ws) && Valid()
    {
      hide Inv, BridgeProtocol.Drop;
      if FindClient(clients, ws) == |clients| {
        return;
      }
      DropClient(ws, false);
    }

    method OnBexMessage(ws: Socket, frame: Frame, now: int)
      requires Valid()
      modifies `clients, `pending, `timers, `log
      ensures View() == Receive(old(View()), ws, frame, now) && Valid()
    {
      ReceiveKeeps(View(), run, ws, frame, now);
      hide Inv, WithoutCall;
      var at := FindClient(clients, ws);
      if at < |clients| {
        clients := clients[at := clients[at].(lastSeenAt := now)];
      }
      if frame.NoReply? {
        return;
      }
      var i := FindFlight(pending, frame.id);
      if i == |pending| || pending[i].ws != ws {
        return;
      }
      pending := WithoutCall(pending, frame.id);
      timers := timers - {frame.id};
      log := log + [Settlement(frame.id, Answered(ws, frame.reply))];
    }

    method ResolveClient(browser: string, now: int) returns (target: Target)
      requires Valid()
      modifies `clients, `pending, `timers, `log
      ensures View() == Live(old(View()), now) && Valid()
      ensures target == Choose(clients, browser)
    {
      hide Inv, Live;
      var live := LiveClients(now);
      if |live| == 0 {
        return Refused(Disconnected);
      }
      if browser != "" {
        var i := FindBrowser(live, browser);
        return if i < |live| then Chosen(live[i]) else Refused(UnknownBrowser);
      }
      if |live| > 1 {
        return Refused(Ambiguous);
      }
      return Chosen(live[0]);
    }

    // id is the call's random id, and sendOk says whether the socket took the frame.
    method CallBex(id: CallId, browser: string, now: int, sendOk: bool) returns (target: Target)
      requires Valid() && id !in sent
      modifies `clients, `pending, `timers, `log, `sent
      ensures View() == Call(old(View()), id, browser, now, sendOk) && Valid()
      ensures target == Choose(clients, browser)
    {
      CallKeeps(View(), run, id, browser, now, sendOk);
      hide Inv, Live, Choose, WithoutCall;
      target := ResolveClient(browser, now);
      if target.Refused? {
        return;
      }
      var c := target.client;
      timers := timers + {id};
      pending := pending + [Flight(id, c.ws)];
      sent := sent[id := Sent(c.ws, c.browser, browser)];
      if !sendOk {
        pending := WithoutCall(pending, id);
        timers := timers - {id};
        log := log + [Settlement(id, SendFailed)];
      }
    }

    // The callback of an armed timer.
    method OnTimeout(id: CallId)
      requires Valid() && id in timers
      modifies `pending, `timers, `log
      ensures View() == Settle(old(View()), id, TimedOut) && Valid()
    {
      FireKeeps(View(), run, id);
      hide Inv, WithoutCall;
      pending := WithoutCall(pending, id);
      timers := timers - {id};
      log := log + [Settlement(id, TimedOut)];
    }

    method BridgeConnected(now: int) returns (connected: bool)
      requires Valid()
      modifies `clients, `pending, `timers, `log
      ensures View() == Live(old(View()), now) && Valid()
      ensures connected <==> clients != []
    {
      hide Inv, Live;
      var live := LiveClients(now);
      connected := |live| > 0;
    }
  }

  lemma Ends(all: seq<Flight>, ws: Socket, stale: bool, timers: set<CallId>, log: seq<Settlement>)
    ensures Kept(all[..0], ws) + all[0..] == all && log + Failed(all[..0], ws, stale) == log
      && timers - CallsOn(all[..0], ws) == timers
    ensures all[..|all|] == all && Kept(all, ws) + all[|all|..] == Kept(all, ws)
  {
    assert CallsOn(all[..0], ws) == {};
  }

  lemma Regroup(timers: set<CallId>, on: set<CallId>, id: CallId, log: seq<Settlement>, failed: seq<Settlement>,
      x: Settlement)
    ensures timers - on - {id} == timers - (on + {id}) && timers - (on + {}) == timers - on
    ensures log + failed + [x] == log + (failed + [x]) && log + (failed + []) == log + failed
  {
    assert failed + [] == failed && on + {} == on;
  }
}
