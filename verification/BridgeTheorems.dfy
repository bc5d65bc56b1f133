// What the browser bridge promises over every run.
module BridgeTheorems {
  import opened Basics
  import opened Strings
  import opened BridgeProtocol
  import opened BridgeSafety

  function After(es: seq<Event>, run: string): State {
    if es == [] then START else Step(After(Front(es), run), Last(es), run)
  }

  predicate Feasible(es: seq<Event>, run: string) {
    es == [] || (Feasible(Front(es), run) && Enabled(After(Front(es), run), Last(es)))
  }

  lemma {:induction false} RunInv(es: seq<Event>, run: string)
    requires Feasible(es, run)
    ensures Inv(After(es, run), run)
  {
    if es == [] {
      StartInv(run);
    } else {
      hide Inv, Step;
      RunInv(Front(es), run);
      StepKeeps(After(Front(es), run), run, Last(es));
    }
  }

  lemma StartInv(run: string)
    ensures Inv(START, run)
  {
    assert PendingIds([]) == [] && SettledIds([]) == [];
  }

  // ---- Settled exactly once ----

  // In every run each call put on a socket is either waiting, once, or settled, once.
  lemma ExactlyOnce(es: seq<Event>, run: string, id: CallId)
    requires Feasible(es, run)
    ensures var s := After(es, run);
      multiset(PendingIds(s.pending))[id] + multiset(SettledIds(s.log))[id] == if id in s.sent then 1 else 0
  {
    RunInv(es, run);
    hide After, Feasible;
    var s := After(es, run);
    CountOnce(s.pending, s.log, s.sent, id);
  }

  lemma CountOnce(pending: seq<Flight>, log: seq<Settlement>, sent: map<CallId, Sent>, id: CallId)
    requires Accounted(pending, log, sent)
    ensures multiset(PendingIds(pending))[id] + multiset(SettledIds(log))[id] == if id in sent then 1 else 0
  {
    var a, b := multiset(PendingIds(pending)), multiset(SettledIds(log));
    assert (a + b)[id] == a[id] + b[id];
    assert multiset(sent.Keys)[id] == if id in sent.Keys then 1 else 0;
    hide PendingIds, SettledIds;
  }

  lemma {:induction false} SweepHistory(s: State, snapshot: seq<Client>, now: int)
    ensures s.log <= Sweep(s, snapshot, now).log && Sweep(s, snapshot, now).sent == s.sent
    ensures Sweep(s, snapshot, now).nextId == s.nextId
    ensures forall i :: |s.log| <= i < |Sweep(s, snapshot, now).log| ==>
      var o := Sweep(s, snapshot, now).log[i].outcome;
      o.Dropped? && o.stale && exists c :: c in snapshot && c.ws == o.ws && IsStale(c, now)
  {
    hide OtherClients, Kept, CallsOn;
    if snapshot != [] {
      var t, c := Sweep(s, Front(snapshot), now), Last(snapshot);
      SweepHistory(s, Front(snapshot), now);
      if IsStale(c, now) {
        FailedAre(t.pending, c.ws, true);
        var u := Drop(t, c.ws, true);
        forall i | |s.log| <= i < |u.log| ensures u.log[i].outcome.Dropped? && u.log[i].outcome.stale
          && exists d :: d in snapshot && d.ws == u.log[i].outcome.ws && IsStale(d, now)
        {
          if i < |t.log| {
            assert u.log[i] == t.log[i];
          } else {
            assert u.log[i] in Failed(t.pending, c.ws, true);
            assert c in snapshot;
          }
        }
      }
    }
  }

  // Why a call can be settled by an event: its own answer, on this socket; its
  // own timeout or failed send; or the loss of the socket.
  ghost predicate Because(s: State, e: Event, x: Settlement) {
    match e
    case Opens(_, _) => false
    case Closes(ws) => x.outcome == Dropped(ws, false)
    case Receives(ws, frame, _) => frame.ReplyTo? && x == Settlement(frame.id, Answered(ws, frame.reply))
    case Calls(id, _, now, sendOk) => (x == Settlement(id, SendFailed) && !sendOk) || StaleDrop(s, now, x)
    case Fires(id) => x == Settlement(id, TimedOut)
    case Looks(now) => StaleDrop(s, now, x)
  }

  ghost predicate StaleDrop(s: State, now: int, x: Settlement) {
    x.outcome.Dropped? && x.outcome.stale && exists c :: c in s.clients && c.ws == x.outcome.ws && IsStale(c, now)
  }

  // A settlement is final, and each new one has its cause in the event.
  lemma SettledBecause(s: State, run: string, e: Event)
    requires Inv(s, run) && Enabled(s, e)
    ensures s.log <= Step(s, e, run).log
    ensures forall i :: |s.log| <= i < |Step(s, e, run).log| ==> Because(s, e, Step(s, e, run).log[i])
  {
    hide Inv, Open, Touch, WithoutCall, Sweep, Kept, OtherClients, CallsOn, Choose, Launch;
    match e
    case Opens(ws, now) => OpenFrame(s, ws, now, run);
    case Closes(ws) => FailedAre(s.pending, ws, false);
      hide Failed;
    case Receives(ws, frame, now) =>
    case Calls(id, browser, now, sendOk) =>
      SweepHistory(s, s.clients, now);
      LaunchFrame(Live(s, now), id, browser);
    case Fires(id) =>
    case Looks(now) => SweepHistory(s, s.clients, now);
  }

  lemma OpenFrame(s: State, ws: Socket, now: int, run: string)
    ensures var t := Open(s, ws, now, run);
      t.log == s.log && t.sent == s.sent && t.pending == s.pending && t.timers == s.timers
  {
  }

  lemma LaunchFrame(s: State, id: CallId, browser: string)
    ensures var target := Choose(s.clients, browser);
      target.Chosen? ==> Launch(s, id, target.client, browser).log == s.log
  {
    hide Choose;
  }

  // ---- No call is left hanging ----

  // A waiting call always has its timer armed, and the timer ends the wait.
  lemma NeverHangs(es: seq<Event>, run: string, i: nat)
    requires Feasible(es, run) && i < |After(es, run).pending|
    ensures var s, id := After(es, run), After(es, run).pending[i].id;
      && Feasible(es + [Fires(id)], run)
      && var t := After(es + [Fires(id)], run);
      && id !in IdsOf(t.pending) && id !in t.timers && t.log == s.log + [Settlement(id, TimedOut)]
  {
    RunInv(es, run);
    var s, id := After(es, run), After(es, run).pending[i].id;
    assert Front(es + [Fires(id)]) == es && Last(es + [Fires(id)]) == Fires(id);
    SettleIds(s.pending, s.log, s.sent, i);
    assert WithoutCall(s.pending, id) == Without(s.pending, i);
    hide After, Accounted, PendingSound, LogSound, ClientsSound, SentSound;
  }

  // Each waiting call is on the socket of a client that is connected.
  lemma PendingConnected(es: seq<Event>, run: string, i: nat)
    requires Feasible(es, run) && i < |After(es, run).pending|
    ensures var s := After(es, run);
      var f := s.pending[i];
      f.id in s.timers && f.id in s.sent && f.ws == s.sent[f.id].ws && Connected(s.clients, f.ws)
  {
    RunInv(es, run);
    hide After, Feasible, Connected;
  }

  // A frame from any socket but the one asked changes no call.
  lemma ForeignFrameIgnored(s: State, ws: Socket, frame: Frame, now: int)
    requires frame.ReplyTo? ==> forall f :: f in s.pending && f.id == frame.id ==> f.ws != ws
    ensures var t := Receive(s, ws, frame, now);
      t.pending == s.pending && t.timers == s.timers && t.log == s.log && t.sent == s.sent
  {
    hide Touch, Settle;
  }

  // ---- Routing ----

  lemma {:induction false} FreshAre(clients: seq<Client>, now: int)
    ensures forall c :: c in FreshOnly(clients, now) <==> c in clients && !IsStale(c, now)
  {
    if clients != [] {
      FreshAre(Front(clients), now);
      assert clients == Front(clients) + [Last(clients)];
    }
  }

  // Sweeping the first k clients leaves the alive ones of them, and the rest.
  lemma {:induction false} SweepClients(s: State, k: nat, now: int)
    requires k <= |s.clients| && forall i, j :: 0 <= i < j < |s.clients| ==> s.clients[i].ws != s.clients[j].ws
    ensures Sweep(s, s.clients[..k], now).clients == FreshOnly(s.clients[..k], now) + s.clients[k..]
  {
    var prefix := s.clients[..k];
    if k > 0 {
      SweepClients(s, k - 1, now);
      assert Front(prefix) == s.clients[..k - 1] && Last(prefix) == s.clients[k - 1];
      var c, rest, alive := s.clients[k - 1], s.clients[k..], FreshOnly(s.clients[..k - 1], now);
      assert s.clients[k - 1..] == [c] + rest;
      assert alive + ([c] + rest) == alive + [c] + rest;
      if IsStale(c, now) {
        FreshAre(s.clients[..k - 1], now);
        OthersSplit(alive, c, rest);
        assert alive + [] == alive;
      }
    }
  }

  lemma LiveAreFresh(s: State, run: string, now: int)
    requires Inv(s, run)
    ensures Live(s, now).clients == FreshOnly(s.clients, now)
  {
    SweepClients(s, |s.clients|, now);
    assert s.clients[..|s.clients|] == s.clients && FreshOnly(s.clients, now) + [] == FreshOnly(s.clients, now);
  }

  // The clients a call could be for: the named one, or the only one.
  ghost predicate Meant(alive: seq<Client>, browser: string, c: Client) {
    c in alive && if browser != "" then c.browser == browser else alive == [c]
  }

  // A call is put on a socket exactly when one alive client is meant, and then
  // on that client's socket; otherwise nothing is sent.
  lemma CallRouting(s: State, run: string, id: CallId, browser: string, now: int, sendOk: bool)
    requires Inv(s, run) && id !in s.sent
    ensures var alive, t := FreshOnly(s.clients, now), Call(s, id, browser, now, sendOk);
      && (id in t.sent <==> exists c :: Meant(alive, browser, c))
      && (forall c :: Meant(alive, browser, c) ==> t.sent == s.sent[id := Sent(c.ws, c.browser, browser)])
      && (id !in t.sent ==> t.sent == s.sent)
  {
    LiveAreFresh(s, run, now);
    SweepKeeps(s, run, s.clients, now);
    SweepHistory(s, s.clients, now);
    ChosenIffMeant(FreshOnly(s.clients, now), Live(s, now).nextId, run, browser);
    CallSent(s, id, browser, now, sendOk);
    hide Choose, Inv, FreshOnly, Meant, Live, Call;
    var target := Choose(Live(s, now).clients, browser);
    if target.Chosen? {
      assert Meant(FreshOnly(s.clients, now), browser, target.client);
    }
  }

  lemma CallSent(s: State, id: CallId, browser: string, now: int, sendOk: bool)
    ensures Call(s, id, browser, now, sendOk).sent == match Choose(Live(s, now).clients, browser)
      case Chosen(c) => Live(s, now).sent[id := Sent(c.ws, c.browser, browser)]
      case Refused(_) => Live(s, now).sent
  {
    hide Choose, Live, WithoutCall;
  }

  lemma ChosenIffMeant(alive: seq<Client>, nextId: nat, run: string, browser: string)
    requires ClientsSound(alive, nextId, run)
    ensures forall c :: Meant(alive, browser, c) <==> Choose(alive, browser) == Chosen(c)
  {
    hide BrowserId;
  }

  // An id of another run of the vault names nobody.
  lemma OtherRunsUnknown(s: State, run: string, other: string, n: nat)
    requires Inv(s, run) && run != other
    ensures Choose(s.clients, BrowserId(n, other)).Refused?
  {
    var i := FindBrowser(s.clients, BrowserId(n, other));
    if i < |s.clients| {
      var m :| 1 <= m < s.nextId && s.clients[i].browser == BrowserId(m, run);
      BrowserIdsDiffer(m, run, n, other);
      assert false;
    }
  }

  // ---- Browser ids ----

  lemma NextIdGrows(s: State, run: string, e: Event)
    ensures Step(s, e, run).nextId == if e.Opens? then s.nextId + 1 else s.nextId
  {
    hide Sweep, Choose, OtherClients, Kept, Failed;
    match e
    case Calls(id, browser, now, sendOk) => SweepHistory(s, s.clients, now);
    case Looks(now) => SweepHistory(s, s.clients, now);
    case _ =>
  }

  lemma {:induction false} NextIdMonotone(es: seq<Event>, run: string, i: nat, j: nat)
    requires i <= j <= |es|
    ensures After(es[..i], run).nextId <= After(es[..j], run).nextId
    ensures i < j && es[i].Opens? ==> After(es[..i], run).nextId < After(es[..j], run).nextId
    decreases j
  {
    hide Step;
    if i < j {
      assert Front(es[..j]) == es[..j - 1] && Last(es[..j]) == es[j - 1];
      NextIdMonotone(es, run, i, j - 1);
      NextIdGrows(After(es[..j - 1], run), run, es[j - 1]);
    }
  }

  // Two connections of a run never get the same browser id.
  lemma BrowserIdsFresh(es: seq<Event>, run: string, i: nat, j: nat)
    requires i < j < |es| && es[i].Opens? && es[j].Opens?
    ensures BrowserId(After(es[..i], run).nextId, run) != BrowserId(After(es[..j], run).nextId, run)
  {
    NextIdMonotone(es, run, i, j);
    if BrowserId(After(es[..i], run).nextId, run) == BrowserId(After(es[..j], run).nextId, run) {
      BrowserIdsDiffer(After(es[..i], run).nextId, run, After(es[..j], run).nextId, run);
    }
  }
}
