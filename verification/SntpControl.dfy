/** What the application's calls do to a client: which fields they change and, above all, which they leave alone. */
module SntpControl {
  import opened Words
  import opened Rotation
  import opened SntpMachine
  import opened SntpRuns
  import opened SntpTimers

  /** Only the names, addresses or registers of the server table differ. */
  predicate SameButTable(c: Client, d: Client) {
    d == c.(servers := d.servers) && |d.servers| == |c.servers|
  }

  /** A start of a running client, or of one in listen-only mode, names the first server, opens the socket, and
      neither sends nor schedules anything. */
  lemma StartWithoutPolling(c: Client, delay: Option<nat>, env: Env)
    requires Valid(c) && (c.running || c.mode == ListenOnly)
    ensures var d := Init(c, delay, env);
            && SameButTable(c.(running := true), d)
            && d.servers[0].name == Some("pool.ntp.org") && d.servers[0].addr == c.servers[0].addr
            && d.servers[0].reachability == c.servers[0].reachability
            && forall j :: 1 <= j < |c.servers| ==> d.servers[j] == c.servers[j]
  {
  }

  /** A stop clears every register, the history and the socket. Names, addresses, the current server, the retry timeout and
      DNS queries stay, and of the timers at most one of each kind goes. */
  lemma StopEffect(c: Client)
    requires c.running
    ensures var d := Stop(c);
            && d == c.(servers := d.servers, timers := d.timers, running := false, log := [])
            && |d.servers| == |c.servers| && d.timers <= c.timers && |d.timers| == |c.timers| - Kinds(c.timers)
            && forall j :: 0 <= j < |c.servers| ==> d.servers[j] == Server(c.servers[j].name, c.servers[j].addr, 0)
  {
    hide Kinds;
    UntimeoutRemoves(c.timers);
    UntimeoutLess(c.timers, RequestTimer);
    UntimeoutLess(Untimeout(c.timers, RequestTimer), TryNextTimer);
    hide Untimeout;
  }

  lemma UntimeoutLess(ts: multiset<Timer>, h: Handler)
    ensures Untimeout(ts, h) <= ts
  {
  }

  /** Stopping is final and idempotent: a second stop, and a stop before any start, change nothing. */
  lemma StopAgain(c: Client)
    ensures Stop(Stop(c)) == Stop(c) && !Stop(c).running
  {
  }

  /** The settings change one entry of the table, or nothing when the index is too large. Setting an address takes the name
      away, setting a name leaves the address. */
  lemma SettingsEffect(c: Client, e: Event)
    requires Enabled(c, e) && (e.SetServer? || e.SetServerName?)
    ensures var d := Step(c, e);
            && SameButTable(c.(now := e.env.at), d)
            && (forall j :: 0 <= j < |c.servers| && j != e.index ==> d.servers[j] == c.servers[j])
            && (e.index < |c.servers| ==>
                  var s := c.servers[e.index];
                  d.servers[e.index] ==
                  match e
                  case SetServer(_, Some(addr), _) => Server(None, addr, s.reachability)
                  case SetServer(_, None, _) => Server(None, 0, s.reachability)
                  case _ => Server(e.name, s.addr, s.reachability))
  {
  }

  /** Round trip: with a start-up delay, a client that is stopped before its first request and started again is as it was
      after its first start. */
  lemma StopAndStart(c: Client, delay: nat, env: Env)
    requires Valid(c) && !c.running && c.mode == Poll && c.timers == multiset{} && c.log == []
    requires forall s :: s in c.servers ==> s.reachability == 0
    ensures Init(Stop(Init(c, Some(delay), env)), Some(delay), env) == Init(c, Some(delay), env)
  {
    var d := Init(c, Some(delay), env);
    assert d.timers == multiset{Timer(RequestTimer, c.now + delay)};
    StopsDelayed(d, Timer(RequestTimer, c.now + delay));
    hide Stop, Untimeout;
    assert PutName(d, 0, Some(SNTP_SERVER_ADDRESS)).servers == d.servers;
  }

  lemma StopsDelayed(c: Client, t: Timer)
    requires c.running && c.timers == multiset{t} && forall s :: s in c.servers ==> s.reachability == 0
    ensures Stop(c) == c.(timers := multiset{}, running := false, log := [])
  {
    hide Kinds, Untimeout;
    UntimeoutRemoves(c.timers);
    KindsOfOne(t);
    assert Unheard(c.servers) == c.servers;
  }

  lemma KindsOfOne(t: Timer)
    ensures Kinds(multiset{t}) == 1
  {
    assert t in multiset{t};
    assert IsPending(multiset{t}, t.handler);
  }
}
