/** How far apart the attempts of a poll session are, and that servers take turns, as long as
    nothing disturbs the session. */
module SntpSpacing {
  import opened Words
  import opened Backoff
  import opened Rotation
  import opened SntpMachine
  import opened SntpRuns

  /** When the next attempt may follow an entry: the receive timeout after a request, the retry
      timeout after a failed attempt, the announced delay after a retry, the update delay
      after an accepted reply. */
  function RestUntil(e: Entry): nat {
    match e
    case Sent(_, at, _, _) => at + SNTP_RECV_TIMEOUT
    case NoSocket(_, at) => at + SNTP_RECV_TIMEOUT
    case OutOfMemory(_, at) => at + SNTP_RETRY_TIMEOUT
    case NoAddress(_, at) => at + SNTP_RETRY_TIMEOUT
    case Accepted(_, at, _) => at + SNTP_UPDATE_DELAY
    case Retried(at, delay) => at + delay
    case _ => 0
  }

  /** An attempt at `time` would follow every entry at the required distance. */
  ghost predicate Rested(log: seq<Entry>, time: int) {
    forall k :: 0 <= k < |log| ==> RestUntil(log[k]) <= time
  }

  ghost predicate Spaced(log: seq<Entry>) {
    forall j, k :: 0 <= j < k < |log| && IsAttempt(log[k]) ==> RestUntil(log[j]) <= log[k].at
  }

  /** The invariant that ties everything outstanding to what has happened: no timer falls due,
      and no DNS query is outstanding, before every earlier entry has rested. */
  ghost predicate Paced(c: Client) {
    && Spaced(c.log) && Rested(c.log, c.now + SNTP_UPDATE_DELAY)
    && (forall t :: t in c.timers ==> Rested(c.log, t.deadline))
    && (c.queries != multiset{} ==> Rested(c.log, c.now))
    && SNTP_RETRY_TIMEOUT <= c.retry <= SNTP_RETRY_TIMEOUT_MAX
  }

  ghost predicate Quiet(c: Client) {
    && Valid(c) && Spaced(c.log) && Rested(c.log, c.now)
    && c.timers == multiset{} && c.queries == multiset{}
    && SNTP_RETRY_TIMEOUT <= c.retry <= SNTP_RETRY_TIMEOUT_MAX
  }

  lemma ArmPaced(c: Client, h: Handler, delay: nat)
    requires Quiet(c)
    ensures Paced(Arm(c, h, delay))
  {
    assert Arm(c, h, delay).timers == multiset{Timer(h, c.now + delay)};
  }

  /** An attempt made now, and a timer for the next no earlier than the attempt has rested. */
  lemma AttemptPaced(c: Client, d: Client, e: Entry, h: Handler, delay: nat)
    requires Quiet(c) && IsAttempt(e) && e.at == c.now && RestUntil(e) <= c.now + delay <= c.now + SNTP_UPDATE_DELAY
    requires d.log == c.log + [e] && d.now == c.now && d.retry == c.retry
    requires d.timers == multiset{Timer(h, c.now + delay)} && d.queries == multiset{}
    ensures Paced(d)
  {
  }

  lemma SendPaced(c: Client, addr: Addr, env: Env)
    requires Quiet(c)
    ensures Paced(SendRequest(c, addr, env))
  {
    var d := SendRequest(c, addr, env);
    if env.memOk {
      assert d.timers == multiset{Timer(TryNextTimer, c.now + SNTP_RECV_TIMEOUT)};
      AttemptPaced(c, d, SendTo(c, addr, TransmitStamp(c.opts, env)), TryNextTimer, SNTP_RECV_TIMEOUT);
    } else {
      assert d.timers == multiset{Timer(RequestTimer, c.now + SNTP_RETRY_TIMEOUT)};
      AttemptPaced(c, d, OutOfMemory(c.current, c.now), RequestTimer, SNTP_RETRY_TIMEOUT);
    }
  }

  lemma NoAddressPaced(c: Client)
    requires Quiet(c)
    ensures Paced(NoServerAddress(c))
  {
    var d := NoServerAddress(c);
    assert d.timers == multiset{Timer(TryNextTimer, c.now + SNTP_RETRY_TIMEOUT)};
    AttemptPaced(c, d, NoAddress(c.current, c.now), TryNextTimer, SNTP_RETRY_TIMEOUT);
  }

  lemma RequestPaced(c: Client, env: Env)
    requires Quiet(c)
    ensures Paced(Request(c, env))
  {
    hide SendRequest, NoServerAddress;
    NoAddressPaced(c);
    if c.servers[c.current].name.Some? {
      var cleared := SetAddr(c, ANY_ADDR);
      NoAddressPaced(cleared);
      if env.dns.Resolved? {
        SendPaced(SetAddr(cleared, env.dns.addr), env.dns.addr, env);
      }
    } else {
      SendPaced(c, c.servers[c.current].addr, env);
    }
  }

  lemma TryNextPaced(c: Client, env: Env)
    requires Quiet(c)
    ensures Paced(TryNextServer(c, env))
  {
    match Search(|c.servers|, Usable(c.servers), c.current, 1)
    case Some(next) => RequestPaced(MoveTo(c, next), env);
    case None =>
      var d := Retry(c);
      DoubledOrKept(c.retry, SNTP_RETRY_TIMEOUT_MAX);
      assert d.timers == multiset{Timer(RequestTimer, c.now + c.retry)};
      assert d.log == c.log + [Retried(c.now, c.retry)];
  }

  lemma AcceptPaced(c: Client, p: Packet, env: Env)
    requires Valid(c) && c.mode == Poll && Paced(c) && Activities(c) == 1 && c.queries == multiset{}
    requires Classify(c, p) == Good
    ensures Paced(Recv(c, p, env))
  {
    hide Untimeout, ReceivedTime;
    SoleTimerCancelled(c);
    var d := Recv(c, p, env);
    assert d.timers == multiset{Timer(RequestTimer, c.now + SNTP_UPDATE_DELAY)};
    assert d.log == c.log + [Accepted(c.current, c.now, ReceivedTime(c, p, env))];
    assert Rested(d.log, c.now + SNTP_UPDATE_DELAY);
  }

  lemma FirePaced(c: Client, t: Timer, env: Env)
    requires Enabled(c, Fire(t, env)) && Activities(c) == 1 && Paced(c)
    ensures Paced(Step(c, Fire(t, env)))
  {
    hide Request, TryNextServer;
    OneTimer(c, t);
    assert c.timers - multiset{t} == multiset{};
    var fired := c.(now := env.at, timers := multiset{});
    RequestPaced(fired, env);
    TryNextPaced(fired, env);
  }

  lemma AnswerPaced(c: Client, q: Query, answer: Option<Addr>, env: Env)
    requires Enabled(c, DnsReply(q, answer, env)) && Activities(c) == 1 && Paced(c)
    ensures Paced(Step(c, DnsReply(q, answer, env)))
  {
    hide SendRequest, TryNextServer;
    OneQuery(c, q);
    assert c.queries - multiset{q} == multiset{};
    var asked := c.(now := env.at, queries := multiset{});
    TryNextPaced(asked, env);
    if answer.Some? {
      SendPaced(SetAddr(asked, answer.value), answer.value, env);
    }
  }

  lemma StepPaced(c: Client, e: Event)
    requires Enabled(c, e) && InSession(e) && c.mode == Poll && Activities(c) == 1 && Paced(c) && !Disrupts(c, e)
    ensures Paced(Step(c, e))
  {
    match e
    case Fire(t, env) => FirePaced(c, t, env);
    case DnsReply(q, answer, env) => AnswerPaced(c, q, answer, env);
    case Receive(p, env) =>
      hide Request, TryNextServer, Reschedule;
      var d := c.(now := env.at);
      assert Classify(d, p) == Classify(c, p) && Paced(d);
      if Classify(c, p) == Good {
        AcceptPaced(d, p, env);
      }
  }

  lemma OpeningPaced(c: Client)
    requires Opening(c)
    ensures Paced(c)
  {
    hide Request;
    var c0: Client, delay: Option<nat>, env: Env :| Idle(c0) && c0.mode == Poll && c == Init(c0, delay, env);
    var up := PutName(c0, 0, Some(SNTP_SERVER_ADDRESS)).(running := true);
    assert Open(up).log == [Opened];
    RequestPaced(Open(up), env);
    if delay.Some? {
      ArmPaced(Open(up), RequestTimer, delay.value);
    }
  }

  // ----- Taking turns -----

  /** A request without a reply yet, or a server without an address. */
  predicate Unanswered(e: Entry) { e.Sent? || e.NoSocket? || e.NoAddress? }

  /** After a turn without an answer comes a reply, a move to another server, or a retry. */
  ghost predicate Turns(log: seq<Entry>) {
    forall k :: 0 <= k < |log| - 1 && Unanswered(log[k]) ==>
      log[k + 1].Accepted? || log[k + 1].Moved? || log[k + 1].Retried?
  }

  /** While the last turn is unanswered, all that is pending is the move to the next server. */
  ghost predicate InTurn(c: Client) {
    && Valid(c) && Turns(c.log)
    && (c.log != [] && Unanswered(c.log[|c.log| - 1]) ==>
          c.queries == multiset{} && forall t :: t in c.timers ==> t.handler == TryNextTimer)
  }

  /** Free to ask: nothing pending and the last turn settled. */
  ghost predicate Settled(c: Client) {
    && Valid(c) && Turns(c.log) && c.timers == multiset{} && c.queries == multiset{}
    && (c.log != [] ==> !Unanswered(c.log[|c.log| - 1]))
  }

  lemma SendInTurn(c: Client, addr: Addr, env: Env)
    requires Settled(c)
    ensures InTurn(SendRequest(c, addr, env))
  {
  }

  lemma NoAddressInTurn(c: Client)
    requires Settled(c)
    ensures InTurn(NoServerAddress(c))
  {
  }

  lemma RequestInTurn(c: Client, env: Env)
    requires Settled(c)
    ensures InTurn(Request(c, env))
  {
    hide SendRequest, NoServerAddress;
    NoAddressInTurn(c);
    if c.servers[c.current].name.Some? {
      NoAddressInTurn(SetAddr(c, ANY_ADDR));
      if env.dns.Resolved? {
        SendInTurn(SetAddr(SetAddr(c, ANY_ADDR), env.dns.addr), env.dns.addr, env);
      }
    } else {
      SendInTurn(c, c.servers[c.current].addr, env);
    }
  }

  lemma TryNextInTurn(c: Client, env: Env)
    requires Valid(c) && Turns(c.log) && c.timers == multiset{} && c.queries == multiset{}
    ensures InTurn(TryNextServer(c, env))
  {
    hide Request;
    match Search(|c.servers|, Usable(c.servers), c.current, 1)
    case Some(next) => RequestInTurn(MoveTo(c, next), env);
    case None =>
  }

  lemma FireInTurn(c: Client, t: Timer, env: Env)
    requires Enabled(c, Fire(t, env)) && Activities(c) == 1 && InTurn(c)
    ensures InTurn(Step(c, Fire(t, env)))
  {
    hide Request, TryNextServer;
    OneTimer(c, t);
    assert c.timers - multiset{t} == multiset{};
    var fired := c.(now := env.at, timers := multiset{});
    if t.handler == RequestTimer {
      RequestInTurn(fired, env);
    } else {
      TryNextInTurn(fired, env);
    }
  }

  lemma AnswerInTurn(c: Client, q: Query, answer: Option<Addr>, env: Env)
    requires Enabled(c, DnsReply(q, answer, env)) && Activities(c) == 1 && InTurn(c)
    ensures InTurn(Step(c, DnsReply(q, answer, env)))
  {
    hide SendRequest, TryNextServer;
    OneQuery(c, q);
    assert c.queries - multiset{q} == multiset{};
    var asked := c.(now := env.at, queries := multiset{});
    match answer
    case None => TryNextInTurn(asked, env);
    case Some(addr) => SendInTurn(SetAddr(asked, addr), addr, env);
  }

  lemma AcceptInTurn(c: Client, p: Packet, env: Env)
    requires Valid(c) && c.mode == Poll && InTurn(c) && Classify(c, p) == Good
    ensures InTurn(Recv(c, p, env))
  {
    hide Untimeout, ReceivedTime, Classify;
    var d := Recv(c, p, env);
    assert d.log == c.log + [Accepted(c.current, c.now, ReceivedTime(c, p, env))];
  }

  lemma StepInTurn(c: Client, e: Event)
    requires Enabled(c, e) && InSession(e) && c.mode == Poll && Activities(c) == 1 && !Disrupts(c, e) && InTurn(c)
    ensures InTurn(Step(c, e))
  {
    match e
    case Fire(t, env) => FireInTurn(c, t, env);
    case DnsReply(q, answer, env) => AnswerInTurn(c, q, answer, env);
    case Receive(p, env) =>
      hide TryNextServer, Reschedule, Classify, ReceivedTime;
      var d := c.(now := env.at);
      SameClassification(c, d, p);
      if Classify(c, p) == Good {
        AcceptInTurn(d, p, env);
      }
  }

  lemma OpeningInTurn(c: Client)
    requires Opening(c)
    ensures InTurn(c)
  {
    hide Request;
    var c0: Client, delay: Option<nat>, env: Env :| Idle(c0) && c0.mode == Poll && c == Init(c0, delay, env);
    var up := PutName(c0, 0, Some(SNTP_SERVER_ADDRESS)).(running := true);
    assert Open(up).log == [Opened];
    RequestInTurn(Open(up), env);
  }

  // ----- Undisturbed sessions -----

  /** One activity, at the right time and in the right turn. */
  ghost predicate Orderly(c: Client) { c.mode == Poll && Activities(c) == 1 && Paced(c) && InTurn(c) }

  lemma {:induction false} AlwaysOrderly(states: seq<Client>, events: seq<Event>, i: nat)
    requires IsSession(states, events) && Undisturbed(states, events) && i < |states|
    requires Orderly(states[0]) && states[0].running
    ensures Orderly(states[i]) && states[i].running
  {
    hide Step, Disrupts, Orderly;
    if i > 0 {
      AlwaysOrderly(states, events, i - 1);
      var c, e := states[i - 1], events[i - 1];
      if InSession(e) {
        OrderlyStep(c, e);
      } else {
        SettingsFrame(c, e);
        SettingsOrderly(c, e);
      }
    }
  }

  lemma OrderlyStep(c: Client, e: Event)
    requires Enabled(c, e) && InSession(e) && !Disrupts(c, e) && Orderly(c)
    ensures Orderly(Step(c, e)) && Step(c, e).running == c.running
  {
    hide Step, Disrupts, Paced, InTurn, Activities;
    SessionFrame(c, e);
    SingleStep(c, e);
    StepPaced(c, e);
    StepInTurn(c, e);
  }

  lemma SettingsOrderly(c: Client, e: Event)
    requires Enabled(c, e) && Orderly(c) && Step(c, e) == c.(now := e.env.at, servers := Step(c, e).servers)
    requires |Step(c, e).servers| == |c.servers|
    ensures Orderly(Step(c, e))
  {
    hide Step;
  }

  lemma OpeningOrderly(c: Client)
    requires Opening(c)
    ensures Orderly(c) && c.running
  {
    hide Opening, Paced, InTurn, Activities;
    OpeningFacts(c);
    OpeningPaced(c);
    OpeningInTurn(c);
  }

  /** Section 10 of RFC 4330: in an undisturbed poll session, whatever the delays, losses,
      DNS failures and allocation failures, any two requests are at least 15 seconds apart, and a
      request is at least an hour after any reply accepted before it, and no earlier than
      any backed-off retry allows. */
  lemma RequestSpacing(states: seq<Client>, events: seq<Event>, i: nat, j: nat, k: nat)
    requires IsSession(states, events) && Opening(states[0]) && Undisturbed(states, events) && i < |states|
    requires j < k < |states[i].log| && IsAttempt(states[i].log[k])
    ensures IsAttempt(states[i].log[j]) ==> states[i].log[k].at - states[i].log[j].at >= 15000
    ensures states[i].log[j].Accepted? ==> states[i].log[k].at - states[i].log[j].at >= 3600000
    ensures states[i].log[j].Retried? ==> states[i].log[k].at - states[i].log[j].at >= states[i].log[j].delay
  {
    hide Opening, Disrupts, Step;
    OpeningOrderly(states[0]);
    AlwaysOrderly(states, events, i);
  }

  /** In an undisturbed session no server is asked again, and none without an address is
      tried again, before a reply, a move to the next usable server, or a backed-off retry. */
  lemma TakingTurns(states: seq<Client>, events: seq<Event>, i: nat)
    requires IsSession(states, events) && Opening(states[0]) && Undisturbed(states, events) && i < |states|
    ensures InTurn(states[i])
  {
    hide Opening, Disrupts, Step;
    OpeningOrderly(states[0]);
    AlwaysOrderly(states, events, i);
  }
}
