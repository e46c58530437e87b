/** Claims about whole runs of the SNTP client: how much is outstanding, where DNS answers go,
    and what a stop leaves behind. */
module SntpRuns {
  import opened Words
  import opened Backoff
  import opened Rotation
  import opened SntpMachine

  // ----- Outstanding activities -----

  /** Pending timers and unanswered DNS queries. */
  ghost function Activities(c: Client): nat { |c.timers| + |c.queries| }

  lemma SendAddsOne(c: Client, addr: Addr, env: Env)
    requires Valid(c)
    ensures Activities(SendRequest(c, addr, env)) == Activities(c) + 1
    ensures SendRequest(c, addr, env).queries == c.queries
  {
  }

  lemma RequestAddsOne(c: Client, env: Env)
    requires Valid(c)
    ensures Activities(Request(c, env)) == Activities(c) + 1
    ensures |c.queries| <= |Request(c, env).queries|
  {
    if c.servers[c.current].name.Some? && env.dns.Resolved? {
      SendAddsOne(SetAddr(SetAddr(c, ANY_ADDR), env.dns.addr), env.dns.addr, env);
    } else {
      SendAddsOne(c, c.servers[c.current].addr, env);
    }
  }

  lemma TryNextAddsOne(c: Client, env: Env)
    requires Valid(c)
    ensures Activities(TryNextServer(c, env)) == Activities(c) + 1
  {
    match Search(|c.servers|, Usable(c.servers), c.current, 1)
    case Some(next) => RequestAddsOne(MoveTo(c, next), env);
    case None =>
  }

  /** How many of the two kinds of timer are pending. */
  ghost function Kinds(ts: multiset<Timer>): nat {
    (if IsPending(ts, TryNextTimer) then 1 else 0) + (if IsPending(ts, RequestTimer) then 1 else 0)
  }

  lemma UntimeoutRemoves(ts: multiset<Timer>)
    ensures |Untimeout(Untimeout(ts, TryNextTimer), RequestTimer)| == |ts| - Kinds(ts)
    ensures |Untimeout(Untimeout(ts, RequestTimer), TryNextTimer)| == |ts| - Kinds(ts)
  {
    OtherHandlerStays(ts, TryNextTimer, RequestTimer);
    OtherHandlerStays(ts, RequestTimer, TryNextTimer);
  }

  lemma OtherHandlerStays(ts: multiset<Timer>, h: Handler, other: Handler)
    requires h != other
    ensures IsPending(Untimeout(ts, h), other) <==> IsPending(ts, other)
  {
    hide Untimeout;
    if IsPending(ts, h) {
      var gone :| gone in ts && gone.handler == h && Untimeout(ts, h) == ts - multiset{gone};
      forall t: Timer | t.handler == other
        ensures t in Untimeout(ts, h) <==> t in ts
      {
        assert multiset{gone}[t] == 0;
      }
    }
  }

  /** The two events that change how much is outstanding: a Kiss-of-Death, because the
      receive timeout stays armed, and an accepted reply, which cancels at most one timer
      of each kind and no DNS query. */
  ghost function Effect(c: Client, p: Packet): int {
    if c.mode == ListenOnly then 0
    else match Classify(c, p)
      case KissOfDeath => 1
      case Good => 1 - Kinds(c.timers)
      case _ => 0
  }

  lemma RescheduleActivities(c: Client)
    ensures Activities(Reschedule(c)) == Activities(c) - Kinds(c.timers) + 1
  {
    hide Untimeout, Kinds;
    UntimeoutRemoves(c.timers);
  }

  lemma RecvActivities(c: Client, p: Packet, env: Env)
    requires Valid(c)
    ensures Activities(Recv(c, p, env)) == Activities(c) + Effect(c, p)
  {
    hide Reschedule, TryNextServer, ReceivedTime, Classify, Kinds;
    match Classify(c, p)
    case Good => RescheduleActivities(Hear(c, ReceivedTime(c, p, env)));
    case KissOfDeath => TryNextAddsOne(c, env);
    case _ =>
  }

  lemma StepActivities(c: Client, e: Event)
    requires Enabled(c, e) && InSession(e)
    ensures Activities(Step(c, e)) == Activities(c) + if e.Receive? then Effect(c, e.packet) else 0
  {
    hide Request, SendRequest, TryNextServer, Recv, IsPending;
    var d := c.(now := e.env.at);
    match e
    case Fire(t, env) =>
      RequestAddsOne(d.(timers := c.timers - multiset{t}), env);
      TryNextAddsOne(d.(timers := c.timers - multiset{t}), env);
    case DnsReply(q, answer, env) =>
      var asked := d.(queries := c.queries - multiset{q});
      TryNextAddsOne(asked, env);
      if answer.Some? {
        SendAddsOne(SetAddr(asked, answer.value), answer.value, env);
      }
    case Receive(p, env) =>
      RecvActivities(d, p, env);
      assert Classify(d, p) == Classify(c, p);
  }

  lemma StartActivities(c: Client, delay: Option<nat>, env: Env)
    requires Valid(c)
    ensures var d := Init(c, delay, env);
            Activities(d) == Activities(c) + if c.mode == Poll && !c.running then 1 else 0
  {
    RequestAddsOne(Open(PutName(c, 0, Some(SNTP_SERVER_ADDRESS)).(running := true)), env);
  }

  // ----- Never stalling -----

  ghost predicate NotStalled(c: Client) { c.running && c.mode == Poll ==> Activities(c) >= 1 }

  lemma StepKeepsGoing(c: Client, e: Event)
    requires Enabled(c, e) && NotStalled(c)
    ensures NotStalled(Step(c, e))
  {
    match e
    case StartUp(delay, env) =>
      StartActivities(c.(now := env.at), delay, env);
      InitFrame(c.(now := env.at), delay, env);
    case Receive(p, _) =>
      SessionFrame(c, e);
      StepActivities(c, e);
      if Effect(c, p) < 0 {
        TwoTimers(c.timers);
      }
    case _ =>
      if InSession(e) {
        SessionFrame(c, e);
        StepActivities(c, e);
      }
  }

  lemma TwoTimers(ts: multiset<Timer>)
    requires IsPending(ts, TryNextTimer) && IsPending(ts, RequestTimer)
    ensures |ts| >= 2
  {
    var t :| t in ts && t.handler == TryNextTimer;
    var u :| u in ts && u.handler == RequestTimer;
    assert multiset{t, u} <= ts;
    assert ts == multiset{t, u} + (ts - multiset{t, u});
  }

  /** With every event allowed, starts, stops and new settings included, a running poll
      client always has a timer pending or a DNS query outstanding. */
  lemma {:induction false} NeverStalls(states: seq<Client>, events: seq<Event>, i: nat)
    requires IsRun(states, events) && !states[0].running && i < |states|
    ensures NotStalled(states[i])
  {
    if i > 0 {
      NeverStalls(states, events, i - 1);
      StepKeepsGoing(states[i - 1], events[i - 1]);
    }
  }

  /** While a client is in listen-only mode nothing is added to what it has pending, and only a stop
      takes anything away. */
  lemma {:induction false} ListenOnlyActivities(states: seq<Client>, events: seq<Event>, i: nat)
    requires IsRun(states, events) && i < |states|
    requires forall k :: 0 <= k < |states| ==> states[k].mode == ListenOnly
    ensures Activities(states[i]) <= Activities(states[0])
    ensures (forall k :: 0 <= k < i ==> !events[k].Halt?) ==> Activities(states[i]) == Activities(states[0])
  {
    hide Step, Activities;
    if i > 0 {
      ListenOnlyActivities(states, events, i - 1);
      StepListenOnly(states[i - 1], events[i - 1]);
    }
  }

  lemma StepListenOnly(c: Client, e: Event)
    requires Enabled(c, e) && c.mode == ListenOnly
    ensures Activities(Step(c, e)) <= Activities(c)
    ensures !e.Halt? ==> Activities(Step(c, e)) == Activities(c)
  {
    hide Activities, Untimeout, Init, Stop;
    var d := c.(now := e.env.at);
    SameActivities(c, d);
    if InSession(e) {
      StepActivities(c, e);
    } else if e.StartUp? {
      StartActivities(d, e.delay, e.env);
    } else if e.Halt? {
      StopLess(d);
    } else {
      SameActivities(c, Step(c, e));
    }
  }

  lemma StopLess(c: Client)
    ensures Activities(Stop(c)) <= Activities(c)
  {
    hide Untimeout;
    UntimeoutRemoves(c.timers);
  }

  predicate IsAttempt(e: Entry) { e.Sent? || e.NoSocket? || e.OutOfMemory? || e.NoAddress? }

  ghost predicate NoAttempts(log: seq<Entry>) { forall e :: e in log ==> !IsAttempt(e) }

  /** In listen-only mode a client with nothing pending attempts nothing and sets no timer. */
  lemma {:induction false} ListenOnlyIsSilent(states: seq<Client>, events: seq<Event>, i: nat)
    requires IsRun(states, events) && i < |states|
    requires forall k :: 0 <= k < |states| ==> states[k].mode == ListenOnly
    requires Activities(states[0]) == 0 && NoAttempts(states[0].log)
    ensures Activities(states[i]) == 0 && NoAttempts(states[i].log)
  {
    hide Step, Enabled;
    if i > 0 {
      ListenOnlyIsSilent(states, events, i - 1);
      ListenOnlyActivities(states, events, i);
      QuietStep(states[i - 1], events[i - 1]);
    }
  }

  lemma QuietStep(c: Client, e: Event)
    requires Enabled(c, e) && c.mode == ListenOnly && Activities(c) == 0 && NoAttempts(c.log)
    ensures NoAttempts(Step(c, e).log)
  {
    hide ReceivedTime;
    assert c.timers == multiset{} && c.queries == multiset{};
  }

  // ----- Exactly one activity -----

  /** The guard of the branches that start a second activity. */
  ghost predicate Disrupts(c: Client, e: Event) {
    && e.Receive?
    && (|| Classify(c, e.packet) == KissOfDeath
        || (Classify(c, e.packet) == Good && c.queries != multiset{}))
  }

  lemma OneTimer(c: Client, t: Timer)
    requires Activities(c) == 1 && t in c.timers
    ensures c.timers == multiset{t} && c.queries == multiset{}
  {
    assert c.timers == multiset{t} + (c.timers - multiset{t});
  }

  lemma OneQuery(c: Client, q: Query)
    requires Activities(c) == 1 && q in c.queries
    ensures c.queries == multiset{q} && c.timers == multiset{}
  {
    assert c.queries == multiset{q} + (c.queries - multiset{q});
  }

  lemma SingleStep(c: Client, e: Event)
    requires Enabled(c, e) && InSession(e) && c.mode == Poll && Activities(c) == 1
    ensures Activities(Step(c, e)) == 1 <==> !Disrupts(c, e)
    ensures Disrupts(c, e) ==> Activities(Step(c, e)) == 2
  {
    StepActivities(c, e);
    if c.queries == multiset{} {
      assert exists t :: t in c.timers;
      var t :| t in c.timers;
      OneTimer(c, t);
      assert IsPending(c.timers, t.handler);
    } else {
      var q :| q in c.queries;
      OneQuery(c, q);
    }
  }

  ghost predicate AlwaysOne(states: seq<Client>) {
    forall i :: 0 <= i < |states| ==> Activities(states[i]) == 1
  }

  ghost predicate Undisturbed(states: seq<Client>, events: seq<Event>)
    requires |states| > |events|
  {
    forall i :: 0 <= i < |events| ==> !Disrupts(states[i], events[i])
  }

  lemma {:induction false} OneUpTo(states: seq<Client>, events: seq<Event>, i: nat)
    requires IsSession(states, events) && Opening(states[0]) && i < |states|
    ensures states[i].mode == Poll && states[i].running && Activities(states[i]) >= 1
    ensures Undisturbed(states, events) ==> Activities(states[i]) == 1
  {
    hide Step, Opening, Disrupts, Activities;
    if i == 0 {
      OpeningFacts(states[0]);
    } else {
      OneUpTo(states, events, i - 1);
      var c, e := states[i - 1], events[i - 1];
      StepKeepsGoing(c, e);
      if InSession(e) {
        SessionFrame(c, e);
        if Undisturbed(states, events) {
          SingleStep(c, e);
        }
      } else {
        SettingsFrame(c, e);
        SameActivities(c, Step(c, e));
      }
    }
  }

  lemma SameActivities(c: Client, d: Client)
    requires d.timers == c.timers && d.queries == c.queries
    ensures Activities(d) == Activities(c)
  {
  }

  lemma OpeningFacts(c: Client)
    requires Opening(c)
    ensures Valid(c) && c.running && c.mode == Poll && Activities(c) == 1
    ensures 0 in Usable(c.servers)
  {
    var c0: Client, delay: Option<nat>, env: Env :| Idle(c0) && c0.mode == Poll && c == Init(c0, delay, env);
    InitFrame(c0, delay, env);
    StartActivities(c0, delay, env);
  }

  /** In a poll session there is exactly one pending timer or DNS query between any two
      events, if and only if no Kiss-of-Death arrives and no reply is accepted while a DNS query
      is outstanding. */
  lemma ExactlyOneActivity(states: seq<Client>, events: seq<Event>)
    requires IsSession(states, events) && Opening(states[0])
    ensures AlwaysOne(states) <==> Undisturbed(states, events)
  {
    forall i: nat | i < |states|
      ensures Undisturbed(states, events) ==> Activities(states[i]) == 1
    {
      OneUpTo(states, events, i);
    }
    if AlwaysOne(states) {
      forall i: nat | i < |events|
        ensures !Disrupts(states[i], events[i])
      {
        OneUpTo(states, events, i);
        if InSession(events[i]) {
          SingleStep(states[i], events[i]);
        }
        assert Activities(states[i + 1]) == 1;
      }
    }
  }

  // ----- Where DNS answers go -----

  /** Every outstanding query asked for the name of the current server. */
  ghost predicate AskedForCurrent(c: Client) {
    && Valid(c)
    && forall q :: q in c.queries ==> q.server == c.current && c.servers[c.current].name == Some(q.name)
  }

  /** Whether an event makes the client call `sntp_try_next_server`. */
  ghost predicate Rotates(c: Client, e: Event) {
    match e
    case Fire(t, _) => t.handler == TryNextTimer
    case DnsReply(_, answer, _) => answer.None?
    case Receive(p, _) => c.mode == Poll && Classify(c, p) == KissOfDeath
    case _ => false
  }

  /** The queries still out when the client handles an event. */
  function OtherQueries(c: Client, e: Event): multiset<Query> {
    if e.DnsReply? then c.queries - multiset{e.query} else c.queries
  }

  /** The client moves on to another server while a query is out. */
  ghost predicate LeavesQueryBehind(c: Client, e: Event)
    requires Valid(c)
  {
    Rotates(c, e) && OtherQueries(c, e) != multiset{} && Rotate(|c.servers|, Usable(c.servers), c.current) != c.current
  }

  lemma SendAsksForCurrent(c: Client, addr: Addr, env: Env)
    requires AskedForCurrent(c)
    ensures AskedForCurrent(SendRequest(c, addr, env))
  {
    SendFrame(c, addr, env);
    SendAddsOne(c, addr, env);
    hide SendRequest;
  }

  lemma RequestAsksForCurrent(c: Client, env: Env)
    requires AskedForCurrent(c)
    ensures AskedForCurrent(Request(c, env))
  {
    hide SendRequest, NoServerAddress;
    if c.servers[c.current].name.Some? {
      var cleared := SetAddr(c, ANY_ADDR);
      assert AskedForCurrent(cleared);
      if env.dns.Resolved? {
        SendAsksForCurrent(SetAddr(cleared, env.dns.addr), env.dns.addr, env);
      } else if env.dns.DnsFailed? {
        SameQueries(cleared, NoServerAddress(cleared));
      }
    } else {
      SendAsksForCurrent(c, c.servers[c.current].addr, env);
      SameQueries(c, NoServerAddress(c));
    }
  }

  lemma SameQueries(c: Client, d: Client)
    requires AskedForCurrent(c) && d == NoServerAddress(c)
    ensures AskedForCurrent(d)
  {
  }

  lemma RequestKeepsQueries(c: Client, env: Env)
    requires Valid(c)
    ensures c.queries <= Request(c, env).queries
  {
  }

  lemma TryNextAsksForCurrent(c: Client, env: Env)
    requires AskedForCurrent(c)
    ensures AskedForCurrent(TryNextServer(c, env))
            <==> c.queries == multiset{} || Rotate(|c.servers|, Usable(c.servers), c.current) == c.current
  {
    hide Request, Usable;
    match Search(|c.servers|, Usable(c.servers), c.current, 1)
    case Some(next) =>
      RequestFrame(MoveTo(c, next), env);
      RequestKeepsQueries(MoveTo(c, next), env);
      if c.queries == multiset{} || next == c.current {
        RequestAsksForCurrent(MoveTo(c, next), env);
      } else {
        var q :| q in c.queries;
        assert q in TryNextServer(c, env).queries;
      }
    case None =>
  }

  lemma RecvAsksForCurrent(c: Client, p: Packet, env: Env)
    requires AskedForCurrent(c)
    ensures AskedForCurrent(Recv(c, p, env)) <==> !LeavesQueryBehind(c, Receive(p, env))
  {
    hide TryNextServer, Rotate, Usable, Search, ReceivedTime, Untimeout, Classify;
    TryNextAsksForCurrent(c, env);
  }

  lemma FireAsksForCurrent(c: Client, t: Timer, env: Env)
    requires Enabled(c, Fire(t, env)) && AskedForCurrent(c)
    ensures AskedForCurrent(Step(c, Fire(t, env))) <==> !LeavesQueryBehind(c, Fire(t, env))
  {
    hide Request, TryNextServer, Rotate, Usable, Search;
    var fired := c.(now := env.at, timers := c.timers - multiset{t});
    RequestAsksForCurrent(fired, env);
    TryNextAsksForCurrent(fired, env);
  }

  lemma AnswerAsksForCurrent(c: Client, q: Query, answer: Option<Addr>, env: Env)
    requires Enabled(c, DnsReply(q, answer, env)) && AskedForCurrent(c)
    ensures AskedForCurrent(Step(c, DnsReply(q, answer, env))) <==> !LeavesQueryBehind(c, DnsReply(q, answer, env))
  {
    hide SendRequest, TryNextServer, Rotate, Usable, Search;
    var asked := c.(now := env.at, queries := c.queries - multiset{q});
    match answer
    case Some(addr) => SendAsksForCurrent(SetAddr(asked, addr), addr, env);
    case None => TryNextAsksForCurrent(asked, env);
  }

  /** An event keeps every outstanding query with the current server, unless it makes the
      client leave one behind. */
  lemma StepAsksForCurrent(c: Client, e: Event)
    requires Enabled(c, e) && InSession(e) && AskedForCurrent(c)
    ensures AskedForCurrent(Step(c, e)) <==> !LeavesQueryBehind(c, e)
  {
    match e
    case Fire(t, env) => FireAsksForCurrent(c, t, env);
    case DnsReply(q, answer, env) => AnswerAsksForCurrent(c, q, answer, env);
    case Receive(p, env) =>
      hide Classify, Recv, Rotate, Usable;
      var d := c.(now := env.at);
      RecvAsksForCurrent(d, p, env);
      SameClassification(c, d, p);
  }

  lemma SameClassification(c: Client, d: Client, p: Packet)
    requires d == c.(now := d.now)
    ensures Classify(d, p) == Classify(c, p)
  {
  }

  lemma OpeningAsksForCurrent(c: Client)
    requires Opening(c)
    ensures AskedForCurrent(c)
  {
    var c0: Client, delay: Option<nat>, env: Env :| Idle(c0) && c0.mode == Poll && c == Init(c0, delay, env);
    RequestAsksForCurrent(Open(PutName(c0, 0, Some(SNTP_SERVER_ADDRESS)).(running := true)), env);
  }

  lemma {:induction false} AskedUpTo(states: seq<Client>, events: seq<Event>, i: nat)
    requires IsSession(states, events) && TableKept(events) && Opening(states[0]) && i < |states|
    requires forall k :: 0 <= k < i ==> !LeavesQueryBehind(states[k], events[k])
    ensures AskedForCurrent(states[i])
  {
    hide Step, Opening, LeavesQueryBehind;
    if i == 0 {
      OpeningAsksForCurrent(states[0]);
    } else {
      AskedUpTo(states, events, i - 1);
      StepAsksForCurrent(states[i - 1], events[i - 1]);
    }
  }

  /** Throughout a poll session that leaves the server table alone, every outstanding query belongs to
      the current server, if and only if the client never moves on while a query is out. */
  lemma QueriesFollowCurrent(states: seq<Client>, events: seq<Event>)
    requires IsSession(states, events) && TableKept(events) && Opening(states[0])
    ensures (forall i :: 0 <= i < |states| ==> AskedForCurrent(states[i]))
            <==> (forall k :: 0 <= k < |events| ==> !LeavesQueryBehind(states[k], events[k]))
  {
    hide Step, Opening, LeavesQueryBehind, AskedForCurrent;
    if forall k :: 0 <= k < |events| ==> !LeavesQueryBehind(states[k], events[k]) {
      forall i | 0 <= i < |states|
        ensures AskedForCurrent(states[i])
      {
        AskedUpTo(states, events, i);
      }
    }
    if forall i :: 0 <= i < |states| ==> AskedForCurrent(states[i]) {
      forall k | 0 <= k < |events|
        ensures !LeavesQueryBehind(states[k], events[k])
      {
        assert AskedForCurrent(states[k]) && AskedForCurrent(states[k + 1]);
        StepAsksForCurrent(states[k], events[k]);
      }
    }
  }

  /** Without a disturbance nothing is left behind: there is only one activity at a time. */
  lemma UndisturbedLeavesNothing(states: seq<Client>, events: seq<Event>, i: nat)
    requires IsSession(states, events) && TableKept(events) && Opening(states[0])
    requires Undisturbed(states, events) && i < |events|
    ensures !LeavesQueryBehind(states[i], events[i])
  {
    hide Step, Opening, Rotate;
    OneUpTo(states, events, i);
    match events[i]
    case Fire(t, _) => OneTimer(states[i], t);
    case DnsReply(q, _, _) => OneQuery(states[i], q);
    case Receive(_, _) =>
  }

  /** Until the client leaves a query behind, every answer is stored in the table entry whose
      name was asked, and in no other. */
  lemma AnswerStoredWhereAsked(states: seq<Client>, events: seq<Event>, i: nat)
    requires IsSession(states, events) && TableKept(events) && Opening(states[0]) && i < |events|
    requires forall k :: 0 <= k < i ==> !LeavesQueryBehind(states[k], events[k])
    requires events[i].DnsReply? && events[i].answer.Some?
    ensures var q := events[i].query; var before := states[i].servers; var after := states[i + 1].servers;
            && q.server < |before| == |after| && before[q.server].name == Some(q.name)
            && after[q.server].addr == events[i].answer.value
            && forall j :: 0 <= j < |before| && j != q.server ==> after[j] == before[j]
  {
    hide LeavesQueryBehind, Opening;
    AskedUpTo(states, events, i);
  }

  // ----- Stopping -----

  lemma SoleTimerCancelled(c: Client)
    requires Activities(c) == 1 && c.queries == multiset{}
    ensures Untimeout(Untimeout(c.timers, TryNextTimer), RequestTimer) == multiset{}
    ensures Untimeout(Untimeout(c.timers, RequestTimer), TryNextTimer) == multiset{}
  {
    assert exists t :: t in c.timers;
    var t :| t in c.timers;
    OneTimer(c, t);
    assert IsPending(c.timers, t.handler);
    UntimeoutRemoves(c.timers);
  }

  lemma StopSingle(c: Client)
    requires c.running && Activities(c) == 1
    ensures Activities(Stop(c)) == 0 <==> c.queries == multiset{}
  {
    if c.queries == multiset{} {
      SoleTimerCancelled(c);
    }
  }

  /** `sntp_stop` cancels one timer of each kind and no DNS query. Nothing is left pending exactly
      when no query is out and at most one timer of each kind was set. */
  lemma StopLeaves(c: Client)
    requires c.running
    ensures Activities(Stop(c)) == Activities(c) - Kinds(c.timers)
    ensures Activities(Stop(c)) == 0 <==> c.queries == multiset{} && |c.timers| == Kinds(c.timers)
  {
    hide Untimeout, IsPending;
    UntimeoutRemoves(c.timers);
  }

  /** In an undisturbed session no timer is set twice, so only a DNS query can outlive the stop. */
  lemma StopClearsUnlessDns(states: seq<Client>, events: seq<Event>, i: nat)
    requires IsSession(states, events) && Opening(states[0]) && Undisturbed(states, events) && i < |states|
    ensures Activities(Stop(states[i])) == 0 <==> states[i].queries == multiset{}
  {
    hide *;
    OneUpTo(states, events, i);
    StopSingle(states[i]);
  }

  /** What a stop has left pending never ends by itself: until the next start, every timer
      that fires and every answer that comes in sets another one. */
  lemma {:induction false} LeftoversNeverEnd(states: seq<Client>, events: seq<Event>, i: nat)
    requires IsRun(states, events) && !states[0].running && i < |states|
    requires forall k :: 0 <= k < |events| ==> !events[k].StartUp?
    ensures !states[i].running && Activities(states[i]) == Activities(states[0])
  {
    hide IsPending, Activities;
    if i > 0 {
      LeftoversNeverEnd(states, events, i - 1);
      var c, e := states[i - 1], events[i - 1];
      if InSession(e) {
        StepActivities(c, e);
        SessionFrame(c, e);
      } else {
        SettingsActivities(c, e);
      }
    }
  }

  lemma SettingsActivities(c: Client, e: Event)
    requires Enabled(c, e) && !InSession(e) && !e.StartUp? && !c.running
    ensures !Step(c, e).running && Activities(Step(c, e)) == Activities(c)
  {
  }
}
