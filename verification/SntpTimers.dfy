/** What every event leaves pending, timer by timer and with the times in milliseconds. */
module SntpTimers {
  import opened Words
  import opened Rotation
  import opened SntpMachine
  import opened SntpRuns
  import opened SntpSpacing
  import opened SntpRotation

  /** The timer that belongs to an entry of the history: a request is given 15 s for its reply, a failed attempt is made
      up for after 15 s, a retry after its delay, and an accepted reply is good for an hour. */
  function TimerFor(e: Entry): Option<Timer> {
    match e
    case Sent(_, at, _, _) => Some(Timer(TryNextTimer, at + 15000))
    case NoSocket(_, at) => Some(Timer(TryNextTimer, at + 15000))
    case OutOfMemory(_, at) => Some(Timer(RequestTimer, at + 15000))
    case NoAddress(_, at) => Some(Timer(TryNextTimer, at + 15000))
    case Accepted(_, at, _) => Some(Timer(RequestTimer, at + 3600000))
    case Retried(at, delay) => Some(Timer(RequestTimer, at + delay))
    case Opened => None
    case Moved(_) => None
  }

  /** Made now, if the entry has a time. */
  predicate MadeAt(e: Entry, now: nat) { !e.Opened? && !e.Moved? && e.at == now }

  /** From `c` to `d` the client has ended its work with a new entry made now, and set the timer that belongs to it. */
  ghost predicate SetsTimer(c: Client, d: Client) {
    && |d.log| > |c.log| && MadeAt(d.log[|d.log| - 1], c.now) && TimerFor(d.log[|d.log| - 1]).Some?
    && d.timers == c.timers + multiset{TimerFor(d.log[|d.log| - 1]).value} && d.queries == c.queries
  }

  /** Or it now waits for the name of its current server. */
  ghost predicate AsksName(c: Client, d: Client) {
    && Valid(d) && d.servers[d.current].name.Some? && d.timers == c.timers
    && d.queries == c.queries + multiset{Query(d.servers[d.current].name.value, d.current)}
  }

  ghost predicate SetsOne(c: Client, d: Client) { SetsTimer(c, d) || AsksName(c, d) }

  lemma SendSetsTimer(c: Client, addr: Addr, env: Env)
    requires Valid(c)
    ensures SetsTimer(c, SendRequest(c, addr, env))
  {
    hide TransmitStamp;
  }

  lemma NoAddressSetsTimer(c: Client)
    ensures SetsTimer(c, NoServerAddress(c))
  {
  }

  lemma SameHistory(c: Client, c': Client, d: Client)
    requires SetsTimer(c', d) && c'.log == c.log && c'.now == c.now && c'.timers == c.timers && c'.queries == c.queries
    ensures SetsOne(c, d)
  {
  }

  lemma NamedSetsOne(c: Client, env: Env)
    requires Valid(c) && c.servers[c.current].name.Some?
    ensures SetsOne(c, Request(c, env))
  {
    hide SendRequest, NoServerAddress, SetsTimer;
    var cleared := SetAddr(c, ANY_ADDR);
    match env.dns
    case Resolved(addr) =>
      SendSetsTimer(SetAddr(cleared, addr), addr, env);
      SameHistory(c, SetAddr(cleared, addr), Request(c, env));
    case DnsFailed =>
      NoAddressSetsTimer(cleared);
      SameHistory(c, cleared, Request(c, env));
    case InProgress =>
  }

  lemma RequestSetsOne(c: Client, env: Env)
    requires Valid(c)
    ensures SetsOne(c, Request(c, env))
  {
    hide SendRequest, NoServerAddress, SetsTimer, AsksName;
    if c.servers[c.current].name.Some? {
      NamedSetsOne(c, env);
    } else {
      SendSetsTimer(c, c.servers[c.current].addr, env);
      NoAddressSetsTimer(c);
    }
  }

  lemma TryNextSetsOne(c: Client, env: Env)
    requires Valid(c)
    ensures SetsOne(c, TryNextServer(c, env))
  {
    hide Request;
    match Search(|c.servers|, Usable(c.servers), c.current, 1)
    case Some(next) => RequestSetsOne(MoveTo(c, next), env);
    case None => assert SetsTimer(c, Retry(c));
  }

  /** The client at the time of the event, without the timer that fired or the query that was answered. */
  function Consumed(c: Client, e: Event): Client {
    var d := c.(now := e.env.at);
    match e
    case Fire(t, _) => d.(timers := c.timers - multiset{t})
    case DnsReply(q, _, _) => d.(queries := c.queries - multiset{q})
    case _ => d
  }

  /** A timer that fires, a DNS answer, and a Kiss-of-Death: what is consumed makes place for one timer, the one that belongs
      to the last new entry, or for one query. In every state, disturbed or not. */
  lemma EventSetsOne(c: Client, e: Event)
    requires Enabled(c, e)
    requires e.Fire? || e.DnsReply? || (e.Receive? && c.mode == Poll && Classify(c, e.packet) == KissOfDeath)
    ensures SetsOne(Consumed(c, e), Step(c, e))
  {
    hide Request, SendRequest, TryNextServer, SetsOne, SetsTimer, AsksName;
    var d := Consumed(c, e);
    match e
    case Fire(t, env) =>
      RequestSetsOne(d, env);
      TryNextSetsOne(d, env);
    case DnsReply(q, answer, env) =>
      TryNextSetsOne(d, env);
      if answer.Some? {
        AnswerSetsTimer(d, answer.value, env);
      }
    case Receive(p, env) =>
      TryNextSetsOne(d, env);
      SameClassification(c, d, p);
  }

  lemma AnswerSetsTimer(c: Client, addr: Addr, env: Env)
    requires Valid(c)
    ensures SetsOne(c, SendRequest(SetAddr(c, addr), addr, env))
  {
    hide SendRequest;
    SendSetsTimer(SetAddr(c, addr), addr, env);
  }

  /** An accepted reply: one timer of each kind is cancelled, and the next request is due in an hour. */
  lemma AcceptSetsTimer(c: Client, p: Packet, env: Env)
    requires Enabled(c, Receive(p, env)) && c.mode == Poll && Classify(c, p) == Good
    ensures var d := Step(c, Receive(p, env));
            && |d.log| == |c.log| + 1 && d.log[|c.log|].Accepted? && d.log[|c.log|].at == env.at
            && d.timers == Untimeout(Untimeout(c.timers, TryNextTimer), RequestTimer)
                           + multiset{Timer(RequestTimer, env.at + 3600000)}
            && d.queries == c.queries && d.retry == 15000
  {
    hide Untimeout, ReceivedTime;
    SameClassification(c, c.(now := env.at), p);
  }

  // ----- Exact deadlines -----

  /** What a client has pending is exactly what the history says: the timer of the last entry, the start-up timer, or a
      query for the name of the current server. */
  ghost predicate Scheduled(start: Client, c: Client) {
    || (c.timers == multiset{} && |c.queries| == 1 && forall q :: q in c.queries ==> q.server == c.current)
    || (&& c.queries == multiset{} && c.log != []
        && (if c.log[|c.log| - 1].Opened? then c.log == [Opened] && c.timers == start.timers
            else TimerFor(c.log[|c.log| - 1]).Some? && c.timers == multiset{TimerFor(c.log[|c.log| - 1]).value}))
  }

  lemma OneSetIsScheduled(start: Client, c: Client, d: Client)
    requires c.timers == multiset{} && c.queries == multiset{} && SetsOne(c, d)
    ensures Scheduled(start, d)
  {
    if AsksName(c, d) {
      assert d.queries == multiset{Query(d.servers[d.current].name.value, d.current)};
    } else {
      assert d.timers == multiset{TimerFor(d.log[|d.log| - 1]).value};
    }
  }

  lemma ConsumedEmpty(c: Client, e: Event)
    requires Enabled(c, e) && Activities(c) == 1 && (e.Fire? || e.DnsReply?)
    ensures Consumed(c, e).timers == multiset{} && Consumed(c, e).queries == multiset{}
  {
    match e
    case Fire(t, _) => OneTimer(c, t);
    case DnsReply(q, _, _) => OneQuery(c, q);
  }

  lemma StepScheduled(start: Client, c: Client, e: Event)
    requires Enabled(c, e) && InSession(e) && c.mode == Poll && Activities(c) == 1 && !Disrupts(c, e) && Scheduled(start, c)
    ensures Scheduled(start, Step(c, e))
  {
    hide SetsOne, Activities;
    if e.Receive? {
      hide TimerFor;
      if Classify(c, e.packet) == Good {
        AcceptScheduled(start, c, e.packet, e.env);
      } else {
        SameClassification(c, c.(now := e.env.at), e.packet);
      }
    } else {
      hide Step, Scheduled, Consumed;
      ConsumedEmpty(c, e);
      EventSetsOne(c, e);
      OneSetIsScheduled(start, Consumed(c, e), Step(c, e));
    }
  }

  lemma AcceptScheduled(start: Client, c: Client, p: Packet, env: Env)
    requires Enabled(c, Receive(p, env)) && c.mode == Poll && Activities(c) == 1
    requires c.queries == multiset{} && Classify(c, p) == Good
    ensures Scheduled(start, Step(c, Receive(p, env)))
  {
    hide Step, Classify, Scheduled;
    AcceptSetsTimer(c, p, env);
    SoleTimerCancelled(c);
    AcceptedIsScheduled(start, c, Step(c, Receive(p, env)), env.at);
  }

  lemma AcceptedIsScheduled(start: Client, c: Client, d: Client, at: nat)
    requires |d.log| == |c.log| + 1 && d.log[|c.log|].Accepted? && d.log[|c.log|].at == at
    requires d.timers == multiset{} + multiset{Timer(RequestTimer, at + 3600000)} && d.queries == multiset{}
    ensures Scheduled(start, d)
  {
    assert d.timers == multiset{Timer(RequestTimer, at + 3600000)};
  }

  /** `sntp_init` on an idle poll client: the start-up timer, or a first request at once. */
  lemma StartSetsOne(c: Client, delay: Option<nat>, env: Env)
    requires Valid(c) && !c.running && c.mode == Poll
    ensures var d := Init(c, delay, env);
            && d.running && d.retry == 15000 && d.servers[0].name == Some("pool.ntp.org")
            && (if delay.Some?
                then d.log == c.log + [Opened] && d.queries == c.queries
                     && d.timers == c.timers + multiset{Timer(RequestTimer, c.now + delay.value)}
                else SetsOne(c.(log := c.log + [Opened]), d) && c.log + [Opened] <= d.log)
  {
    hide Request;
    var up := Open(PutName(c, 0, Some(SNTP_SERVER_ADDRESS)).(running := true));
    RequestSetsOne(up, env);
    RequestFrame(up, env);
    RequestKeeps(up, env);
  }

  lemma RequestKeeps(c: Client, env: Env)
    requires Valid(c)
    ensures Request(c, env).retry == c.retry && c.log <= Request(c, env).log
  {
  }

  lemma OpeningScheduled(c: Client)
    requires Opening(c)
    ensures Scheduled(c, c)
  {
    hide Init, Request, SetsOne;
    var c0: Client, delay: Option<nat>, env: Env :| Idle(c0) && c0.mode == Poll && c == Init(c0, delay, env);
    StartSetsOne(c0, delay, env);
    if delay.None? {
      OneSetIsScheduled(c, c0.(log := c0.log + [Opened]), c);
    }
  }

  lemma SettingsScheduled(start: Client, c: Client, d: Client)
    requires Scheduled(start, c) && d == c.(now := d.now, servers := d.servers)
    ensures Scheduled(start, d)
  {
  }

  /** In an undisturbed session every timer is due exactly when it should be: 15 s after a request or a failed attempt, an
      hour after an accepted reply, and after a retry when its delay is over. */
  lemma {:induction false} ExactDeadlines(states: seq<Client>, events: seq<Event>, i: nat)
    requires IsSession(states, events) && Opening(states[0]) && Undisturbed(states, events) && i < |states|
    ensures Scheduled(states[0], states[i])
  {
    hide Step, Enabled, Opening, Disrupts, Scheduled, Activities;
    if i == 0 {
      OpeningScheduled(states[0]);
    } else {
      ExactDeadlines(states, events, i - 1);
      OneUpTo(states, events, i - 1);
      var c, e := states[i - 1], events[i - 1];
      if InSession(e) {
        StepScheduled(states[0], c, e);
      } else {
        SettingsFrame(c, e);
        SettingsScheduled(states[0], c, states[i]);
      }
    }
  }

  // ----- Retries in every run -----

  /** If the last new entry is a retry, it is the only one, and one timer was set for it. */
  ghost predicate RetriesOnce(c: Client, d: Client) {
    EndsInRetry(c, d) ==>
      && d.log == c.log + [Retried(c.now, c.retry)] && d.queries == c.queries
      && d.timers == c.timers + multiset{Timer(RequestTimer, c.now + c.retry)}
  }

  lemma SendRetriesOnce(c: Client, addr: Addr, env: Env)
    requires Valid(c)
    ensures RetriesOnce(c, SendRequest(SetAddr(c, addr), addr, env))
  {
    hide TransmitStamp;
  }

  lemma NoRetryInRequest(c: Client, env: Env)
    requires Valid(c)
    ensures var d := Request(c, env);
            c.log <= d.log && |d.log| <= |c.log| + 1 && (|d.log| > |c.log| ==> !d.log[|c.log|].Retried?)
  {
  }

  lemma RequestRetriesOnce(c: Client, env: Env)
    requires Valid(c)
    ensures RetriesOnce(c, Request(c, env))
  {
    hide Request;
    NoRetryInRequest(c, env);
  }

  lemma TryNextRetriesOnce(c: Client, env: Env)
    requires Valid(c)
    ensures RetriesOnce(c, TryNextServer(c, env))
  {
    hide Request;
    match Search(|c.servers|, Usable(c.servers), c.current, 1)
    case Some(next) => NoRetryInRequest(MoveTo(c, next), env);
    case None =>
  }

  lemma RecvRetriesOnce(c: Client, p: Packet, env: Env)
    requires Valid(c)
    ensures RetriesOnce(c, Recv(c, p, env))
  {
    hide TryNextServer, Untimeout, Classify, ReceivedTime;
    match Classify(c, p)
    case Good =>
    case KissOfDeath => TryNextRetriesOnce(c, env);
    case _ =>
  }

  lemma StepRetriesOnce(c: Client, e: Event)
    requires Enabled(c, e) && InSession(e)
    ensures RetriesOnce(Consumed(c, e), Step(c, e))
  {
    hide Request, SendRequest, TryNextServer, Recv, RetriesOnce;
    var d := Consumed(c, e);
    match e
    case Fire(t, env) =>
      RequestRetriesOnce(d, env);
      TryNextRetriesOnce(d, env);
    case DnsReply(q, answer, env) =>
      TryNextRetriesOnce(d, env);
      if answer.Some? {
        SendRetriesOnce(d, answer.value, env);
      }
    case Receive(p, env) => RecvRetriesOnce(d, p, env);
  }

  predicate EndsInRetry(c: Client, d: Client) { |d.log| > |c.log| && d.log[|d.log| - 1].Retried? }

  /** The client has logged one retry, and set one timer for a request after the delay. */
  ghost predicate Retries(c: Client, d: Client, at: nat, delay: nat) {
    && |d.log| == |c.log| + 1 && d.log[..|c.log|] == c.log && d.log[|c.log|].Retried?
    && d.log[|c.log|].at == at && d.log[|c.log|].delay == delay
    && d.timers == c.timers + multiset{Timer(RequestTimer, at + delay)} && d.queries == c.queries
  }

  /** In every run, whenever a poll client retries at some time, it adds exactly one timer: for a request 15 s, 30 s, one minute or
      two minutes later, by the number of retries since the last accepted reply or move to a new server. */
  lemma RetriesWait(states: seq<Client>, events: seq<Event>, i: nat)
    requires IsRun(states, events) && !states[0].running && states[0].log == [] && i < |events|
    requires states[i].running && states[i].mode == Poll && InSession(events[i])
    requires EndsInRetry(states[i], states[i + 1])
    ensures var at, n := events[i].env.at, RetriesSinceReset(states[i].log);
            Retries(Consumed(states[i], events[i]), states[i + 1], at, 15000 * Pow2(Min(n, 3)))
  {
    hide Step, Enabled, RetriesSinceReset, Pow2;
    BackoffOverRun(states, events, i);
    StepRetriesOnce(states[i], events[i]);
  }
}
