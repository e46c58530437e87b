/** Which servers are usable over a session, in which order they are asked, and how
    long the client waits when there is no other. */
module SntpRotation {
  import opened Words
  import opened Backoff
  import opened Rotation
  import opened SntpMachine
  import opened SntpRuns

  // ----- Usable servers and rotation -----

  lemma UsableKept(servers: seq<Server>, i: nat, s: Server)
    requires i < |servers| && (IsUsable(s) <==> IsUsable(servers[i]))
    ensures Usable(servers[i := s]) == Usable(servers)
  {
  }

  lemma SendKeepsUsable(c: Client, addr: Addr, env: Env)
    requires Valid(c)
    ensures Usable(SendRequest(c, addr, env).servers) == Usable(c.servers)
  {
    var s := c.servers[c.current];
    UsableKept(c.servers, c.current, s.(reachability := s.reachability << 1));
  }

  lemma SetAddrKeepsUsable(c: Client, addr: Addr)
    requires Valid(c) && c.servers[c.current].name.Some?
    ensures Usable(SetAddr(c, addr).servers) == Usable(c.servers)
  {
    UsableKept(c.servers, c.current, c.servers[c.current].(addr := addr));
  }

  lemma RequestKeepsUsable(c: Client, env: Env)
    requires Valid(c)
    ensures Usable(Request(c, env).servers) == Usable(c.servers)
  {
    if c.servers[c.current].name.Some? {
      SetAddrKeepsUsable(c, ANY_ADDR);
      if env.dns.Resolved? {
        SetAddrKeepsUsable(SetAddr(c, ANY_ADDR), env.dns.addr);
        SendKeepsUsable(SetAddr(SetAddr(c, ANY_ADDR), env.dns.addr), env.dns.addr, env);
      }
    } else {
      SendKeepsUsable(c, c.servers[c.current].addr, env);
    }
  }

  lemma TryNextKeepsUsable(c: Client, env: Env)
    requires Valid(c)
    ensures Usable(TryNextServer(c, env).servers) == Usable(c.servers)
  {
    match Search(|c.servers|, Usable(c.servers), c.current, 1)
    case Some(next) => RequestKeepsUsable(MoveTo(c, next), env);
    case None =>
  }

  lemma FireUsable(c: Client, t: Timer, env: Env)
    requires Enabled(c, Fire(t, env))
    ensures Usable(Step(c, Fire(t, env)).servers) == Usable(c.servers)
  {
    hide Request, TryNextServer, Usable;
    var fired := c.(now := env.at, timers := c.timers - multiset{t});
    RequestKeepsUsable(fired, env);
    TryNextKeepsUsable(fired, env);
  }

  lemma RecvUsable(c: Client, p: Packet, env: Env)
    requires Valid(c)
    ensures Usable(Recv(c, p, env).servers) == Usable(c.servers)
  {
    hide TryNextServer, Usable, ReceivedTime, Untimeout;
    TryNextKeepsUsable(c, env);
    var s := c.servers[c.current];
    UsableKept(c.servers, c.current, s.(reachability := s.reachability | 1));
  }

  /** A DNS answer reaches an unnamed entry, and is the "any" address for a usable one or a
      proper address for an unusable one. */
  predicate ChangesUsable(c: Client, e: Event)
    requires Valid(c)
  {
    && e.DnsReply? && e.answer.Some? && c.servers[c.current].name.None?
    && (e.answer.value == ANY_ADDR <==> IsUsable(c.servers[c.current]))
  }

  /** An event of a session changes the set of usable servers in that one case only. */
  lemma StepUsable(c: Client, e: Event)
    requires Enabled(c, e) && InSession(e)
    ensures Usable(Step(c, e).servers) == Usable(c.servers)
            <==> !ChangesUsable(c, e)
  {
    hide Request, SendRequest, TryNextServer, Recv, Usable;
    var d := c.(now := e.env.at);
    match e
    case Fire(t, env) => FireUsable(c, t, env);
    case DnsReply(q, answer, env) =>
      var asked := d.(queries := c.queries - multiset{q});
      match answer {
        case None => TryNextKeepsUsable(asked, env);
        case Some(addr) =>
          SendKeepsUsable(SetAddr(asked, addr), addr, env);
          SetAddrUsable(asked, addr);
      }
    case Receive(p, env) => RecvUsable(d, p, env);
  }

  lemma SetAddrUsable(c: Client, addr: Addr)
    requires Valid(c)
    ensures Usable(SetAddr(c, addr).servers) == Usable(c.servers)
            <==> !(c.servers[c.current].name.None? && (addr == ANY_ADDR <==> IsUsable(c.servers[c.current])))
  {
    var s := c.servers[c.current].(addr := addr);
    if IsUsable(s) <==> IsUsable(c.servers[c.current]) {
      UsableKept(c.servers, c.current, s);
    } else {
      assert c.current in Usable(c.servers[c.current := s]) <==> c.current !in Usable(c.servers);
    }
  }

  lemma StepCurrent(c: Client, e: Event)
    requires Enabled(c, e) && InSession(e)
    ensures Step(c, e).current == if Rotates(c, e) then Rotate(|c.servers|, Usable(c.servers), c.current) else c.current
  {
    var d := c.(now := e.env.at);
    match e
    case Fire(t, env) =>
      RequestFrame(d.(timers := c.timers - multiset{t}), env);
      TryNextFrame(d.(timers := c.timers - multiset{t}), env);
    case DnsReply(q, answer, env) =>
      TryNextFrame(d.(queries := c.queries - multiset{q}), env);
    case Receive(p, env) =>
      TryNextFrame(d, env);
      assert Classify(d, p) == Classify(c, p);
  }

  ghost function Rotations(states: seq<Client>, events: seq<Event>, i: nat): nat
    requires i <= |events| && |events| <= |states|
  {
    if i == 0 then 0
    else Rotations(states, events, i - 1) + if Rotates(states[i - 1], events[i - 1]) then 1 else 0
  }

  lemma RotateFindsUsable(n: nat, usable: set<nat>, cur: nat, u: nat)
    requires cur < n && u in usable && u < n
    ensures Rotate(n, usable, cur) in usable
  {
    if u != cur {
      assert At(n, cur, if u > cur then u - cur else u + n - cur) == u;
    }
  }

  /** Up to some point of a session, no event changes the set of usable servers. */
  ghost predicate Steady(states: seq<Client>, events: seq<Event>, i: nat)
    requires i <= |events| <= |states|
  {
    forall k :: 0 <= k < i ==> Valid(states[k]) && !ChangesUsable(states[k], events[k])
  }

  /** The first server, which `sntp_init` names, stays named and so usable. */
  lemma {:induction false} FirstStaysNamed(states: seq<Client>, events: seq<Event>, i: nat)
    requires IsSession(states, events) && TableKept(events) && Opening(states[0]) && i < |states|
    ensures Valid(states[i]) && states[i].servers[0].name.Some? && 0 in Usable(states[i].servers)
    ensures |states[i].servers| == |states[0].servers|
  {
    hide Step, Opening;
    OpeningFacts(states[0]);
    if i == 0 {
      OpeningNamed(states[0]);
    } else {
      FirstStaysNamed(states, events, i - 1);
      SessionFrame(states[i - 1], events[i - 1]);
    }
  }

  lemma OpeningNamed(c: Client)
    requires Opening(c)
    ensures c.servers[0].name.Some?
  {
    var c0: Client, delay: Option<nat>, env: Env :| Idle(c0) && c0.mode == Poll && c == Init(c0, delay, env);
    InitFrame(c0, delay, env);
  }

  /** The set of usable servers is the same throughout a session, Kisses-of-Death and all, if and
      only if no DNS answer changes it. */
  lemma UsableThroughout(states: seq<Client>, events: seq<Event>)
    requires IsSession(states, events) && TableKept(events) && Opening(states[0])
    ensures (forall i :: 0 <= i < |states| ==> Usable(states[i].servers) == Usable(states[0].servers))
            <==> Steady(states, events, |events|)
  {
    hide Step, Opening, ChangesUsable, Usable;
    if Steady(states, events, |events|) {
      forall i | 0 <= i < |states|
        ensures Usable(states[i].servers) == Usable(states[0].servers)
      {
        RotationOverRun(states, events, i);
      }
    }
    if forall i :: 0 <= i < |states| ==> Usable(states[i].servers) == Usable(states[0].servers) {
      forall k | 0 <= k < |events|
        ensures Valid(states[k]) && !ChangesUsable(states[k], events[k])
      {
        assert Usable(states[k].servers) == Usable(states[k + 1].servers);
        StepUsable(states[k], events[k]);
      }
    }
  }

  /** While the set of usable servers stays the same, the current server is the start rotated
      once for every call of `sntp_try_next_server`, whether a timeout, a DNS failure or a
      Kiss-of-Death made it. From the first such call on it is a usable one. */
  lemma {:induction false} RotationOverRun(states: seq<Client>, events: seq<Event>, i: nat)
    requires IsSession(states, events) && TableKept(events) && Opening(states[0])
    requires i < |states| && Steady(states, events, i)
    ensures |states[i].servers| == |states[0].servers| && Usable(states[i].servers) == Usable(states[0].servers)
    ensures states[0].current < |states[0].servers|
    ensures states[i].current
            == RotateN(|states[0].servers|, Usable(states[0].servers), states[0].current, Rotations(states, events, i))
    ensures states[0].current in Usable(states[0].servers) || Rotations(states, events, i) > 0
            ==> states[i].current in Usable(states[i].servers)
  {
    hide Step, Opening, Rotates, Rotate, Usable, ChangesUsable;
    FirstStaysNamed(states, events, 0);
    if i > 0 {
      RotationOverRun(states, events, i - 1);
      var c, e := states[i - 1], events[i - 1];
      FirstStaysNamed(states, events, i - 1);
      SessionFrame(c, e);
      StepUsable(c, e);
      StepCurrent(c, e);
      RotateOnceMore(|c.servers|, Usable(c.servers), states[0].current, Rotations(states, events, i - 1));
      RotateFindsUsable(|c.servers|, Usable(c.servers), c.current, 0);
    }
  }

  /** As long as the client leaves no query behind, every answer reaches a named entry, so
      the set of usable servers stays the same; an undisturbed session is of that kind. */
  lemma FollowedIsSteady(states: seq<Client>, events: seq<Event>, i: nat)
    requires IsSession(states, events) && TableKept(events) && Opening(states[0]) && i <= |events|
    requires Undisturbed(states, events)
             || forall k :: 0 <= k < i ==> !LeavesQueryBehind(states[k], events[k])
    ensures Steady(states, events, i)
  {
    hide Step, Opening, LeavesQueryBehind, Disrupts, Undisturbed;
    if Undisturbed(states, events) {
      forall k | 0 <= k < i
        ensures !LeavesQueryBehind(states[k], events[k])
      {
        UndisturbedLeavesNothing(states, events, k);
      }
    }
    forall k | 0 <= k < i
      ensures Valid(states[k]) && !ChangesUsable(states[k], events[k])
    {
      AskedUpTo(states, events, k);
    }
  }

  /** Up to point `j` the current server is the start rotated that many times. */
  ghost predicate Tracks(states: seq<Client>, events: seq<Event>, n: nat, usable: set<nat>, start: nat, j: nat)
    requires start < n && j < |states| == |events| + 1
  {
    forall i :: 0 <= i <= j ==> states[i].current == RotateN(n, usable, start, Rotations(states, events, i))
  }

  /** Fairness: from any point of a session, as many calls of `sntp_try_next_server` as there
      are usable servers ask each of them once and come back, as long as that set stays the same. */
  lemma FairRotation(states: seq<Client>, events: seq<Event>, i: nat, j: nat)
    requires IsSession(states, events) && TableKept(events) && Opening(states[0])
    requires i <= j < |states| && Steady(states, events, j)
    requires states[i].current in Usable(states[i].servers)
    requires Rotations(states, events, j) == Rotations(states, events, i) + |Usable(states[0].servers)|
    ensures states[j].current == states[i].current
    ensures forall u :: u in Usable(states[0].servers)
                        ==> exists k :: i <= k <= j && states[k].current == u
  {
    hide Step, Enabled, Opening, ChangesUsable, Rotates, Rotations, Rotate, RotateN;
    var n, usable, start := |states[0].servers|, Usable(states[0].servers), states[0].current;
    RotationOverRun(states, events, i);
    forall k: nat | k <= j
      ensures states[k].current == RotateN(n, usable, start, Rotations(states, events, k))
    {
      RotationOverRun(states, events, k);
    }
    FairOverTurn(states, events, n, usable, start, i, j);
  }

  lemma FairOverTurn(states: seq<Client>, events: seq<Event>, n: nat, usable: set<nat>, start: nat, i: nat, j: nat)
    requires start < n && i <= j < |states| == |events| + 1
    requires Tracks(states, events, n, usable, start, j)
    requires states[i].current in usable && forall u :: u in usable ==> u < n
    requires Rotations(states, events, j) == Rotations(states, events, i) + |usable|
    ensures states[j].current == states[i].current
    ensures forall u :: u in usable ==> exists k :: i <= k <= j && states[k].current == u
  {
    hide Rotations, Rotate, RotateN;
    var from := Rotations(states, events, i);
    FullCircle(n, usable, states[i].current);
    RotateSplit(n, usable, start, from, |usable|);
    forall u | u in usable
      ensures exists k :: i <= k <= j && states[k].current == u
    {
      assert Visited(n, usable, states[i].current, |usable|, u);
      var m: nat :| 1 <= m <= |usable| && RotateN(n, usable, states[i].current, m) == u;
      RotateSplit(n, usable, start, from, m);
      var k := RotationReached(states, events, i, j, from + m);
      assert states[k].current == u;
    }
  }

  lemma {:induction false} RotateSplit(n: nat, usable: set<nat>, cur: nat, a: nat, b: nat)
    requires cur < n
    ensures RotateN(n, usable, RotateN(n, usable, cur, a), b) == RotateN(n, usable, cur, a + b)
    decreases a
  {
    if a > 0 {
      RotateSplit(n, usable, Rotate(n, usable, cur), a - 1, b);
    }
  }

  /** The count of rotations goes up one at a time, so every count in between is met. */
  lemma {:induction false} RotationReached(states: seq<Client>, events: seq<Event>, i: nat, j: nat, count: nat)
    returns (k: nat)
    requires i <= j <= |events| && |events| <= |states|
    requires Rotations(states, events, i) <= count <= Rotations(states, events, j)
    ensures i <= k <= j && Rotations(states, events, k) == count
    decreases j
  {
    if Rotations(states, events, j) == count {
      k := j;
    } else {
      k := RotationReached(states, events, i, j - 1, count);
    }
  }

  // ----- Backoff over a run -----

  /** Retries since the session started, a reply was accepted, or the client moved to
      another server, whichever came last. */
  ghost function RetriesSinceReset(log: seq<Entry>): nat {
    if log == [] then 0
    else match log[|log| - 1]
      case Opened => 0
      case Accepted(_, _, _) => 0
      case Moved(_) => 0
      case Retried(_, _) => RetriesSinceReset(log[..|log| - 1]) + 1
      case _ => RetriesSinceReset(log[..|log| - 1])
  }

  ghost predicate HasOpened(log: seq<Entry>) { exists j :: 0 <= j < |log| && log[j].Opened? }

  /** In a poll session the timeout, and every delay waited since the session started, follow the log; outside
      one, none has started since the last stop. */
  ghost predicate BackoffFollowsLog(c: Client) {
    && (if c.running && c.mode == Poll
        then c.retry == After(SNTP_RETRY_TIMEOUT, SNTP_RETRY_TIMEOUT_MAX, RetriesSinceReset(c.log))
        else !HasOpened(c.log))
    && forall k :: 0 <= k < |c.log| && c.log[k].Retried? && HasOpened(c.log[..k]) ==>
         c.log[k].delay == After(SNTP_RETRY_TIMEOUT, SNTP_RETRY_TIMEOUT_MAX, RetriesSinceReset(c.log[..k]))
  }

  lemma OpenedAppend(log: seq<Entry>, e: Entry)
    ensures HasOpened(log + [e]) <==> HasOpened(log) || e.Opened?
  {
    assert (log + [e])[|log|] == e;
    if j :| 0 <= j < |log| && log[j].Opened? {
      assert (log + [e])[j].Opened?;
    }
  }

  lemma {:induction false} OpenedPrefix(log: seq<Entry>, k: nat)
    requires k <= |log| && HasOpened(log[..k])
    ensures HasOpened(log)
  {
    var j :| 0 <= j < k && log[..k][j].Opened?;
    assert log[j].Opened?;
  }

  lemma LogGrows(c: Client, d: Client, e: Entry)
    requires BackoffFollowsLog(c) && d.log == c.log + [e] && d.running == c.running && d.mode == c.mode && !e.Opened?
    requires c.running && c.mode == Poll ==> d.retry == match e
      case Accepted(_, _, _) => SNTP_RETRY_TIMEOUT
      case Moved(_) => SNTP_RETRY_TIMEOUT
      case Retried(_, _) => NextTimeout(c.retry, SNTP_RETRY_TIMEOUT_MAX)
      case _ => c.retry
    requires e.Retried? ==> e.delay == c.retry
    ensures BackoffFollowsLog(d)
  {
    hide HasOpened;
    assert d.log[..|d.log| - 1] == c.log;
    OpenedAppend(c.log, e);
    forall k | 0 <= k < |d.log| && d.log[k].Retried? && HasOpened(d.log[..k])
      ensures d.log[k].delay == After(SNTP_RETRY_TIMEOUT, SNTP_RETRY_TIMEOUT_MAX, RetriesSinceReset(d.log[..k]))
    {
      assert d.log[..k] == c.log[..k];
    }
  }

  /** A session starts from the initial timeout, whatever the client did before. */
  lemma OpenBackoff(c: Client)
    requires !HasOpened(c.log) && c.running && c.mode == Poll
    ensures BackoffFollowsLog(Open(c))
  {
    hide HasOpened;
    var log := Open(c).log;
    forall k | 0 <= k < |log|
      ensures !HasOpened(log[..k])
    {
      assert log[..k] == c.log[..k];
      if HasOpened(c.log[..k]) {
        OpenedPrefix(c.log, k);
      }
    }
  }

  lemma SendBackoff(c: Client, addr: Addr, env: Env)
    requires Valid(c) && BackoffFollowsLog(c)
    ensures BackoffFollowsLog(SendRequest(c, addr, env))
  {
    hide BackoffFollowsLog, TransmitStamp;
    if env.memOk {
      LogGrows(c, SendRequest(c, addr, env), SendTo(c, addr, TransmitStamp(c.opts, env)));
    } else {
      LogGrows(c, SendRequest(c, addr, env), OutOfMemory(c.current, c.now));
    }
  }

  /** What the backoff depends on. */
  lemma BackoffOnly(c: Client, d: Client)
    requires BackoffFollowsLog(c) && d.log == c.log && d.retry == c.retry && d.running == c.running && d.mode == c.mode
    ensures BackoffFollowsLog(d)
  {
  }

  lemma RequestBackoff(c: Client, env: Env)
    requires Valid(c) && BackoffFollowsLog(c)
    ensures BackoffFollowsLog(Request(c, env))
  {
    hide SendRequest, BackoffFollowsLog;
    LogGrows(c, NoServerAddress(c), NoAddress(c.current, c.now));
    if c.servers[c.current].name.Some? {
      var cleared := SetAddr(c, ANY_ADDR);
      BackoffOnly(c, cleared);
      match env.dns
      case InProgress => BackoffOnly(c, Request(c, env));
      case Resolved(addr) =>
        BackoffOnly(c, SetAddr(cleared, addr));
        SendBackoff(SetAddr(cleared, addr), addr, env);
      case DnsFailed => BackoffOnly(NoServerAddress(c), Request(c, env));
    } else {
      SendBackoff(c, c.servers[c.current].addr, env);
    }
  }

  lemma TryNextBackoff(c: Client, env: Env)
    requires Valid(c) && BackoffFollowsLog(c)
    ensures BackoffFollowsLog(TryNextServer(c, env))
  {
    hide Request, BackoffFollowsLog;
    match Search(|c.servers|, Usable(c.servers), c.current, 1)
    case Some(next) =>
      LogGrows(c, MoveTo(c, next), Moved(next));
      RequestBackoff(MoveTo(c, next), env);
    case None =>
      LogGrows(c, Retry(c), Retried(c.now, c.retry));
  }

  lemma RecvBackoff(c: Client, p: Packet, env: Env)
    requires Valid(c) && c.running && BackoffFollowsLog(c)
    ensures BackoffFollowsLog(Recv(c, p, env))
  {
    hide TryNextServer, Untimeout, ReceivedTime, Classify, BackoffFollowsLog;
    match Classify(c, p)
    case Good => LogGrows(c, Recv(c, p, env), Accepted(c.current, c.now, ReceivedTime(c, p, env)));
    case KissOfDeath => TryNextBackoff(c, env);
    case _ =>
  }

  lemma InitBackoff(c: Client, delay: Option<nat>, env: Env)
    requires Valid(c) && BackoffFollowsLog(c)
    ensures BackoffFollowsLog(Init(c, delay, env))
  {
    hide Request, HasOpened, After, RetriesSinceReset;
    var named := PutName(c, 0, Some(SNTP_SERVER_ADDRESS));
    if !c.running && c.mode == Poll {
      var up := named.(running := true);
      OpenBackoff(up);
      if delay.None? {
        RequestBackoff(Open(up), env);
      } else {
        BackoffOnly(Open(up), Init(c, delay, env));
      }
    }
  }

  lemma StopBackoff(c: Client)
    requires BackoffFollowsLog(c)
    ensures BackoffFollowsLog(Stop(c))
  {
  }

  lemma StepBackoff(c: Client, e: Event)
    requires Enabled(c, e) && BackoffFollowsLog(c)
    ensures BackoffFollowsLog(Step(c, e))
  {
    hide Request, SendRequest, TryNextServer, Recv, Init, Stop, BackoffFollowsLog;
    var d := c.(now := e.env.at);
    BackoffOnly(c, d);
    match e
    case Fire(t, env) =>
      var fired := d.(timers := c.timers - multiset{t});
      BackoffOnly(c, fired);
      RequestBackoff(fired, env);
      TryNextBackoff(fired, env);
    case DnsReply(q, answer, env) =>
      var asked := d.(queries := c.queries - multiset{q});
      BackoffOnly(c, asked);
      TryNextBackoff(asked, env);
      if answer.Some? {
        BackoffOnly(c, SetAddr(asked, answer.value));
        SendBackoff(SetAddr(asked, answer.value), answer.value, env);
      }
    case Receive(p, env) => RecvBackoff(d, p, env);
    case StartUp(delay, env) => InitBackoff(d, delay, env);
    case Halt(_) => StopBackoff(d);
    case SetMode(mode, _) => ModeBackoff(d, mode);
    case SetServer(_, _, _) => BackoffOnly(c, Step(c, e));
    case SetServerName(_, _, _) => BackoffOnly(c, Step(c, e));
  }

  lemma ModeBackoff(c: Client, mode: Mode)
    requires BackoffFollowsLog(c) && !c.running
    ensures BackoffFollowsLog(c.(mode := mode))
  {
  }

  lemma {:induction false} BackoffAlways(states: seq<Client>, events: seq<Event>, i: nat)
    requires IsRun(states, events) && !states[0].running && states[0].log == [] && i < |states|
    ensures BackoffFollowsLog(states[i])
  {
    hide Step, Enabled, After, RetriesSinceReset;
    if i > 0 {
      BackoffAlways(states, events, i - 1);
      StepBackoff(states[i - 1], events[i - 1]);
    }
  }

  /** The delay after `n` retries: it doubles three times, from 15 seconds to two minutes. */
  function DelayAfter(n: nat): nat { 15000 * Pow2(Min(n, 3)) }

  lemma DelayClosed(n: nat)
    ensures After(SNTP_RETRY_TIMEOUT, SNTP_RETRY_TIMEOUT_MAX, n) == DelayAfter(n)
    ensures 15000 <= DelayAfter(n) <= 120000
  {
    hide Doublings, After;
    assert Pow2(1) == 2 && Pow2(2) == 4 && Pow2(3) == 8;
    assert Pow2(4) == 2 * Pow2(3);
    LargestExponent(SNTP_RETRY_TIMEOUT, SNTP_RETRY_TIMEOUT_MAX, 3);
    LargestExponent(SNTP_RETRY_TIMEOUT, SNTP_RETRY_TIMEOUT_MAX, 4);
    ClosedForm(SNTP_RETRY_TIMEOUT, SNTP_RETRY_TIMEOUT_MAX, n);
    assert Min(n, 3) == 0 || Min(n, 3) == 1 || Min(n, 3) == 2 || Min(n, 3) == 3;
  }

  /** In every run, and every poll session of it, whatever earlier sessions left pending and whatever is
      set or disturbs it: the retry timeout, and every delay waited since the session started, follow from the number of
      retries since the last accepted reply or move to a new server. */
  lemma BackoffOverRun(states: seq<Client>, events: seq<Event>, i: nat)
    requires IsRun(states, events) && !states[0].running && states[0].log == [] && i < |states|
    requires states[i].running && states[i].mode == Poll
    ensures states[i].retry == DelayAfter(RetriesSinceReset(states[i].log))
    ensures 15000 <= states[i].retry <= 120000
    ensures forall k :: 0 <= k < |states[i].log| && states[i].log[k].Retried? && HasOpened(states[i].log[..k]) ==>
              states[i].log[k].delay == DelayAfter(RetriesSinceReset(states[i].log[..k]))
  {
    hide Step, Enabled, After, Pow2, Doublings, RetriesSinceReset, HasOpened, DelayAfter;
    BackoffAlways(states, events, i);
    var log := states[i].log;
    DelayClosed(RetriesSinceReset(log));
    forall k | 0 <= k < |log| && log[k].Retried? && HasOpened(log[..k])
      ensures log[k].delay == DelayAfter(RetriesSinceReset(log[..k]))
    {
      DelayClosed(RetriesSinceReset(log[..k]));
    }
  }
}
