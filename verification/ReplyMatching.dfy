/** Which requests go out and which replies count: a stopped client sends nothing, and under the
    optional checks of sntp.c an accepted reply belongs to the most recent request. */
module ReplyMatching {
  import opened Words
  import opened NtpTime
  import opened Rotation
  import opened SntpMachine

  /** The most recent request since the last stop. */
  function LastRequest(log: seq<Entry>): (r: Option<Entry>)
    ensures r.Some? ==> r.value.Sent?
  {
    if log == [] then None
    else if log[|log| - 1].Sent? then Some(log[|log| - 1])
    else LastRequest(log[..|log| - 1])
  }

  lemma LastRequestAppend(log: seq<Entry>, e: Entry)
    ensures LastRequest(log + [e]) == if e.Sent? then Some(e) else LastRequest(log)
  {
    assert (log + [e])[..|log|] == log;
  }

  lemma {:induction false} SilentHasNoRequest(log: seq<Entry>)
    requires Silent(log)
    ensures LastRequest(log) == None
  {
    if log != [] {
      assert log[|log| - 1] in log;
      SilentHasNoRequest(log[..|log| - 1]);
    }
  }

  /** What the client remembers of the most recent request, as far as it checks replies. */
  ghost predicate Remembers(c: Client) {
    var r := LastRequest(c.log);
    && (c.running || Silent(c.log))
    && (r.Some? && c.opts.check >= 1 ==> c.lastAddr == r.value.to)
    && (r.Some? && c.opts.check >= 2 ==> c.lastStamp == r.value.stamp)
  }

  lemma SendRemembers(c: Client, addr: Addr, env: Env)
    requires Valid(c) && Remembers(c)
    ensures Remembers(SendRequest(c, addr, env))
  {
    hide TransmitStamp;
    LastRequestAppend(c.log, SendTo(c, addr, TransmitStamp(c.opts, env)));
    LastRequestAppend(c.log, OutOfMemory(c.current, c.now));
    if !c.running {
      SilentHasNoRequest(c.log);
    }
  }

  lemma RequestRemembers(c: Client, env: Env)
    requires Valid(c) && Remembers(c)
    ensures Remembers(Request(c, env))
  {
    hide SendRequest, LastRequest;
    LastRequestAppend(c.log, NoAddress(c.current, c.now));
    if c.servers[c.current].name.Some? && env.dns.Resolved? {
      SendRemembers(SetAddr(SetAddr(c, ANY_ADDR), env.dns.addr), env.dns.addr, env);
    } else {
      SendRemembers(c, c.servers[c.current].addr, env);
    }
  }

  lemma TryNextRemembers(c: Client, env: Env)
    requires Valid(c) && Remembers(c)
    ensures Remembers(TryNextServer(c, env))
  {
    hide Request, LastRequest;
    LastRequestAppend(c.log, Retried(c.now, c.retry));
    match Search(|c.servers|, Usable(c.servers), c.current, 1)
    case Some(next) =>
      LastRequestAppend(c.log, Moved(next));
      RequestRemembers(MoveTo(c, next), env);
    case None =>
  }

  lemma RecvRemembers(c: Client, p: Packet, env: Env)
    requires Valid(c) && c.running && Remembers(c)
    ensures Remembers(Recv(c, p, env))
  {
    hide TryNextServer, LastRequest, Untimeout, ReceivedTime;
    TryNextRemembers(c, env);
    if Classify(c, p) == Good {
      LastRequestAppend(c.log, Accepted(c.current, c.now, ReceivedTime(c, p, env)));
    }
  }

  lemma InitRemembers(c: Client, delay: Option<nat>, env: Env)
    requires Valid(c) && Remembers(c)
    ensures Remembers(Init(c, delay, env))
  {
    hide Request, LastRequest;
    var up := PutName(c, 0, Some(SNTP_SERVER_ADDRESS)).(running := true);
    LastRequestAppend(c.log, Opened);
    RequestRemembers(Open(up), env);
  }

  lemma StepRemembers(c: Client, e: Event)
    requires Enabled(c, e) && Remembers(c)
    ensures Remembers(Step(c, e))
  {
    hide Request, SendRequest, TryNextServer, Recv, Init;
    var d := c.(now := e.env.at);
    match e
    case Fire(t, env) =>
      RequestRemembers(d.(timers := c.timers - multiset{t}), env);
      TryNextRemembers(d.(timers := c.timers - multiset{t}), env);
    case DnsReply(q, answer, env) =>
      var asked := d.(queries := c.queries - multiset{q});
      TryNextRemembers(asked, env);
      if answer.Some? {
        SendRemembers(SetAddr(asked, answer.value), answer.value, env);
      }
    case Receive(p, env) => RecvRemembers(d, p, env);
    case StartUp(delay, env) => InitRemembers(d, delay, env);
    case _ =>
  }

  lemma {:induction false} AlwaysRemembers(states: seq<Client>, events: seq<Event>, i: nat)
    requires IsRun(states, events) && states[0].log == [] && i < |states|
    ensures Remembers(states[i])
  {
    hide Step;
    if i > 0 {
      AlwaysRemembers(states, events, i - 1);
      StepRemembers(states[i - 1], events[i - 1]);
    }
  }

  /** In every run, a stopped client has sent nothing and accepted nothing since the stop,
      whatever timers and DNS answers are still about. */
  lemma StoppedIsSilent(states: seq<Client>, events: seq<Event>, i: nat)
    requires IsRun(states, events) && states[0].log == [] && i < |states|
    ensures !states[i].running ==> Silent(states[i].log)
  {
    hide Step, Enabled;
    AlwaysRemembers(states, events, i);
  }

  /** In every run, a reply that a poll client accepts comes from the address the most recent
      request went to (SNTP_CHECK_RESPONSE at least 1), and returns that request's transmit stamp
      as its originate stamp (at least 2). */
  lemma AcceptedReplyMatches(states: seq<Client>, events: seq<Event>, i: nat)
    requires IsRun(states, events) && states[0].log == [] && i < |events|
    requires events[i].Receive? && states[i].mode == Poll && Classify(states[i], events[i].packet) == Good
    requires LastRequest(states[i].log).Some?
    ensures var request := LastRequest(states[i].log).value;
            && (states[i].opts.check >= 1 ==>
                  events[i].packet.from == request.to && events[i].packet.port == SNTP_PORT)
            && (states[i].opts.check >= 2 ==> ReadStamps(events[i].packet.data).orig == request.stamp)
  {
    hide Step, Enabled, ReadStamps;
    AlwaysRemembers(states, events, i);
  }
}
