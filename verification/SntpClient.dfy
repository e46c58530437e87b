/** The SNTP client in the form of sntp.c: static variables and a server table that the
    callbacks update in place. Every method is proved to take the state the way the
    machine of SntpMachine.dfy does, so the claims about runs are claims about this code. */
module SntpClient {
  import opened Words
  import opened NtpTime
  import opened Backoff
  import opened Rotation
  import opened SystemClock
  import M = SntpMachine

  /** From the bytes of a reply to the wall clock: if the transmit stamp is the server's date
      `unix` + `frac`, in any NTP era, then accepting the packet at counter value `t0` makes `time()` show, `d` true
      ticks later, that date plus the whole seconds since, exactly as long as the counter has not wrapped. */
  lemma PacketBytesToClock(c: M.Client, p: M.Packet, env: M.Env, unix: nat, frac: u32, t0: u32, d: nat, rate: nat)
    requires rate > 0 && !c.opts.comp && M.Classify(c, p) == M.Good
    requires p.data[40..44] == WriteU32(U32(unix + NTP_TO_UNIX)) && p.data[44..48] == WriteU32(frac)
    requires 0 <= unix + U32(t0 + d) / rate - t0 / rate < TWO_32
    ensures var shown := Shown(BaseFor(M.ReceivedTime(c, p, env).sec, t0, rate), U32(t0 + d), rate);
            && shown == unix + U32(t0 + d) / rate - t0 / rate
            && (t0 + d < TWO_32 ==> KeepsTime(shown, unix, frac, d, rate))
            && (rate <= TWO_30 && KeepsTime(shown, unix, frac, d, rate) ==> t0 + d < TWO_32)
  {
    hide ReadU32, WriteU32, Process, Shown, BaseFor, U32, KeepsTime;
    ReadAfterWrite(p.data, 40, U32(unix + NTP_TO_UNIX));
    ReadAfterWrite(p.data, 44, frac);
    WallClock(unix, frac, M.ReadStamps(p.data), c.opts.check, env.local, t0, d, rate);
  }

  /** The two ends of the search in `sntp_try_next_server`. */
  lemma TryNextCases(c: M.Client, env: M.Env)
    requires M.Valid(c)
    ensures var r := Search(|c.servers|, M.Usable(c.servers), c.current, 1);
            M.TryNextServer(c, env)
            == if r.Some? then M.Request(M.MoveTo(c, r.value), env) else M.Retry(c)
  {
  }

  lemma SearchStep(servers: seq<M.Server>, cur: nat, d: nat)
    requires cur < |servers| && d <= |servers|
    ensures var n, usable := |servers|, M.Usable(servers);
            Search(n, usable, cur, d) == if d == n then None
                                         else if M.IsUsable(servers[At(n, cur, d)]) then Some(At(n, cur, d))
                                         else Search(n, usable, cur, d + 1)
  {
  }

  class Sntp {
    const opts: M.Options
    const servers: array<M.Server>
    const clock: Clock
    var opmode: M.Mode
    var running: bool                 // sntp_pcb != NULL
    var currentServer: nat
    var retryTimeout: u32
    var lastServerAddress: M.Addr
    var lastTimestampSent: RawStamp

    // What the network stack holds for the client, and the history.
    ghost var timers: multiset<M.Timer>
    ghost var queries: multiset<M.Query>
    ghost var log: seq<M.Entry>
    ghost var now: nat

    ghost predicate Ok()
      reads this
    {
      0 < servers.Length <= 255 && currentServer < servers.Length && clock.Valid()
    }

    ghost function Snap(): M.Client
      reads this, servers
    {
      M.Client(opts, opmode, running, servers[..], currentServer, retryTimeout,
             lastServerAddress, lastTimestampSent, timers, queries, log, now)
    }

    constructor (opts: M.Options, maxServers: nat, clock: Clock)
      requires 0 < maxServers <= 255 && clock.Valid()
      ensures Ok() && fresh(servers) && this.clock == clock
      ensures M.Idle(Snap()) && opmode == M.Poll && this.opts == opts && servers.Length == maxServers
      ensures forall s :: s in servers[..] ==> s == M.Server(None, M.ANY_ADDR, 0)
    {
      this.opts := opts;
      this.clock := clock;
      servers := new M.Server[maxServers](_ => M.Server(None, M.ANY_ADDR, 0));
      opmode, running, currentServer, retryTimeout := M.Poll, false, 0, 0;
      lastServerAddress, lastTimestampSent := M.ANY_ADDR, RawStamp(0, 0);
      timers, queries, log, now := multiset{}, multiset{}, [], 0;
    }

    ghost method SysTimeout(delay: nat, h: M.Handler)
      modifies this`timers
      ensures Snap() == M.Arm(old(Snap()), h, delay)
    {
      timers := timers + multiset{M.Timer(h, now + delay)};
    }

    ghost method SysUntimeout(h: M.Handler)
      modifies this`timers
      ensures Snap() == old(Snap()).(timers := M.Untimeout(old(timers), h))
    {
      timers := M.Untimeout(timers, h);
    }

    method SetAddress(addr: M.Addr)
      requires Ok()
      modifies servers
      ensures Snap() == M.SetAddr(old(Snap()), addr)
    {
      servers[currentServer] := servers[currentServer].(addr := addr);
      assert servers[..] == old(servers[..])[currentServer := servers[currentServer]];
    }

    method ResetRetryTimeout()
      modifies this`retryTimeout
      ensures Snap() == M.ResetBackoff(old(Snap()))
    {
      retryTimeout := M.SNTP_RETRY_TIMEOUT;
    }

    method SendRequest(addr: M.Addr, env: M.Env)
      requires Ok()
      modifies this, servers
      ensures Ok() && Snap() == M.SendRequest(old(Snap()), addr, env)
    {
      hide M.TransmitStamp, M.MarkSent;
      if env.memOk {
        var stamp := InitializeRequest(env);
        PacketSent(addr, stamp);
        SysTimeout(M.SNTP_RECV_TIMEOUT, M.TryNextTimer);
        if opts.check >= 1 {
          lastServerAddress := addr;
        }
      } else {
        log := log + [M.OutOfMemory(currentServer, now)];
        SysTimeout(M.SNTP_RETRY_TIMEOUT, M.RequestTimer);
      }
    }

    /** `sntp_initialize_request`, as far as the client depends on it: the transmit stamp. */
    method InitializeRequest(env: M.Env) returns (stamp: RawStamp)
      modifies this`lastTimestampSent
      ensures stamp == M.TransmitStamp(opts, env)
      ensures Snap() == old(Snap()).(lastStamp := if opts.check >= 2 then stamp else old(Snap()).lastStamp)
    {
      hide ToNtp, U32;
      stamp := RawStamp(0, 0);
      if opts.check >= 2 || opts.comp {
        var now := ToNtp(env.local);
        stamp := RawStamp(U32(now.sec), now.frac);
        if opts.check >= 2 {
          lastTimestampSent := stamp;
        }
      }
    }

    /** After `udp_sendto`, whose error for a closed socket is ignored: shift the server's register. */
    method PacketSent(to: M.Addr, stamp: RawStamp)
      requires Ok()
      modifies servers, this`log
      ensures Ok() && Snap() == M.MarkSent(old(Snap()), to, stamp)
    {
      servers[currentServer] := servers[currentServer].(reachability := servers[currentServer].reachability << 1);
      assert servers[..] == old(servers[..])[currentServer := servers[currentServer]];
      log := log + [if running then M.Sent(currentServer, now, to, stamp) else M.NoSocket(currentServer, now)];
    }

    method Request(env: M.Env)
      requires Ok()
      modifies this, servers
      ensures Ok() && Snap() == M.Request(old(Snap()), env)
    {
      hide M.SendRequest;
      var address := M.ANY_ADDR;
      var ok: bool;
      var name := servers[currentServer].name;
      if name.Some? {
        // always resolve the name
        SetAddress(M.ANY_ADDR);
        match env.dns {
          case InProgress =>
            queries := queries + multiset{M.Query(name.value, currentServer)};
            return;
          case Resolved(addr) =>
            SetAddress(addr);
            address, ok := addr, true;
          case DnsFailed =>
            ok := false;
        }
      } else {
        address := servers[currentServer].addr;
        ok := address != M.ANY_ADDR;
      }
      if ok {
        SendRequest(address, env);
      } else {
        GiveUpOnAddress();
      }
    }

    method GiveUpOnAddress()
      modifies this`log, this`timers
      ensures Snap() == M.NoServerAddress(old(Snap()))
    {
      log := log + [M.NoAddress(currentServer, now)];
      SysTimeout(M.SNTP_RETRY_TIMEOUT, M.TryNextTimer);
    }

    method Retry()
      requires Ok()
      modifies this`timers, this`retryTimeout, this`log
      ensures Ok() && Snap() == M.Retry(old(Snap()))
    {
      SysTimeout(retryTimeout, M.RequestTimer);
      log := log + [M.Retried(now, retryTimeout)];
      var newRetryTimeout := U32(retryTimeout * 2);
      if newRetryTimeout <= M.SNTP_RETRY_TIMEOUT_MAX && newRetryTimeout > retryTimeout {
        retryTimeout := newRetryTimeout;
      }
    }

    /** A new server is found: start from the initial retry timeout and ask it. */
    method AskNewServer(env: M.Env)
      requires Ok()
      modifies this, servers
      ensures Ok() && Snap() == M.Request(M.MoveTo(old(Snap()), old(currentServer)), env)
    {
      hide M.Request;
      log := log + [M.Moved(currentServer)];
      ResetRetryTimeout();
      Request(env);
    }

    /** The search of `sntp_try_next_server`: one turn round the table. */
    method NextUsable() returns (found: bool)
      requires Ok()
      modifies this`currentServer
      ensures var next := Search(servers.Length, M.Usable(servers[..]), old(currentServer), 1);
              found == next.Some? && currentServer == if found then next.value else old(currentServer)
    {
      hide M.IsUsable, Search, M.Usable;
      var oldServer := currentServer;
      ghost var n, usable := servers.Length, M.Usable(servers[..]);
      var i := 0;
      while i < servers.Length - 1
        invariant i <= n - 1 && currentServer == At(n, oldServer, i)
        invariant Search(n, usable, oldServer, i + 1) == Search(n, usable, oldServer, 1)
      {
        currentServer := currentServer + 1;
        if currentServer >= servers.Length {
          currentServer := 0;
        }
        SearchStep(servers[..], oldServer, i + 1);
        if M.IsUsable(servers[currentServer]) {
          return true;
        }
        i := i + 1;
      }
      SearchStep(servers[..], oldServer, n);
      currentServer := oldServer;
      return false;
    }

    method TryNextServer(env: M.Env)
      requires Ok()
      modifies this, servers
      ensures Ok() && Snap() == M.TryNextServer(old(Snap()), env)
    {
      hide M.Request, M.Retry, M.TryNextServer, M.ResetBackoff, Search, M.Usable;
      TryNextCases(Snap(), env);
      var found := NextUsable();
      if found {
        AskNewServer(env);
      } else {
        Retry();
      }
    }

    method DnsFound(answer: Option<M.Addr>, env: M.Env)
      requires Ok()
      modifies this, servers
      ensures Ok() && Snap() == M.DnsFound(old(Snap()), answer, env)
    {
      match answer
      case Some(addr) =>
        SetAddress(addr);
        SendRequest(addr, env);
      case None =>
        TryNextServer(env);
    }

    /** The system clock changes only when a correct packet is received, and then shows
        the time `sntp_process` made of it. */
    method Recv(p: M.Packet, env: M.Env)
      requires Ok()
      modifies this, servers, clock
      ensures Ok() && Snap() == M.Recv(old(Snap()), p, env)
      ensures clock.ticks == old(clock.ticks)
      ensures M.Classify(old(Snap()), p) == M.Good ==>
                && clock.callbackReceived
                && clock.unixTimeBase == BaseFor(M.ReceivedTime(old(Snap()), p, env).sec, clock.ticks, clock.rate)
      ensures M.Classify(old(Snap()), p) != M.Good ==> unchanged(clock)
    {
      var correct, kod := false, false;
      if !(opts.check >= 1) || ((opmode != M.Poll || p.from == lastServerAddress) && p.port == M.SNTP_PORT) {
        if |p.data| == M.SNTP_MSG_LEN {
          var mode := p.data[0] % 8;
          if (opmode == M.Poll && mode == M.SNTP_MODE_SERVER) || (opmode == M.ListenOnly && mode == M.SNTP_MODE_BROADCAST) {
            if p.data[1] == 0 {
              kod := true;
            } else {
              correct := !(opts.check >= 2 && M.ReadStamps(p.data).orig != lastTimestampSent);
            }
          }
        }
      }
      assert correct <==> M.Classify(Snap(), p) == M.Good;
      assert kod <==> M.Classify(Snap(), p) == M.KissOfDeath;
      if correct {
        Accept(p, env);
      } else if kod && opmode == M.Poll {
        TryNextServer(env);
      }
    }

    method Accept(p: M.Packet, env: M.Env)
      requires Ok() && M.Classify(Snap(), p) == M.Good
      modifies this, servers, clock
      ensures Ok() && Snap() == M.Recv(old(Snap()), p, env)
      ensures clock.ticks == old(clock.ticks) && clock.callbackReceived
      ensures clock.unixTimeBase == BaseFor(M.ReceivedTime(old(Snap()), p, env).sec, clock.ticks, clock.rate)
    {
      hide Process, M.ReadStamps, BaseFor, M.Reschedule, M.Hear;
      var time := Process(opts.comp, opts.check, M.ReadStamps(p.data), env.local);
      clock.SetSystemTimeUs(time.sec, time.usec);
      Hear(time);
      if opmode == M.Poll {
        ScheduleNext();
      }
    }

    method Hear(time: UnixStamp)
      requires Ok()
      modifies servers, this`log
      ensures Ok() && Snap() == M.Hear(old(Snap()), time)
    {
      servers[currentServer] := servers[currentServer].(reachability := servers[currentServer].reachability | 1);
      assert servers[..] == old(servers[..])[currentServer := servers[currentServer]];
      log := log + [M.Accepted(currentServer, now, time)];
    }

    method ScheduleNext()
      modifies this`timers, this`retryTimeout
      ensures Snap() == M.Reschedule(old(Snap()))
    {
      hide M.Untimeout, M.ResetBackoff, M.Arm;
      SysUntimeout(M.TryNextTimer);
      SysUntimeout(M.RequestTimer);
      ResetRetryTimeout();
      SysTimeout(M.SNTP_UPDATE_DELAY, M.RequestTimer);
    }

    method Init(delay: Option<nat>, env: M.Env)
      requires Ok()
      modifies this, servers
      ensures Ok() && Snap() == M.Init(old(Snap()), delay, env)
    {
      SetServerName(0, Some(M.SNTP_SERVER_ADDRESS));
      if !running {
        running := true;
        if opmode == M.Poll {
          log := log + [M.Opened];
          ResetRetryTimeout();
          if delay.Some? {
            SysTimeout(delay.value, M.RequestTimer);
          } else {
            Request(env);
          }
        }
      }
    }

    method ClearReachability()
      modifies servers
      ensures servers[..] == M.Unheard(old(servers[..]))
    {
      var i := 0;
      while i < servers.Length
        invariant i <= servers.Length
        invariant forall k :: 0 <= k < servers.Length ==>
                    servers[k] == if k < i then old(servers[k]).(reachability := 0) else old(servers[k])
      {
        servers[i] := servers[i].(reachability := 0);
        i := i + 1;
      }
    }

    method Stop()
      requires Ok()
      modifies this, servers
      ensures Ok() && Snap() == M.Stop(old(Snap()))
    {
      hide M.Unheard, M.Untimeout;
      if running {
        ClearReachability();
        SysUntimeout(M.RequestTimer);
        SysUntimeout(M.TryNextTimer);
        running := false;
        log := [];
      }
    }

    method GetReachability(index: nat) returns (r: bv8)
      ensures r == if index < servers.Length then servers[index].reachability else 0
    {
      if index < servers.Length {
        return servers[index].reachability;
      }
      return 0;
    }

    method SetServerName(index: nat, name: Option<string>)
      modifies servers
      ensures Snap() == M.PutName(old(Snap()), index, name)
    {
      if index < servers.Length {
        servers[index] := servers[index].(name := name);
        assert servers[..] == old(servers[..])[index := servers[index]];
      }
    }

    method SetServer(index: nat, server: Option<M.Addr>)
      modifies servers
      ensures Snap() == M.PutServer(old(Snap()), index, server)
    {
      if index < servers.Length {
        var addr := if server.Some? then server.value else M.ANY_ADDR;
        servers[index] := servers[index].(addr := addr, name := None);
        assert servers[..] == old(servers[..])[index := servers[index]];
      }
    }

    /** The caller must not change the mode while the client runs. */
    method SetOperatingMode(mode: M.Mode)
      requires !running
      modifies this`opmode
      ensures Snap() == old(Snap()).(mode := mode)
    {
      opmode := mode;
    }

    /** The network stack calls the client: one event of the machine is one call. */
    method Dispatch(e: M.Event)
      requires Ok() && M.Enabled(Snap(), e)
      modifies this, servers, clock
      ensures Ok() && Snap() == M.Step(old(Snap()), e)
    {
      hide M.Request, M.TryNextServer, M.DnsFound, M.Recv, M.Init, M.Stop;
      now := e.env.at;
      match e
      case Fire(t, env) =>
        timers := timers - multiset{t};
        if t.handler == M.RequestTimer {
          Request(env);
        } else {
          TryNextServer(env);
        }
      case DnsReply(q, answer, env) =>
        queries := queries - multiset{q};
        DnsFound(answer, env);
      case Receive(p, env) =>
        Recv(p, env);
      case StartUp(delay, env) =>
        Init(delay, env);
      case Halt(_) =>
        Stop();
      case SetMode(mode, _) =>
        SetOperatingMode(mode);
      case SetServer(index, server, _) =>
        SetServer(index, server);
      case SetServerName(index, name, _) =>
        SetServerName(index, name);
    }
  }
}
