/** What goes over the wire, byte by byte: which packets the client accepts and what they do, and what a
    request says and to whom. */
module SntpPackets {
  import opened Words
  import opened NtpTime
  import opened Rotation
  import opened SntpMachine
  import opened SntpRuns
  import opened ReplyMatching

  // ----- Packets in -----

  /** The first byte of an NTP packet: leap indicator, version and mode. */
  function FirstByte(li: nat, vn: nat, mode: nat): nat { 64 * li + 8 * vn + mode }

  ghost predicate HasMode(b: byte, mode: nat) {
    exists li: nat, vn: nat :: li < 4 && vn < 8 && b as int == FirstByte(li, vn, mode)
  }

  lemma ModeBits(b: byte, mode: nat)
    requires mode < 8
    ensures HasMode(b, mode) <==> b % 8 == mode
  {
    if b % 8 == mode {
      assert b as int == FirstByte(b / 64, (b / 8) % 8, mode);
    }
  }

  /** A 32-bit field in network order. */
  function Field(data: seq<byte>, k: nat): int
    requires k + 4 <= |data|
  {
    16777216 * (data[k] as int) + 65536 * (data[k + 1] as int) + 256 * (data[k + 2] as int) + data[k + 3]
  }

  lemma FieldsAreStamps(data: seq<byte>)
    requires |data| == 48
    ensures var s := ReadStamps(data);
            && s.orig.sec as int == Field(data, 24) && s.orig.frac as int == Field(data, 28)
            && s.recv.sec as int == Field(data, 32) && s.recv.frac as int == Field(data, 36)
            && s.xmit.sec as int == Field(data, 40) && s.xmit.frac as int == Field(data, 44)
  {
  }

  /** The three timestamps of a packet, of which the sender has written the seconds and fractions in network order. */
  function StampsOf(data: seq<byte>): Timestamps
    requires |data| == 48
  {
    FieldsAreStamps(data);
    Timestamps(RawStamp(Field(data, 24), Field(data, 28)), RawStamp(Field(data, 32), Field(data, 36)),
               RawStamp(Field(data, 40), Field(data, 44)))
  }

  /** A packet that is meant for the client: a server's reply from the address and port asked, or a broadcast. */
  ghost predicate Addressed(c: Client, p: Packet) {
    && |p.data| == 48 && HasMode(p.data[0], if c.mode == Poll then 4 else 5)
    && (c.opts.check >= 1 ==> p.port == 123 && (c.mode == Poll ==> p.from == c.lastAddr))
  }

  /** It returns the stamp of the client's request, at the check level that asks for it. */
  predicate Returns(stamp: RawStamp, check: nat, p: Packet)
    requires |p.data| == 48
  {
    check >= 2 ==> Field(p.data, 24) == stamp.sec && Field(p.data, 28) == stamp.frac
  }

  /** The client has accepted the packet: the current server has answered, its time is handed on, and in poll mode
      the next request is due in an hour. */
  ghost predicate Accepts(c: Client, d: Client, p: Packet, env: Env)
    requires Valid(c) && |p.data| == 48
  {
    var s := c.servers[c.current];
    && d.log == c.log + [Accepted(c.current, env.at, Process(c.opts.comp, c.opts.check, StampsOf(p.data), env.local))]
    && d.servers == c.servers[c.current := s.(reachability := s.reachability | 1)] && d.current == c.current
    && d.queries == c.queries && d.running == c.running && d.lastAddr == c.lastAddr && d.lastStamp == c.lastStamp
    && (if c.mode == Poll
        then d.retry == 15000 && d.timers == Untimeout(Untimeout(c.timers, TryNextTimer), RequestTimer)
                                             + multiset{Timer(RequestTimer, env.at + 3600000)}
        else d.retry == c.retry && d.timers == c.timers)
  }

  ghost predicate OtherUsable(c: Client, j: nat) {
    j < |c.servers| && j != c.current && (c.servers[j].addr != 0 || c.servers[j].name.Some?)
  }

  /** How many places after the current server an entry comes, going up the table and on from its start. */
  function Ahead(c: Client, j: nat): int { if j > c.current then j - c.current else j + |c.servers| - c.current }

  /** The client has moved on to the next server up the table that has a name or an address, or retries if there is none. */
  ghost predicate MovesOn(c: Client, d: Client, env: Env) {
    || (&& OtherUsable(c, d.current) && c.log + [Moved(d.current)] <= d.log
        && forall j: nat :: OtherUsable(c, j) ==> Ahead(c, d.current) <= Ahead(c, j))
    || ((forall j: nat :: !OtherUsable(c, j)) && d.current == c.current && d.log == c.log + [Retried(env.at, c.retry)])
  }

  lemma TryNextMovesOn(c: Client, env: Env)
    requires Valid(c) && c.now == env.at
    ensures MovesOn(c, TryNextServer(c, env), env)
  {
    hide Request;
    match Search(|c.servers|, Usable(c.servers), c.current, 1)
    case Some(next) =>
      RequestFrame(MoveTo(c, next), env);
      RequestLogs(MoveTo(c, next), env);
      NextIsNearest(c, next);
    case None =>
      forall j: nat | j < |c.servers| && j != c.current
        ensures !OtherUsable(c, j)
      {
        assert At(|c.servers|, c.current, Ahead(c, j)) == j;
      }
  }

  lemma NextIsNearest(c: Client, next: nat)
    requires Valid(c) && Search(|c.servers|, Usable(c.servers), c.current, 1) == Some(next)
    ensures OtherUsable(c, next) && forall j: nat :: OtherUsable(c, j) ==> Ahead(c, next) <= Ahead(c, j)
  {
    var n, usable := |c.servers|, Usable(c.servers);
    var e: nat :| Nearest(n, usable, c.current, 1, e) && next == At(n, c.current, e);
    assert Ahead(c, next) == e;
    forall j: nat | OtherUsable(c, j)
      ensures e <= Ahead(c, j)
    {
      assert At(n, c.current, Ahead(c, j)) == j;
    }
  }

  lemma RequestLogs(c: Client, env: Env)
    requires Valid(c)
    ensures c.log <= Request(c, env).log
  {
  }

  lemma ClassifyByBytes(c: Client, p: Packet)
    ensures Addressed(c, p) && p.data[1] == 0 <==> Classify(c, p) == KissOfDeath
    ensures Addressed(c, p) && p.data[1] != 0 && Returns(c.lastStamp, c.opts.check, p) <==> Classify(c, p) == Good
  {
    if |p.data| == 48 {
      FieldsAreStamps(p.data);
      ModeBits(p.data[0], 4);
      ModeBits(p.data[0], 5);
    }
  }

  /** What every packet does to a running client. One that is addressed to it with a stratum above 0, and returns the stamp if
      that is asked for, is accepted. A stratum of 0 makes a poll client move on. Any other packet changes nothing. */
  lemma ReceiveByBytes(c: Client, p: Packet, env: Env)
    requires Enabled(c, Receive(p, env))
    ensures var d := Step(c, Receive(p, env));
            if Addressed(c, p) && p.data[1] != 0 && Returns(c.lastStamp, c.opts.check, p) then Accepts(c, d, p, env)
            else if Addressed(c, p) && p.data[1] == 0 && c.mode == Poll then MovesOn(c.(now := env.at), d, env)
            else d == c.(now := env.at)
  {
    hide Recv, Accepts, Process, Addressed, Returns, MovesOn, Classify, Field, ReadStamps;
    var d := c.(now := env.at);
    ClassifyByBytes(c, p);
    SameClassification(c, d, p);
    match Classify(c, p)
    case Good => GoodIsAccepted(c, p, env);
    case KissOfDeath => KissMovesOn(d, p, env);
    case _ => OthersIgnored(d, p, env);
  }

  lemma GoodIsAccepted(c: Client, p: Packet, env: Env)
    requires Valid(c) && Classify(c.(now := env.at), p) == Good
    ensures |p.data| == 48 && Accepts(c, Recv(c.(now := env.at), p, env), p, env)
  {
    hide Untimeout, Process, StampsOf, ReceivedTime, Classify, Reschedule;
    GoodIsWhole(c.(now := env.at), p);
    TimeByBytes(c.(now := env.at), p, env);
    Rescheduled(Hear(c.(now := env.at), ReceivedTime(c.(now := env.at), p, env)));
  }

  lemma GoodIsWhole(c: Client, p: Packet)
    requires Classify(c, p) == Good
    ensures |p.data| == 48
  {
  }

  lemma TimeByBytes(c: Client, p: Packet, env: Env)
    requires |p.data| == 48
    ensures ReceivedTime(c, p, env) == Process(c.opts.comp, c.opts.check, StampsOf(p.data), env.local)
  {
    hide Process, Field, ReadStamps;
    FieldsAreStamps(p.data);
  }

  lemma Rescheduled(c: Client)
    ensures var d := Reschedule(c);
            d == c.(retry := 15000, timers := Untimeout(Untimeout(c.timers, TryNextTimer), RequestTimer)
                                              + multiset{Timer(RequestTimer, c.now + 3600000)})
  {
    hide Untimeout;
  }

  lemma KissMovesOn(c: Client, p: Packet, env: Env)
    requires Valid(c) && c.now == env.at && Classify(c, p) == KissOfDeath
    ensures if c.mode == Poll then MovesOn(c, Recv(c, p, env), env) else Recv(c, p, env) == c
  {
    hide TryNextServer, MovesOn, Classify;
    TryNextMovesOn(c, env);
  }

  lemma OthersIgnored(c: Client, p: Packet, env: Env)
    requires Valid(c) && (Classify(c, p) == WaitForCorrect || Classify(c, p) == Broken)
    ensures Recv(c, p, env) == c
  {
    hide Classify;
  }

  predicate AddsAccepted(c: Client, d: Client) { |d.log| > |c.log| && d.log[|c.log|].Accepted? }

  /** In every run, once a poll client has sent a request, a packet is accepted if and only if it is 48 bytes of a server
      reply with a stratum above 0 that, as far as the check level asks, comes from port 123 of the address the last request
      went to and returns that request's transmit stamp. */
  lemma AcceptedExactly(states: seq<Client>, events: seq<Event>, i: nat)
    requires IsRun(states, events) && states[0].log == [] && i < |events|
    requires events[i].Receive? && states[i].mode == Poll && LastRequest(states[i].log).Some?
    ensures var request := LastRequest(states[i].log).value; var p := events[i].packet; var check := states[i].opts.check;
            (|p.data| == 48 && HasMode(p.data[0], 4) && p.data[1] != 0
             && (check >= 1 ==> p.from == request.to && p.port == 123) && Returns(request.stamp, check, p))
            <==> AddsAccepted(states[i], states[i + 1])
  {
    hide Step, Enabled, Process, Field, LastRequest, HasMode;
    AlwaysRemembers(states, events, i);
    ReceiveByBytes(states[i], events[i].packet, events[i].env);
    NotAcceptedOtherwise(states[i], states[i + 1], events[i].env);
  }

  lemma NotAcceptedOtherwise(c: Client, d: Client, env: Env)
    ensures MovesOn(c.(now := env.at), d, env) ==> !AddsAccepted(c, d)
  {
  }

  // ----- Requests out -----

  /** The transmit stamp of a request is the local time, to the microsecond, whenever anything looks at it later; otherwise it
      is left zero. */
  ghost predicate Stamped(opts: Options, stamp: RawStamp, local: UnixStamp) {
    if opts.check >= 2 || opts.comp then UnixTime(Fixed(stamp)) == local else stamp == RawStamp(0, 0)
  }

  /** If the last new entry is a request: the client runs, the request went to the address of its current server, with the
      right stamp, and client and register remember it. */
  ghost predicate SentWell(c: Client, d: Client, env: Env) {
    |d.log| > |c.log| && d.log[|d.log| - 1].Sent? ==>
      var e := d.log[|d.log| - 1];
      && c.running && Valid(d) && e.server == d.current && e.at == c.now
      && e.to == d.servers[d.current].addr && Stamped(c.opts, e.stamp, env.local)
      && (c.opts.check >= 1 ==> d.lastAddr == e.to) && (c.opts.check >= 2 ==> d.lastStamp == e.stamp)
      && d.servers[d.current].reachability & 1 == 0
  }

  lemma StampIsLocalTime(opts: Options, env: Env)
    requires env.local.usec < 1000000
    ensures Stamped(opts, TransmitStamp(opts, env), env.local)
  {
    hide ToNtp, UnixTime, Fixed, S32, U32, ToUnix;
    if opts.check >= 2 || opts.comp {
      var t := ToNtp(env.local);
      SystemTimeRoundTrip(env.local);
      UnixOfFixed(RawStamp(U32(t.sec), t.frac));
      SignedAgain(t.sec);
    }
  }

  lemma SignedAgain(x: s32)
    ensures S32(U32(x)) == x
  {
    U32Of(x, if x < 0 then -1 else 0, if x < 0 then x + TWO_32 else x);
    S32Of(U32(x), if x < 0 then 1 else 0, x);
  }

  lemma SendIsWell(c: Client, addr: Addr, env: Env)
    requires Valid(c) && c.servers[c.current].addr == addr && env.local.usec < 1000000
    ensures SentWell(c, SendRequest(c, addr, env), env)
  {
    hide TransmitStamp, Stamped;
    StampIsLocalTime(c.opts, env);
    var r := c.servers[c.current].reachability;
    assert (r << 1) & 1 == 0;
  }

  lemma SameBefore(c: Client, c': Client, d: Client, env: Env)
    requires SentWell(c', d, env) && c'.log == c.log && c'.running == c.running && c'.now == c.now && c'.opts == c.opts
    ensures SentWell(c, d, env)
  {
  }

  lemma RequestIsWell(c: Client, env: Env)
    requires Valid(c) && env.local.usec < 1000000
    ensures SentWell(c, Request(c, env), env)
  {
    hide SendRequest, Stamped;
    if c.servers[c.current].name.Some? {
      if env.dns.Resolved? {
        var resolved := SetAddr(SetAddr(c, ANY_ADDR), env.dns.addr);
        SendIsWell(resolved, env.dns.addr, env);
        SameBefore(c, resolved, Request(c, env), env);
      }
    } else {
      SendIsWell(c, c.servers[c.current].addr, env);
    }
  }

  lemma TryNextIsWell(c: Client, env: Env)
    requires Valid(c) && env.local.usec < 1000000
    ensures SentWell(c, TryNextServer(c, env), env)
  {
    hide Request, Stamped;
    match Search(|c.servers|, Usable(c.servers), c.current, 1)
    case Some(next) =>
      var moved := MoveTo(c, next);
      RequestIsWell(moved, env);
      RequestLogs(moved, env);
    case None =>
  }

  /** Every request a client sends on a timer, a DNS answer or a Kiss-of-Death goes to the address of the server that is current
      then, and carries the local time of that moment. */
  lemma EveryRequestIsWell(c: Client, e: Event)
    requires Enabled(c, e) && InSession(e) && e.env.local.usec < 1000000
    ensures SentWell(c.(now := e.env.at), Step(c, e), e.env)
  {
    hide Request, SendRequest, TryNextServer, Recv, SentWell;
    var d := c.(now := e.env.at);
    match e
    case Fire(t, env) =>
      var fired := d.(timers := c.timers - multiset{t});
      RequestIsWell(fired, env);
      TryNextIsWell(fired, env);
      SameBefore(d, fired, Step(c, e), env);
    case DnsReply(q, answer, env) =>
      var asked := d.(queries := c.queries - multiset{q});
      match answer {
        case Some(addr) =>
          SendIsWell(SetAddr(asked, addr), addr, env);
          SameBefore(d, SetAddr(asked, addr), Step(c, e), env);
        case None =>
          TryNextIsWell(asked, env);
          SameBefore(d, asked, Step(c, e), env);
      }
    case Receive(p, env) => RecvIsWell(d, p, env);
  }

  lemma RecvIsWell(c: Client, p: Packet, env: Env)
    requires Valid(c) && env.local.usec < 1000000
    ensures SentWell(c, Recv(c, p, env), env)
  {
    hide TryNextServer, Untimeout, Classify, ReceivedTime, Stamped;
    TryNextIsWell(c, env);
  }

  /** The name of a server is resolved anew for every request, and only the current server's entry changes. */
  lemma RequestTable(c: Client, env: Env)
    requires Valid(c)
    ensures var d := Request(c, env); var before := c.servers[c.current];
            && |d.servers| == |c.servers| && d.current == c.current
            && (forall j :: 0 <= j < |c.servers| && j != c.current ==> d.servers[j] == c.servers[j])
            && d.servers[c.current].name == before.name
            && d.servers[c.current].addr == (if before.name.None? then before.addr
                                             else if env.dns.Resolved? then env.dns.addr else 0)
            && (before.name.Some? && env.dns.InProgress? ==> d.servers[c.current].reachability == before.reachability)
  {
  }
}
