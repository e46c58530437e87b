/** The SNTP client of sntp.c as a machine on values: the module's static variables, the
    timers and DNS queries it has pending, and one function for every C function that
    changes them. The class in SntpClient.dfy is proved to implement these functions. */
module SntpMachine {
  import opened Words
  import opened NtpTime
  import opened Backoff
  import opened Rotation

  // Times in milliseconds.
  const SNTP_RECV_TIMEOUT: u32 := 15000
  const SNTP_RETRY_TIMEOUT: u32 := 15000
  const SNTP_RETRY_TIMEOUT_MAX: u32 := 150000
  const SNTP_UPDATE_DELAY: u32 := 3600000

  const SNTP_MSG_LEN: nat := 48
  const SNTP_PORT: nat := 123
  const SNTP_OFFSET_ORIGINATE_TIME: nat := 24
  const SNTP_OFFSET_RECEIVE_TIME: nat := 32
  const SNTP_OFFSET_TRANSMIT_TIME: nat := 40
  const SNTP_MODE_SERVER: nat := 4
  const SNTP_MODE_BROADCAST: nat := 5
  const SNTP_SERVER_ADDRESS: string := "pool.ntp.org"

  /** An IP address; `ip_addr_isany` holds of one of them. */
  type Addr = nat
  const ANY_ADDR: Addr := 0

  datatype Mode = Poll | ListenOnly

  datatype Server = Server(name: Option<string>, addr: Addr, reachability: bv8)

  datatype Handler = RequestTimer | TryNextTimer

  datatype Timer = Timer(handler: Handler, deadline: nat)

  /** An outstanding DNS query. The C callback receives neither field: the name and the
      table index are recorded to state where an answer belongs. */
  datatype Query = Query(name: string, server: nat)

  /** What has happened since the last `sntp_stop`, oldest first. */
  datatype Entry =
    | Sent(server: nat, at: nat, to: Addr, stamp: RawStamp) // a request went out, with this transmit stamp
    | NoSocket(server: nat, at: nat)                        // `udp_sendto` on a stopped client: nothing went out
    | OutOfMemory(server: nat, at: nat)                     // no buffer for a request
    | NoAddress(server: nat, at: nat)                       // the server's address is not known
    | Accepted(server: nat, at: nat, time: UnixStamp)       // a correct reply; what it set the clock to
    | Retried(at: nat, delay: u32)                          // no other server: wait and ask again
    | Opened                                                // a poll session starts
    | Moved(server: nat)                                    // on to another server

  /** SNTP_CHECK_RESPONSE and SNTP_COMP_ROUNDTRIP. */
  datatype Options = Options(check: nat, comp: bool)

  datatype Client = Client(
    opts: Options,
    mode: Mode,
    running: bool,
    servers: seq<Server>,
    current: nat,
    retry: u32,
    lastAddr: Addr,
    lastStamp: RawStamp,
    timers: multiset<Timer>,
    queries: multiset<Query>,
    log: seq<Entry>,
    now: nat)

  datatype DnsResult = Resolved(addr: Addr) | InProgress | DnsFailed

  /** What the environment supplies to one call into the client: the time, the outcome of
      `dns_gethostbyname`, whether `pbuf_alloc` succeeds, and the local system time. */
  datatype Env = Env(at: nat, dns: DnsResult, memOk: bool, local: UnixStamp)

  datatype Packet = Packet(from: Addr, port: nat, data: seq<byte>)

  ghost predicate Valid(c: Client) { c.current < |c.servers| }

  predicate IsUsable(s: Server) { s.addr != ANY_ADDR || s.name.Some? }

  function Usable(servers: seq<Server>): set<nat> {
    set i: nat | i < |servers| && IsUsable(servers[i])
  }

  // ----- Timers -----

  function Arm(c: Client, h: Handler, delay: nat): Client {
    c.(timers := c.timers + multiset{Timer(h, c.now + delay)})
  }

  ghost predicate IsPending(ts: multiset<Timer>, h: Handler) {
    exists t :: t in ts && t.handler == h
  }

  /** `sys_untimeout` removes one pending timer of the handler, if there is one; which of
      several is left open. */
  ghost function Untimeout(ts: multiset<Timer>, h: Handler): (r: multiset<Timer>)
    ensures !IsPending(ts, h) ==> r == ts
    ensures IsPending(ts, h) ==> exists t :: t in ts && t.handler == h && r == ts - multiset{t}
  {
    if IsPending(ts, h) then
      var t :| t in ts && t.handler == h;
      ts - multiset{t}
    else
      ts
  }

  // ----- Sending -----

  function SetAddr(c: Client, addr: Addr): Client
    requires Valid(c)
  {
    c.(servers := c.servers[c.current := c.servers[c.current].(addr := addr)])
  }

  /** The transmit stamp that `sntp_initialize_request` puts into the request. */
  function TransmitStamp(opts: Options, env: Env): RawStamp {
    var stamp := ToNtp(env.local);
    if opts.check >= 2 || opts.comp then RawStamp(U32(stamp.sec), stamp.frac) else RawStamp(0, 0)
  }

  /** A request is handed to the socket, whose error return the source ignores. */
  function SendTo(c: Client, to: Addr, stamp: RawStamp): Entry {
    if c.running then Sent(c.current, c.now, to, stamp) else NoSocket(c.current, c.now)
  }

  /** `udp_sendto` was called for the current server: shift its register. */
  function MarkSent(c: Client, to: Addr, stamp: RawStamp): Client
    requires Valid(c)
  {
    var s := c.servers[c.current];
    c.(servers := c.servers[c.current := s.(reachability := s.reachability << 1)],
       log := c.log + [SendTo(c, to, stamp)])
  }

  /** `sntp_send_request` */
  function SendRequest(c: Client, addr: Addr, env: Env): Client
    requires Valid(c)
  {
    if env.memOk then
      var stamp := TransmitStamp(c.opts, env);
      var sent := MarkSent(c.(lastStamp := if c.opts.check >= 2 then stamp else c.lastStamp), addr, stamp).(
        lastAddr := if c.opts.check >= 1 then addr else c.lastAddr);
      Arm(sent, TryNextTimer, SNTP_RECV_TIMEOUT)
    else
      Arm(c.(log := c.log + [OutOfMemory(c.current, c.now)]), RequestTimer, SNTP_RETRY_TIMEOUT)
  }

  /** The last branch of `sntp_request`: try another server later. */
  function NoServerAddress(c: Client): Client {
    Arm(c.(log := c.log + [NoAddress(c.current, c.now)]), TryNextTimer, SNTP_RETRY_TIMEOUT)
  }

  /** `sntp_request` */
  function Request(c: Client, env: Env): Client
    requires Valid(c)
  {
    var s := c.servers[c.current];
    match s.name
    case Some(name) =>
      var cleared := SetAddr(c, ANY_ADDR);
      (match env.dns
       case InProgress => cleared.(queries := cleared.queries + multiset{Query(name, c.current)})
       case Resolved(addr) => SendRequest(SetAddr(cleared, addr), addr, env)
       case DnsFailed => NoServerAddress(cleared))
    case None =>
      if s.addr == ANY_ADDR then NoServerAddress(c)
      else SendRequest(c, s.addr, env)
  }

  /** `sntp_retry` */
  function Retry(c: Client): Client {
    Arm(c, RequestTimer, c.retry).(
      retry := NextTimeout(c.retry, SNTP_RETRY_TIMEOUT_MAX),
      log := c.log + [Retried(c.now, c.retry)])
  }

  function ResetBackoff(c: Client): Client { c.(retry := SNTP_RETRY_TIMEOUT) }

  function MoveTo(c: Client, next: nat): Client {
    ResetBackoff(c.(current := next, log := c.log + [Moved(next)]))
  }

  /** `sntp_try_next_server`, for any number of servers: with one server the search is empty
      and this is `sntp_retry`. */
  function TryNextServer(c: Client, env: Env): Client
    requires Valid(c)
  {
    match Search(|c.servers|, Usable(c.servers), c.current, 1)
    case Some(next) => Request(MoveTo(c, next), env)
    case None => Retry(c)
  }

  // ----- Receiving -----

  /** `sntp_dns_found` */
  function DnsFound(c: Client, answer: Option<Addr>, env: Env): Client
    requires Valid(c)
  {
    match answer
    case Some(addr) => SendRequest(SetAddr(c, addr), addr, env)
    case None => TryNextServer(c, env)
  }

  /** The value of `err` at the end of the checks in `sntp_recv`: ERR_OK, SNTP_ERR_KOD, or
      one of the two codes that leave the packet without effect. */
  datatype Outcome = Good | KissOfDeath | WaitForCorrect | Broken

  function ReadStamp(data: seq<byte>, offset: nat): RawStamp
    requires offset + 8 <= |data|
  {
    RawStamp(ReadU32(data, offset), ReadU32(data, offset + 4))
  }

  function ReadStamps(data: seq<byte>): Timestamps
    requires |data| == SNTP_MSG_LEN
  {
    Timestamps(ReadStamp(data, SNTP_OFFSET_ORIGINATE_TIME),
               ReadStamp(data, SNTP_OFFSET_RECEIVE_TIME),
               ReadStamp(data, SNTP_OFFSET_TRANSMIT_TIME))
  }

  function Classify(c: Client, p: Packet): (o: Outcome)
    ensures o.Good? ==> |p.data| == SNTP_MSG_LEN
  {
    if c.opts.check >= 1 && !((c.mode != Poll || p.from == c.lastAddr) && p.port == SNTP_PORT) then
      WaitForCorrect
    else if |p.data| != SNTP_MSG_LEN then
      Broken
    else
      var mode := p.data[0] % 8;
      if (c.mode == Poll && mode == SNTP_MODE_SERVER) || (c.mode == ListenOnly && mode == SNTP_MODE_BROADCAST) then
        if p.data[1] == 0 then KissOfDeath
        else if c.opts.check >= 2 && ReadStamps(p.data).orig != c.lastStamp then Broken
        else Good
      else
        WaitForCorrect
  }

  function ReceivedTime(c: Client, p: Packet, env: Env): UnixStamp
    requires |p.data| == SNTP_MSG_LEN
  {
    Process(c.opts.comp, c.opts.check, ReadStamps(p.data), env.local)
  }

  /** A correct reply was processed: its server responded. */
  function Hear(c: Client, time: UnixStamp): Client
    requires Valid(c)
  {
    var s := c.servers[c.current];
    c.(servers := c.servers[c.current := s.(reachability := s.reachability | 1)],
       log := c.log + [Accepted(c.current, c.now, time)])
  }

  /** The next request is due after the update delay; what was pending is cancelled. */
  ghost function Reschedule(c: Client): Client {
    var cancelled := c.(timers := Untimeout(Untimeout(c.timers, TryNextTimer), RequestTimer));
    Arm(ResetBackoff(cancelled), RequestTimer, SNTP_UPDATE_DELAY)
  }

  /** `sntp_recv` */
  ghost function Recv(c: Client, p: Packet, env: Env): Client
    requires Valid(c)
  {
    match Classify(c, p)
    case Good =>
      var heard := Hear(c, ReceivedTime(c, p, env));
      if c.mode == Poll then Reschedule(heard) else heard
    case KissOfDeath => if c.mode == Poll then TryNextServer(c, env) else c
    case WaitForCorrect => c
    case Broken => c
  }

  // ----- Starting and stopping -----

  function Open(c: Client): Client { ResetBackoff(c.(log := c.log + [Opened])) }

  /** `sntp_init`. `delay` is the startup delay, if SNTP_STARTUP_DELAY is set. */
  function Init(c: Client, delay: Option<nat>, env: Env): Client
    requires Valid(c)
  {
    var named := PutName(c, 0, Some(SNTP_SERVER_ADDRESS));
    if c.running then
      named
    else
      var up := named.(running := true);
      match c.mode
      case Poll =>
        if delay.Some? then Arm(Open(up), RequestTimer, delay.value)
        else Request(Open(up), env)
      case ListenOnly => up
  }

  function Unheard(servers: seq<Server>): (r: seq<Server>)
    ensures |r| == |servers|
  {
    seq(|servers|, i requires 0 <= i < |servers| => servers[i].(reachability := 0))
  }

  /** `sntp_stop`. The history starts again. */
  ghost function Stop(c: Client): Client {
    if c.running then
      c.(servers := Unheard(c.servers),
         timers := Untimeout(Untimeout(c.timers, RequestTimer), TryNextTimer),
         running := false,
         log := [])
    else
      c
  }

  // ----- Events and runs -----

  datatype Event =
    | Fire(timer: Timer, env: Env)
    | DnsReply(query: Query, answer: Option<Addr>, env: Env)
    | Receive(packet: Packet, env: Env)
    | StartUp(delay: Option<nat>, env: Env)
    | Halt(env: Env)
    | SetMode(mode: Mode, env: Env)
    | SetServer(index: nat, server: Option<Addr>, env: Env)
    | SetServerName(index: nat, name: Option<string>, env: Env)

  /** `sntp_setserver` and `sntp_setservername` */
  function PutServer(c: Client, index: nat, server: Option<Addr>): Client {
    if index < |c.servers| then
      var addr := if server.Some? then server.value else ANY_ADDR;
      c.(servers := c.servers[index := c.servers[index].(addr := addr, name := None)])
    else c
  }

  function PutName(c: Client, index: nat, name: Option<string>): Client {
    if index < |c.servers| then c.(servers := c.servers[index := c.servers[index].(name := name)]) else c
  }

  /** A timer fires at or after its deadline; packets reach the callback while it is
      registered; the mode is set only while the client is stopped; time does not go back. */
  ghost predicate Enabled(c: Client, e: Event) {
    && Valid(c)
    && c.now <= e.env.at
    && (match e
        case Fire(t, env) => t in c.timers && t.deadline <= env.at
        case DnsReply(q, _, _) => q in c.queries
        case Receive(_, _) => c.running
        case StartUp(_, _) => true
        case Halt(_) => true
        case SetMode(_, _) => !c.running
        case SetServer(_, _, _) => true
        case SetServerName(_, _, _) => true)
  }

  ghost function Step(c: Client, e: Event): Client
    requires Valid(c)
  {
    var c := c.(now := e.env.at);
    match e
    case Fire(t, env) =>
      var fired := c.(timers := c.timers - multiset{t});
      if t.handler == RequestTimer then Request(fired, env) else TryNextServer(fired, env)
    case DnsReply(q, answer, env) => DnsFound(c.(queries := c.queries - multiset{q}), answer, env)
    case Receive(p, env) => Recv(c, p, env)
    case StartUp(delay, env) => Init(c, delay, env)
    case Halt(_) => Stop(c)
    case SetMode(mode, _) => c.(mode := mode)
    case SetServer(index, server, _) => PutServer(c, index, server)
    case SetServerName(index, name, _) => PutName(c, index, name)
  }

  ghost predicate IsRun(states: seq<Client>, events: seq<Event>) {
    && |states| == |events| + 1
    && forall i :: 0 <= i < |events| ==> Enabled(states[i], events[i]) && states[i + 1] == Step(states[i], events[i])
  }

  /** What comes to the client from the network stack. */
  predicate InSession(e: Event) { e.Fire? || e.DnsReply? || e.Receive? }

  /** What the application may call while the client runs. A second `sntp_init` only names
      the first server again. */
  predicate Settings(e: Event) { e.StartUp? || e.SetServer? || e.SetServerName? }

  /** The part of a run between `sntp_init` and `sntp_stop`. */
  ghost predicate IsSession(states: seq<Client>, events: seq<Event>) {
    IsRun(states, events) && forall i :: 0 <= i < |events| ==> InSession(events[i]) || Settings(events[i])
  }

  /** The application leaves the server table alone. */
  predicate TableKept(events: seq<Event>) { forall i :: 0 <= i < |events| ==> InSession(events[i]) }

  /** A stopped poll client with nothing pending, as after power-up. */
  ghost predicate Idle(c: Client) {
    Valid(c) && !c.running && c.timers == multiset{} && c.queries == multiset{} && c.log == []
  }

  /** The state in which a poll session starts: `sntp_init` on an idle client. */
  ghost predicate Opening(c: Client) {
    exists c0: Client, delay: Option<nat>, env: Env ::
      Idle(c0) && c0.mode == Poll && c == Init(c0, delay, env)
  }

  /** Nothing was sent and nothing accepted. */
  ghost predicate Silent(log: seq<Entry>) { forall e :: e in log ==> !e.Sent? && !e.Accepted? }

  // ----- Frame -----

  /** The same client but for addresses, reachability, the current server and what is pending. */
  ghost predicate SameShape(c: Client, d: Client) {
    && |d.servers| == |c.servers| && d.current < |d.servers|
    && d.mode == c.mode && d.opts == c.opts && d.running == c.running && d.now == c.now
    && forall i :: 0 <= i < |c.servers| ==> d.servers[i].name == c.servers[i].name
  }

  lemma SendFrame(c: Client, addr: Addr, env: Env)
    requires Valid(c)
    ensures SameShape(c, SendRequest(c, addr, env)) && SendRequest(c, addr, env).current == c.current
  {
  }

  lemma RequestFrame(c: Client, env: Env)
    requires Valid(c)
    ensures SameShape(c, Request(c, env)) && Request(c, env).current == c.current
  {
    hide SendRequest;
    if c.servers[c.current].name.Some? && env.dns.Resolved? {
      SendFrame(SetAddr(SetAddr(c, ANY_ADDR), env.dns.addr), env.dns.addr, env);
    } else {
      SendFrame(c, c.servers[c.current].addr, env);
    }
  }

  lemma TryNextFrame(c: Client, env: Env)
    requires Valid(c)
    ensures SameShape(c, TryNextServer(c, env))
    ensures TryNextServer(c, env).current == Rotate(|c.servers|, Usable(c.servers), c.current)
  {
    match Search(|c.servers|, Usable(c.servers), c.current, 1)
    case Some(next) =>
      RequestFrame(MoveTo(c, next), env);
    case None =>
  }

  lemma DnsFrame(c: Client, answer: Option<Addr>, env: Env)
    requires Valid(c)
    ensures SameShape(c, DnsFound(c, answer, env))
  {
    match answer
    case Some(addr) => SendFrame(SetAddr(c, addr), addr, env);
    case None => TryNextFrame(c, env);
  }

  lemma HearFrame(c: Client, time: UnixStamp)
    requires Valid(c)
    ensures SameShape(c, Hear(c, time)) && SameShape(c, Reschedule(Hear(c, time)))
  {
    hide Untimeout;
  }

  lemma RecvFrame(c: Client, p: Packet, env: Env)
    requires Valid(c)
    ensures SameShape(c, Recv(c, p, env))
  {
    hide TryNextServer, Classify, ReceivedTime, Hear, Reschedule;
    match Classify(c, p)
    case Good => HearFrame(c, ReceivedTime(c, p, env));
    case KissOfDeath => TryNextFrame(c, env);
    case _ =>
  }

  lemma SessionFrame(c: Client, e: Event)
    requires Enabled(c, e) && InSession(e)
    ensures SameShape(c.(now := e.env.at), Step(c, e))
  {
    var d := c.(now := e.env.at);
    match e
    case Fire(t, env) =>
      RequestFrame(d.(timers := c.timers - multiset{t}), env);
      TryNextFrame(d.(timers := c.timers - multiset{t}), env);
    case DnsReply(q, answer, env) => DnsFrame(d.(queries := c.queries - multiset{q}), answer, env);
    case Receive(p, env) => RecvFrame(d, p, env);
  }

  lemma SettingsFrame(c: Client, e: Event)
    requires Enabled(c, e) && Settings(e) && c.running
    ensures var d := Step(c, e); d == c.(now := e.env.at, servers := d.servers) && |d.servers| == |c.servers|
  {
  }

  lemma InitFrame(c: Client, delay: Option<nat>, env: Env)
    requires Valid(c)
    ensures var d := Init(c, delay, env);
            && Valid(d) && |d.servers| == |c.servers| && d.running && d.mode == c.mode && d.now == c.now
            && d.servers[0].name == Some(SNTP_SERVER_ADDRESS)
  {
    RequestFrame(Open(PutName(c, 0, Some(SNTP_SERVER_ADDRESS)).(running := true)), env);
  }

  lemma StepValid(c: Client, e: Event)
    requires Enabled(c, e)
    ensures Valid(Step(c, e)) && |Step(c, e).servers| == |c.servers| && Step(c, e).now == e.env.at
    ensures Step(c, e).mode == if e.SetMode? then e.mode else c.mode
  {
    match e
    case StartUp(delay, env) => InitFrame(c.(now := env.at), delay, env);
    case Fire(_, _) => SessionFrame(c, e);
    case DnsReply(_, _, _) => SessionFrame(c, e);
    case Receive(_, _) => SessionFrame(c, e);
    case _ =>
  }
}
