/** Concrete runs that show where the whole-run claims stop: the two events that disturb a
    session, timers and DNS answers after `sntp_stop`, and a reply credited to a server that was never asked.
    In all of them a request has gone out before any packet comes in. */
module SntpLimits {
  import opened Words
  import opened NtpTime
  import opened Rotation
  import opened SntpMachine
  import opened SntpRuns
  import opened SntpForfeit
  import opened Reachability

  const NO_STAMP: RawStamp := RawStamp(0, 0)

  function Fresh(): Client {
    Client(Options(0, false), Poll, false,
           [Server(None, ANY_ADDR, 0), Server(Some("b"), ANY_ADDR, 0)], 0, 0,
           ANY_ADDR, RawStamp(0, 0), multiset{}, multiset{}, [], 0)
  }

  function Now(time: nat, dns: DnsResult): Env { Env(time, dns, true, UnixStamp(0, 0)) }

  /** A 48-byte server reply of the given stratum. */
  function Reply(stratum: byte): (p: Packet)
    ensures |p.data| == SNTP_MSG_LEN
  {
    Packet(1, SNTP_PORT, seq(SNTP_MSG_LEN, i => if i == 0 then 4 else if i == 1 then stratum else 0))
  }

  lemma ReplyClassified(c: Client, stratum: byte)
    requires c.opts == Options(0, false) && c.mode == Poll
    ensures Classify(c, Reply(stratum)) == if stratum == 0 then KissOfDeath else Good
  {
  }

  /** A Kiss-of-Death makes the client ask the next server at once: here the second
      request follows the first after one millisecond. */
  lemma KissOfDeathBreaksSpacing(c: Client, e: Event)
    requires c == Init(Fresh(), None, Now(0, Resolved(1)))
    requires e == Receive(Reply(0), Now(1, Resolved(2)))
    ensures IsSession([c, Step(c, e)], [e]) && Opening(c) && Disrupts(c, e)
    ensures !RequestsApart(Step(c, e).log)
  {
    hide Classify, ReceivedTime;
    assert Idle(Fresh());
    ReplyClassified(c, 0);
    ReplyClassified(c.(now := 1), 0);
    assert c.servers[1] == Server(Some("b"), ANY_ADDR, 0);
    assert At(2, 0, 1) == 1 && 1 in Usable(c.servers);
    var d := Step(c, e);
    assert d.log == [Opened, Sent(0, 0, 1, NO_STAMP), Moved(1), Sent(1, 1, 2, NO_STAMP)];
    assert d.log[1].Sent? && d.log[3].Sent?;
  }

  /** The client of `Fresh` after `sntp_init` and a first request to server 0, in all the states that follow here. */
  function Asked(current: nat, addr0: Addr, addr1: Addr, reach1: bv8, timers: multiset<Timer>, queries: multiset<Query>,
                 log: seq<Entry>, now: nat): Client
  {
    Client(Options(0, false), Poll, true,
           [Server(Some(SNTP_SERVER_ADDRESS), addr0, 0), Server(Some("b"), addr1, reach1)],
           current, SNTP_RETRY_TIMEOUT, ANY_ADDR, RawStamp(0, 0), timers, queries, log, now)
  }

  const ASKED_B: Query := Query("b", 1)

  function FirstLog(): seq<Entry> { [Opened, Sent(0, 0, 1, NO_STAMP), Moved(1)] }

  /** Server 0 has not answered in time, and the name of server 1 is being resolved. */
  function Resolving(): Client {
    Asked(1, 1, ANY_ADDR, 0, multiset{}, multiset{ASKED_B}, FirstLog(), 15000)
  }

  lemma ReachesResolving() returns (first: Client, timeout: Event)
    ensures Opening(first) && IsSession([first, Resolving()], [timeout]) && !Disrupts(first, timeout)
    ensures timeout.Fire?
  {
    assert Idle(Fresh());
    first := Init(Fresh(), None, Now(0, Resolved(1)));
    timeout := Fire(Timer(TryNextTimer, 15000), Now(15000, InProgress));
    OpensSending(first);
    FirstTimeout(first, timeout);
  }

  lemma OpensSending(c: Client)
    requires c == Init(Fresh(), None, Now(0, Resolved(1)))
    ensures c == Asked(0, 1, ANY_ADDR, 0, multiset{Timer(TryNextTimer, 15000)}, multiset{},
                       [Opened, Sent(0, 0, 1, NO_STAMP)], 0)
  {
    assert c.servers == Asked(0, 1, ANY_ADDR, 0, multiset{}, multiset{}, [], 0).servers;
    assert c.log == [Opened, Sent(0, 0, 1, NO_STAMP)];
  }

  lemma FirstTimeout(c: Client, e: Event)
    requires c == Asked(0, 1, ANY_ADDR, 0, multiset{Timer(TryNextTimer, 15000)}, multiset{},
                        [Opened, Sent(0, 0, 1, NO_STAMP)], 0)
    requires e == Fire(Timer(TryNextTimer, 15000), Now(15000, InProgress))
    ensures Enabled(c, e) && Step(c, e) == Resolving()
  {
    assert At(2, 0, 1) == 1 && 1 in Usable(c.servers);
    assert c.timers - multiset{Timer(TryNextTimer, 15000)} == multiset{};
    assert Step(c, e).servers == Resolving().servers;
    assert Step(c, e).log == FirstLog();
  }

  /** The log after a late reply from server 0. */
  function HeardLog(): seq<Entry> {
    FirstLog() + [Accepted(1, 15001, Process(false, 0, ReadStamps(Reply(1).data), UnixStamp(0, 0)))]
  }

  function Heard(): Client {
    Asked(1, 1, ANY_ADDR, 1, multiset{Timer(RequestTimer, 3615001)}, multiset{ASKED_B}, HeardLog(), 15001)
  }

  function LateReply(): Event { Receive(Reply(1), Now(15001, DnsFailed)) }

  lemma LateReplyAccepted()
    ensures Enabled(Resolving(), LateReply()) && Classify(Resolving(), LateReply().packet) == Good
    ensures Step(Resolving(), LateReply()) == Heard()
  {
    hide Classify, Reply, Process, ReadStamps;
    var c := Resolving();
    ReplyClassified(c, 1);
    ReplyClassified(c.(now := 15001), 1);
    assert !IsPending(c.timers, TryNextTimer) && !IsPending(c.timers, RequestTimer);
    assert (0 as bv8) | 1 == 1;
    var d := Step(c, LateReply());
    assert d.servers == Heard().servers;
    assert d.timers == multiset{Timer(RequestTimer, 3615001)};
    assert d.log == HeardLog();
  }

  lemma AnsweredLate()
    ensures var e := DnsReply(ASKED_B, Some(2), Now(3615000, DnsFailed));
            && Enabled(Heard(), e)
            && Step(Heard(), e) == Asked(1, 1, 2, 2, multiset{Timer(RequestTimer, 3615001), Timer(TryNextTimer, 3630000)},
                                         multiset{}, HeardLog() + [Sent(1, 3615000, 2, NO_STAMP)], 3615000)
  {
    hide HeardLog;
    var d := Step(Heard(), DnsReply(ASKED_B, Some(2), Now(3615000, DnsFailed)));
    assert (1 as bv8) << 1 == 2;
    assert Heard().queries - multiset{ASKED_B} == multiset{};
    assert d.servers == Asked(1, 1, 2, 2, multiset{}, multiset{}, [], 0).servers;
    assert d.timers == multiset{Timer(RequestTimer, 3615001), Timer(TryNextTimer, 3630000)};
  }

  lemma SecondSend(log: seq<Entry>)
    ensures var c := Asked(1, 1, 2, 2, multiset{Timer(RequestTimer, 3615001), Timer(TryNextTimer, 3630000)},
                           multiset{}, log, 3615000);
            var e := Fire(Timer(RequestTimer, 3615001), Now(3615001, Resolved(2)));
            Enabled(c, e) && Step(c, e).log == log + [Sent(1, 3615001, 2, NO_STAMP)]
  {
  }

  /** A late reply accepted while the next server's name is still being resolved starts a second cycle beside
      the query: when the answer comes an hour later, two requests go out one millisecond apart. */
  lemma ReplyDuringDnsBreaksSpacing() returns (states: seq<Client>, events: seq<Event>)
    ensures IsSession(states, events) && Opening(states[0]) && |events| == 4
    ensures forall i :: 0 <= i < 4 ==> (Disrupts(states[i], events[i]) <==> i == 1)
    ensures events[1].Receive? && Classify(states[1], events[1].packet) == Good
    ensures !RequestsApart(states[4].log)
  {
    hide Step, Enabled, Classify, Process, ReadStamps, Reply, Opening;
    var first, timeout := ReachesResolving();
    assert [first, Resolving()][1] == Resolving();
    var answer := DnsReply(ASKED_B, Some(2), Now(3615000, DnsFailed));
    var second := Fire(Timer(RequestTimer, 3615001), Now(3615001, Resolved(2)));
    LateReplyAccepted();
    AnsweredLate();
    var s3 := Step(Heard(), answer);
    SecondSend(s3.log);
    states := [first, Resolving(), Heard(), s3, Step(s3, second)];
    events := [timeout, LateReply(), answer, second];
    TwoSends(states[4].log);
  }

  lemma TwoSends(log: seq<Entry>)
    requires log == HeardLog() + [Sent(1, 3615000, 2, NO_STAMP)] + [Sent(1, 3615001, 2, NO_STAMP)]
    ensures !RequestsApart(log)
  {
    assert log[4].Sent? && log[4].at == 3615000 && log[5].Sent? && log[5].at == 3615001;
  }

  /** After a Kiss-of-Death there are two receive timeouts; `sntp_stop` cancels one, and
      the other stays set for the stopped client, with no DNS query involved. */
  lemma KissOfDeathOutlivesStop(c: Client, e: Event)
    requires c == Init(Fresh(), None, Now(0, Resolved(1)))
    requires e == Receive(Reply(0), Now(1, Resolved(2)))
    ensures var d := Step(c, e);
            && d.running && d.queries == multiset{}
            && d.timers == multiset{Timer(TryNextTimer, 15000), Timer(TryNextTimer, 15001)}
            && Activities(Stop(d)) == 1
  {
    hide Classify, ReceivedTime, Stop;
    ReplyClassified(c.(now := 1), 0);
    assert At(2, 0, 1) == 1 && 1 in Usable(c.servers);
    var d := Step(c, e);
    assert d.timers == multiset{Timer(TryNextTimer, 15000), Timer(TryNextTimer, 15001)};
    assert Timer(TryNextTimer, 15000) in d.timers && IsPending(d.timers, TryNextTimer);
    StopLeaves(d);
  }

  /** `sntp_stop` cannot cancel a DNS query, and the answer does not check that the client
      still runs. Without the socket nothing goes out, but the address is saved, the call counts as a
      request in the (zero) register, and the receive timeout is set for a stopped client. */
  lemma DnsOutlivesStop(c: Client, q: Query, addr: Addr, env: Env)
    requires Valid(c) && c.running && q in c.queries && c.now <= env.at && env.memOk
    ensures Enabled(Stop(c), DnsReply(q, Some(addr), env))
    ensures var d := Step(Stop(c), DnsReply(q, Some(addr), env));
            && !d.running && d.log == [NoSocket(c.current, env.at)] && d.servers[d.current].addr == addr
            && d.timers == Stop(c).timers + multiset{Timer(TryNextTimer, env.at + SNTP_RECV_TIMEOUT)}
  {
    hide Untimeout;
    var d := Step(Stop(c), DnsReply(q, Some(addr), env));
    assert d.log == [] + [NoSocket(c.current, env.at)];
  }

  /** A Kiss-of-Death that arrives while a name is being resolved moves the client on; the address of the
      second server is then stored as that of the first. */
  lemma KissOfDeathMisplacesAnswer(e: Event, answer: Event)
    requires e == Receive(Reply(0), Now(15001, InProgress)) && answer == DnsReply(ASKED_B, Some(9), Now(15002, DnsFailed))
    ensures var c := Resolving();
            && Enabled(c, e) && Enabled(Step(c, e), answer) && LeavesQueryBehind(c, e)
            && ASKED_B.server == 1
            && Step(Step(c, e), answer).servers[0].addr == 9 && Step(Step(c, e), answer).servers[1].addr == ANY_ADDR
  {
    hide Classify, ReceivedTime;
    var c := Resolving();
    ReplyClassified(c, 0);
    ReplyClassified(c.(now := 15001), 0);
    assert At(2, 1, 1) == 0 && 0 in Usable(c.servers);
    var d := Step(c, e);
    assert d.current == 0 && d.queries == multiset{ASKED_B, Query(SNTP_SERVER_ADDRESS, 0)};
  }

  /** With no check of responses, a late reply from one server makes the next look reachable although
      nothing was ever asked of it. */
  lemma EarlyReplyLooksReachable()
    ensures var c, e := Resolving(), LateReply();
            && Enabled(c, e) && Classify(c, e.packet) == Good
            && GetReachability(Step(c, e), 1) != 0 && Sends(Step(c, e).log, 1) == 0
  {
    hide Sends, HeardLog;
    LateReplyAccepted();
    NothingSent();
  }

  lemma NothingSent()
    ensures Sends(HeardLog(), 1) == 0
  {
    var time := Process(false, 0, ReadStamps(Reply(1).data), UnixStamp(0, 0));
    SendsAppend(FirstLog(), Accepted(1, 15001, time), 1);
    SendsAppend([Opened, Sent(0, 0, 1, NO_STAMP)], Moved(1), 1);
    SendsAppend([Opened], Sent(0, 0, 1, NO_STAMP), 1);
    SendsAppend([], Opened, 1);
    assert [] + [Opened] == [Opened];
    assert [Opened] + [Sent(0, 0, 1, NO_STAMP)] == [Opened, Sent(0, 0, 1, NO_STAMP)];
    assert [Opened, Sent(0, 0, 1, NO_STAMP)] + [Moved(1)] == FirstLog();
  }

  // ----- A listen-only client that sends -----

  const ASKED: Query := Query(SNTP_SERVER_ADDRESS, 0)

  function WithQuery(running: bool, mode: Mode, queries: multiset<Query>, log: seq<Entry>, now: nat): Client {
    Client(Options(0, false), mode, running,
           [Server(Some(SNTP_SERVER_ADDRESS), ANY_ADDR, 0), Server(Some("b"), ANY_ADDR, 0)],
           0, SNTP_RETRY_TIMEOUT, ANY_ADDR, RawStamp(0, 0), multiset{}, queries, log, now)
  }

  lemma StartsAsking()
    ensures Step(Fresh(), StartUp(None, Now(0, InProgress))) == WithQuery(true, Poll, multiset{ASKED}, [Opened], 0)
  {
    var c := Step(Fresh(), StartUp(None, Now(0, InProgress)));
    assert c.servers == WithQuery(true, Poll, multiset{}, [], 0).servers;
    assert c.log == [Opened] && c.queries == multiset{ASKED};
  }

  lemma StopsAsking()
    ensures Step(WithQuery(true, Poll, multiset{ASKED}, [Opened], 0), Halt(Now(1, DnsFailed)))
            == WithQuery(false, Poll, multiset{ASKED}, [], 1)
  {
    var c := WithQuery(true, Poll, multiset{ASKED}, [Opened], 1);
    assert !IsPending(c.timers, TryNextTimer) && !IsPending(c.timers, RequestTimer);
    assert Unheard(c.servers) == c.servers;
  }

  lemma StartsListening()
    ensures Step(WithQuery(false, ListenOnly, multiset{ASKED}, [], 2), StartUp(None, Now(3, DnsFailed)))
            == WithQuery(true, ListenOnly, multiset{ASKED}, [], 3)
  {
    var c := WithQuery(false, ListenOnly, multiset{ASKED}, [], 3);
    assert PutName(c, 0, Some(SNTP_SERVER_ADDRESS)).servers == c.servers;
  }

  /** Start, stop with the name unresolved, change to listen-only, start again: the DNS answer then makes the
      listening client send a request through its socket and set the receive timeout. */
  lemma ListenOnlySends() returns (states: seq<Client>, events: seq<Event>)
    ensures IsRun(states, events) && states[0] == Fresh() && |events| == 5
    ensures events[3].StartUp? && states[4].running && states[4].mode == ListenOnly && events[4].DnsReply?
    ensures states[5].running && states[5].mode == ListenOnly
    ensures states[5].log == [Sent(0, 4, 7, NO_STAMP)] && states[5].timers == multiset{Timer(TryNextTimer, 15004)}
  {
    hide Init, Stop;
    events := [StartUp(None, Now(0, InProgress)), Halt(Now(1, DnsFailed)), SetMode(ListenOnly, Now(2, DnsFailed)),
               StartUp(None, Now(3, DnsFailed)), DnsReply(ASKED, Some(7), Now(4, DnsFailed))];
    StartsAsking();
    StopsAsking();
    StartsListening();
    var s1 := WithQuery(true, Poll, multiset{ASKED}, [Opened], 0);
    var s2 := WithQuery(false, Poll, multiset{ASKED}, [], 1);
    var s3 := WithQuery(false, ListenOnly, multiset{ASKED}, [], 2);
    var s4 := WithQuery(true, ListenOnly, multiset{ASKED}, [], 3);
    states := [Fresh(), s1, s2, s3, s4, Step(s4, events[4])];
    AnswerSends(s4);
  }

  lemma AnswerSends(c: Client)
    requires c == WithQuery(true, ListenOnly, multiset{ASKED}, [], 3)
    ensures var e := DnsReply(ASKED, Some(7), Now(4, DnsFailed)); var d := Step(c, e);
            && Enabled(c, e) && d.running && d.mode == ListenOnly
            && d.log == [Sent(0, 4, 7, NO_STAMP)] && d.timers == multiset{Timer(TryNextTimer, 15004)}
  {
  }
}
