/** The 8-bit reachability register of every server (section 13 of RFC 5905) against the full
    history of requests and accepted replies. */
module Reachability {
  import opened Words
  import opened Rotation
  import opened SntpMachine

  predicate Bit(r: bv8, k: nat)
    requires k < 8
  {
    match k
    case 0 => r & 1 != 0
    case 1 => r & 2 != 0
    case 2 => r & 4 != 0
    case 3 => r & 8 != 0
    case 4 => r & 16 != 0
    case 5 => r & 32 != 0
    case 6 => r & 64 != 0
    case _ => r & 128 != 0
  }

  lemma ShiftedBit(r: bv8, k: nat)
    requires k < 8
    ensures Bit(r << 1, k) <==> k > 0 && Bit(r, k - 1)
  {
    assert (r << 1) & 1 == 0;
    assert (r << 1) & 2 != 0 <==> r & 1 != 0;
    assert (r << 1) & 4 != 0 <==> r & 2 != 0;
    assert (r << 1) & 8 != 0 <==> r & 4 != 0;
    assert (r << 1) & 16 != 0 <==> r & 8 != 0;
    assert (r << 1) & 32 != 0 <==> r & 16 != 0;
    assert (r << 1) & 64 != 0 <==> r & 32 != 0;
    assert (r << 1) & 128 != 0 <==> r & 64 != 0;
  }

  lemma MarkedBit(r: bv8, k: nat)
    requires k < 8
    ensures Bit(r | 1, k) <==> k == 0 || Bit(r, k)
  {
    assert (r | 1) & 1 != 0;
    assert (r | 1) & 2 == r & 2;
    assert (r | 1) & 4 == r & 4;
    assert (r | 1) & 8 == r & 8;
    assert (r | 1) & 16 == r & 16;
    assert (r | 1) & 32 == r & 32;
    assert (r | 1) & 64 == r & 64;
    assert (r | 1) & 128 == r & 128;
  }

  lemma NonzeroHasBit(r: bv8)
    ensures r != 0 <==> exists k: nat :: k < 8 && Bit(r, k)
  {
    if r != 0 {
      assert r & 1 != 0 || r & 2 != 0 || r & 4 != 0 || r & 8 != 0
          || r & 16 != 0 || r & 32 != 0 || r & 64 != 0 || r & 128 != 0;
      assert Bit(r, 0) || Bit(r, 1) || Bit(r, 2) || Bit(r, 3) || Bit(r, 4) || Bit(r, 5) || Bit(r, 6) || Bit(r, 7);
    }
  }

  // ----- The history -----

  predicate IsSend(e: Entry, i: nat) { e.Sent? && e.server == i }

  predicate IsAccept(e: Entry, i: nat) { e.Accepted? && e.server == i }

  /** How many requests the log records for server `i`. */
  function Sends(log: seq<Entry>, i: nat): nat {
    if log == [] then 0
    else Sends(log[..|log| - 1], i) + if IsSend(log[|log| - 1], i) then 1 else 0
  }

  lemma SendsAppend(log: seq<Entry>, e: Entry, i: nat)
    ensures Sends(log + [e], i) == Sends(log, i) + if IsSend(e, i) then 1 else 0
  {
    assert (log + [e])[..|log|] == log;
  }

  lemma {:induction false} SendsConcat(a: seq<Entry>, b: seq<Entry>, i: nat)
    ensures Sends(a + b, i) == Sends(a, i) + Sends(b, i)
  {
    if b == [] {
      assert a + b == a;
    } else {
      SendsConcat(a, b[..|b| - 1], i);
      assert a + b == (a + b[..|b| - 1]) + [b[|b| - 1]];
      SendsAppend(a + b[..|b| - 1], b[|b| - 1], i);
    }
  }

  /** A reply was accepted while server `i` was current, and exactly `k` requests have been
      sent to it since. */
  ghost predicate Heard(log: seq<Entry>, i: nat, k: nat) {
    exists b :: 0 <= b < |log| && IsAccept(log[b], i) && Sends(log[b..], i) == k
  }

  /** The (k+1)-th most recent request to server `i` was followed by an accepted reply
      before the next one. */
  ghost predicate Answered(log: seq<Entry>, i: nat, k: nat) {
    exists a, b :: 0 <= a < b < |log| && IsSend(log[a], i) && IsAccept(log[b], i)
                && Sends(log[a..], i) == k + 1 && Sends(log[b..], i) == k
  }

  lemma HeardAppend(log: seq<Entry>, e: Entry, i: nat, k: nat)
    ensures Heard(log + [e], i, k)
            <==> if IsSend(e, i) then k > 0 && Heard(log, i, k - 1)
                 else Heard(log, i, k) || (IsAccept(e, i) && k == 0)
  {
    var longer := log + [e];
    forall b | 0 <= b < |log|
      ensures longer[b] == log[b]
      ensures Sends(longer[b..], i) == Sends(log[b..], i) + if IsSend(e, i) then 1 else 0
    {
      assert longer[b..] == log[b..] + [e];
      SendsAppend(log[b..], e, i);
    }
    assert longer[|log|..] == [e];
    SendsAppend([], e, i);
    assert [] + [e] == [e];
    if IsAccept(e, i) && k == 0 {
      assert IsAccept(longer[|log|], i) && Sends(longer[|log|..], i) == 0;
    }
    if IsSend(e, i) && k > 0 && Heard(log, i, k - 1) {
      var b :| 0 <= b < |log| && IsAccept(log[b], i) && Sends(log[b..], i) == k - 1;
      assert IsAccept(longer[b], i);
    }
    if !IsSend(e, i) && Heard(log, i, k) {
      var b :| 0 <= b < |log| && IsAccept(log[b], i) && Sends(log[b..], i) == k;
      assert IsAccept(longer[b], i);
    }
  }

  lemma {:induction false} LastSend(log: seq<Entry>, i: nat) returns (a: nat)
    requires Sends(log, i) > 0
    ensures a < |log| && IsSend(log[a], i) && Sends(log[a..], i) == 1
  {
    var init, e := log[..|log| - 1], log[|log| - 1];
    if IsSend(e, i) {
      a := |log| - 1;
      assert log[a..] == [] + [e];
      SendsAppend([], e, i);
    } else {
      a := LastSend(init, i);
      assert log[a..] == init[a..] + [e];
      SendsAppend(init[a..], e, i);
    }
  }

  lemma SendsFrom(log: seq<Entry>, i: nat, b: nat)
    requires b <= |log|
    ensures Sends(log, i) == Sends(log[..b], i) + Sends(log[b..], i)
  {
    assert log == log[..b] + log[b..];
    SendsConcat(log[..b], log[b..], i);
  }

  lemma HeardAfterSend(log: seq<Entry>, i: nat, k: nat)
    requires k < Sends(log, i) && Heard(log, i, k)
    ensures Answered(log, i, k)
  {
    hide Sends;
    var b :| 0 <= b < |log| && IsAccept(log[b], i) && Sends(log[b..], i) == k;
    SendsFrom(log, i, b);
    var a := LastSend(log[..b], i);
    assert log[a..] == log[..b][a..] + log[b..];
    SendsConcat(log[..b][a..], log[b..], i);
    assert IsSend(log[a], i) && Sends(log[a..], i) == k + 1;
  }

  /** For requests that were made, being heard since is being answered; beyond the last
      of them only an early reply remains, accepted before any request to the server. */
  lemma HeardIsAnswered(log: seq<Entry>, i: nat, k: nat)
    ensures k < Sends(log, i) ==> (Heard(log, i, k) <==> Answered(log, i, k))
    ensures k >= Sends(log, i) ==> !Answered(log, i, k)
    ensures k > Sends(log, i) ==> !Heard(log, i, k)
  {
    hide Sends;
    forall b | 0 <= b < |log|
      ensures Sends(log[b..], i) <= Sends(log, i)
    {
      SendsFrom(log, i, b);
    }
    if k < Sends(log, i) && Heard(log, i, k) {
      HeardAfterSend(log, i, k);
    }
  }

  // ----- The invariant -----

  /** Every bit of every register is the matching place of the history. A stopped client
      has no history: the calls it still makes shift registers that are zero. */
  ghost predicate Refines(c: Client) {
    && (c.running || Silent(c.log))
    && forall i, k: nat :: 0 <= i < |c.servers| && k < 8 ==> (Bit(c.servers[i].reachability, k) <==> Heard(c.log, i, k))
  }

  ghost predicate SameRegisters(c: Client, d: Client) {
    |d.servers| == |c.servers| && forall i :: 0 <= i < |c.servers| ==> d.servers[i].reachability == c.servers[i].reachability
  }

  lemma Grows(c: Client, d: Client, e: Entry)
    requires Refines(c) && |d.servers| == |c.servers| && d.log == c.log + [e]
    requires d.running || (!c.running && !e.Sent? && !e.Accepted?)
    requires forall i :: 0 <= i < |c.servers| ==>
               d.servers[i].reachability
               == if IsSend(e, i) then c.servers[i].reachability << 1
                  else if IsAccept(e, i) then c.servers[i].reachability | 1
                  else c.servers[i].reachability
    ensures Refines(d)
  {
    forall i, k: nat | 0 <= i < |d.servers| && k < 8
      ensures Bit(d.servers[i].reachability, k) <==> Heard(d.log, i, k)
    {
      HeardAppend(c.log, e, i, k);
      ShiftedBit(c.servers[i].reachability, k);
      MarkedBit(c.servers[i].reachability, k);
    }
  }

  lemma StoppedRegister(c: Client, i: nat)
    requires Refines(c) && !c.running && i < |c.servers|
    ensures c.servers[i].reachability == 0 == c.servers[i].reachability << 1
  {
    hide Bit;
    NonzeroHasBit(c.servers[i].reachability);
    forall k: nat | k < 8
      ensures !Bit(c.servers[i].reachability, k)
    {
      assert !Heard(c.log, i, k);
    }
    assert (0 as bv8) << 1 == 0;
  }

  lemma SendRefines(c: Client, addr: Addr, env: Env)
    requires Valid(c) && Refines(c)
    ensures Refines(SendRequest(c, addr, env))
  {
    if env.memOk {
      if !c.running {
        StoppedRegister(c, c.current);
      }
      Grows(c, SendRequest(c, addr, env), SendTo(c, addr, TransmitStamp(c.opts, env)));
    } else {
      Grows(c, SendRequest(c, addr, env), OutOfMemory(c.current, c.now));
    }
  }

  lemma RequestRefines(c: Client, env: Env)
    requires Valid(c) && Refines(c)
    ensures Refines(Request(c, env))
  {
    match c.servers[c.current].name
    case Some(_) =>
      var cleared := SetAddr(c, ANY_ADDR);
      assert SameRegisters(c, cleared) && Refines(cleared);
      Grows(cleared, NoServerAddress(cleared), NoAddress(c.current, c.now));
      if env.dns.Resolved? {
        var found := SetAddr(cleared, env.dns.addr);
        assert SameRegisters(c, found) && Refines(found);
        SendRefines(found, env.dns.addr, env);
      }
    case None =>
      Grows(c, NoServerAddress(c), NoAddress(c.current, c.now));
      SendRefines(c, c.servers[c.current].addr, env);
  }

  lemma TryNextRefines(c: Client, env: Env)
    requires Valid(c) && Refines(c)
    ensures Refines(TryNextServer(c, env))
  {
    match Search(|c.servers|, Usable(c.servers), c.current, 1)
    case Some(next) =>
      Grows(c, MoveTo(c, next), Moved(next));
      RequestRefines(MoveTo(c, next), env);
    case None =>
      Grows(c, Retry(c), Retried(c.now, c.retry));
  }

  lemma RecvRefines(c: Client, p: Packet, env: Env)
    requires Valid(c) && c.running && Refines(c)
    ensures Refines(Recv(c, p, env))
  {
    match Classify(c, p)
    case Good =>
      hide ReceivedTime;
      var time := ReceivedTime(c, p, env);
      Grows(c, Hear(c, time), Accepted(c.current, c.now, time));
      if c.mode == Poll {
        assert Refines(Reschedule(Hear(c, time)));
      }
    case KissOfDeath => TryNextRefines(c, env);
    case _ =>
  }

  lemma InitRefines(c: Client, delay: Option<nat>, env: Env)
    requires Valid(c) && Refines(c)
    ensures Refines(Init(c, delay, env))
  {
    var named := PutName(c, 0, Some(SNTP_SERVER_ADDRESS));
    assert SameRegisters(c, named) && Refines(named);
    if !c.running {
      var up := named.(running := true);
      Grows(named, Open(up), Opened);
      RequestRefines(Open(up), env);
    }
  }

  lemma StopRefines(c: Client)
    requires Refines(c)
    ensures Refines(Stop(c))
  {
    if c.running {
      assert Stop(c).log == [];
    }
  }

  lemma StepRefines(c: Client, e: Event)
    requires Enabled(c, e) && Refines(c)
    ensures Refines(Step(c, e))
  {
    hide Request, TryNextServer, SendRequest, Recv, Init, Stop;
    var d := c.(now := e.env.at);
    assert Refines(d);
    match e
    case Fire(t, env) =>
      RequestRefines(d.(timers := c.timers - multiset{t}), env);
      TryNextRefines(d.(timers := c.timers - multiset{t}), env);
    case DnsReply(q, answer, env) =>
      var asked := d.(queries := c.queries - multiset{q});
      match answer {
        case None => TryNextRefines(asked, env);
        case Some(addr) =>
          assert SameRegisters(asked, SetAddr(asked, addr)) && Refines(SetAddr(asked, addr));
          SendRefines(SetAddr(asked, addr), addr, env);
      }
    case Receive(p, env) => RecvRefines(d, p, env);
    case StartUp(delay, env) => InitRefines(d, delay, env);
    case Halt(_) => StopRefines(d);
    case SetMode(_, _) =>
    case SetServer(_, _, _) => assert SameRegisters(d, Step(c, e));
    case SetServerName(_, _, _) => assert SameRegisters(d, Step(c, e));
  }

  /** In every run, with any number of starts and stops, every register is the
      last eight places of the history since the last stop. */
  lemma {:induction false} RegisterRefinesHistory(states: seq<Client>, events: seq<Event>, i: nat)
    requires IsRun(states, events) && i < |states|
    requires states[0].log == [] && forall s :: s in states[0].servers ==> s.reachability == 0
    ensures Refines(states[i])
  {
    hide Step, Enabled;
    if i > 0 {
      RegisterRefinesHistory(states, events, i - 1);
      StepRefines(states[i - 1], events[i - 1]);
    }
  }

  /** `sntp_getreachability` */
  function GetReachability(c: Client, index: nat): bv8 {
    if index < |c.servers| then c.servers[index].reachability else 0
  }

  /** Whether a reply was accepted for server `i` before any request to it, and is
      still among the last eight places. */
  ghost predicate EarlyReplyShows(log: seq<Entry>, i: nat) {
    Sends(log, i) < 8 && Heard(log, i, Sends(log, i))
  }

  /** Bit `k` says whether the (k+1)-th most recent request was answered, for every request
      that was made. The register is nonzero iff one of the last eight requests since the
      last stop was answered, or a reply was accepted before the first of them. */
  lemma ReachabilityMeaning(states: seq<Client>, events: seq<Event>, i: nat, server: nat)
    requires IsRun(states, events) && i < |states|
    requires states[0].log == [] && forall s :: s in states[0].servers ==> s.reachability == 0
    requires server < |states[i].servers|
    ensures var c := states[i];
            forall k: nat :: k < 8 && k < Sends(c.log, server) ==>
              (Bit(c.servers[server].reachability, k) <==> Answered(c.log, server, k))
    ensures GetReachability(states[i], server) != 0
            <==> || (exists k: nat :: k < 8 && Answered(states[i].log, server, k))
                 || EarlyReplyShows(states[i].log, server)
  {
    hide Step, Enabled, Sends, Heard, Answered, Bit;
    RegisterRefinesHistory(states, events, i);
    var c := states[i];
    NonzeroHasBit(c.servers[server].reachability);
    forall k: nat
      ensures k < Sends(c.log, server) ==> (Heard(c.log, server, k) <==> Answered(c.log, server, k))
      ensures k >= Sends(c.log, server) ==> !Answered(c.log, server, k)
      ensures k > Sends(c.log, server) ==> !Heard(c.log, server, k)
    {
      HeardIsAnswered(c.log, server, k);
    }
    MeaningFromBits(c, server);
  }

  lemma MeaningFromBits(c: Client, server: nat)
    requires Refines(c) && server < |c.servers|
    requires forall k: nat :: k < Sends(c.log, server) ==> (Heard(c.log, server, k) <==> Answered(c.log, server, k))
    requires forall k: nat :: k >= Sends(c.log, server) ==> !Answered(c.log, server, k)
    requires forall k: nat :: k > Sends(c.log, server) ==> !Heard(c.log, server, k)
    ensures (exists k: nat :: k < 8 && Bit(c.servers[server].reachability, k))
            <==> || (exists k: nat :: k < 8 && Answered(c.log, server, k))
                 || EarlyReplyShows(c.log, server)
  {
    hide Sends, Heard, Answered, Bit;
    var n := Sends(c.log, server);
    if k: nat :| k < 8 && Bit(c.servers[server].reachability, k) {
      assert Heard(c.log, server, k);
      assert k < n || k == n;
    }
    if k: nat :| k < 8 && Answered(c.log, server, k) {
      assert Heard(c.log, server, k);
      assert Bit(c.servers[server].reachability, k);
    }
    if EarlyReplyShows(c.log, server) {
      assert Bit(c.servers[server].reachability, n);
    }
  }
}
