/** What a disturbance costs: from any state with two things outstanding, two requests can be brought
    about at the same time. So spacing and turn-taking hold for as long as nothing disturbs a session, and
    not longer. */
module SntpForfeit {
  import opened Words
  import opened NtpTime
  import opened Rotation
  import opened SntpMachine
  import opened SntpRuns
  import opened SntpSpacing

  /** Up to two of the timers and queries that a client has outstanding. */
  datatype Thread = ByTimer(timer: Timer) | ByQuery(query: Query) | Nothing

  function TimersOf(a: Thread): multiset<Timer> { if a.ByTimer? then multiset{a.timer} else multiset{} }

  function QueriesOf(a: Thread): multiset<Query> { if a.ByQuery? then multiset{a.query} else multiset{} }

  ghost predicate Outstanding(c: Client, a: Thread) { TimersOf(a) <= c.timers && QueriesOf(a) <= c.queries }

  ghost predicate Both(c: Client, a: Thread, b: Thread) {
    TimersOf(a) + TimersOf(b) <= c.timers && QueriesOf(a) + QueriesOf(b) <= c.queries
  }

  lemma OneOf(timers: multiset<Timer>, queries: multiset<Query>)
    returns (a: Thread, otherTimers: multiset<Timer>, otherQueries: multiset<Query>)
    requires |timers| + |queries| > 0
    ensures a != Nothing && timers == TimersOf(a) + otherTimers && queries == QueriesOf(a) + otherQueries
    ensures |otherTimers| + |otherQueries| == |timers| + |queries| - 1
  {
    if timers != multiset{} {
      var t :| t in timers;
      a, otherTimers, otherQueries := ByTimer(t), timers - multiset{t}, queries;
    } else {
      var q :| q in queries;
      a, otherTimers, otherQueries := ByQuery(q), timers, queries - multiset{q};
    }
  }

  lemma TwoOutstanding(c: Client) returns (a: Thread, b: Thread)
    requires Activities(c) >= 2
    ensures Both(c, a, b) && a != Nothing && b != Nothing
  {
    var timers, queries := c.timers, c.queries;
    a, timers, queries := OneOf(timers, queries);
    b, timers, queries := OneOf(timers, queries);
  }

  lemma OneOutstanding(c: Client) returns (a: Thread)
    requires Activities(c) >= 1
    ensures Both(c, a, Nothing) && a != Nothing
  {
    var timers, queries := c.timers, c.queries;
    a, timers, queries := OneOf(timers, queries);
  }

  lemma BothSwapped(c: Client, a: Thread, b: Thread)
    requires Both(c, a, b)
    ensures Both(c, b, a)
  {
  }

  lemma BothOutstanding(c: Client, a: Thread, b: Thread)
    requires Both(c, a, b)
    ensures Outstanding(c, a) && Outstanding(c, b)
  {
  }

  lemma OtherOutstanding(c: Client, d: Client, a: Thread, b: Thread)
    requires Both(c, a, b)
    requires c.timers - TimersOf(a) <= d.timers && c.queries - QueriesOf(a) <= d.queries
    ensures Outstanding(d, b)
  {
  }

  lemma Replaced(c: Client, d: Client, a: Thread, b: Thread, r: Thread)
    requires Both(c, a, b)
    requires d.timers == c.timers - TimersOf(a) + TimersOf(r) && d.queries == c.queries - QueriesOf(a) + QueriesOf(r)
    ensures Both(d, r, b)
  {
  }

  // ----- Going on -----

  /** A session goes on from this state without a disturbance. */
  ghost predicate Continues(c: Client, states: seq<Client>, events: seq<Event>) {
    IsSession(states, events) && states[0] == c && Undisturbed(states, events)
  }

  lemma StandStill(c: Client)
    ensures Continues(c, [c], [])
  {
  }

  lemma Prepend(c: Client, e: Event, later: seq<Client>, more: seq<Event>)
    requires Enabled(c, e) && (InSession(e) || Settings(e)) && !Disrupts(c, e) && Continues(Step(c, e), later, more)
    ensures Continues(c, [c] + later, [e] + more)
  {
    hide Step, Disrupts, InSession, Settings;
    var states, events := [c] + later, [e] + more;
    forall i | 0 <= i < |events|
      ensures Enabled(states[i], events[i]) && states[i + 1] == Step(states[i], events[i])
      ensures (InSession(events[i]) || Settings(events[i])) && !Disrupts(states[i], events[i])
    {
      if i > 0 {
        assert states[i] == later[i - 1] && states[i + 1] == later[i] && events[i] == more[i - 1];
      }
    }
  }

  /** Nothing but timers that fire and DNS answers. */
  predicate OnlyTriggers(events: seq<Event>) { forall e :: e in events ==> e.Fire? || e.DnsReply? }

  // ----- One step towards a request -----

  /** Running, with a name for the first server, as `sntp_init` leaves every client. */
  ghost predicate Named(c: Client) { Valid(c) && c.running && c.servers[0].name.Some? }

  ghost predicate Sendable(c: Client)
    requires Valid(c)
  {
    IsUsable(c.servers[c.current])
  }

  /** What fires the timer, or answers the query, of a thread. */
  function Trigger(a: Thread, time: nat, memOk: bool): Event
    requires a != Nothing
  {
    var env := Env(time, Resolved(1), memOk, UnixStamp(0, 0));
    match a
    case ByTimer(t) => Fire(t, env)
    case ByQuery(q) => DnsReply(q, Some(1), env)
  }

  function Due(a: Thread): nat { if a.ByTimer? then a.timer.deadline else 0 }

  /** The thread sends as soon as it is triggered, if the current server is usable. */
  predicate Ready(a: Thread) { a.ByTimer? ==> a.timer.handler == RequestTimer }

  ghost predicate SentAt(log: seq<Entry>, time: nat) {
    log != [] && log[|log| - 1].Sent? && log[|log| - 1].at == time
  }

  /** One request has been added to the log, and a timer to those that are pending. */
  ghost predicate SentOne(c: Client, d: Client) {
    && Valid(d) && d.log != [] && d.log[..|d.log| - 1] == c.log && SentAt(d.log, c.now) && d.now == c.now
    && c.timers <= d.timers && c.queries == d.queries && Sendable(d) && d.running
  }

  lemma SendSends(c: Client, addr: Addr, env: Env)
    requires Valid(c) && c.running && Sendable(c) && env.memOk
    ensures SentOne(c, SendRequest(c, addr, env))
  {
  }

  lemma RequestSends(c: Client, env: Env)
    requires Valid(c) && c.running && Sendable(c) && env.memOk && env.dns == Resolved(1)
    ensures SentOne(c, Request(c, env))
  {
    hide SendRequest;
    if c.servers[c.current].name.Some? {
      SendSends(SetAddr(SetAddr(c, ANY_ADDR), 1), 1, env);
    } else {
      SendSends(c, c.servers[c.current].addr, env);
    }
  }

  lemma ReadySends(c: Client, a: Thread, time: nat)
    requires Valid(c) && c.running && Sendable(c) && Outstanding(c, a) && a != Nothing && Ready(a)
    requires c.now <= time && Due(a) <= time
    ensures var e := Trigger(a, time, true);
            && Enabled(c, e)
            && SentOne(c.(now := time, timers := c.timers - TimersOf(a), queries := c.queries - QueriesOf(a)), Step(c, e))
  {
    hide Request, SendRequest, SentOne;
    var e := Trigger(a, time, true);
    var d := c.(now := time);
    match a
    case ByTimer(t) =>
      RequestSends(d.(timers := c.timers - multiset{t}), e.env);
      assert c.queries - multiset{} == c.queries;
    case ByQuery(q) =>
      var asked := d.(queries := c.queries - multiset{q});
      SendSends(SetAddr(asked, 1), 1, e.env);
      assert c.timers - multiset{} == c.timers;
      SameBut(asked, SetAddr(asked, 1), Step(c, e));
  }

  lemma SameBut(c: Client, c': Client, d: Client)
    requires SentOne(c', d) && c'.log == c.log && c'.now == c.now && c'.timers == c.timers && c'.queries == c.queries
    ensures SentOne(c, d)
  {
  }

  // ----- Two requests at once -----

  /** With no memory for the request, a usable server leaves a timer for the next request. */
  lemma RequestPostponed(c: Client, env: Env)
    requires Valid(c) && Sendable(c) && !env.memOk && env.dns == Resolved(1)
    ensures var d := Request(c, env);
            && d.timers == c.timers + multiset{Timer(RequestTimer, c.now + SNTP_RETRY_TIMEOUT)}
            && d.queries == c.queries && Valid(d) && Sendable(d)
  {
  }

  /** Moving on ends at a usable server, and leaves a timer for the next request. */
  lemma TryNextPostponed(c: Client, env: Env) returns (t: Timer)
    requires Named(c) && !env.memOk && env.dns == Resolved(1)
    ensures var d := TryNextServer(c, env);
            && t.handler == RequestTimer && d.timers == c.timers + multiset{t} && d.queries == c.queries
            && Valid(d) && Sendable(d)
  {
    hide Request;
    match Search(|c.servers|, Usable(c.servers), c.current, 1)
    case Some(next) =>
      RequestPostponed(MoveTo(c, next), env);
      t := Timer(RequestTimer, c.now + SNTP_RETRY_TIMEOUT);
    case None =>
      assert c.current != 0 ==> At(|c.servers|, c.current, |c.servers| - c.current) == 0;
      t := Timer(RequestTimer, c.now + c.retry);
  }

  /** A trigger takes the client to `d`, with thread `r` in the place of `a`. */
  ghost predicate Moves(c: Client, a: Thread, b: Thread, time: nat, r: Thread)
    requires a != Nothing && Valid(c)
  {
    var e := Trigger(a, time, false);
    var d := Step(c, e);
    Enabled(c, e) && Named(d) && d.now == time && Both(d, r, b) && r != Nothing
  }

  lemma TriggerEnabled(c: Client, a: Thread, b: Thread, time: nat)
    requires Valid(c) && Both(c, a, b) && a != Nothing && c.now <= time && Due(a) <= time
    ensures Enabled(c, Trigger(a, time, false))
  {
    assert a.ByTimer? ==> a.timer in TimersOf(a);
    assert a.ByQuery? ==> a.query in QueriesOf(a);
  }

  lemma MovesTo(c: Client, a: Thread, b: Thread, time: nat, r: Thread)
    requires Named(c) && Both(c, a, b) && a != Nothing && r.ByTimer? && Enabled(c, Trigger(a, time, false))
    requires var d := Step(c, Trigger(a, time, false));
             && d.timers == c.timers - TimersOf(a) + TimersOf(r) && d.queries == c.queries - QueriesOf(a)
    ensures Moves(c, a, b, time, r)
  {
    hide Step, Both, Enabled, TimersOf;
    var e := Trigger(a, time, false);
    SessionFrame(c, e);
    Replaced(c, Step(c, e), a, b, r);
  }

  lemma MadeReady(c: Client, a: Thread, b: Thread, time: nat) returns (r: Thread)
    requires Named(c) && Both(c, a, b) && !Ready(a) && c.now <= time && Due(a) <= time
    ensures Moves(c, a, b, time, r) && Ready(r) && Sendable(Step(c, Trigger(a, time, false)))
  {
    hide TryNextServer, Request, Both, Sendable, Moves;
    var e := Trigger(a, time, false);
    TriggerEnabled(c, a, b, time);
    var t := TryNextPostponed(c.(now := time, timers := c.timers - multiset{a.timer}), e.env);
    r := ByTimer(t);
    assert c.queries - multiset{} == c.queries;
    MovesTo(c, a, b, time, r);
  }

  lemma RequestFails(c: Client, env: Env)
    requires Valid(c) && !Sendable(c)
    ensures var d := Request(c, env);
            && d.timers == c.timers + multiset{Timer(TryNextTimer, c.now + SNTP_RETRY_TIMEOUT)}
            && d.queries == c.queries && Valid(d)
  {
  }

  lemma AnswerPostponed(c: Client, env: Env)
    requires Valid(c) && !env.memOk
    ensures var d := SendRequest(SetAddr(c, 1), 1, env);
            && d.timers == c.timers + multiset{Timer(RequestTimer, c.now + SNTP_RETRY_TIMEOUT)}
            && d.queries == c.queries && Valid(d) && Sendable(d)
  {
  }

  lemma TimerUnstuck(c: Client, t: Timer, b: Thread, time: nat)
    requires Named(c) && !Sendable(c) && Both(c, ByTimer(t), b)
    requires t.handler == RequestTimer && c.now <= time && t.deadline <= time
    ensures Moves(c, ByTimer(t), b, time, ByTimer(Timer(TryNextTimer, time + SNTP_RETRY_TIMEOUT)))
  {
    hide Request, Both, Sendable, Moves;
    var e := Trigger(ByTimer(t), time, false);
    var fired := c.(now := time, timers := c.timers - multiset{t});
    TriggerEnabled(c, ByTimer(t), b, time);
    SameServer(c, fired);
    RequestFails(fired, e.env);
    assert c.queries - multiset{} == c.queries;
    MovesTo(c, ByTimer(t), b, time, ByTimer(Timer(TryNextTimer, time + SNTP_RETRY_TIMEOUT)));
  }

  lemma QueryUnstuck(c: Client, q: Query, b: Thread, time: nat)
    requires Named(c) && Both(c, ByQuery(q), b) && c.now <= time
    ensures Moves(c, ByQuery(q), b, time, ByTimer(Timer(RequestTimer, time + SNTP_RETRY_TIMEOUT)))
    ensures Sendable(Step(c, Trigger(ByQuery(q), time, false)))
  {
    hide SendRequest, Both, Sendable, Moves;
    var e := Trigger(ByQuery(q), time, false);
    TriggerEnabled(c, ByQuery(q), b, time);
    AnswerPostponed(c.(now := time, queries := c.queries - multiset{q}), e.env);
    assert c.timers - multiset{} == c.timers;
    MovesTo(c, ByQuery(q), b, time, ByTimer(Timer(RequestTimer, time + SNTP_RETRY_TIMEOUT)));
  }

  /** At an unusable server, an answer makes it usable, and a request only leads on to the next. */
  lemma Unstuck(c: Client, a: Thread, b: Thread, time: nat) returns (r: Thread)
    requires Named(c) && !Sendable(c) && Both(c, a, b) && a != Nothing && Ready(a) && c.now <= time && Due(a) <= time
    ensures Moves(c, a, b, time, r)
    ensures Ready(r) ==> Sendable(Step(c, Trigger(a, time, false)))
  {
    hide Both, Sendable, Moves, Named, Step;
    match a
    case ByTimer(t) =>
      TimerUnstuck(c, t, b, time);
      r := ByTimer(Timer(TryNextTimer, time + SNTP_RETRY_TIMEOUT));
    case ByQuery(q) =>
      QueryUnstuck(c, q, b, time);
      r := ByTimer(Timer(RequestTimer, time + SNTP_RETRY_TIMEOUT));
  }

  lemma SameServer(c: Client, d: Client)
    requires Valid(c) && d.servers == c.servers && d.current == c.current
    ensures Sendable(d) <==> Sendable(c)
  {
  }

  lemma TriggersDisturbNot(c: Client, a: Thread, time: nat, memOk: bool)
    requires a != Nothing
    ensures var e := Trigger(a, time, memOk); InSession(e) && !Disrupts(c, e) && (e.Fire? || e.DnsReply?)
  {
  }

  /** The log ends with a request made now, or two of them if there were two threads. */
  ghost predicate Provoked(d: Client, two: bool) {
    && SentAt(d.log, d.now)
    && (two ==> |d.log| >= 2 && SentAt(d.log[..|d.log| - 1], d.now))
  }

  lemma SendNow(c: Client, a: Thread, b: Thread, time: nat) returns (states: seq<Client>, events: seq<Event>)
    requires Named(c) && Sendable(c) && Both(c, a, b) && a != Nothing && Ready(a) && Ready(b)
    requires c.now <= time && Due(a) <= time && Due(b) <= time
    ensures Continues(c, states, events) && OnlyTriggers(events)
    ensures |states| > 0 && Provoked(states[|states| - 1], b != Nothing)
  {
    hide Step, Enabled, Continues, Both, Outstanding, Disrupts, TimersOf, QueriesOf, Sendable, SentAt;
    var first := Trigger(a, time, true);
    BothOutstanding(c, a, b);
    ReadySends(c, a, time);
    TriggersDisturbNot(c, a, time, true);
    var d := Step(c, first);
    StandStill(d);
    if b == Nothing {
      Prepend(c, first, [d], []);
      states, events := [c] + [d], [first] + [];
    } else {
      OtherOutstanding(c, d, a, b);
      ReadySends(d, b, time);
      TriggersDisturbNot(d, b, time, true);
      var second := Trigger(b, time, true);
      var last := Step(d, second);
      StandStill(last);
      Prepend(d, second, [last], []);
      Prepend(c, first, [d] + [last], [second] + []);
      states, events := [c] + ([d] + [last]), [first] + ([second] + []);
    }
  }

  /** How far thread `a` is from sending: 1 if it makes the client move to a usable server, 2 if it
      first has to fail at an unusable one. */
  ghost function Distance(c: Client, a: Thread): nat
    requires Valid(c)
  {
    if Sendable(c) then 0 else if Ready(a) then 2 else 1
  }

  /** Two things outstanding can be brought to send a request each, one right after the other and at the
      same time, by timers and DNS answers alone; and one thing to send one. */
  lemma {:induction false} Provoke(c: Client, a: Thread, b: Thread) returns (states: seq<Client>, events: seq<Event>)
    requires Named(c) && Both(c, a, b) && a != Nothing
    ensures Continues(c, states, events) && OnlyTriggers(events)
    ensures |states| > 0 && Provoked(states[|states| - 1], b != Nothing)
    decreases Distance(c, a), (if Ready(a) then 0 else 1) + (if Ready(b) then 0 else 1)
  {
    hide Step, Enabled, Both, Continues, Provoked, Disrupts, Sendable;
    var time := Max(c.now, Max(Due(a), Due(b)));
    if Ready(a) && Sendable(c) && Ready(b) {
      states, events := SendNow(c, a, b, time);
    } else if Ready(a) && Sendable(c) {
      BothSwapped(c, a, b);
      var r := MadeReady(c, b, a, time);
      var e := Trigger(b, time, false);
      BothSwapped(Step(c, e), r, a);
      TriggersDisturbNot(c, b, time, false);
      var later, more := Provoke(Step(c, e), a, r);
      Prepend(c, e, later, more);
      states, events := [c] + later, [e] + more;
    } else {
      var r: Thread;
      if Ready(a) {
        r := Unstuck(c, a, b, time);
      } else {
        r := MadeReady(c, a, b, time);
      }
      var e := Trigger(a, time, false);
      TriggersDisturbNot(c, a, time, false);
      var later, more := Provoke(Step(c, e), r, b);
      Prepend(c, e, later, more);
      states, events := [c] + later, [e] + more;
    }
  }

  // ----- Staying spaced, staying in turn -----

  /** Requests, not counting attempts that sent nothing, are at least 15 seconds apart. */
  ghost predicate RequestsApart(log: seq<Entry>) {
    forall j, k :: 0 <= j < k < |log| && log[j].Sent? && log[k].Sent? ==> log[k].at - log[j].at >= SNTP_RECV_TIMEOUT
  }

  ghost predicate StaysApart(c: Client) {
    forall states: seq<Client>, events: seq<Event> ::
      Continues(c, states, events) ==> RequestsApart(states[|states| - 1].log)
  }

  ghost predicate StaysSpaced(c: Client) {
    forall states: seq<Client>, events: seq<Event> :: Continues(c, states, events) ==> Spaced(states[|states| - 1].log)
  }

  ghost predicate StaysInTurn(c: Client) {
    forall states: seq<Client>, events: seq<Event> :: Continues(c, states, events) ==> Turns(states[|states| - 1].log)
  }

  /** Requests apart, all attempts spaced, and servers taking turns, however the session goes on. */
  ghost predicate StaysOrderly(c: Client) { StaysApart(c) && StaysSpaced(c) && StaysInTurn(c) }

  /** None of the three: each fails in some continuation. */
  ghost predicate Forfeits(c: Client) { !StaysApart(c) && !StaysSpaced(c) && !StaysInTurn(c) }

  lemma OrderlyStays(c: Client)
    requires Orderly(c) && c.running
    ensures StaysOrderly(c)
  {
    hide Continues;
    forall states: seq<Client>, events: seq<Event> | Continues(c, states, events)
      ensures |states| > 0 && Spaced(states[|states| - 1].log) && Turns(states[|states| - 1].log)
    {
      OrderlyAtEnd(c, states, events);
    }
  }

  lemma OrderlyAtEnd(c: Client, states: seq<Client>, events: seq<Event>)
    requires Orderly(c) && c.running && Continues(c, states, events)
    ensures |states| > 0 && Spaced(states[|states| - 1].log) && Turns(states[|states| - 1].log)
  {
    hide Orderly, Step;
    AlwaysOrderly(states, events, |states| - 1);
    var d := states[|states| - 1];
    assert Paced(d) && InTurn(d) by { OrderlyParts(d); }
  }

  lemma OrderlyParts(c: Client)
    requires Orderly(c)
    ensures Paced(c) && InTurn(c)
  {
  }

  lemma TwoSentBreaks(d: Client)
    requires Provoked(d, true)
    ensures !RequestsApart(d.log) && !Spaced(d.log) && !Turns(d.log)
  {
    var last := |d.log| - 1;
    assert d.log[..last][last - 1] == d.log[last - 1];
    assert RestUntil(d.log[last - 1]) > d.log[last].at;
  }

  /** With two things outstanding spacing and turns are forfeited. If need be, a second `sntp_init` names the first
      server; the rest takes timers and DNS answers. */
  lemma TwoForfeit(c: Client)
    requires Valid(c) && c.running && Activities(c) >= 2
    ensures Forfeits(c)
  {
    hide Continues, Provoked, Both, RequestsApart, Spaced, Turns;
    var e := StartUp(None, Env(c.now, DnsFailed, false, UnixStamp(0, 0)));
    var d := Step(c, e);
    SettingsFrame(c, e);
    assert Named(d);
    var a, b := TwoOutstanding(d);
    var later, more := Provoke(d, a, b);
    TwoSentBreaks(later[|later| - 1]);
    Prepend(c, e, later, more);
    var states := [c] + later;
    assert states[|states| - 1] == later[|later| - 1];
  }

  /** One event decides. After an undisturbed session and one more event, requests stay apart, attempts spaced and
      servers in turn, however the session goes on undisturbed, if that event was not a disturbance. If it was, each
      of the three fails in some continuation. */
  lemma DisturbanceForfeits(states: seq<Client>, events: seq<Event>, e: Event)
    requires IsSession(states, events) && Opening(states[0]) && Undisturbed(states, events)
    requires Enabled(states[|events|], e) && InSession(e)
    ensures if Disrupts(states[|events|], e) then Forfeits(Step(states[|events|], e))
            else StaysOrderly(Step(states[|events|], e))
  {
    hide Opening, Disrupts, Step, Orderly, Forfeits, StaysOrderly;
    var c := states[|events|];
    OpeningOrderly(states[0]);
    AlwaysOrderly(states, events, |events|);
    OneUpTo(states, events, |events|);
    if Disrupts(c, e) {
      SingleStep(c, e);
      SessionFrame(c, e);
      TwoForfeit(Step(c, e));
    } else {
      OrderlyStep(c, e);
      OrderlyStays(Step(c, e));
    }
  }

  /** A poll session keeps its requests apart, its attempts spaced and its turns, from every point on and however it
      goes on undisturbed, if and only if it was not disturbed. */
  lemma UndisturbedExactly(states: seq<Client>, events: seq<Event>)
    requires IsSession(states, events) && Opening(states[0])
    ensures Undisturbed(states, events) <==> forall i :: 0 <= i < |states| ==> StaysApart(states[i])
    ensures Undisturbed(states, events) <==> forall i :: 0 <= i < |states| ==> StaysSpaced(states[i])
    ensures Undisturbed(states, events) <==> forall i :: 0 <= i < |states| ==> StaysInTurn(states[i])
  {
    hide Opening, Disrupts, Step, Orderly, StaysApart, StaysSpaced, StaysInTurn, Activities;
    OpeningOrderly(states[0]);
    ExactlyOneActivity(states, events);
    forall i | 0 <= i < |states|
      ensures Undisturbed(states, events) ==> StaysOrderly(states[i])
      ensures Activities(states[i]) != 1 ==> Forfeits(states[i])
    {
      OneUpTo(states, events, i);
      if Undisturbed(states, events) {
        AlwaysOrderly(states, events, i);
        OrderlyStays(states[i]);
      }
      if Activities(states[i]) != 1 {
        SessionValid(states, events, i);
        TwoForfeit(states[i]);
      }
    }
  }

  lemma {:induction false} SessionValid(states: seq<Client>, events: seq<Event>, i: nat)
    requires IsSession(states, events) && Opening(states[0]) && i < |states|
    ensures Valid(states[i])
  {
    hide Step, Opening;
    if i == 0 {
      OpeningFacts(states[0]);
    } else {
      StepValid(states[i - 1], events[i - 1]);
    }
  }

  /** A restart keeps all three, however it goes on undisturbed, if and only if the stop before it left nothing
      pending. (Whatever a stopped client logs leaves something pending.) */
  lemma RestartSpaced(c: Client, delay: Option<nat>, env: Env)
    requires Valid(c) && !c.running && c.mode == Poll && (c.log == [] || Activities(c) > 0)
    ensures if Activities(c) == 0 then StaysOrderly(Init(c, delay, env)) else Forfeits(Init(c, delay, env))
  {
    hide Init, Orderly, Forfeits, StaysOrderly;
    StartActivities(c, delay, env);
    InitFrame(c, delay, env);
    if Activities(c) == 0 {
      assert Idle(c);
      OpeningOrderly(Init(c, delay, env));
      OrderlyStays(Init(c, delay, env));
    } else {
      TwoForfeit(Init(c, delay, env));
    }
  }
}
