/** Listen-only mode: a client is silent in it if and only if nothing was pending when it began. */
module SntpListening {
  import opened Words
  import opened NtpTime
  import opened SntpMachine
  import opened SntpRuns
  import opened SntpForfeit

  /** A run from this state that stays in listen-only mode, starts and stops included. */
  ghost predicate Listens(c: Client, states: seq<Client>, events: seq<Event>) {
    IsRun(states, events) && states[0] == c && forall i :: 0 <= i < |states| ==> states[i].mode == ListenOnly
  }

  /** No timer is ever set and nothing is ever attempted. */
  ghost predicate StaysSilent(c: Client) {
    forall states: seq<Client>, events: seq<Event> :: Listens(c, states, events) ==>
      Activities(states[|states| - 1]) == 0 && NoAttempts(states[|states| - 1].log)
  }

  ghost predicate NeverSends(c: Client) {
    forall states: seq<Client>, events: seq<Event> :: Listens(c, states, events) ==>
      forall e :: e in states[|states| - 1].log ==> !e.Sent?
  }

  lemma {:induction false} SessionListens(states: seq<Client>, events: seq<Event>, i: nat)
    requires IsSession(states, events) && states[0].mode == ListenOnly && i < |states|
    ensures states[i].mode == ListenOnly
  {
    hide Step;
    if i > 0 {
      SessionListens(states, events, i - 1);
      StepValid(states[i - 1], events[i - 1]);
    }
  }

  lemma PrependListens(c: Client, e: Event, later: seq<Client>, more: seq<Event>)
    requires Enabled(c, e) && c.mode == ListenOnly && Listens(Step(c, e), later, more)
    ensures Listens(c, [c] + later, [e] + more)
  {
    hide Step;
    var states, events := [c] + later, [e] + more;
    forall i | 0 <= i < |events|
      ensures Enabled(states[i], events[i]) && states[i + 1] == Step(states[i], events[i])
    {
      if i > 0 {
        assert states[i] == later[i - 1] && states[i + 1] == later[i] && events[i] == more[i - 1];
      }
    }
  }

  /** One timer or query is enough: once the client runs, timers and DNS answers alone make it send. */
  lemma NamedSends(c: Client) returns (states: seq<Client>, events: seq<Event>)
    requires Named(c) && c.mode == ListenOnly && Activities(c) >= 1
    ensures Listens(c, states, events) && OnlyTriggers(events) && |states| > 0
    ensures var log := states[|states| - 1].log; log != [] && log[|log| - 1].Sent?
  {
    hide Step, Enabled, Both, Disrupts;
    var a := OneOutstanding(c);
    states, events := Provoke(c, a, Nothing);
    forall i | 0 <= i < |states|
      ensures states[i].mode == ListenOnly
    {
      SessionListens(states, events, i);
    }
  }

  /** The same for a client that does not run yet, after one `sntp_init`. */
  lemma StartedSends(c: Client) returns (states: seq<Client>, events: seq<Event>)
    requires Valid(c) && c.mode == ListenOnly && Activities(c) >= 1
    ensures Listens(c, states, events) && |states| > 0
    ensures var log := states[|states| - 1].log; log != [] && log[|log| - 1].Sent?
  {
    hide Init, Listens, Activities;
    var env := Env(c.now, DnsFailed, false, UnixStamp(0, 0));
    var e := StartUp(None, env);
    var d := Step(c, e);
    assert c.(now := env.at) == c;
    InitFrame(c, None, env);
    StartActivities(c, None, env);
    var later, more := NamedSends(d);
    PrependListens(c, e, later, more);
    states, events := [c] + later, [e] + more;
    assert states[|states| - 1] == later[|later| - 1];
  }

  /** In listen-only mode a client that has attempted nothing so far stays silent, and so much as never sends, if
      and only if no timer is set and no DNS query is out: what an earlier poll session left pending makes it
      send after the next start. */
  lemma SilentExactly(c: Client)
    requires Valid(c) && c.mode == ListenOnly && NoAttempts(c.log)
    ensures StaysSilent(c) <==> Activities(c) == 0
    ensures NeverSends(c) <==> Activities(c) == 0
  {
    hide Listens, Activities;
    if Activities(c) == 0 {
      forall states: seq<Client>, events: seq<Event> | Listens(c, states, events)
        ensures |states| > 0 && Activities(states[|states| - 1]) == 0 && NoAttempts(states[|states| - 1].log)
      {
        SilentAtEnd(c, states, events);
      }
    } else {
      var states, events := StartedSends(c);
      var log := states[|states| - 1].log;
      assert log[|log| - 1] in log;
    }
  }

  lemma SilentAtEnd(c: Client, states: seq<Client>, events: seq<Event>)
    requires Listens(c, states, events) && Activities(c) == 0 && NoAttempts(c.log)
    ensures |states| > 0 && Activities(states[|states| - 1]) == 0 && NoAttempts(states[|states| - 1].log)
  {
    hide Step, NoAttempts, Activities;
    ListenOnlyIsSilent(states, events, |states| - 1);
  }
}
