/** The mailbox functions of sys_arch.c.wip as code on the two fields of a mailbox and its queue. Between
    any two atomic pieces of a call other tasks may take steps. Every call is proved to add to the run so
    far exactly its own steps, so the claims about runs are claims about this code. */
module MailboxCode {
  import opened Words
  import opened Mailbox

  class Mbox {
    // The fields of sys_mbox_t; `xMbox` says that the handle is not NULL.
    var xMbox: bool
    var xTask: Option<Task>

    // The FreeRTOS queue behind the handle and its history, and where the tasks are.
    const size: nat
    var created: bool
    var queue: seq<Msg>
    var posted: seq<Msg>
    var fetched: seq<Msg>
    var lost: seq<Msg>
    var places: map<Task, Place>

    // The run so far, and the call under way: whose it is, where it began, which steps it has taken.
    ghost var states: seq<System>
    ghost var actions: seq<Action>
    var caller: Task
    ghost var began: nat
    ghost var steps: seq<Action>

    function Sys(): System
      reads this
    {
      System(Shared(xMbox, xTask, created, size, queue, posted, fetched, lost), places)
    }

    function Here(): Place
      reads this
    {
      PlaceOf(Sys(), caller)
    }

    ghost predicate Recorded()
      reads `states, `actions, `caller, `began, `steps
    {
      && IsRun(states, actions) && Start(states[0])
      && began <= |actions| && steps == Own(actions[began..], caller)
    }

    /** The fields are the last state of a run of the machine. */
    ghost predicate Valid()
      reads this
    {
      Recorded() && |states| == |actions| + 1 && states[|actions|] == Sys()
    }

    /** `sys_mbox_new`, when the queue could be created. */
    constructor (size: nat)
      ensures Valid() && actions == [] && this.size == size
      ensures xMbox && xTask == None && queue == [] && forall t: Task :: AtRest(PlaceOf(Sys(), t))
    {
      this.size := size;
      xMbox, xTask, created, queue := true, None, true, [];
      posted, fetched, lost, places := [], [], [], map[];
      caller, began, steps, actions := 0, 0, [], [];
      states := [System(New(size), map[])];
    }

    ghost method Record(a: Action)
      requires Recorded() && Enabled(states[|actions|], a) && Sys() == Step(states[|actions|], a)
      modifies this`states, this`actions, this`steps
      ensures Valid() && actions == old(actions) + [a] && old(states) <= states
      ensures steps == old(steps) + if a.task == caller then [a] else []
    {
      hide Enabled, Step, Start, Own;
      steps := steps + if a.task == caller then [a] else [];
      assert (actions + [a])[began..] == actions[began..] + [a];
      OwnAppend(actions[began..], a, caller);
      states, actions := states + [Sys()], actions + [a];
    }

    method Call(t: Task)
      requires Valid()
      modifies this`caller, this`began, this`steps
      ensures Valid() && caller == t && began == |actions| && steps == []
    {
      caller, began, steps := t, |actions|, [];
      assert actions[began..] == [];
    }

    method GoTo(p: Place)
      modifies this`places
      ensures places == old(places)[caller := p]
    {
      places := places[caller := p];
    }

    /** The call under way has taken step `a`. */
    twostate predicate Took(a: Action)
      reads this
    {
      && Valid() && caller == old(caller) && began == old(began)
      && actions == old(actions) + [a] && old(states) <= states && steps == old(steps) + [a]
    }

    /** The run has gone on, and the call under way has taken these steps. */
    twostate predicate WentOn(own: seq<Action>)
      reads this
    {
      && Valid() && caller == old(caller) && began == old(began)
      && old(actions) <= actions && old(states) <= states && steps == old(steps) + own
    }

    // ----- The atomic pieces -----

    /** The critical section of fetch. */
    method RegisterCaller(unlimited: bool) returns (registered: bool)
      requires Valid() && AtRest(Here())
      modifies this
      ensures Took(Enter(caller, unlimited)) && (registered <==> old(xMbox) && old(xTask) == None)
      ensures Here() == if registered then Fetching(unlimited) else Done(None)
    {
      hide Recorded;
      registered := xMbox && xTask.None?;
      if registered {
        xTask := Some(caller);
      }
      GoTo(if registered then Fetching(unlimited) else Done(None));
      Record(Enter(caller, unlimited));
    }

    method TakeMessage() returns (m: Msg)
      requires queue != []
      modifies this`queue, this`fetched
      ensures m == old(queue)[0] && Sys() == System(Pop(old(Sys()).box), places)
    {
      m := queue[0];
      queue, fetched := queue[1..], fetched + [queue[0]];
    }

    /** `xQueueReceive` is called: a message that is there is returned at once. */
    method ReceiveOrBlock(unlimited: bool) returns (got: Option<Msg>)
      requires Valid() && created && Here() == Fetching(unlimited)
      modifies this
      ensures Took(Receive(caller))
      ensures Here() == if got.Some? then Received(unlimited, got) else Waiting(unlimited)
    {
      hide Recorded;
      got := None;
      if queue != [] {
        var m := TakeMessage();
        got := Some(m);
        GoTo(Received(unlimited, got));
      } else {
        GoTo(Waiting(unlimited));
      }
      Record(Receive(caller));
    }

    /** A blocked `xQueueReceive` returns, with a message if there is one. */
    method Unblock(unlimited: bool) returns (got: Option<Msg>)
      requires Valid() && Here() == Waiting(unlimited)
      modifies this
      ensures Took(if got.Some? then Wake(caller) else TimeOut(caller)) && Here() == Received(unlimited, got)
    {
      hide Recorded;
      got := None;
      if created && queue != [] {
        var m := TakeMessage();
        got := Some(m);
      }
      GoTo(Received(unlimited, got));
      Record(if got.Some? then Wake(caller) else TimeOut(caller));
    }

    /** The end of a round: only the unlimited wait looks at the handle again. */
    method LookAgain(unlimited: bool, got: Option<Msg>) returns (more: bool)
      requires Valid() && Here() == Received(unlimited, got)
      modifies this
      ensures Took(Recheck(caller)) && (more <==> unlimited && old(xMbox) && got.None?)
      ensures Here() == if more then Fetching(true) else Leaving(got)
    {
      hide Recorded;
      more := unlimited && xMbox && got.None?;
      GoTo(if more then Fetching(true) else Leaving(got));
      Record(Recheck(caller));
    }

    method ReleaseMailbox(got: Option<Msg>)
      requires Valid() && Here() == Leaving(got)
      modifies this
      ensures Took(Unregister(caller)) && Here() == Done(got)
    {
      hide Recorded;
      xTask := None;
      GoTo(Done(got));
      Record(Unregister(caller));
    }

    method ReadHandle(p: Place, a: Action) returns (handle: bool)
      requires Valid() && AtRest(Here()) && a.task == caller
      requires (a.StartPost? && p == Posting(a.msg, a.wait)) || (a.StartTry? && p == Trying)
      modifies this
      ensures Took(a) && (handle <==> old(xMbox)) && Here() == if handle then p else Halted
    {
      hide Recorded;
      handle := xMbox;
      GoTo(if handle then p else Halted);
      Record(a);
    }

    /** `xQueueSendToBack`, once it does not block any longer. */
    method SendToBack(msg: Msg, wait: bool) returns (ok: bool)
      requires Valid() && created && Here() == Posting(msg, wait) && (wait ==> |queue| < size)
      modifies this
      ensures Took(if ok then FinishPost(caller) else PostFull(caller)) && (ok <==> |old(queue)| < size)
    {
      hide Recorded;
      ok := |queue| < size;
      if ok {
        queue, posted := queue + [msg], posted + [msg];
      }
      GoTo(Idle);
      Record(if ok then FinishPost(caller) else PostFull(caller));
    }

    method ReceiveAtOnce() returns (got: Option<Msg>)
      requires Valid() && created && Here() == Trying
      modifies this
      ensures Took(FinishTry(caller)) && Here() == Done(got)
      ensures got == if old(queue) == [] then None else Some(old(queue)[0])
      ensures fetched == old(fetched) + if got.Some? then [got.value] else []
    {
      hide Recorded;
      got := None;
      if queue != [] {
        var m := TakeMessage();
        got := Some(m);
      }
      GoTo(Done(got));
      Record(FinishTry(caller));
    }

    method CheckEmpty() returns (empty: bool)
      requires Valid() && AtRest(Here())
      modifies this
      ensures Took(FreeCheck(caller)) && Here() == if empty then FreeChecked else Halted
    {
      hide Recorded;
      empty := xMbox && queue == [];
      GoTo(if empty then FreeChecked else Halted);
      Record(FreeCheck(caller));
    }

    /** The critical section of free. */
    method ClearHandle() returns (waiter: Option<Task>, handle: bool)
      requires Valid() && Here() == FreeChecked
      modifies this
      ensures Took(FreeClear(caller)) && waiter == old(xTask) && handle == old(xMbox)
      ensures Here() == FreeCleared(waiter, handle)
    {
      hide Recorded;
      waiter, handle := xTask, xMbox;
      xMbox := false;
      GoTo(FreeCleared(waiter, handle));
      Record(FreeClear(caller));
    }

    /** `xTaskAbortDelay` of the task that was registered, if it is blocked. */
    method AbortDelay(waiter: Option<Task>, handle: bool)
      requires Valid() && Here() == FreeCleared(waiter, handle)
      modifies this
      ensures Took(FreeAbort(caller)) && Here() == FreeAborted(handle)
    {
      hide Recorded;
      GoTo(FreeAborted(handle));
      if waiter.Some? {
        var p := PlaceOf(Sys(), waiter.value);
        if p.Waiting? {
          places := places[waiter.value := Received(p.unlimited, None)];
        }
      }
      Record(FreeAbort(caller));
    }

    /** `vQueueDelete`, which stops at an assertion if the handle is NULL. */
    method DeleteQueue(handle: bool)
      requires Valid() && Here() == FreeAborted(handle)
      modifies this
      ensures Took(FreeDelete(caller)) && (if handle then old(created) && !created else Here() == Halted)
    {
      DeleterFindsQueue(this);
      hide Recorded;
      if handle {
        created, lost, queue := false, lost + queue, [];
      }
      GoTo(if handle then Idle else Halted);
      Record(FreeDelete(caller));
    }

    /** Other tasks take any number of steps. All they can do to the caller is to abort its wait. */
    method OtherTasks()
      requires Valid()
      modifies this
      ensures WentOn([])
      ensures Here() == old(Here()) || (old(Here()).Waiting? && Here() == Received(old(Here()).unlimited, None))
    {
      hide Step, Enabled, Recorded;
      var n: nat := *;
      while n > 0
        invariant WentOn([])
        invariant Here() == old(Here()) || (old(Here()).Waiting? && Here() == Received(old(Here()).unlimited, None))
      {
        var a: Action := *;
        if a.task != caller && Enabled(Sys(), a) {
          OthersLeave(Sys(), a, caller);
          Adopt(Step(Sys(), a), a);
        }
        n := n - 1;
      }
    }

    method Adopt(s: System, ghost a: Action)
      requires Valid() && Enabled(Sys(), a) && a.task != caller && s == Step(Sys(), a) && s.box.capacity == size
      modifies this
      ensures WentOn([]) && Sys() == s
    {
      hide Enabled, Step, PlaceOf, Recorded;
      Become(s);
      Record(a);
    }

    method Become(s: System)
      requires s.box.capacity == size
      modifies `xMbox, `xTask, `created, `queue, `posted, `fetched, `lost, `places
      ensures Sys() == s
    {
      xMbox, xTask, created, queue := s.box.open, s.box.xTask, s.box.alive, s.box.items;
      posted, fetched, lost, places := s.box.posted, s.box.fetched, s.box.lost, s.places;
    }

    // ----- The functions -----

    /** `xQueueReceive` in full. When it does not return, the queue is gone or the run ends with the
        caller still blocked. */
    method QueueReceive(unlimited: bool) returns (returned: bool, got: Option<Msg>)
      requires Valid() && Here() == Fetching(unlimited)
      modifies this
      ensures Valid() && caller == old(caller) && began == old(began) && old(steps) <= steps
      ensures old(actions) <= actions && old(states) <= states
      ensures if returned then Here() == Received(unlimited, got) else Registered(Here())
    {
      hide Step, Enabled, Recorded, AtRest;
      got := None;
      if !created {
        return false, None;
      }
      got := ReceiveOrBlock(unlimited);
      if got.Some? {
        return true, got;
      }
      var patience: nat := *;
      while Here() == Waiting(unlimited) && patience > 0
        invariant Valid() && caller == old(caller) && began == old(began) && old(steps) <= steps
        invariant old(actions) <= actions && old(states) <= states
        invariant Here() == Waiting(unlimited) || Here() == Received(unlimited, None)
      {
        OtherTasks();
        var timeout: bool := *;
        if Here() == Waiting(unlimited) && ((created && queue != []) || timeout) {
          got := Unblock(unlimited);
          return true, got;
        }
        patience := patience - 1;
      }
      return Here() == Received(unlimited, None), None;
    }

    /** One receive, and whether the fetch goes round again. */
    method Round(unlimited: bool) returns (returned: bool, more: bool, got: Option<Msg>)
      requires Valid() && Here() == Fetching(unlimited)
      modifies this
      ensures Valid() && caller == old(caller) && began == old(began) && old(steps) <= steps
      ensures old(actions) <= actions && old(states) <= states
      ensures if returned then Here() == (if more then Fetching(true) else Leaving(got)) && (more ==> unlimited)
              else Registered(Here())
    {
      hide Step, Enabled, Recorded, PlaceOf;
      OtherTasks();
      returned, got := QueueReceive(unlimited);
      more := false;
      if returned {
        OtherTasks();
        more := LookAgain(unlimited, got);
      }
    }

    /** `sys_arch_mbox_fetch`, with or without a time limit. It returns a message, or no message for
        SYS_ARCH_TIMEOUT; no result means that the run ends with the task still inside. Its own steps begin with the
        critical section, which may turn it away, and end with the release of the mailbox. A message it returns
        is one that a step of this call took from the front of the queue. */
    method Fetch(t: Task, unlimited: bool) returns (r: Option<Option<Msg>>)
      requires Valid() && AtRest(PlaceOf(Sys(), t))
      modifies this
      ensures Valid() && caller == t && began == |old(actions)| && old(actions) <= actions && old(states) <= states
      ensures [Enter(t, unlimited)] <= steps
      ensures r.Some? ==> Here() == Done(r.value)
      ensures r.Some? ==> steps[|steps| - 1] == Unregister(t) || (steps == [Enter(t, unlimited)] && r.value == None)
      ensures r.Some? && r.value.Some? ==>
                exists k: nat :: began <= k < |actions| && TookFromFront(states, actions, k, t, r.value.value)
      ensures r.None? ==> Registered(Here())
    {
      hide Step, Enabled, Recorded, PlaceOf, TookFromFront;
      Call(t);
      ghost var start := Sys();
      var registered := RegisterCaller(unlimited);
      if !registered {
        return Some(None);
      }
      var got: Option<Msg> := None;
      var more := true;
      var patience: nat := *;
      while more
        invariant Valid() && caller == t && began == |old(actions)| && old(actions) <= actions && old(states) <= states
        invariant [Enter(t, unlimited)] <= steps && states[began] == start
        invariant Here() == if more then Fetching(unlimited) else Leaving(got)
        decreases patience, more
      {
        var returned;
        returned, more, got := Round(unlimited);
        if !returned || (more && patience == 0) {
          return None;
        }
        patience := if more then patience - 1 else patience;
      }
      OtherTasks();
      ghost var k, run, did := 0, states, actions;
      if got.Some? {
        k := Taken(this, got.value);
      }
      ReleaseMailbox(got);
      if got.Some? {
        StillTaken(run, did, states, actions, k, t, got.value);
      }
      return Some(got);
    }

    /** `sys_mbox_post`, which waits for room, and `sys_mbox_trypost`, which does not. No result
        means a NULL handle, or a run that ends with the task still inside. */
    method Post(t: Task, msg: Msg, wait: bool) returns (ok: Option<bool>)
      requires Valid() && AtRest(PlaceOf(Sys(), t))
      modifies this
      ensures Valid() && caller == t && began == |old(actions)| && old(actions) <= actions && old(states) <= states
      ensures match ok
              case Some(true) => steps == [StartPost(t, msg, wait), FinishPost(t)]
              case Some(false) => !wait && steps == [StartPost(t, msg, wait), PostFull(t)]
              case None => Here() == Posting(msg, wait) || Here() == Halted
    {
      hide Step, Enabled, Recorded, PlaceOf;
      Call(t);
      var handle := ReadHandle(Posting(msg, wait), StartPost(t, msg, wait));
      if !handle {
        return None;
      }
      var patience: nat := *;
      while patience > 0
        invariant Valid() && caller == t && began == |old(actions)| && old(actions) <= actions && old(states) <= states
        invariant steps == [StartPost(t, msg, wait)] && Here() == Posting(msg, wait)
      {
        OtherTasks();
        if created && (|queue| < size || !wait) {
          var sent := SendToBack(msg, wait);
          return Some(sent);
        }
        patience := patience - 1;
      }
      return None;
    }

    /** `sys_arch_mbox_tryfetch`: the oldest message, or none for SYS_MBOX_EMPTY. No result means a NULL
        handle or a deleted queue. */
    method TryFetch(t: Task) returns (r: Option<Option<Msg>>)
      requires Valid() && AtRest(PlaceOf(Sys(), t))
      modifies this
      ensures Valid() && caller == t && began == |old(actions)| && old(actions) <= actions && old(states) <= states
      ensures r.Some? ==> steps == [StartTry(t), FinishTry(t)] && Here() == Done(r.value)
      ensures r.Some? && r.value.Some? ==> fetched != [] && fetched[|fetched| - 1] == r.value.value
      ensures r.None? ==> Here() == Trying || Here() == Halted
    {
      hide Step, Enabled, Recorded, PlaceOf;
      Call(t);
      var handle := ReadHandle(Trying, StartTry(t));
      if !handle {
        return None;
      }
      OtherTasks();
      if !created {
        return None;
      }
      var got := ReceiveAtOnce();
      return Some(got);
    }

    /** `sys_mbox_free`. It deletes the queue, or stops at an assertion: that nothing is queued, or that another
        free has not been there before. */
    method Free(t: Task) returns (done: bool)
      requires Valid() && AtRest(PlaceOf(Sys(), t))
      modifies this
      ensures Valid() && caller == t && began == |old(actions)| && old(actions) <= actions && old(states) <= states
      ensures done ==> steps == [FreeCheck(t), FreeClear(t), FreeAbort(t), FreeDelete(t)] && !created
      ensures !done ==> Here() == Halted
    {
      hide Step, Enabled, Recorded, AtRest, PlaceOf;
      Call(t);
      var empty := CheckEmpty();
      if !empty {
        return false;
      }
      OtherTasks();
      done := ClearAndDelete();
    }

    method ClearAndDelete() returns (handle: bool)
      requires Valid() && Here() == FreeChecked
      modifies this
      ensures WentOn([FreeClear(caller), FreeAbort(caller), FreeDelete(caller)])
      ensures if handle then !created else Here() == Halted
    {
      hide Step, Enabled, Recorded, PlaceOf;
      var waiter;
      waiter, handle := ClearHandle();
      OtherTasks();
      AbortAndDelete(waiter, handle);
    }

    method AbortAndDelete(waiter: Option<Task>, handle: bool)
      requires Valid() && Here() == FreeCleared(waiter, handle)
      modifies this
      ensures WentOn([FreeAbort(caller), FreeDelete(caller)])
      ensures if handle then !created else Here() == Halted
    {
      hide Step, Enabled, Recorded, PlaceOf;
      AbortDelay(waiter, handle);
      OtherTasks();
      DeleteQueue(handle);
    }
  }

  /** The step in which the call under way took the message it holds. */
  lemma Taken(b: Mbox, m: Msg) returns (k: nat)
    requires b.Valid() && AtRest(PlaceOf(b.states[b.began], b.caller)) && Holds(b.Here()) == Some(m)
    ensures b.began <= k < |b.actions| && TookFromFront(b.states, b.actions, k, b.caller, m)
  {
    HoldsWhatItTook(b.states, b.actions, b.began, |b.actions|, b.caller);
    k :| b.began <= k < |b.actions| && TookFromFront(b.states, b.actions, k, b.caller, m);
  }

  lemma StillTaken(states: seq<System>, actions: seq<Action>, later: seq<System>, more: seq<Action>,
                   k: nat, t: Task, m: Msg)
    requires k < |actions| <= |states| && |more| <= |later| && states <= later && actions <= more
    requires TookFromFront(states, actions, k, t, m)
    ensures TookFromFront(later, more, k, t, m)
  {
  }

  /** A task that has read the handle in `sys_mbox_free` finds the queue still there. */
  lemma DeleterFindsQueue(b: Mbox)
    requires b.Valid()
    ensures Deletes(b.Here()) ==> b.created
  {
    SingleDeletion(b.states, b.actions, |b.actions|);
  }

  lemma OthersLeave(s: System, a: Action, t: Task)
    requires Enabled(s, a) && a.task != t
    ensures var p := PlaceOf(s, t); var q := PlaceOf(Step(s, a), t);
            q == p || (p.Waiting? && q == Received(p.unlimited, None))
    ensures Step(s, a).box.capacity == s.box.capacity
  {
  }

  /** Whatever calls have been made and are under way, the mailbox names its one waiter and has lost and
      invented no message. */
  lemma MailboxSafe(b: Mbox)
    requires b.Valid()
    ensures WaiterNamed(b.Sys())
    ensures b.posted == b.fetched + b.queue + b.lost && |b.queue| <= b.size
  {
    SingleWaiter(b.states, b.actions, |b.actions|);
    Conservation(b.states, b.actions, |b.actions|);
  }
}
