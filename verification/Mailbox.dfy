/** The lwIP mailbox of sys_arch.c.wip: a FreeRTOS queue and one registered waiter, shared by
    any number of tasks whose steps interleave. A step is a critical section, one queue call,
    or one access to a field of the mailbox. */
module Mailbox {
  import opened Words

  type Task = nat
  type Msg = nat

  /** The mailbox and its queue. `open` says that `xMbox` is not null; the histories record what
      went in, what came out, and what was still queued at deletion. */
  datatype Shared = Shared(
    open: bool,
    xTask: Option<Task>,
    alive: bool,
    capacity: nat,
    items: seq<Msg>,
    posted: seq<Msg>,
    fetched: seq<Msg>,
    lost: seq<Msg>)

  // ----- The atomic steps -----

  /** `sys_mbox_new`, when the queue could be created. */
  function New(size: nat): Shared { Shared(true, None, true, size, [], [], [], []) }

  /** The critical section of `sys_arch_mbox_fetch`. */
  function Register(s: Shared, t: Task): Shared {
    if s.open && s.xTask.None? then s.(xTask := Some(t)) else s
  }

  /** `xQueueReceive` of a message that is there. */
  function Pop(s: Shared): Shared
    requires s.items != []
  {
    s.(items := s.items[1..], fetched := s.fetched + [s.items[0]])
  }

  /** `xQueueSendToBack` when there is room. */
  function Push(s: Shared, m: Msg): Shared {
    s.(items := s.items + [m], posted := s.posted + [m])
  }

  /** `pvxMailBox->xTask = NULL` */
  function Release(s: Shared): Shared { s.(xTask := None) }

  /** The critical section of `sys_mbox_free`. */
  function Clear(s: Shared): Shared { s.(open := false) }

  /** `vQueueDelete` */
  function Delete(s: Shared): Shared {
    s.(alive := false, lost := s.lost + s.items, items := [])
  }

  // ----- Interleaved tasks -----

  /** Where a task is. `unlimited` tells the two waits of `sys_arch_mbox_fetch` apart. */
  datatype Place =
    | Idle
    | Fetching(unlimited: bool)                    // registered, about to call xQueueReceive
    | Waiting(unlimited: bool)                     // blocked in xQueueReceive
    | Received(unlimited: bool, got: Option<Msg>)  // xQueueReceive has returned
    | Leaving(got: Option<Msg>)                    // about to clear xTask
    | Done(got: Option<Msg>)                       // fetch or tryfetch returned, with a message or without
    | Posting(msg: Msg, wait: bool)                // holds the queue handle
    | Trying                                       // tryfetch, holds the queue handle
    | FreeChecked
    | FreeCleared(waiter: Option<Task>, handle: bool)  // what the critical section read; NULL after another free
    | FreeAborted(handle: bool)
    | Halted                                       // stopped in a failed assertion

  datatype System = System(box: Shared, places: map<Task, Place>)

  function PlaceOf(s: System, t: Task): Place {
    if t in s.places then s.places[t] else Idle
  }

  function Move(s: System, box: Shared, t: Task, p: Place): System {
    System(box, s.places[t := p])
  }

  datatype Action =
    | Enter(task: Task, unlimited: bool)
    | Receive(task: Task)
    | Wake(task: Task)
    | TimeOut(task: Task)
    | Recheck(task: Task)
    | Unregister(task: Task)
    | StartPost(task: Task, msg: Msg, wait: bool)
    | FinishPost(task: Task)
    | PostFull(task: Task)
    | StartTry(task: Task)
    | FinishTry(task: Task)
    | FreeCheck(task: Task)
    | FreeClear(task: Task)
    | FreeAbort(task: Task)
    | FreeDelete(task: Task)

  predicate AtRest(p: Place) { p.Idle? || p.Done? }

  /** When a step can be taken. Queue calls need the queue to exist. */
  predicate Enabled(s: System, a: Action) {
    var p := PlaceOf(s, a.task);
    match a
    case Enter(_, _) => AtRest(p)
    case Receive(_) => p.Fetching? && s.box.alive
    case Wake(_) => p.Waiting? && s.box.alive && s.box.items != []
    case TimeOut(_) => p.Waiting?
    case Recheck(_) => p.Received?
    case Unregister(_) => p.Leaving?
    case StartPost(_, _, _) => AtRest(p)
    case FinishPost(_) => p.Posting? && s.box.alive && |s.box.items| < s.box.capacity
    case PostFull(_) => p.Posting? && !p.wait && s.box.alive && |s.box.items| >= s.box.capacity
    case StartTry(_) => AtRest(p)
    case FinishTry(_) => p.Trying? && s.box.alive
    case FreeCheck(_) => AtRest(p)
    case FreeClear(_) => p.FreeChecked?
    case FreeAbort(_) => p.FreeCleared?
    case FreeDelete(_) => p.FreeAborted? && (p.handle ==> s.box.alive)
  }

  function Step(s: System, a: Action): System
    requires Enabled(s, a)
  {
    var t, box, p := a.task, s.box, PlaceOf(s, a.task);
    match a
    case Enter(_, unlimited) =>
      if box.open && box.xTask.None? then Move(s, Register(box, t), t, Fetching(unlimited))
      else Move(s, box, t, Done(None))
    case Receive(_) =>
      if box.items != [] then Move(s, Pop(box), t, Received(p.unlimited, Some(box.items[0])))
      else Move(s, box, t, Waiting(p.unlimited))
    case Wake(_) => Move(s, Pop(box), t, Received(p.unlimited, Some(box.items[0])))
    case TimeOut(_) => Move(s, box, t, Received(p.unlimited, None))
    case Recheck(_) =>
      if p.unlimited && box.open && p.got.None? then Move(s, box, t, Fetching(true))
      else Move(s, box, t, Leaving(p.got))
    case Unregister(_) => Move(s, Release(box), t, Done(p.got))
    case StartPost(_, msg, wait) => Move(s, box, t, if box.open then Posting(msg, wait) else Halted)
    case FinishPost(_) => Move(s, Push(box, p.msg), t, Idle)
    case PostFull(_) => Move(s, box, t, Idle)
    case StartTry(_) => Move(s, box, t, if box.open then Trying else Halted)
    case FinishTry(_) =>
      if box.items != [] then Move(s, Pop(box), t, Done(Some(box.items[0]))) else Move(s, box, t, Done(None))
    case FreeCheck(_) => Move(s, box, t, if box.open && box.items == [] then FreeChecked else Halted)
    case FreeClear(_) => Move(s, Clear(box), t, FreeCleared(box.xTask, box.open))
    case FreeAbort(_) =>
      var moved := Move(s, box, t, FreeAborted(p.handle));
      (match p.waiter
       case Some(w) =>
         if PlaceOf(moved, w).Waiting? then Move(moved, box, w, Received(PlaceOf(moved, w).unlimited, None)) else moved
       case None => moved)
    case FreeDelete(_) => if p.handle then Move(s, Delete(box), t, Idle) else Move(s, box, t, Halted)
  }

  ghost predicate IsRun(states: seq<System>, actions: seq<Action>) {
    && |states| == |actions| + 1
    && forall i :: 0 <= i < |actions| ==> Enabled(states[i], actions[i]) && states[i + 1] == Step(states[i], actions[i])
  }

  /** Any number of tasks, none of them in a call, and a new mailbox. */
  ghost predicate Start(s: System) {
    (exists size: nat :: s.box == New(size)) && forall t: Task :: AtRest(PlaceOf(s, t))
  }

  // ----- One waiter -----

  /** Between registration and release. */
  predicate Registered(p: Place) { p.Fetching? || p.Waiting? || p.Received? || p.Leaving? }

  ghost predicate WaiterNamed(s: System) {
    forall t: Task :: Registered(PlaceOf(s, t)) <==> s.box.xTask == Some(t)
  }

  lemma StepWaiter(s: System, a: Action)
    requires Enabled(s, a) && WaiterNamed(s)
    ensures WaiterNamed(Step(s, a))
  {
    var s' := Step(s, a);
    forall t: Task
      ensures Registered(PlaceOf(s', t)) <==> s'.box.xTask == Some(t)
    {
      assert Registered(PlaceOf(s, t)) <==> s.box.xTask == Some(t);
      assert Registered(PlaceOf(s, a.task)) <==> s.box.xTask == Some(a.task);
    }
  }

  /** In every interleaving at most one task is between registration and release, and
      `xTask` is not null exactly when it names that task. */
  lemma {:induction false} SingleWaiter(states: seq<System>, actions: seq<Action>, i: nat)
    requires IsRun(states, actions) && Start(states[0]) && i < |states|
    ensures WaiterNamed(states[i])
    ensures forall t: Task, u: Task :: Registered(PlaceOf(states[i], t)) && Registered(PlaceOf(states[i], u)) ==> t == u
  {
    if i > 0 {
      SingleWaiter(states, actions, i - 1);
      StepWaiter(states[i - 1], actions[i - 1]);
    }
  }

  // ----- Conservation -----

  ghost predicate Conserved(b: Shared) {
    && b.posted == b.fetched + b.items + b.lost
    && |b.items| <= b.capacity
    && (if b.alive then b.lost == [] else b.items == [])
  }

  lemma StepConserves(s: System, a: Action)
    requires Enabled(s, a) && Conserved(s.box)
    ensures Conserved(Step(s, a).box)
  {
    if s.box.items != [] {
      assert s.box.items == [s.box.items[0]] + s.box.items[1..];
    }
  }

  /** The messages posted are those fetched, in order, followed by those queued; the queue
      never holds more than it was created for; only what is queued at deletion is lost. */
  lemma {:induction false} Conservation(states: seq<System>, actions: seq<Action>, i: nat)
    requires IsRun(states, actions) && Start(states[0]) && i < |states|
    ensures Conserved(states[i].box) && states[i].box.capacity == states[0].box.capacity
  {
    if i > 0 {
      Conservation(states, actions, i - 1);
      StepConserves(states[i - 1], actions[i - 1]);
    }
  }

  // ----- Who gets which message -----

  /** The message a step hands to the task that takes it: what `xQueueReceive` has put into the task's buffer. */
  function Handed(s: System, a: Action): seq<Msg>
    requires Enabled(s, a)
  {
    match PlaceOf(Step(s, a), a.task)
    case Received(_, Some(m)) => if a.Receive? || a.Wake? then [m] else []
    case Done(Some(m)) => if a.FinishTry? then [m] else []
    case _ => []
  }

  /** All messages handed out up to a point of a run, in order of removal. */
  function AllHanded(states: seq<System>, actions: seq<Action>, i: nat): seq<Msg>
    requires IsRun(states, actions) && i < |states|
  {
    if i == 0 then [] else AllHanded(states, actions, i - 1) + Handed(states[i - 1], actions[i - 1])
  }

  /** A message is handed to a task exactly when it leaves the front of the queue for good. */
  lemma StepHands(s: System, a: Action)
    requires Enabled(s, a)
    ensures Step(s, a).box.fetched == s.box.fetched + Handed(s, a)
    ensures Handed(s, a) != [] ==> s.box.items != [] && Handed(s, a) == [s.box.items[0]]
    ensures Handed(s, a) != [] ==> s.box.items == Handed(s, a) + Step(s, a).box.items
  {
  }

  /** In every run, the messages handed to the callers of fetch and tryfetch, in order of removal, are exactly those
      that were fetched: nobody gets another message, and none is removed without somebody getting it. */
  lemma {:induction false} HandedIsFetched(states: seq<System>, actions: seq<Action>, i: nat)
    requires IsRun(states, actions) && Start(states[0]) && i < |states|
    ensures AllHanded(states, actions, i) == states[i].box.fetched
  {
    hide Step, Enabled, Handed;
    if i > 0 {
      HandedIsFetched(states, actions, i - 1);
      StepHands(states[i - 1], actions[i - 1]);
    }
  }

  /** The message a task in a call of fetch has got so far. */
  function Holds(p: Place): Option<Msg> {
    match p
    case Received(_, got) => got
    case Leaving(got) => got
    case _ => None
  }

  /** Step `k` handed message `m` to task `t`, from the front of the queue. */
  ghost predicate TookFromFront(states: seq<System>, actions: seq<Action>, k: nat, t: Task, m: Msg)
    requires k < |actions| && |actions| <= |states|
  {
    (actions[k] == Receive(t) || actions[k] == Wake(t)) && states[k].box.items != [] && states[k].box.items[0] == m
  }

  lemma StepHolds(s: System, a: Action, t: Task)
    requires Enabled(s, a) && Holds(PlaceOf(Step(s, a), t)).Some?
    ensures Holds(PlaceOf(s, t)) == Holds(PlaceOf(Step(s, a), t))
            || ((a == Receive(t) || a == Wake(t)) && s.box.items != [] && Holds(PlaceOf(Step(s, a), t)) == Some(s.box.items[0]))
  {
  }

  /** What a fetch holds, and so returns, its own call has taken from the front of the queue. `b` is a point
      before the call. */
  lemma {:induction false} HoldsWhatItTook(states: seq<System>, actions: seq<Action>, b: nat, i: nat, t: Task)
    requires IsRun(states, actions) && b <= i < |states| && AtRest(PlaceOf(states[b], t))
    requires Holds(PlaceOf(states[i], t)).Some?
    ensures exists k: nat :: b <= k < i && TookFromFront(states, actions, k, t, Holds(PlaceOf(states[i], t)).value)
    decreases i
  {
    hide Step, Enabled;
    StepHolds(states[i - 1], actions[i - 1], t);
    if Holds(PlaceOf(states[i - 1], t)) == Holds(PlaceOf(states[i], t)) {
      HoldsWhatItTook(states, actions, b, i - 1, t);
    } else {
      assert TookFromFront(states, actions, i - 1, t, Holds(PlaceOf(states[i], t)).value);
    }
  }

  /** A fetch that returns hands on what it holds. */
  lemma ReturnsWhatItHolds(s: System, t: Task)
    requires Enabled(s, Unregister(t))
    ensures PlaceOf(Step(s, Unregister(t)), t) == Done(Holds(PlaceOf(s, t)))
  {
  }

  /** A post into a mailbox that is not full appends its message. */
  lemma PostAppends(s: System, poster: Task, m: Msg, wait: bool)
    requires s.box.open && s.box.alive && |s.box.items| < s.box.capacity && AtRest(PlaceOf(s, poster))
    ensures Enabled(s, StartPost(poster, m, wait))
    ensures Enabled(Step(s, StartPost(poster, m, wait)), FinishPost(poster))
    ensures var d := Step(Step(s, StartPost(poster, m, wait)), FinishPost(poster));
            d == Move(Move(s, s.box, poster, Posting(m, wait)), Push(s.box, m), poster, Idle)
  {
  }

  /** A fetch from an open mailbox without a waiter, but with messages, returns the oldest in four steps. */
  lemma FetchTakes(s: System, t: Task, unlimited: bool) returns (states: seq<System>, actions: seq<Action>)
    requires s.box.open && s.box.alive && s.box.xTask == None && s.box.items != [] && AtRest(PlaceOf(s, t))
    ensures IsRun(states, actions) && |states| == 5 && states[0] == s
    ensures actions == [Enter(t, unlimited), Receive(t), Recheck(t), Unregister(t)]
    ensures PlaceOf(states[4], t) == Done(Some(s.box.items[0])) && states[4].box.items == s.box.items[1..]
    ensures states[4].box.xTask == None && forall u: Task :: u != t ==> PlaceOf(states[4], u) == PlaceOf(s, u)
  {
    actions := [Enter(t, unlimited), Receive(t), Recheck(t), Unregister(t)];
    var s1 := Step(s, actions[0]);
    var s2 := Step(s1, actions[1]);
    var s3 := Step(s2, actions[2]);
    states := [s, s1, s2, s3, Step(s3, actions[3])];
  }

  /** Round trip: on an open mailbox that has no waiter and is not full, a message posted by one task reaches another one's
      fetch, with a time limit or without, after the messages that were queued before it. */
  lemma PostThenFetch(s: System, poster: Task, t: Task, m: Msg, wait: bool, unlimited: bool)
    returns (states: seq<System>, actions: seq<Action>)
    requires s.box.open && s.box.alive && s.box.xTask == None && |s.box.items| < s.box.capacity
    requires poster != t && AtRest(PlaceOf(s, poster)) && AtRest(PlaceOf(s, t))
    ensures IsRun(states, actions) && |states| == 7 && states[0] == s
    ensures states[2].box.items == s.box.items + [m]
    ensures PlaceOf(states[6], t) == Done(Some((s.box.items + [m])[0])) && states[6].box.items == (s.box.items + [m])[1..]
    ensures states[6].box.xTask == None && PlaceOf(states[6], poster) == Idle
  {
    hide Step, Enabled;
    var start, finish := StartPost(poster, m, wait), FinishPost(poster);
    PostAppends(s, poster, m, wait);
    var s1 := Step(s, start);
    var later, more := FetchTakes(Step(s1, finish), t, unlimited);
    states, actions := [s, s1] + later, [start, finish] + more;
    forall i | 0 <= i < |actions|
      ensures Enabled(states[i], actions[i]) && states[i + 1] == Step(states[i], actions[i])
    {
      if i >= 2 {
        assert states[i] == later[i - 2] && states[i + 1] == later[i - 1] && actions[i] == more[i - 2];
      }
    }
  }

  // ----- How long a fetch goes on -----

  /** In a fetch without a time limit that has not come to the end of an empty-handed wait. */
  predicate StillWaiting(p: Place) {
    p == Fetching(true) || p == Waiting(true) || p == Received(true, None)
  }

  predicate WaitsOrHas(p: Place) {
    StillWaiting(p) || Holds(p).Some? || (p.Done? && p.got.Some?)
  }

  lemma StepWaits(s: System, a: Action, t: Task)
    requires Enabled(s, a) && s.box.open && WaitsOrHas(PlaceOf(s, t)) && (a.task == t ==> !PlaceOf(s, t).Done?)
    ensures WaitsOrHas(PlaceOf(Step(s, a), t))
  {
  }

  /** As long as the mailbox is open, a fetch without a time limit returns with a message or not at all, however often
      its wait ends without one. */
  lemma {:induction false} OpenFetchNeverTimesOut(states: seq<System>, actions: seq<Action>, b: nat, i: nat, t: Task)
    requires IsRun(states, actions) && b <= i < |states| && PlaceOf(states[b], t) == Fetching(true)
    requires forall k :: b <= k < i ==> states[k].box.open && (actions[k].task == t ==> !PlaceOf(states[k], t).Done?)
    ensures WaitsOrHas(PlaceOf(states[i], t))
    decreases i
  {
    hide Step, Enabled;
    if b < i {
      OpenFetchNeverTimesOut(states, actions, b, i - 1, t);
      StepWaits(states[i - 1], actions[i - 1], t);
    }
  }

  /** The steps that a fetch with a time limit has still to take, at most. */
  function TimedStepsLeft(p: Place): nat {
    match p
    case Fetching(_) => 4
    case Waiting(_) => 3
    case Received(_, _) => 2
    case Leaving(_) => 1
    case _ => 0
  }

  predicate Timed(p: Place) { p == Fetching(false) || p == Waiting(false) || (p.Received? && !p.unlimited) || p.Leaving? || p.Done? }

  lemma StepTimed(s: System, a: Action, t: Task)
    requires Enabled(s, a) && Timed(PlaceOf(s, t)) && (a.task == t ==> !PlaceOf(s, t).Done?)
    ensures Timed(PlaceOf(Step(s, a), t))
    ensures TimedStepsLeft(PlaceOf(Step(s, a), t)) + (if a.task == t then 1 else 0) <= TimedStepsLeft(PlaceOf(s, t))
  {
  }

  /** A fetch with a time limit asks the queue once: four steps after its registration at the latest it has returned. */
  lemma {:induction false} TimedFetchReturns(states: seq<System>, actions: seq<Action>, b: nat, i: nat, t: Task)
    requires IsRun(states, actions) && b <= i < |states| && PlaceOf(states[b], t) == Fetching(false)
    requires forall k :: b <= k < i && actions[k].task == t ==> !PlaceOf(states[k], t).Done?
    ensures Timed(PlaceOf(states[i], t)) && TimedStepsLeft(PlaceOf(states[i], t)) + |Own(actions[b..i], t)| <= 4
    ensures |Own(actions[b..i], t)| == 4 ==> PlaceOf(states[i], t).Done?
    decreases i
  {
    hide Step, Enabled, Own;
    if b == i {
      assert actions[b..i] == [];
      OwnNothing(t);
    } else {
      TimedFetchReturns(states, actions, b, i - 1, t);
      assert actions[b..i] == actions[b..i - 1] + [actions[i - 1]];
      OwnAppend(actions[b..i - 1], actions[i - 1], t);
      StepTimed(states[i - 1], actions[i - 1], t);
    }
  }

  // ----- Full and empty -----

  /** A post that does not wait fails only when the mailbox holds as many messages as it was created for, and a post
      can go through whenever it holds fewer. */
  lemma PostFailsOnlyWhenFull(states: seq<System>, actions: seq<Action>, i: nat, t: Task)
    requires IsRun(states, actions) && Start(states[0]) && i < |states| && states[i].box.alive
    requires PlaceOf(states[i], t).Posting?
    ensures Enabled(states[i], PostFull(t)) ==> |states[i].box.items| == states[0].box.capacity
    ensures |states[i].box.items| < states[0].box.capacity <==> Enabled(states[i], FinishPost(t))
  {
    hide Step;
    Conservation(states, actions, i);
  }

  lemma StepPosting(s: System, a: Action, t: Task, m: Msg)
    requires Enabled(s, a) && PlaceOf(s, t) == Posting(m, true)
    ensures PlaceOf(Step(s, a), t) == Posting(m, true)
            || (a == FinishPost(t) && Step(s, a).box.items == s.box.items + [m] && PlaceOf(Step(s, a), t) == Idle)
  {
  }

  /** A post that waits does not end before its message is in the queue. */
  lemma {:induction false} WaitingPostDelivers(states: seq<System>, actions: seq<Action>, b: nat, i: nat, t: Task, m: Msg)
    requires IsRun(states, actions) && b <= i < |states| && PlaceOf(states[b], t) == Posting(m, true)
    ensures PlaceOf(states[i], t) == Posting(m, true)
            || exists k :: b <= k < i && actions[k] == FinishPost(t) && states[k + 1].box.items == states[k].box.items + [m]
    decreases i
  {
    hide Step, Enabled;
    if b < i {
      WaitingPostDelivers(states, actions, b, i - 1, t, m);
      if PlaceOf(states[i - 1], t) == Posting(m, true) {
        StepPosting(states[i - 1], actions[i - 1], t, m);
      }
    }
  }

  lemma StepFetchedGrows(s: System, a: Action)
    requires Enabled(s, a)
    ensures s.box.fetched <= Step(s, a).box.fetched
  {
  }

  lemma {:induction false} FetchedGrows(states: seq<System>, actions: seq<Action>, i: nat, j: nat)
    requires IsRun(states, actions) && i <= j < |states|
    ensures |states[i].box.fetched| <= |states[j].box.fetched|
    decreases j
  {
    hide Step, Enabled;
    if i < j {
      FetchedGrows(states, actions, i, j - 1);
      StepFetchedGrows(states[j - 1], actions[j - 1]);
    }
  }

  /** Free goes on only with an empty mailbox. So all it can lose at deletion are messages posted after it looked. */
  lemma LostWerePostedLater(states: seq<System>, actions: seq<Action>, i: nat, j: nat, t: Task)
    requires IsRun(states, actions) && Start(states[0]) && i < j < |states|
    requires actions[i] == FreeCheck(t) && PlaceOf(states[i + 1], t) != Halted && states[i].box.alive
    ensures |states[j].box.items| + |states[j].box.lost| <= |states[j].box.posted| - |states[i].box.posted|
  {
    Conservation(states, actions, i);
    Conservation(states, actions, j);
    FetchedGrows(states, actions, i, j);
  }

  // ----- Deletion -----

  /** The task will delete the queue. */
  predicate Deletes(p: Place) { (p.FreeCleared? || p.FreeAborted?) && p.handle }

  /** The queue exists as long as the mailbox is open or a task holds its handle to delete it, and at most
      one task does. */
  ghost predicate OneDeleter(s: System) {
    && (s.box.open ==> s.box.alive)
    && (forall t: Task :: Deletes(PlaceOf(s, t)) ==> s.box.alive && !s.box.open)
    && (forall t: Task, u: Task :: Deletes(PlaceOf(s, t)) && Deletes(PlaceOf(s, u)) ==> t == u)
  }

  lemma StepDeleter(s: System, a: Action)
    requires Enabled(s, a) && OneDeleter(s)
    ensures OneDeleter(Step(s, a))
  {
    var s' := Step(s, a);
    forall t: Task
      ensures Deletes(PlaceOf(s', t)) ==> Deletes(PlaceOf(s, t)) || (a == FreeClear(t) && s.box.open)
    {
    }
    if a.FreeDelete? && Deletes(PlaceOf(s, a.task)) {
      assert forall t: Task :: Deletes(PlaceOf(s', t)) ==> t == a.task;
    }
  }

  /** In every interleaving, however many tasks free the mailbox, the queue is deleted by one of them at most, and
      that one finds it there. */
  lemma {:induction false} SingleDeletion(states: seq<System>, actions: seq<Action>, i: nat)
    requires IsRun(states, actions) && Start(states[0]) && i < |states|
    ensures OneDeleter(states[i])
  {
    hide Step, Enabled;
    if i == 0 {
      assert forall t: Task :: AtRest(PlaceOf(states[0], t)) ==> !Deletes(PlaceOf(states[0], t));
    } else {
      SingleDeletion(states, actions, i - 1);
      StepDeleter(states[i - 1], actions[i - 1]);
    }
  }

  // ----- Shutdown -----

  /** The task is in a call that has read the handle and goes on to use the queue. */
  predicate UsesQueue(p: Place) { Registered(p) || p.Posting? || p.Trying? || p.FreeChecked? }

  /** After free has cleared `xMbox`, no fetch registers any more, and no other call gets past the NULL handle. */
  lemma {:induction false} NoRegistrationAfterFree(states: seq<System>, actions: seq<Action>, i: nat, j: nat, t: Task)
    requires IsRun(states, actions) && i <= j < |states| && !states[i].box.open
    ensures !states[j].box.open
    ensures !Registered(PlaceOf(states[i], t)) ==> !Registered(PlaceOf(states[j], t))
    ensures !UsesQueue(PlaceOf(states[i], t)) ==> !UsesQueue(PlaceOf(states[j], t))
    decreases j
  {
    hide Step;
    if i < j {
      NoRegistrationAfterFree(states, actions, i, j - 1, t);
      StepStaysClosed(states[j - 1], actions[j - 1], t);
    }
  }

  lemma StepStaysClosed(s: System, a: Action, t: Task)
    requires Enabled(s, a) && !s.box.open
    ensures !Step(s, a).box.open
    ensures !Registered(PlaceOf(s, t)) ==> !Registered(PlaceOf(Step(s, a), t))
    ensures !UsesQueue(PlaceOf(s, t)) ==> !UsesQueue(PlaceOf(Step(s, a), t))
  {
  }

  /** A task on the way out of an unlimited wait without a message. */
  predicate ShuttingDown(p: Place) {
    p == Waiting(true) || p == Received(true, None) || p == Leaving(None) || p == Done(None)
  }

  /** Free has cleared the mailbox, nothing is queued and nobody is about to post. */
  ghost predicate Drained(s: System) {
    !s.box.open && s.box.items == [] && forall t: Task :: !PlaceOf(s, t).Posting?
  }

  lemma StepDrained(s: System, a: Action)
    requires Enabled(s, a) && Drained(s)
    ensures Drained(Step(s, a))
  {
    var s' := Step(s, a);
    forall t: Task
      ensures !PlaceOf(s', t).Posting?
    {
      assert !PlaceOf(s, t).Posting? && !PlaceOf(s, a.task).Posting?;
    }
  }

  /** How many more steps of its own bring a task that is shutting down to its return. */
  function StepsLeft(p: Place): nat {
    match p
    case Waiting(_) => 3
    case Received(_, _) => 2
    case Leaving(_) => 1
    case _ => 0
  }

  lemma StepShuttingDown(s: System, a: Action, w: Task)
    requires Enabled(s, a) && Drained(s) && ShuttingDown(PlaceOf(s, w))
    requires a.task == w ==> PlaceOf(s, w) != Done(None)
    ensures ShuttingDown(PlaceOf(Step(s, a), w))
    ensures StepsLeft(PlaceOf(Step(s, a), w)) + (if a.task == w then 1 else 0) <= StepsLeft(PlaceOf(s, w))
  {
  }

  /** The waiter, once its fetch has returned, makes no call between two points of a run. */
  ghost predicate NoNewCall(states: seq<System>, actions: seq<Action>, w: Task, i: nat, j: nat)
    requires i <= j <= |actions| && |actions| <= |states|
  {
    forall k :: i <= k < j && actions[k].task == w ==> !PlaceOf(states[k], w).Done?
  }

  /** The steps of one task, in order. */
  function Own(actions: seq<Action>, t: Task): seq<Action> {
    if actions == [] then []
    else
      var last := actions[|actions| - 1];
      Own(actions[..|actions| - 1], t) + if last.task == t then [last] else []
  }

  lemma OwnAppend(actions: seq<Action>, a: Action, t: Task)
    ensures Own(actions + [a], t) == Own(actions, t) + if a.task == t then [a] else []
  {
    assert (actions + [a])[..|actions|] == actions;
  }

  /** The freeing task has read the waiter and aborts its wait next. */
  predicate AboutToAbort(p: Place, w: Task) { p.FreeCleared? && p.waiter == Some(w) }

  /** The step that brings the waiter on is possible: the freeing task's, or its own. */
  ghost predicate CanGoOn(s: System, w: Task, freer: Task) {
    match PlaceOf(s, w)
    case Waiting(_) => Enabled(s, FreeAbort(freer))
    case Received(_, _) => Enabled(s, Recheck(w))
    case Leaving(_) => Enabled(s, Unregister(w))
    case _ => true
  }

  /** An unlimited wait that was blocked when free cleared a drained mailbox returns SYS_ARCH_TIMEOUT. It never
      gets a message and never waits again; it stays blocked no longer than until the freeing task takes its
      next step; the step that brings it on is always possible; and after three steps of its own at the
      latest it has left its loop and returned. */
  lemma {:induction false} BlockedFetchReturns(states: seq<System>, actions: seq<Action>, i: nat, j: nat,
                                              w: Task, freer: Task)
    requires IsRun(states, actions) && Start(states[0]) && i < j < |states|
    requires actions[i] == FreeClear(freer) && PlaceOf(states[i], w) == Waiting(true)
    requires states[i].box.items == [] && forall t: Task :: !PlaceOf(states[i], t).Posting?
    requires NoNewCall(states, actions, w, i + 1, j)
    ensures Drained(states[j]) && ShuttingDown(PlaceOf(states[j], w))
    ensures AboutToAbort(PlaceOf(states[j], freer), w) || PlaceOf(states[j], w) != Waiting(true)
    ensures CanGoOn(states[j], w, freer)
    ensures StepsLeft(PlaceOf(states[j], w)) + |Own(actions[i + 1..j], w)| <= 3
    ensures |Own(actions[i + 1..j], w)| == 3 ==> PlaceOf(states[j], w) == Done(None)
    decreases j
  {
    hide Step, Enabled, Drained, Start, Own;
    if j == i + 1 {
      SingleWaiter(states, actions, i);
      StepShutClear(states[i], freer, w);
      assert actions[i + 1..j] == [];
      OwnNothing(w);
    } else {
      BlockedFetchReturns(states, actions, i, j - 1, w, freer);
      assert actions[i + 1..j] == actions[i + 1..j - 1] + [actions[j - 1]];
      OwnAppend(actions[i + 1..j - 1], actions[j - 1], w);
      StepDrained(states[j - 1], actions[j - 1]);
      StepShuttingDown(states[j - 1], actions[j - 1], w);
      if PlaceOf(states[j - 1], w) == Waiting(true) {
        StepAborts(states[j - 1], actions[j - 1], w, freer);
      }
    }
    WaiterCanGoOn(states[j], w, freer);
  }

  lemma OwnNothing(t: Task)
    ensures Own([], t) == []
  {
  }

  lemma WaiterCanGoOn(s: System, w: Task, freer: Task)
    requires ShuttingDown(PlaceOf(s, w))
    requires AboutToAbort(PlaceOf(s, freer), w) || PlaceOf(s, w) != Waiting(true)
    ensures CanGoOn(s, w, freer)
  {
  }

  lemma StepAborts(s: System, a: Action, w: Task, freer: Task)
    requires Enabled(s, a) && AboutToAbort(PlaceOf(s, freer), w) && PlaceOf(s, w) == Waiting(true)
    ensures var s' := Step(s, a); AboutToAbort(PlaceOf(s', freer), w) || PlaceOf(s', w) != Waiting(true)
  {
  }

  lemma StepShutClear(s: System, freer: Task, w: Task)
    requires Enabled(s, FreeClear(freer)) && WaiterNamed(s) && PlaceOf(s, w) == Waiting(true)
    requires s.box.items == [] && forall t: Task :: !PlaceOf(s, t).Posting?
    ensures var s' := Step(s, FreeClear(freer));
            Drained(s') && PlaceOf(s', w) == Waiting(true) && AboutToAbort(PlaceOf(s', freer), w)
  {
    var s' := Step(s, FreeClear(freer));
    forall t: Task
      ensures !PlaceOf(s', t).Posting?
    {
      assert !PlaceOf(s, t).Posting?;
    }
  }

  // ----- When a message is still on its way -----

  /** A run that goes on from a state, in which the waiter makes no new call. */
  ghost predicate GoesOn(s: System, w: Task, states: seq<System>, actions: seq<Action>) {
    IsRun(states, actions) && states[0] == s && NoNewCall(states, actions, w, 0, |actions|)
  }

  ghost predicate AlwaysShutsDown(s: System, w: Task) {
    forall states: seq<System>, actions: seq<Action> ::
      GoesOn(s, w, states, actions) ==> ShuttingDown(PlaceOf(states[|states| - 1], w))
  }

  lemma {:induction false} DrainedShutsDown(states: seq<System>, actions: seq<Action>, w: Task, i: nat)
    requires i < |states| && GoesOn(states[0], w, states, actions)
    requires Drained(states[0]) && ShuttingDown(PlaceOf(states[0], w))
    ensures Drained(states[i]) && ShuttingDown(PlaceOf(states[i], w))
  {
    if i > 0 {
      DrainedShutsDown(states, actions, w, i - 1);
      StepDrained(states[i - 1], actions[i - 1]);
      StepShuttingDown(states[i - 1], actions[i - 1], w);
    }
  }

  /** A queued message reaches a blocked waiter although free has cleared the mailbox. */
  lemma QueuedDelivers(s: System, w: Task) returns (states: seq<System>, actions: seq<Action>)
    requires !s.box.open && s.box.alive && PlaceOf(s, w) == Waiting(true) && s.box.items != []
    ensures |states| > 0 && GoesOn(s, w, states, actions)
    ensures PlaceOf(states[|states| - 1], w) == Done(Some(s.box.items[0]))
  {
    actions := [Wake(w), Recheck(w), Unregister(w)];
    var s1 := Step(s, actions[0]);
    var s2 := Step(s1, actions[1]);
    states := [s, s1, s2, Step(s2, actions[2])];
  }

  /** So does a message whose post was under way. */
  lemma PostedDelivers(s: System, w: Task, poster: Task) returns (states: seq<System>, actions: seq<Action>)
    requires !s.box.open && s.box.alive && PlaceOf(s, w) == Waiting(true) && s.box.items == [] && s.box.capacity > 0
    requires PlaceOf(s, poster).Posting?
    ensures |states| > 0 && GoesOn(s, w, states, actions)
    ensures PlaceOf(states[|states| - 1], w) == Done(Some(PlaceOf(s, poster).msg))
  {
    hide Step, GoesOn;
    var s1 := Step(s, FinishPost(poster));
    PostLands(s, w, poster);
    var later, more := QueuedDelivers(s1, w);
    Prepend(s, FinishPost(poster), w, later, more);
    states, actions := [s] + later, [FinishPost(poster)] + more;
  }

  lemma PostLands(s: System, w: Task, poster: Task)
    requires s.box.alive && PlaceOf(s, w) == Waiting(true) && s.box.items == [] && s.box.capacity > 0
    requires PlaceOf(s, poster).Posting?
    ensures Enabled(s, FinishPost(poster)) && poster != w
    ensures var d := Step(s, FinishPost(poster));
            && d.box == Push(s.box, PlaceOf(s, poster).msg) && d.box.items == [PlaceOf(s, poster).msg]
            && PlaceOf(d, w) == Waiting(true)
  {
  }

  lemma Prepend(s: System, a: Action, w: Task, later: seq<System>, more: seq<Action>)
    requires Enabled(s, a) && a.task != w && GoesOn(Step(s, a), w, later, more)
    ensures GoesOn(s, w, [s] + later, [a] + more)
  {
    hide Step, Enabled;
    var states, actions := [s] + later, [a] + more;
    forall i | 0 <= i < |actions|
      ensures Enabled(states[i], actions[i]) && states[i + 1] == Step(states[i], actions[i])
      ensures actions[i].task == w ==> !PlaceOf(states[i], w).Done?
    {
      if i > 0 {
        assert states[i] == later[i - 1] && states[i + 1] == later[i] && actions[i] == more[i - 1];
      }
    }
  }

  /** After free has cleared the mailbox, a blocked unlimited wait is sure to time out if and only if
      nothing is queued and nobody is about to post. */
  lemma TimesOutExactly(s: System, w: Task)
    requires !s.box.open && s.box.alive && s.box.capacity > 0 && PlaceOf(s, w) == Waiting(true)
    ensures AlwaysShutsDown(s, w) <==> s.box.items == [] && forall t: Task :: !PlaceOf(s, t).Posting?
  {
    hide Step, Enabled, NoNewCall;
    if Drained(s) {
      forall states: seq<System>, actions: seq<Action> | GoesOn(s, w, states, actions)
        ensures ShuttingDown(PlaceOf(states[|states| - 1], w))
      {
        DrainedShutsDown(states, actions, w, |states| - 1);
      }
    } else if s.box.items != [] {
      var states, actions := QueuedDelivers(s, w);
    } else {
      var t: Task :| PlaceOf(s, t).Posting?;
      var states, actions := PostedDelivers(s, w, t);
    }
  }
}
