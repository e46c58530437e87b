/** The hand-off of cloud-to-device commands in iotc_mqtt_client.c: the MQTT agent's callback
    copies each payload into a heap buffer and queues it; the command task takes buffers
    from the queue, processes and frees them. */
module CommandQueue {
  import opened Words

  const MQTT_COMMAND_QUEUE_LENGTH: nat := 5
  const MQTT_PAYLOAD_BUFFER_LENGTH: nat := 1024

  /** What a buffer holds after the callback has filled it: the first 1023 bytes of the
      payload at most, and a terminating null. */
  function Stored(payload: seq<byte>): seq<byte> {
    payload[..Min(|payload|, MQTT_PAYLOAD_BUFFER_LENGTH - 1)] + [0]
  }

  /** The message a buffer holds, with C's numbers: the whole payload up to 1023 bytes, or its first 1023. */
  lemma StoredBytes(payload: seq<byte>)
    ensures |payload| < 1024 ==> Stored(payload) == payload + [0]
    ensures |payload| >= 1024 ==> Stored(payload) == payload[..1023] + [0]
  {
  }

  method Memcpy(dst: array<byte>, src: seq<byte>, n: nat)
    requires n <= dst.Length && n <= |src|
    modifies dst
    ensures dst[..n] == src[..n]
  {
    var i := 0;
    while i < n
      invariant i <= n && dst[..i] == src[..i]
    {
      dst[i] := src[i];
      i := i + 1;
    }
  }

  /** A buffer of 1024 bytes with the first 1023 bytes of the payload at most, and a null after them. */
  predicate HoldsMessage(buf: array<byte>, payload: seq<byte>)
    reads buf
  {
    var n := Min(|payload|, 1023);
    buf.Length == 1024 && (forall k :: 0 <= k < n ==> buf[k] == payload[k]) && buf[n] == 0
  }

  method Fill(buf: array<byte>, payload: seq<byte>)
    requires buf.Length == MQTT_PAYLOAD_BUFFER_LENGTH
    modifies buf
    ensures Stored(payload) <= buf[..]
    ensures HoldsMessage(buf, payload)
  {
    if |payload| < MQTT_PAYLOAD_BUFFER_LENGTH {
      Memcpy(buf, payload, |payload|);
      buf[|payload|] := 0;
    } else {
      Memcpy(buf, payload, MQTT_PAYLOAD_BUFFER_LENGTH);
      buf[MQTT_PAYLOAD_BUFFER_LENGTH - 1] := 0;
    }
    var n := Min(|payload|, MQTT_PAYLOAD_BUFFER_LENGTH - 1);
    assert buf[..n] == payload[..n] && buf[n] == 0;
    assert forall k :: 0 <= k < n ==> buf[k] == buf[..n][k];
    assert buf[..n + 1] == Stored(payload);
  }

  // ----- Interleavings -----

  datatype Worker = Ready | Holding(id: nat) | Processed(id: nat) | Stopped

  /** The two tasks between any two steps. A buffer is named by the number of the message it
      was allocated for. */
  datatype State = State(
    received: seq<seq<byte>>,      // every payload the callback was called with
    heap: map<nat, seq<byte>>,     // live buffers
    callback: Option<nat>,         // the buffer the callback holds
    queue: seq<nat>,
    worker: Worker,
    issued: set<nat>,              // every buffer ever allocated
    accepted: seq<nat>,            // buffers that reached the queue, in order
    taken: seq<nat>,               // buffers the command task has taken, in order
    freed: seq<nat>,
    processed: seq<seq<byte>>)

  function Initial(): State { State([], map[], None, [], Ready, {}, [], [], [], []) }

  datatype Action =
    | Arrive(payload: seq<byte>, mallocOk: bool)
    | Enqueue
    | EnqueueTimeOut
    | Take
    | Process
    | Free
    | ReceiveError

  predicate Enabled(s: State, a: Action) {
    match a
    case Arrive(_, _) => s.callback.None?
    case Enqueue => s.callback.Some? && |s.queue| < MQTT_COMMAND_QUEUE_LENGTH
    case EnqueueTimeOut => s.callback.Some?
    case Take => s.worker.Ready? && s.queue != []
    case Process => s.worker.Holding? && s.worker.id in s.heap
    case Free => s.worker.Processed?
    case ReceiveError => s.worker.Ready?
  }

  function Step(s: State, a: Action): State
    requires Enabled(s, a)
  {
    match a
    case Arrive(payload, mallocOk) =>
      var id := |s.received|;
      var arrived := s.(received := s.received + [payload]);
      if mallocOk then
        arrived.(heap := s.heap[id := Stored(payload)], callback := Some(id), issued := s.issued + {id})
      else arrived
    case Enqueue => s.(queue := s.queue + [s.callback.value], accepted := s.accepted + [s.callback.value], callback := None)
    case EnqueueTimeOut =>
      s.(heap := s.heap - {s.callback.value}, freed := s.freed + [s.callback.value], callback := None)
    case Take => s.(queue := s.queue[1..], worker := Holding(s.queue[0]), taken := s.taken + [s.queue[0]])
    case Process => s.(processed := s.processed + [s.heap[s.worker.id]], worker := Processed(s.worker.id))
    case Free => s.(heap := s.heap - {s.worker.id}, freed := s.freed + [s.worker.id], worker := Ready)
    case ReceiveError => s.(worker := Stopped)
  }

  ghost predicate IsRun(states: seq<State>, actions: seq<Action>) {
    && |states| == |actions| + 1 && states[0] == Initial()
    && forall i :: 0 <= i < |actions| ==> Enabled(states[i], actions[i]) && states[i + 1] == Step(states[i], actions[i])
  }

  // ----- Ownership -----

  predicate HeldByCallback(s: State, id: nat) { s.callback == Some(id) }

  predicate HeldByQueue(s: State, id: nat) { id in s.queue }

  predicate HeldByWorker(s: State, id: nat) { s.worker == Holding(id) || s.worker == Processed(id) }

  ghost predicate Increasing(ids: seq<nat>) { forall i, j :: 0 <= i < j < |ids| ==> ids[i] < ids[j] }

  /** Every live buffer has exactly one holder, and every allocated buffer that is no longer
      live has been freed exactly once. */
  ghost predicate Owned(s: State) {
    && (forall id :: id in s.heap <==> HeldByCallback(s, id) || HeldByQueue(s, id) || HeldByWorker(s, id))
    && (forall id :: HeldByCallback(s, id) ==> !HeldByQueue(s, id) && !HeldByWorker(s, id))
    && (forall id :: HeldByQueue(s, id) ==> !HeldByWorker(s, id))
    && Distinct(s.freed)
    && (forall id :: id in s.freed <==> id in s.issued && id !in s.heap)
    && (forall id :: id in s.heap ==> id in s.issued)
    && (forall id :: id in s.issued ==> id < |s.received|)
  }

  /** Buffers go through the queue in the order their messages arrived, unchanged. */
  ghost predicate Ordered(s: State) {
    && s.accepted == s.taken + s.queue && Increasing(s.accepted)
    && |s.queue| <= MQTT_COMMAND_QUEUE_LENGTH
    && (forall id :: id in s.accepted ==> id < |s.received| && !HeldByCallback(s, id))
    && (s.callback.Some? ==> s.callback.value == |s.received| - 1)
    && (forall id :: id in s.heap ==> id < |s.received| && s.heap[id] == Stored(s.received[id]))
    && |s.processed| == |s.taken| - (if s.worker.Holding? then 1 else 0)
    && (s.worker.Holding? || s.worker.Processed? ==> s.taken != [] && s.taken[|s.taken| - 1] == s.worker.id)
    && (forall k :: 0 <= k < |s.processed| ==> s.taken[k] < |s.received| && s.processed[k] == Stored(s.received[s.taken[k]]))
  }

  lemma ArriveOwned(s: State, payload: seq<byte>, mallocOk: bool)
    requires Enabled(s, Arrive(payload, mallocOk)) && Owned(s) && Ordered(s)
    ensures Owned(Step(s, Arrive(payload, mallocOk)))
  {
    var id := |s.received|;
    assert id !in s.issued && id !in s.heap && id !in s.queue && id !in s.freed by {
      assert forall x :: HeldByQueue(s, x) ==> x in s.heap;
    }
    assert !HeldByWorker(s, id);
  }

  lemma EnqueueOwned(s: State)
    requires Enabled(s, Enqueue) && Owned(s)
    ensures Owned(Step(s, Enqueue))
  {
    assert HeldByCallback(s, s.callback.value);
    assert forall id :: id in Step(s, Enqueue).queue <==> id in s.queue || id == s.callback.value;
  }

  lemma TimeOutOwned(s: State)
    requires Enabled(s, EnqueueTimeOut) && Owned(s)
    ensures Owned(Step(s, EnqueueTimeOut))
  {
    assert HeldByCallback(s, s.callback.value);
    FreedOnceMore(s.freed, s.callback.value);
  }

  lemma TakeOwned(s: State)
    requires Enabled(s, Take) && Owned(s) && Distinct(s.queue)
    ensures Owned(Step(s, Take))
  {
    var d := Step(s, Take);
    assert s.queue == [s.queue[0]] + s.queue[1..];
    assert forall id :: HeldByQueue(s, id) <==> HeldByQueue(d, id) || HeldByWorker(d, id);
    assert forall id :: HeldByQueue(d, id) ==> !HeldByWorker(d, id);
    assert forall id :: HeldByCallback(d, id) <==> HeldByCallback(s, id);
    hide HeldByQueue, HeldByWorker, HeldByCallback, Distinct;
  }

  lemma ProcessOwned(s: State)
    requires Enabled(s, Process) && Owned(s)
    ensures Owned(Step(s, Process))
  {
    assert forall id :: HeldByWorker(Step(s, Process), id) <==> HeldByWorker(s, id);
  }

  lemma ErrorOwned(s: State)
    requires Enabled(s, ReceiveError) && Owned(s)
    ensures Owned(Step(s, ReceiveError))
  {
    assert forall id :: HeldByWorker(Step(s, ReceiveError), id) <==> HeldByWorker(s, id);
    assert forall id :: HeldByQueue(Step(s, ReceiveError), id) <==> HeldByQueue(s, id);
    assert forall id :: HeldByCallback(Step(s, ReceiveError), id) <==> HeldByCallback(s, id);
  }

  lemma FreeOwned(s: State)
    requires Enabled(s, Free) && Owned(s)
    ensures Owned(Step(s, Free))
  {
    assert HeldByWorker(s, s.worker.id);
    FreedOnceMore(s.freed, s.worker.id);
  }

  lemma StepOwned(s: State, a: Action)
    requires Enabled(s, a) && Owned(s) && Ordered(s)
    ensures Owned(Step(s, a))
  {
    hide Stored;
    match a
    case Arrive(payload, mallocOk) => ArriveOwned(s, payload, mallocOk);
    case Enqueue => EnqueueOwned(s);
    case EnqueueTimeOut => TimeOutOwned(s);
    case Take =>
      QueueDistinct(s);
      TakeOwned(s);
    case Free => FreeOwned(s);
    case Process => ProcessOwned(s);
    case ReceiveError => ErrorOwned(s);
  }

  lemma FreedOnceMore(freed: seq<nat>, id: nat)
    requires Distinct(freed) && id !in freed
    ensures Distinct(freed + [id]) && forall x :: x in freed + [id] <==> x in freed || x == id
  {
  }

  lemma QueueDistinct(s: State)
    requires Ordered(s)
    ensures Distinct(s.queue)
  {
    assert forall i :: 0 <= i < |s.queue| ==> s.queue[i] == s.accepted[|s.taken| + i];
  }

  lemma EnqueueOrdered(s: State)
    requires Enabled(s, Enqueue) && Owned(s) && Ordered(s)
    ensures Ordered(Step(s, Enqueue))
  {
    var s' := Step(s, Enqueue);
    var last := s.callback.value;
    forall i | 0 <= i < |s.accepted|
      ensures s.accepted[i] < last
    {
      assert s.accepted[i] in s.accepted;
    }
    assert HeldByCallback(s, last);
    assert s'.taken + s'.queue == s.accepted + [last];
    assert forall id :: id in s'.accepted <==> id in s.accepted || id == last;
  }

  lemma TakeOrdered(s: State)
    requires Enabled(s, Take) && Ordered(s)
    ensures Ordered(Step(s, Take))
  {
    assert Step(s, Take).taken + Step(s, Take).queue == s.accepted;
  }

  lemma ProcessOrdered(s: State)
    requires Enabled(s, Process) && Ordered(s)
    ensures Ordered(Step(s, Process))
  {
  }

  lemma ArriveOrdered(s: State, payload: seq<byte>, mallocOk: bool)
    requires Enabled(s, Arrive(payload, mallocOk)) && Ordered(s)
    ensures Ordered(Step(s, Arrive(payload, mallocOk)))
  {
    hide Stored;
    assert forall id :: id in s.accepted ==> id != |s.received|;
  }

  lemma StepOrdered(s: State, a: Action)
    requires Enabled(s, a) && Owned(s) && Ordered(s)
    ensures Ordered(Step(s, a))
  {
    hide Owned, Stored, Increasing;
    match a
    case Arrive(payload, mallocOk) => ArriveOrdered(s, payload, mallocOk);
    case Enqueue => EnqueueOrdered(s);
    case Take => TakeOrdered(s);
    case Process => ProcessOrdered(s);
    case _ =>
  }

  lemma {:induction false} OwnedAndOrdered(states: seq<State>, actions: seq<Action>, i: nat)
    requires IsRun(states, actions) && i < |states|
    ensures Owned(states[i]) && Ordered(states[i])
  {
    if i > 0 {
      OwnedAndOrdered(states, actions, i - 1);
      StepOwned(states[i - 1], actions[i - 1]);
      StepOrdered(states[i - 1], actions[i - 1]);
    }
  }

  /** Over all interleavings, a buffer is live iff exactly one of callback, queue and task
      holds it, in one place; a buffer that is not live any more has been freed exactly once. */
  lemma BufferOwnership(states: seq<State>, actions: seq<Action>, i: nat, id: nat)
    requires IsRun(states, actions) && i < |states|
    ensures var s := states[i];
            && (id in s.heap <==> multiset(s.queue)[id] + (if HeldByCallback(s, id) then 1 else 0)
                                    + (if HeldByWorker(s, id) then 1 else 0) == 1)
            && multiset(s.freed)[id] == if id in s.issued && id !in s.heap then 1 else 0
  {
    var s := states[i];
    OwnedAndOrdered(states, actions, i);
    QueueDistinct(s);
    CountOnce(s.queue, id);
    CountOnce(s.freed, id);
  }

  lemma {:induction false} CountOnce(ids: seq<nat>, id: nat)
    requires Distinct(ids)
    ensures multiset(ids)[id] == if id in ids then 1 else 0
  {
    if ids != [] {
      CountOnce(ids[1..], id);
      assert ids == [ids[0]] + ids[1..];
    }
  }

  /** `picks` lists where in `all` the elements of a subsequence stand. */
  ghost predicate Picks(picks: seq<nat>, all: seq<seq<byte>>, some: seq<seq<byte>>) {
    && |picks| == |some| && Increasing(picks)
    && forall k :: 0 <= k < |picks| ==>
         picks[k] < |all| && some[k] == all[picks[k]][..Min(|all[picks[k]]|, 1023)] + [0]
  }

  /** The messages processed are, in order, some of the messages received, each cut to its
      first 1023 bytes and terminated; nothing that reached the queue is skipped, and what
      has not been processed yet is queued or held by the command task. */
  lemma ProcessedInOrder(states: seq<State>, actions: seq<Action>, i: nat)
    requires IsRun(states, actions) && i < |states|
    ensures var s := states[i];
            && |s.queue| <= 5 && |s.processed| <= |s.accepted| && Picks(s.accepted[..|s.processed|], s.received, s.processed)
            && s.accepted[|s.processed|..] == (if s.worker.Holding? then [s.worker.id] else []) + s.queue
  {
    OwnedAndOrdered(states, actions, i);
    var s := states[i];
    assert forall k :: 0 <= k < |s.taken| ==> s.taken[k] == s.accepted[k];
  }

  /** When nothing is under way, every message that reached the queue has been processed and
      every buffer has been freed once. */
  lemma NothingPendingNothingLost(states: seq<State>, actions: seq<Action>, i: nat)
    requires IsRun(states, actions) && i < |states|
    requires states[i].callback == None && states[i].queue == [] && states[i].worker == Ready
    ensures states[i].heap == map[] && |states[i].processed| == |states[i].accepted|
    ensures forall id :: id in states[i].issued ==> multiset(states[i].freed)[id] == 1
  {
    OwnedAndOrdered(states, actions, i);
    CountsAll(states[i]);
  }

  lemma CountsAll(s: State)
    requires Owned(s) && s.callback == None && s.queue == [] && s.worker == Ready
    ensures s.heap == map[] && forall id :: id in s.issued ==> multiset(s.freed)[id] == 1
  {
    assert forall id :: id !in s.heap;
    forall id | id in s.issued
      ensures multiset(s.freed)[id] == 1
    {
      CountOnce(s.freed, id);
    }
  }

  // ----- The code -----

  /** The steps of the callback when no other call is under way. With the queue full it waits, up to 500 ms,
      for the command task to make room. */
  function CallbackSteps(payload: seq<byte>, mallocOk: bool, full: bool, roomInTime: bool): seq<Action> {
    if !mallocOk then [Arrive(payload, false)]
    else if !full then [Arrive(payload, true), Enqueue]
    else if roomInTime then [Arrive(payload, true), Take, Process, Free, Enqueue]
    else [Arrive(payload, true), EnqueueTimeOut]
  }

  /** One round of the command task, on an undisturbed machine. */
  lemma RoundSteps(s: State)
    requires Owned(s) && Ordered(s) && s.worker == Ready && s.queue != []
    ensures Enabled(s, Take) && Enabled(Step(s, Take), Process) && Enabled(Step(Step(s, Take), Process), Free)
    ensures var d := Step(Step(Step(s, Take), Process), Free);
            && d.worker == Ready && d.callback == s.callback && d.queue == s.queue[1..]
            && s.queue[0] in s.heap && d.heap == s.heap - {s.queue[0]}
            && d.processed == s.processed + [s.heap[s.queue[0]]]
    ensures forall i :: 1 <= i < |s.queue| ==> s.queue[i] != s.queue[0]
  {
    QueueDistinct(s);
    assert HeldByQueue(s, s.queue[0]);
  }

  lemma ArriveSteps(s: State, payload: seq<byte>)
    requires Owned(s) && Ordered(s) && s.callback == None
    ensures forall i :: 0 <= i < |s.queue| ==> s.queue[i] != |s.received|
  {
    forall i | 0 <= i < |s.queue|
      ensures s.queue[i] != |s.received|
    {
      assert HeldByQueue(s, s.queue[i]) && s.queue[i] in s.heap;
    }
  }

  lemma CallbackBuffer(s: State)
    requires Owned(s) && s.callback.Some?
    ensures s.callback.value in s.heap && s.callback.value !in s.queue
  {
    assert HeldByCallback(s, s.callback.value);
  }

  lemma RestDistinct(queue: seq<array<byte>>)
    requires queue != [] && forall i, j :: 0 <= i < j < |queue| ==> queue[i] != queue[j]
    ensures (set b | b in queue[1..]) == (set b | b in queue) - {queue[0]}
    ensures queue[0] !in queue[1..]
  {
    assert queue == [queue[0]] + queue[1..];
  }

  /** The queue with its real buffers, and the run of the machine so far. */
  class Commands {
    var queue: seq<array<byte>>
    ghost var live: set<array<byte>>         // allocated and not freed
    ghost var states: seq<State>
    ghost var actions: seq<Action>

    ghost function Now(): State
      reads `states
    {
      if states == [] then Initial() else states[|states| - 1]
    }

    /** The queue holds the machine's buffers, each with the contents the machine's heap has for it. */
    ghost predicate Matches()
      reads this, set b | b in queue
    {
      && IsRun(states, actions) && Now().worker == Ready
      && (forall i, j :: 0 <= i < j < |queue| ==> queue[i] != queue[j])
      && Holds(Now().queue, Now().heap)
    }

    ghost predicate Holds(ids: seq<nat>, heap: map<nat, seq<byte>>)
      reads this, set b | b in queue
    {
      && |queue| == |ids|
      && forall i :: 0 <= i < |queue| ==>
           && queue[i] in live && queue[i].Length == MQTT_PAYLOAD_BUFFER_LENGTH
           && ids[i] in heap && heap[ids[i]] <= queue[i][..]
    }

    ghost predicate Valid()
      reads this, set b | b in queue
    {
      Matches() && Now().callback == None && live == set b | b in queue
    }

    constructor ()
      ensures Valid() && actions == [] && queue == []
    {
      queue, live, states, actions := [], {}, [Initial()], [];
    }

    ghost method Record(a: Action)
      requires IsRun(states, actions) && Enabled(Now(), a)
      modifies `states, `actions
      ensures IsRun(states, actions) && actions == old(actions) + [a] && Now() == Step(old(Now()), a)
      ensures Owned(old(Now())) && Ordered(old(Now())) && Owned(Now()) && Ordered(Now())
    {
      hide Owned, Ordered, Enabled, Step;
      OwnedAndOrdered(states, actions, |actions|);
      states, actions := states + [Step(Now(), a)], actions + [a];
      OwnedAndOrdered(states, actions, |actions|);
    }

    ghost method RecordArrive(payload: seq<byte>)
      requires IsRun(states, actions) && Now().callback == None
      modifies `states, `actions
      ensures IsRun(states, actions) && actions == old(actions) + [Arrive(payload, true)]
      ensures Now().worker == old(Now()).worker && Now().queue == old(Now()).queue
      ensures Now().callback == Some(|old(Now()).received|) && |old(Now()).received| !in Now().queue
      ensures Now().heap == old(Now()).heap[|old(Now()).received| := Stored(payload)]
    {
      hide Stored, Owned, Ordered;
      OwnedAndOrdered(states, actions, |actions|);
      ArriveSteps(Now(), payload);
      Record(Arrive(payload, true));
    }

    ghost method RecordRound()
      requires IsRun(states, actions) && Now().worker == Ready && Now().queue != []
      modifies `states, `actions
      ensures IsRun(states, actions) && actions == old(actions) + [Take, Process, Free]
      ensures var s := old(Now());
              && Now().worker == Ready && Now().callback == s.callback && Now().queue == s.queue[1..]
              && s.queue[0] in s.heap && Now().heap == s.heap - {s.queue[0]}
              && Now().processed == s.processed + [s.heap[s.queue[0]]]
              && forall i :: 1 <= i < |s.queue| ==> s.queue[i] != s.queue[0]
    {
      hide Owned, Ordered, Enabled, Step;
      OwnedAndOrdered(states, actions, |actions|);
      RoundSteps(Now());
      Record(Take);
      Record(Process);
      Record(Free);
    }

    ghost method RecordEnd(queued: bool)
      requires IsRun(states, actions) && Now().callback.Some? && (queued ==> |Now().queue| < MQTT_COMMAND_QUEUE_LENGTH)
      modifies `states, `actions
      ensures IsRun(states, actions) && actions == old(actions) + [if queued then Enqueue else EnqueueTimeOut]
      ensures var s := old(Now());
              && Now().worker == s.worker && Now().callback == None && s.callback.value !in s.queue
              && Now().queue == s.queue + (if queued then [s.callback.value] else [])
              && Now().heap == if queued then s.heap else s.heap - {s.callback.value}
    {
      hide Owned, Ordered;
      OwnedAndOrdered(states, actions, |actions|);
      CallbackBuffer(Now());
      Record(if queued then Enqueue else EnqueueTimeOut);
    }

    /** One round of `mqtt_command_task`: the oldest message is processed as its buffer holds it, up to the
        terminator, and the buffer is freed. */
    method TakeOne()
      requires Matches() && queue != []
      modifies this
      ensures Matches() && live == old(live) - {old(queue)[0]} && queue == old(queue)[1..]
      ensures actions == old(actions) + [Take, Process, Free]
      ensures var s := old(Now());
              && Now().callback == s.callback && Now().queue == s.queue[1..] && Now().heap == s.heap - {s.queue[0]}
              && Now().processed == s.processed + [s.heap[s.queue[0]]]
      ensures Now().processed[|Now().processed| - 1] <= old(queue)[0][..]
    {
      hide Stored, IsRun;
      var message := queue[0];
      RecordRound();
      queue := queue[1..];
      live := live - {message};
    }

    /** The callback holds a filled buffer that is not queued yet. */
    ghost predicate Holding(buf: array<byte>)
      reads this, buf, set b | b in queue
    {
      && Matches() && Now().callback.Some? && Now().callback.value in Now().heap && Now().callback.value !in Now().queue
      && Now().heap[Now().callback.value] <= buf[..] && buf.Length == MQTT_PAYLOAD_BUFFER_LENGTH
      && buf !in queue && live == (set b | b in queue) + {buf}
    }

    method FillNewBuffer(payload: seq<byte>) returns (buf: array<byte>)
      requires Valid()
      modifies `live, `states, `actions
      ensures fresh(buf) && Holding(buf) && HoldsMessage(buf, payload) && live == old(live) + {buf}
      ensures actions == old(actions) + [Arrive(payload, true)]
    {
      hide Stored, IsRun, HoldsMessage;
      buf := new byte[MQTT_PAYLOAD_BUFFER_LENGTH];
      live := live + {buf};
      Fill(buf, payload);
      RecordArrive(payload);
    }

    /** `xQueueSendToBack`, and `free` if there was no room. */
    method QueueOrFree(buf: array<byte>) returns (queued: bool)
      requires Holding(buf) && |queue| <= MQTT_COMMAND_QUEUE_LENGTH
      modifies this
      ensures Valid() && (queued <==> |old(queue)| < MQTT_COMMAND_QUEUE_LENGTH)
      ensures actions == old(actions) + [if queued then Enqueue else EnqueueTimeOut]
      ensures live == old(live) - (if queued then {} else {buf})
      ensures queue == old(queue) + if queued then [buf] else []
    {
      hide IsRun;
      queued := |queue| < MQTT_COMMAND_QUEUE_LENGTH;
      RecordEnd(queued);
      if queued {
        queue := queue + [buf];
      } else {
        live := live - {buf};
      }
    }

    /** `incoming_message_callback`: the payload is queued in a buffer of its own, or nothing stays
        allocated. It takes exactly the machine's steps. */
    method IncomingMessage(payload: seq<byte>, mallocOk: bool, roomInTime: bool) returns (queued: bool)
      requires Valid()
      modifies this
      ensures Valid() && fresh(live - old(live))
      ensures actions == old(actions)
                         + CallbackSteps(payload, mallocOk, |old(queue)| == MQTT_COMMAND_QUEUE_LENGTH, roomInTime)
      ensures queued <==> mallocOk && (|old(queue)| < 5 || roomInTime)
      ensures !queued ==> live == old(live) && queue == old(queue)
      ensures queued ==> queue != [] && fresh(queue[|queue| - 1]) && HoldsMessage(queue[|queue| - 1], payload)
    {
      hide Stored, IsRun, Valid, Matches, Holds, Holding, HoldsMessage;
      QueueBounded();
      if !mallocOk {
        DropPayload(payload);
        return false;
      }
      var buf := FillNewBuffer(payload);
      if |queue| == MQTT_COMMAND_QUEUE_LENGTH && roomInTime {
        MakeRoom(buf);
      }
      queued := QueueOrFree(buf);
    }

    /** The command task takes a message while the callback waits with its buffer. */
    method MakeRoom(buf: array<byte>)
      requires Holding(buf) && queue != []
      modifies this
      ensures Holding(buf) && live == old(live) - {old(queue)[0]} && queue == old(queue)[1..]
      ensures actions == old(actions) + [Take, Process, Free]
    {
      hide IsRun, Stored;
      RestDistinct(queue);
      TakeOne();
    }

    ghost method DropPayload(payload: seq<byte>)
      requires Valid()
      modifies `states, `actions
      ensures Valid() && actions == old(actions) + [Arrive(payload, false)]
    {
      Record(Arrive(payload, false));
    }

    lemma QueueBounded()
      requires Valid()
      ensures |queue| <= MQTT_COMMAND_QUEUE_LENGTH
    {
      OwnedAndOrdered(states, actions, |actions|);
    }
  }
}
