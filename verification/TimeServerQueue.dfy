/**
 The bounded-queue time server: one accepting producer, five workers, a ten-slot ring,
 one mutex and two condition variables.

 The ring itself is first given as a value (`Ring`) with the class `RequestQueue` that
 updates it in place.  The threads are then modelled as a state machine whose steps are
 the points at which another thread may run: lock, test, sleep, wake, copy, signal, unlock.
 A schedule is any sequence of steps that are enabled one after the other, so a statement
 about all schedules is a statement about all interleavings, including spurious wakeups
 and workers that overtake a signalled one.
 */
module TimeServerQueue {
  import opened Sums

  const QUEUE_SIZE := 10
  const THREAD_POOL_SIZE := 5

  // ----- the ring -----

  datatype Request = Request(clientFd: int, clientAddr: int)

  datatype Ring = Ring(queue: seq<Request>, front: int, rear: int, count: int)

  ghost predicate RingOk(r: Ring) {
    && |r.queue| == QUEUE_SIZE
    && 0 <= r.front < QUEUE_SIZE
    && 0 <= r.count <= QUEUE_SIZE
    && r.rear == (r.front + r.count) % QUEUE_SIZE
  }

  /** The requests waiting in the ring, oldest first. */
  ghost function Contents(r: Ring): (s: seq<Request>)
    requires RingOk(r)
    ensures |s| == r.count
  {
    seq(r.count, i requires 0 <= i < r.count => r.queue[(r.front + i) % QUEUE_SIZE])
  }

  function Put(r: Ring, x: Request): Ring
    requires 0 <= r.rear < |r.queue|
  {
    r.(queue := r.queue[r.rear := x], rear := (r.rear + 1) % QUEUE_SIZE, count := r.count + 1)
  }

  function Drop(r: Ring): Ring {
    r.(front := (r.front + 1) % QUEUE_SIZE, count := r.count - 1)
  }

  /** The ring's places in use and the next one are all different. */
  lemma PlacesDiffer(front: int, i: int, count: int)
    requires 0 <= front < QUEUE_SIZE && 0 <= i < count < QUEUE_SIZE
    ensures (front + i) % QUEUE_SIZE != (front + count) % QUEUE_SIZE
  {
  }

  lemma NextPlace(front: int, count: int)
    requires 0 <= front < QUEUE_SIZE && 0 <= count < QUEUE_SIZE
    ensures ((front + count) % QUEUE_SIZE + 1) % QUEUE_SIZE == (front + (count + 1)) % QUEUE_SIZE
  {
  }

  lemma PlaceBehind(front: int, i: nat)
    requires 0 <= front < QUEUE_SIZE && i < QUEUE_SIZE
    ensures ((front + 1) % QUEUE_SIZE + i) % QUEUE_SIZE == (front + (i + 1)) % QUEUE_SIZE
  {
  }

  lemma PutAppends(r: Ring, x: Request)
    requires RingOk(r) && r.count < QUEUE_SIZE
    ensures RingOk(Put(r, x))
    ensures Contents(Put(r, x)) == Contents(r) + [x]
  {
    NextPlace(r.front, r.count);
    forall i | 0 <= i < r.count
      ensures Contents(Put(r, x))[i] == Contents(r)[i]
    {
      PlacesDiffer(r.front, i, r.count);
    }
  }

  lemma DropRemovesOldest(r: Ring)
    requires RingOk(r) && r.count > 0
    ensures RingOk(Drop(r))
    ensures Contents(r) == [r.queue[r.front]] + Contents(Drop(r))
  {
    PlaceBehind(r.front, r.count - 1);
    assert Contents(r)[0] == r.queue[r.front];
    forall i | 0 <= i < r.count - 1
      ensures Contents(Drop(r))[i] == Contents(r)[i + 1]
    {
      PlaceBehind(r.front, i);
    }
  }

  /** The global ring of the program, updated in place inside the critical sections. */
  class RequestQueue {
    const queue: array<Request>
    var front: int
    var rear: int
    var count: int

    ghost function Value(): Ring
      reads this, queue
    {
      Ring(queue[..], front, rear, count)
    }

    ghost predicate Valid()
      reads this, queue
    {
      RingOk(Value())
    }

    constructor (blank: Request)
      ensures Valid() && fresh(queue)
      ensures Contents(Value()) == []
    {
      queue := new Request[QUEUE_SIZE](_ => blank);
      front, rear, count := 0, 0, 0;
    }

    /** Critical section of the producer, after its wait loop. */
    method Enqueue(x: Request)
      requires Valid() && count != QUEUE_SIZE
      modifies this, queue
      ensures Valid() && Value() == Put(old(Value()), x)
      ensures Contents(Value()) == old(Contents(Value())) + [x]
    {
      PutAppends(Value(), x);
      queue[rear] := x;
      rear := (rear + 1) % QUEUE_SIZE;
      count := count + 1;
      assert Value() == Put(old(Value()), x);
    }

    /** Critical section of a worker, after its wait loop. */
    method Dequeue() returns (x: Request)
      requires Valid() && count != 0
      modifies this
      ensures Valid() && Value() == Drop(old(Value()))
      ensures old(Contents(Value())) == [x] + Contents(Value())
    {
      DropRemovesOldest(Value());
      x := queue[front];
      front := (front + 1) % QUEUE_SIZE;
      count := count - 1;
      assert Value() == Drop(old(Value()));
    }
  }

  // ----- the threads -----

  /** Where a worker is.  `signalled` remembers whether it was last woken by a signal that
      it has not yet used: dequeueing or going back to sleep forgets it. */
  datatype Worker =
    | Idle                              // about to lock
    | Test(signalled: bool)             // holds the mutex, at the test of count == 0
    | Wait                              // holds the mutex, has decided to wait
    | Asleep                            // blocked on queue_not_empty
    | Awake(signalled: bool)            // woken, must get the mutex back
    | Take(signalled: bool)             // holds the mutex, past the test
    | Signal(request: Request)          // holds the mutex, has dequeued
    | Unlock(request: Request)          // holds the mutex, has signalled
    | Serving(request: Request)         // no mutex: reads, answers, closes

  datatype Producer =
    | Accepting
    | Arrived(request: Request)         // about to lock
    | PTest(request: Request)
    | PWait(request: Request)
    | PAsleep(request: Request)         // blocked on queue_not_full
    | PAwake(request: Request)
    | PPut(request: Request)
    | PSignal
    | PUnlock

  datatype Owner = Free | ByProducer | ByWorker(id: nat)

  /** `accepted`, `dequeued` and `closed` record the history and influence nothing. */
  datatype State = State(
    ring: Ring, owner: Owner, producer: Producer, workers: seq<Worker>,
    accepted: seq<Request>, dequeued: seq<Request>, closed: seq<Request>)

  datatype Target = Nobody | Wake(id: nat)

  datatype Step =
    | Accept(request: Request)
    | PLock | PCheck | PSleep | PSpurious | PEnqueue | PNotify(target: Target) | PRelease
    | WLock(id: nat) | WCheck(id: nat) | WSleep(id: nat) | WSpurious(id: nat)
    | WDequeue(id: nat) | WNotify(id: nat) | WRelease(id: nat) | WFinish(id: nat)

  ghost predicate Init(s: State) {
    && RingOk(s.ring) && s.ring.count == 0 && s.ring.front == 0
    && s.owner == Free && s.producer == Accepting
    && s.workers == seq(THREAD_POOL_SIZE, _ => Idle)
    && s.accepted == s.dequeued == s.closed == []
  }

  ghost predicate SomeAsleep(s: State) {
    exists w :: 0 <= w < |s.workers| && s.workers[w] == Asleep
  }

  predicate At(s: State, id: nat) {
    id < |s.workers|
  }

  ghost predicate Enabled(s: State, step: Step) {
    match step
    case Accept(_) => s.producer.Accepting?
    case PLock => (s.producer.Arrived? || s.producer.PAwake?) && s.owner == Free
    case PCheck => s.producer.PTest?
    case PSleep => s.producer.PWait?
    case PSpurious => s.producer.PAsleep?
    case PEnqueue => s.producer.PPut? && 0 <= s.ring.rear < |s.ring.queue|
    case PNotify(Nobody) => s.producer.PSignal? && !SomeAsleep(s)
    case PNotify(Wake(w)) => s.producer.PSignal? && At(s, w) && s.workers[w].Asleep?
    case PRelease => s.producer.PUnlock?
    case WLock(w) => At(s, w) && (s.workers[w].Idle? || s.workers[w].Awake?) && s.owner == Free
    case WCheck(w) => At(s, w) && s.workers[w].Test?
    case WSleep(w) => At(s, w) && s.workers[w].Wait?
    case WSpurious(w) => At(s, w) && s.workers[w].Asleep?
    case WDequeue(w) => At(s, w) && s.workers[w].Take? && 0 <= s.ring.front < |s.ring.queue|
    case WNotify(w) => At(s, w) && s.workers[w].Signal?
    case WRelease(w) => At(s, w) && s.workers[w].Unlock?
    case WFinish(w) => At(s, w) && s.workers[w].Serving?
  }

  ghost function Move(s: State, id: nat, pc: Worker): State
    requires At(s, id)
  {
    s.(workers := s.workers[id := pc])
  }

  ghost function Apply(s: State, step: Step): State
    requires Enabled(s, step)
  {
    match step
    case Accept(r) => s.(producer := Arrived(r), accepted := s.accepted + [r])
    case PLock => s.(producer := PTest(s.producer.request), owner := ByProducer)
    case PCheck =>
      s.(producer := if s.ring.count == QUEUE_SIZE then PWait(s.producer.request) else PPut(s.producer.request))
    case PSleep => s.(producer := PAsleep(s.producer.request), owner := Free)
    case PSpurious => s.(producer := PAwake(s.producer.request))
    case PEnqueue => s.(ring := Put(s.ring, s.producer.request), producer := PSignal)
    case PNotify(Nobody) => s.(producer := PUnlock)
    case PNotify(Wake(w)) => Move(s, w, Awake(true)).(producer := PUnlock)
    case PRelease => s.(producer := Accepting, owner := Free)
    case WLock(w) =>
      Move(s, w, Test(s.workers[w].Awake? && s.workers[w].signalled)).(owner := ByWorker(w))
    case WCheck(w) =>
      Move(s, w, if s.ring.count == 0 then Wait else Take(s.workers[w].signalled))
    case WSleep(w) => Move(s, w, Asleep).(owner := Free)
    case WSpurious(w) => Move(s, w, Awake(false))
    case WDequeue(w) =>
      var r := s.ring.queue[s.ring.front];
      Move(s, w, Signal(r)).(ring := Drop(s.ring), dequeued := s.dequeued + [r])
    case WNotify(w) =>
      Move(s, w, Unlock(s.workers[w].request)).(
        producer := if s.producer.PAsleep? then PAwake(s.producer.request) else s.producer)
    case WRelease(w) => Move(s, w, Serving(s.workers[w].request)).(owner := Free)
    case WFinish(w) => Move(s, w, Idle).(closed := s.closed + [s.workers[w].request])
  }

  /** Every step of `steps` is possible when its turn comes. */
  ghost predicate Schedule(s: State, steps: seq<Step>)
    decreases |steps|
  {
    steps == [] || (Enabled(s, steps[0]) && Schedule(Apply(s, steps[0]), steps[1..]))
  }

  ghost function Outcome(s: State, steps: seq<Step>): State
    requires Schedule(s, steps)
    decreases |steps|
  {
    if steps == [] then s else Outcome(Apply(s, steps[0]), steps[1..])
  }

  // ----- sums over the workers -----

  function HasInHand(r: Request): Worker -> int {
    (w: Worker) => if (w.Signal? || w.Unlock? || w.Serving?) && w.request == r then 1 else 0
  }

  /** The number of workers that have dequeued `r` and not yet closed it. */
  ghost function InHands(ws: seq<Worker>, r: Request): int {
    Total(ws, HasInHand(r))
  }

  function IsSignalled(w: Worker): int {
    if (w.Awake? || w.Test? || w.Take?) && w.signalled then 1 else 0
  }

  /** Workers that were signalled and have neither dequeued nor gone back to sleep since. */
  ghost function Signalled(s: State): int {
    Total(s.workers, IsSignalled)
  }

  // ----- what every step keeps -----

  predicate WorkerHolds(w: Worker) {
    w.Test? || w.Wait? || w.Take? || w.Signal? || w.Unlock?
  }

  predicate ProducerHolds(p: Producer) {
    p.PTest? || p.PWait? || p.PPut? || p.PSignal? || p.PUnlock?
  }

  /** Exactly the owner of the mutex is inside a critical section, and what it has tested
      there is still so. */
  ghost predicate Exclusion(s: State) {
    && |s.workers| == THREAD_POOL_SIZE
    && RingOk(s.ring)
    && (ProducerHolds(s.producer) <==> s.owner == ByProducer)
    && (forall w: nat :: w < |s.workers| ==> (WorkerHolds(s.workers[w]) <==> s.owner == ByWorker(w)))
    && (s.owner.ByWorker? ==> s.owner.id < |s.workers|)
    && (s.producer.PWait? ==> s.ring.count == QUEUE_SIZE)
    && (s.producer.PPut? ==> s.ring.count < QUEUE_SIZE)
    && (s.producer.PSignal? ==> s.ring.count > 0)
    && (forall w :: 0 <= w < |s.workers| && s.workers[w].Wait? ==> s.ring.count == 0)
    && (forall w :: 0 <= w < |s.workers| && s.workers[w].Take? ==> s.ring.count > 0)
  }

  ghost function ProducerHand(p: Producer): seq<Request> {
    if p.Accepting? || p.PSignal? || p.PUnlock? then [] else [p.request]
  }

  /** The ring refines a first-in first-out queue. */
  ghost predicate Fifo(s: State)
    requires RingOk(s.ring)
  {
    s.accepted == s.dequeued + Contents(s.ring) + ProducerHand(s.producer)
  }

  /** Whatever was dequeued is either closed or in exactly one worker's hands. */
  ghost predicate ServedOnce(s: State) {
    forall r :: multiset(s.dequeued)[r] == multiset(s.closed)[r] + InHands(s.workers, r)
  }

  /** No wakeup is lost on queue_not_empty. */
  ghost predicate NotEmptyWakeup(s: State) {
    SomeAsleep(s) ==> s.ring.count <= Signalled(s) + (if s.producer.PSignal? then 1 else 0)
  }

  /** No wakeup is lost on queue_not_full. */
  ghost predicate NotFullWakeup(s: State) {
    s.producer.PAsleep? ==>
      s.ring.count == QUEUE_SIZE -
        if s.owner.ByWorker? && At(s, s.owner.id) && s.workers[s.owner.id].Signal? then 1 else 0
  }

  ghost predicate Inv(s: State) {
    Exclusion(s) && Fifo(s) && ServedOnce(s) && NotEmptyWakeup(s) && NotFullWakeup(s)
  }

  lemma ExclusionStep(s: State, step: Step)
    requires Exclusion(s) && Enabled(s, step)
    ensures Exclusion(Apply(s, step))
  {
    if step.PEnqueue? {
      PutAppends(s.ring, s.producer.request);
    } else if step.WDequeue? {
      DropRemovesOldest(s.ring);
    }
  }

  lemma FifoStep(s: State, step: Step)
    requires Exclusion(s) && Enabled(s, step) && Fifo(s)
    ensures RingOk(Apply(s, step).ring) && Fifo(Apply(s, step))
  {
    ExclusionStep(s, step);
    var s' := Apply(s, step);
    if step.PEnqueue? {
      PutAppends(s.ring, s.producer.request);
      assert s'.accepted == s.dequeued + (Contents(s.ring) + [s.producer.request]) + [];
    } else if step.WDequeue? {
      DropRemovesOldest(s.ring);
      var r := s.ring.queue[s.ring.front];
      assert s.dequeued + ([r] + Contents(s'.ring)) == s.dequeued + [r] + Contents(s'.ring);
    }
  }

  /** The worker a step moves, if it moves one. */
  ghost predicate Moves(step: Step, id: nat) {
    match step
    case PNotify(Wake(w)) => w == id
    case WLock(w) => w == id
    case WCheck(w) => w == id
    case WSleep(w) => w == id
    case WSpurious(w) => w == id
    case WDequeue(w) => w == id
    case WNotify(w) => w == id
    case WRelease(w) => w == id
    case WFinish(w) => w == id
    case _ => false
  }

  lemma StepMovesOne(s: State, step: Step) returns (id: nat)
    requires Enabled(s, step) && |s.workers| > 0
    ensures id < |s.workers|
    ensures Apply(s, step).workers == s.workers[id := Apply(s, step).workers[id]]
    ensures forall w :: Moves(step, w) ==> w == id
    ensures !Moves(step, id) ==> Apply(s, step).workers == s.workers
  {
    match step
    case PNotify(Wake(w)) => id := w;
    case WLock(w) => id := w;
    case WCheck(w) => id := w;
    case WSleep(w) => id := w;
    case WSpurious(w) => id := w;
    case WDequeue(w) => id := w;
    case WNotify(w) => id := w;
    case WRelease(w) => id := w;
    case WFinish(w) => id := w;
    case _ => id := 0;
  }

  /** A step changes the history and the hands of the worker it moves by the same request. */
  lemma StepPassesRequestOn(s: State, step: Step, id: nat, r: Request)
    requires Exclusion(s) && Enabled(s, step) && id < |s.workers| && (forall w :: Moves(step, w) ==> w == id)
    requires Moves(step, id) || Apply(s, step).workers == s.workers
    ensures var s' := Apply(s, step);
      && id < |s'.workers|
      && multiset(s'.dequeued)[r] - multiset(s'.closed)[r] - HasInHand(r)(s'.workers[id])
      == multiset(s.dequeued)[r] - multiset(s.closed)[r] - HasInHand(r)(s.workers[id])
  {
  }

  lemma ServedOnceStep(s: State, step: Step)
    requires Exclusion(s) && Enabled(s, step) && ServedOnce(s)
    ensures ServedOnce(Apply(s, step))
  {
    var s' := Apply(s, step);
    var id := StepMovesOne(s, step);
    var pc := s'.workers[id];
    forall r
      ensures multiset(s'.dequeued)[r] == multiset(s'.closed)[r] + InHands(s'.workers, r)
    {
      TotalUpdate(s.workers, id, pc, HasInHand(r));
      StepPassesRequestOn(s, step, id, r);
    }
  }

  lemma NotEmptyWakeupStep(s: State, step: Step)
    requires Exclusion(s) && Enabled(s, step) && NotEmptyWakeup(s)
    ensures NotEmptyWakeup(Apply(s, step))
  {
    var s' := Apply(s, step);
    var id := StepMovesOne(s, step);
    TotalUpdate(s.workers, id, s'.workers[id], IsSignalled);
    TotalNonNegative(s'.workers, IsSignalled);
    if SomeAsleep(s') && !SomeAsleep(s) {
      // A worker falls asleep only having found, and kept, the queue empty.
      var w :| 0 <= w < |s'.workers| && s'.workers[w] == Asleep;
      assert w == id && step == WSleep(id) && s.workers[id] == Wait;
    }
  }

  lemma NotFullWakeupStep(s: State, step: Step)
    requires Exclusion(s) && Enabled(s, step) && NotFullWakeup(s)
    ensures NotFullWakeup(Apply(s, step))
  {
    var id := StepMovesOne(s, step);
  }

  lemma InvInit(s: State)
    requires Init(s)
    ensures Inv(s)
  {
    EmptyHands(s);
  }

  lemma EmptyHands(s: State)
    requires forall w :: w in s.workers ==> !(w.Signal? || w.Unlock? || w.Serving?)
    ensures forall r :: InHands(s.workers, r) == 0
  {
    forall r
      ensures InHands(s.workers, r) == 0
    {
      TotalZero(s.workers, HasInHand(r));
    }
  }

  lemma InvStep(s: State, step: Step)
    requires Inv(s) && Enabled(s, step)
    ensures Inv(Apply(s, step))
  {
    ExclusionStep(s, step);
    FifoStep(s, step);
    ServedOnceStep(s, step);
    NotEmptyWakeupStep(s, step);
    NotFullWakeupStep(s, step);
  }

  /** Safety of every interleaving. */
  lemma {:induction false} EveryRunKeepsInv(s: State, steps: seq<Step>)
    requires Inv(s) && Schedule(s, steps)
    ensures Inv(Outcome(s, steps))
    decreases |steps|
  {
    if steps != [] {
      InvStep(s, steps[0]);
      EveryRunKeepsInv(Apply(s, steps[0]), steps[1..]);
    }
  }

  /** The schedules contain all spurious wakeups: whoever sleeps may wake at any moment. */
  lemma SleepersMayWake(s: State, w: nat)
    ensures s.producer.PAsleep? ==>
      Enabled(s, PSpurious) && Apply(s, PSpurious) == s.(producer := PAwake(s.producer.request))
    ensures w < |s.workers| && s.workers[w].Asleep? ==>
      Enabled(s, WSpurious(w)) && Apply(s, WSpurious(w)) == s.(workers := s.workers[w := Awake(false)])
  {
  }

  // ----- consequences for every run -----

  function IsAsleep(w: Worker): int {
    if w.Asleep? then 1 else 0
  }

  lemma {:induction false} AsleepAreNotSignalled(ws: seq<Worker>)
    ensures Total(ws, IsSignalled) + Total(ws, IsAsleep) <= |ws|
    ensures (exists w :: 0 <= w < |ws| && ws[w] == Asleep) ==> Total(ws, IsAsleep) > 0
    ensures (forall w :: 0 <= w < |ws| ==> ws[w] == Asleep) ==> Total(ws, IsSignalled) == 0
  {
    if ws != [] {
      AsleepAreNotSignalled(ws[1..]);
      TotalNonNegative(ws, IsAsleep);
      if w :| 0 <= w < |ws| && ws[w] == Asleep {
        assert ws[w] in ws;
      }
    }
  }

  ghost predicate SomeWorkerSignals(s: State) {
    exists w :: 0 <= w < |s.workers| && s.workers[w].Signal?
  }

  /** In every run, sleepers are owed at most the work already announced; a sleeping producer
      faces a full ring, or one with a single free place for which a worker is just about to
      signal; and the two kinds of sleeper never coexist. */
  lemma NoLostWakeup(init: State, steps: seq<Step>)
    requires Init(init) && Schedule(init, steps)
    ensures var s := Outcome(init, steps);
      && (SomeAsleep(s) ==> s.ring.count <= Signalled(s) + if s.producer.PSignal? then 1 else 0)
      && (s.producer.PAsleep? ==> s.ring.count == if SomeWorkerSignals(s) then QUEUE_SIZE - 1 else QUEUE_SIZE)
      && !(s.producer.PAsleep? && SomeAsleep(s))
  {
    InvInit(init);
    EveryRunKeepsInv(init, steps);
    var s := Outcome(init, steps);
    AsleepAreNotSignalled(s.workers);
    if w: nat :| w < |s.workers| && s.workers[w].Signal? {
      assert s.owner == ByWorker(w);
    }
  }

  /** In every run the accepted requests are, in order, those dequeued, those in the ring
      and the one in the producer's hand; and each dequeued one is closed or in the hands of
      one worker.  So none is lost, overwritten or served twice. */
  lemma RequestsAreServedInOrderAndOnce(init: State, steps: seq<Step>)
    requires Init(init) && Schedule(init, steps)
    ensures var s := Outcome(init, steps);
      && RingOk(s.ring)
      && s.accepted == s.dequeued + Contents(s.ring) + ProducerHand(s.producer)
      && forall r :: multiset(s.dequeued)[r] == multiset(s.closed)[r] + InHands(s.workers, r)
  {
    InvInit(init);
    EveryRunKeepsInv(init, steps);
  }

  // ----- progress -----

  /** Steps the program takes by itself: no new connection and no spurious wakeup. */
  predicate Internal(step: Step) {
    !step.Accept? && !step.PSpurious? && !step.WSpurious?
  }

  /** Nothing left to do: every accepted request is answered and everybody waits. */
  ghost predicate Quiescent(s: State) {
    && s.producer.Accepting? && s.owner == Free
    && (forall w :: 0 <= w < |s.workers| ==> s.workers[w].Asleep?)
    && s.ring.count == 0
    && s.dequeued == s.accepted
    && multiset(s.closed) == multiset(s.accepted)
  }

  /** No deadlock: short of quiescence some thread can move on its own. */
  lemma Progress(s: State) returns (step: Step)
    requires Inv(s) && !Quiescent(s)
    ensures Internal(step) && Enabled(s, step)
  {
    AsleepAreNotSignalled(s.workers);
    if s.owner.ByWorker? {
      var w := s.owner.id;
      step := match s.workers[w]
        case Test(_) => WCheck(w)
        case Wait => WSleep(w)
        case Take(_) => WDequeue(w)
        case Signal(_) => WNotify(w)
        case _ => WRelease(w);
    } else if s.owner.ByProducer? {
      if s.producer.PSignal? && SomeAsleep(s) {
        var w: nat :| w < |s.workers| && s.workers[w] == Asleep;
        step := PNotify(Wake(w));
      } else {
        step := match s.producer
          case PTest(_) => PCheck
          case PWait(_) => PSleep
          case PPut(_) => PEnqueue
          case PSignal => PNotify(Nobody)
          case _ => PRelease;
      }
    } else if s.producer.Arrived? || s.producer.PAwake? {
      step := PLock;
    } else if w: nat :| w < |s.workers| && !s.workers[w].Asleep? {
      step := if s.workers[w].Serving? then WFinish(w) else WLock(w);
    } else {
      assert s.workers[0].Asleep?;
      AllAsleepMeansDone(s);
    }
  }

  lemma AllAsleepMeansDone(s: State)
    requires Inv(s) && s.owner == Free && !s.producer.Arrived? && !s.producer.PAwake?
    requires forall w :: 0 <= w < |s.workers| ==> s.workers[w].Asleep?
    ensures Quiescent(s)
  {
    AsleepAreNotSignalled(s.workers);
    assert s.workers[0] == Asleep;
    EmptyHands(s);
    assert multiset(s.closed) == multiset(s.dequeued);
    assert Contents(s.ring) == [];
    assert s.accepted == s.dequeued;
  }

  /** How much a worker can still do without further requests. */
  function WorkerFuel(w: Worker): int {
    match w
    case Asleep => 0
    case Wait => 1
    case Take(_) => 1
    case Test(_) => 2
    case Idle => 3
    case Awake(_) => 3
    case Serving(_) => 4
    case Unlock(_) => 5
    case Signal(_) => 9
  }

  const ITEM_FUEL: nat := 9

  function ProducerFuel(p: Producer): nat {
    match p
    case Accepting => 0
    case PUnlock => 1
    case PSignal => 5
    case PPut(_) => 6 + ITEM_FUEL
    case PAsleep(_) => 7 + ITEM_FUEL
    case PWait(_) => 8 + ITEM_FUEL
    case PTest(_) => 9 + ITEM_FUEL
    case PAwake(_) => 10 + ITEM_FUEL
    case Arrived(_) => 10 + ITEM_FUEL
  }

  ghost function Fuel(s: State): nat
    requires Exclusion(s)
  {
    TotalNonNegative(s.workers, WorkerFuel);
    ITEM_FUEL * s.ring.count + ProducerFuel(s.producer) + Total(s.workers, WorkerFuel)
  }

  lemma InternalStepBurnsFuel(s: State, step: Step)
    requires Exclusion(s) && Enabled(s, step) && Internal(step)
    ensures Exclusion(Apply(s, step)) && Fuel(Apply(s, step)) < Fuel(s)
  {
    ExclusionStep(s, step);
    var id := StepMovesOne(s, step);
    TotalUpdate(s.workers, id, Apply(s, step).workers[id], WorkerFuel);
  }

  /** From any reachable state, however the threads are scheduled, they come to rest after a
      bounded number of steps if no connection arrives and nobody wakes spuriously; and
      where they rest every accepted request has been answered and closed. */
  lemma {:induction false} EveryRequestIsAnswered(s: State, steps: seq<Step>)
    requires Inv(s) && Schedule(s, steps) && forall i :: 0 <= i < |steps| ==> Internal(steps[i])
    ensures |steps| <= Fuel(s)
    ensures (forall step :: Enabled(Outcome(s, steps), step) ==> !Internal(step)) ==> Quiescent(Outcome(s, steps))
    decreases |steps|
  {
    if steps == [] {
      if !Quiescent(s) {
        var step := Progress(s);
      }
    } else {
      InvStep(s, steps[0]);
      InternalStepBurnsFuel(s, steps[0]);
      EveryRequestIsAnswered(Apply(s, steps[0]), steps[1..]);
    }
  }
  /** The threads can always come to rest. */
  lemma {:induction false} RunToRest(s: State) returns (steps: seq<Step>)
    requires Inv(s)
    ensures Schedule(s, steps) && Quiescent(Outcome(s, steps)) && Inv(Outcome(s, steps))
    ensures Outcome(s, steps).accepted == s.accepted
    decreases Fuel(s)
  {
    hide Quiescent, Fuel, Exclusion, Fifo, ServedOnce, NotEmptyWakeup, NotFullWakeup;
    if Quiescent(s) {
      steps := [];
    } else {
      var step := Progress(s);
      InvStep(s, step);
      InternalStepBurnsFuel(s, step);
      var rest := RunToRest(Apply(s, step));
      StepBefore(s, step, rest);
      InternalAcceptsNothing(s, step);
      steps := [step] + rest;
    }
  }

  lemma InternalAcceptsNothing(s: State, step: Step)
    requires Enabled(s, step) && Internal(step)
    ensures Apply(s, step).accepted == s.accepted
  {
  }

  lemma StepBefore(s: State, step: Step, rest: seq<Step>)
    requires Enabled(s, step) && Schedule(Apply(s, step), rest)
    ensures Schedule(s, [step] + rest) && Outcome(s, [step] + rest) == Outcome(Apply(s, step), rest)
  {
    hide Enabled, Apply;
    assert ([step] + rest)[0] == step && ([step] + rest)[1..] == rest;
  }

  /** Whatever requests come, there are runs that accept them in this order, and serve them all. */
  lemma {:induction false} AnyRequestsCanBeServed(s: State, requests: seq<Request>) returns (steps: seq<Step>)
    requires Inv(s) && Quiescent(s)
    ensures Schedule(s, steps) && Quiescent(Outcome(s, steps))
    ensures Outcome(s, steps).accepted == s.accepted + requests
    decreases |requests|
  {
    hide Quiescent, Inv, Schedule, Outcome;
    if requests == [] {
      steps := NoSteps(s);
      assert s.accepted + [] == s.accepted;
    } else {
      var serving := OneRequestCanBeServed(s, requests[0]);
      var rest := AnyRequestsCanBeServed(Outcome(s, serving), requests[1..]);
      OneAfterTheOther(s, serving, rest);
      steps := serving + rest;
      assert s.accepted + [requests[0]] + requests[1..] == s.accepted + requests;
    }
  }

  lemma NoSteps(s: State) returns (steps: seq<Step>)
    ensures Schedule(s, steps) && Outcome(s, steps) == s
  {
    steps := [];
  }

  lemma OneRequestCanBeServed(s: State, r: Request) returns (steps: seq<Step>)
    requires Inv(s) && Quiescent(s)
    ensures Schedule(s, steps) && Quiescent(Outcome(s, steps)) && Inv(Outcome(s, steps))
    ensures Outcome(s, steps).accepted == s.accepted + [r]
  {
    var arrived := Apply(s, Accept(r));
    InvStep(s, Accept(r));
    hide Inv, Schedule, Outcome;
    var serving := RunToRest(arrived);
    StepBefore(s, Accept(r), serving);
    steps := [Accept(r)] + serving;
  }

  lemma {:induction false} OneAfterTheOther(s: State, first: seq<Step>, second: seq<Step>)
    requires Schedule(s, first) && Schedule(Outcome(s, first), second)
    ensures Schedule(s, first + second) && Outcome(s, first + second) == Outcome(Outcome(s, first), second)
    decreases |first|
  {
    hide Enabled, Apply;
    if first == [] {
      assert first + second == second;
    } else {
      OneAfterTheOther(Apply(s, first[0]), first[1..], second);
      assert (first + second)[0] == first[0] && (first + second)[1..] == first[1..] + second;
    }
  }
}
