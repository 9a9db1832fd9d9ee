/**
 The thread-pool time server: the accepting thread scans five slots and hands the accepted
 descriptor to the first one it finds unoccupied; each slot has its own mutex, condition
 variable and worker, and the worker keeps the mutex while it serves.

 The threads are a state machine whose steps are the points at which another thread may
 run.  `accepted`, `answered`, `closed` and `dropped` record the history and `found` the
 slots the current scan has seen occupied; they influence nothing.
 */
module TimeServerPool {
  import opened Sums

  const THREAD_POOL_SIZE := 5

  /** Where a worker is in its loop. */
  datatype Worker =
    | Idle         // about to lock its slot
    | Test         // holds the slot's mutex, at the test of is_occupied
    | Wait         // holds the mutex, has decided to wait
    | Asleep       // blocked on the slot's condition variable
    | Awake        // woken, must get the mutex back
    | Read | Write | Close | Clear | Unlock   // serving, mutex held throughout

  datatype Owner = Free | ByMain | ByWorker

  datatype Slot = Slot(clientFd: int, isOccupied: bool, owner: Owner, worker: Worker)

  /** The accepting thread; `i` is its loop variable. */
  datatype Main =
    | Accepting
    | Lock(fd: int, i: nat)      // i == 5 means that the loop is over
    | Look(fd: int, i: nat)      // holds slot i
    | Store(fd: int, i: nat)
    | Mark(fd: int, i: nat)
    | Signal(i: nat)
    | Release(i: nat)
    | Skip(fd: int, i: nat)

  datatype Drop = Drop(fd: int, found: seq<nat>)

  datatype State = State(
    slots: seq<Slot>, main: Main, found: seq<nat>,
    accepted: seq<int>, answered: seq<int>, closed: seq<int>, dropped: seq<Drop>)

  datatype Step =
    | MAccept(fd: int) | MLock | MLook | MStore | MMark | MSignal | MRelease | MSkip | MGiveUp
    | WLock(w: nat) | WTest(w: nat) | WSleep(w: nat) | WSpurious(w: nat)
    | WRead(w: nat) | WWrite(w: nat) | WClose(w: nat) | WClear(w: nat) | WUnlock(w: nat)

  ghost predicate Init(s: State) {
    && |s.slots| == THREAD_POOL_SIZE
    && (forall w :: 0 <= w < |s.slots| ==>
          !s.slots[w].isOccupied && s.slots[w].owner == Free && s.slots[w].worker == Idle)
    && s.main == Accepting && s.found == []
    && s.accepted == s.answered == s.closed == [] && s.dropped == []
  }

  /** The slot the accepting thread is at, if there is one. */
  predicate MainAt(s: State, i: nat) {
    !s.main.Accepting? && s.main.i == i && i < |s.slots|
  }

  predicate In(s: State, w: nat) {
    w < |s.slots|
  }

  ghost predicate Enabled(s: State, step: Step) {
    match step
    case MAccept(_) => s.main.Accepting?
    case MLock => s.main.Lock? && In(s, s.main.i) && s.slots[s.main.i].owner == Free
    case MLook => s.main.Look? && In(s, s.main.i)
    case MStore => s.main.Store? && In(s, s.main.i)
    case MMark => s.main.Mark? && In(s, s.main.i)
    case MSignal => s.main.Signal? && In(s, s.main.i)
    case MRelease => s.main.Release? && In(s, s.main.i)
    case MSkip => s.main.Skip? && In(s, s.main.i)
    case MGiveUp => s.main.Lock? && s.main.i == THREAD_POOL_SIZE
    case WLock(w) => In(s, w) && (s.slots[w].worker.Idle? || s.slots[w].worker.Awake?) && s.slots[w].owner == Free
    case WTest(w) => In(s, w) && s.slots[w].worker.Test?
    case WSleep(w) => In(s, w) && s.slots[w].worker.Wait?
    case WSpurious(w) => In(s, w) && s.slots[w].worker.Asleep?
    case WRead(w) => In(s, w) && s.slots[w].worker.Read?
    case WWrite(w) => In(s, w) && s.slots[w].worker.Write?
    case WClose(w) => In(s, w) && s.slots[w].worker.Close?
    case WClear(w) => In(s, w) && s.slots[w].worker.Clear?
    case WUnlock(w) => In(s, w) && s.slots[w].worker.Unlock?
  }

  ghost function SetSlot(s: State, w: nat, slot: Slot): State
    requires In(s, w)
  {
    s.(slots := s.slots[w := slot])
  }

  ghost function Apply(s: State, step: Step): State
    requires Enabled(s, step)
  {
    match step
    case MAccept(fd) => s.(main := Lock(fd, 0), found := [], accepted := s.accepted + [fd])
    case MLock => SetSlot(s, s.main.i, s.slots[s.main.i].(owner := ByMain)).(main := Look(s.main.fd, s.main.i))
    case MLook =>
      if s.slots[s.main.i].isOccupied
      then s.(main := Skip(s.main.fd, s.main.i), found := s.found + [s.main.i])
      else s.(main := Store(s.main.fd, s.main.i))
    case MStore => SetSlot(s, s.main.i, s.slots[s.main.i].(clientFd := s.main.fd)).(main := Mark(s.main.fd, s.main.i))
    case MMark => SetSlot(s, s.main.i, s.slots[s.main.i].(isOccupied := true)).(main := Signal(s.main.i))
    case MSignal =>
      var slot := s.slots[s.main.i];
      SetSlot(s, s.main.i, if slot.worker.Asleep? then slot.(worker := Awake) else slot).(main := Release(s.main.i))
    case MRelease => SetSlot(s, s.main.i, s.slots[s.main.i].(owner := Free)).(main := Accepting)
    case MSkip => SetSlot(s, s.main.i, s.slots[s.main.i].(owner := Free)).(main := Lock(s.main.fd, s.main.i + 1))
    case MGiveUp => s.(main := Accepting, dropped := s.dropped + [Drop(s.main.fd, s.found)])
    case WLock(w) => SetSlot(s, w, s.slots[w].(worker := Test, owner := ByWorker))
    case WTest(w) => SetSlot(s, w, s.slots[w].(worker := if s.slots[w].isOccupied then Read else Wait))
    case WSleep(w) => SetSlot(s, w, s.slots[w].(worker := Asleep, owner := Free))
    case WSpurious(w) => SetSlot(s, w, s.slots[w].(worker := Awake))
    case WRead(w) => SetSlot(s, w, s.slots[w].(worker := Write))
    case WWrite(w) => SetSlot(s, w, s.slots[w].(worker := Close)).(answered := s.answered + [s.slots[w].clientFd])
    case WClose(w) => SetSlot(s, w, s.slots[w].(worker := Clear)).(closed := s.closed + [s.slots[w].clientFd])
    case WClear(w) => SetSlot(s, w, s.slots[w].(worker := Unlock, isOccupied := false))
    case WUnlock(w) => SetSlot(s, w, s.slots[w].(worker := Idle, owner := Free))
  }

  ghost predicate Schedule(s: State, steps: seq<Step>)
    decreases |steps|
  {
    steps == [] || (Enabled(s, steps[0]) && Schedule(Apply(s, steps[0]), steps[1..]))
  }

  ghost function Outcome(s: State, steps: seq<Step>): State
    requires Schedule(s, steps)
    decreases |steps|
  {
    if steps == [] then s else Outcome(Apply(s, steps[0]), steps[1..])
  }

  // ----- what every step keeps -----

  predicate WorkerHolds(w: Worker) {
    !w.Idle? && !w.Asleep? && !w.Awake?
  }

  predicate MainHolds(m: Main, i: nat) {
    !m.Accepting? && !m.Lock? && m.i == i
  }

  predicate InService(w: Worker) {
    w.Read? || w.Write? || w.Close? || w.Clear?
  }

  /** One slot: its mutex has one owner, a handed-over descriptor stays until it is served,
      and no worker sleeps through a hand-over. */
  ghost predicate SlotOk(s: State, i: nat)
    requires In(s, i)
  {
    var slot := s.slots[i];
    && (WorkerHolds(slot.worker) <==> slot.owner == ByWorker)
    && (MainHolds(s.main, i) <==> slot.owner == ByMain)
    && (InService(slot.worker) ==> slot.isOccupied)
    && (slot.worker.Wait? || slot.worker.Unlock? ==> !slot.isOccupied)
    && (slot.worker.Asleep? && slot.isOccupied ==> s.main == Signal(i))
    && (MainAt(s, i) && (s.main.Store? || s.main.Mark?) ==> !slot.isOccupied)
    && (MainAt(s, i) && s.main.Mark? ==> slot.clientFd == s.main.fd)
    && (MainAt(s, i) && (s.main.Signal? || s.main.Release? || s.main.Skip?) ==> slot.isOccupied)
  }

  ghost function UpTo(n: nat): seq<nat> {
    seq(n, k => k)
  }

  /** The current scan has seen every earlier slot occupied, and every dropped descriptor all five. */
  ghost predicate ScanOk(s: State) {
    && (s.main.Lock? ==> s.main.i <= THREAD_POOL_SIZE)
    && (!s.main.Lock? && !s.main.Accepting? ==> s.main.i < THREAD_POOL_SIZE)
    && (s.main.Lock? || s.main.Look? || s.main.Store? || s.main.Mark? ==> s.found == UpTo(s.main.i))
    && (s.main.Skip? ==> s.found == UpTo(s.main.i + 1))
    && forall d :: d in s.dropped ==> d.found == UpTo(THREAD_POOL_SIZE)
  }

  /** 1 if the slot holds `fd`, handed over and not yet closed. */
  function Holding(fd: int): Slot -> int {
    (slot: Slot) => if slot.isOccupied && !slot.worker.Clear? && slot.clientFd == fd then 1 else 0
  }

  function Answering(fd: int): Slot -> int {
    (slot: Slot) => if slot.worker.Close? && slot.clientFd == fd then 1 else 0
  }

  function InMainHand(m: Main, fd: int): int {
    if (m.Lock? || m.Look? || m.Store? || m.Mark? || m.Skip?) && m.fd == fd then 1 else 0
  }

  ghost function DroppedFds(dropped: seq<Drop>): seq<int> {
    seq(|dropped|, k requires 0 <= k < |dropped| => dropped[k].fd)
  }

  /** Where every accepted descriptor is. */
  ghost predicate Accounted(s: State, fd: int) {
    && multiset(s.accepted)[fd] ==
       multiset(s.closed)[fd] + multiset(DroppedFds(s.dropped))[fd] + Total(s.slots, Holding(fd))
       + InMainHand(s.main, fd)
    && multiset(s.answered)[fd] == multiset(s.closed)[fd] + Total(s.slots, Answering(fd))
  }

  /** A worker that is about to free its slot has answered and closed the descriptor in it. */
  ghost predicate ServedBeforeFreed(s: State) {
    forall i :: 0 <= i < |s.slots| ==>
      && (s.slots[i].worker.Close? || s.slots[i].worker.Clear? ==> s.slots[i].clientFd in s.answered)
      && (s.slots[i].worker.Clear? ==> s.slots[i].clientFd in s.closed)
  }

  ghost predicate Inv(s: State) {
    && |s.slots| == THREAD_POOL_SIZE
    && (forall i: nat :: i < |s.slots| ==> SlotOk(s, i))
    && ScanOk(s) && ServedBeforeFreed(s)
    && forall fd :: Accounted(s, fd)
  }

  lemma InvInit(s: State)
    requires Init(s)
    ensures Inv(s)
  {
    forall fd
      ensures Accounted(s, fd)
    {
      TotalZero(s.slots, Holding(fd));
      TotalZero(s.slots, Answering(fd));
      assert DroppedFds(s.dropped) == [];
    }
  }

  /** The slot a step touches (slot 0 when it touches none). */
  ghost function Touched(s: State, step: Step): nat {
    match step
    case MAccept(_) => 0
    case MGiveUp => 0
    case WLock(w) => w
    case WTest(w) => w
    case WSleep(w) => w
    case WSpurious(w) => w
    case WRead(w) => w
    case WWrite(w) => w
    case WClose(w) => w
    case WClear(w) => w
    case WUnlock(w) => w
    case _ => if s.main.Accepting? then 0 else s.main.i
  }

  lemma TouchedSlotStep(s: State, step: Step, i: nat)
    requires Enabled(s, step) && In(s, i) && SlotOk(s, i) && i == Touched(s, step)
    ensures In(Apply(s, step), i) && SlotOk(Apply(s, step), i)
  {
  }

  lemma OtherSlotStep(s: State, step: Step, i: nat)
    requires Enabled(s, step) && In(s, i) && SlotOk(s, i) && i != Touched(s, step)
    ensures In(Apply(s, step), i) && SlotOk(Apply(s, step), i)
  {
  }

  lemma SlotsStep(s: State, step: Step)
    requires |s.slots| == THREAD_POOL_SIZE && (forall i: nat :: i < |s.slots| ==> SlotOk(s, i))
    requires Enabled(s, step)
    ensures |Apply(s, step).slots| == |s.slots|
    ensures forall i: nat :: i < |s.slots| ==> SlotOk(Apply(s, step), i)
  {
    forall i: nat | i < |s.slots|
      ensures In(Apply(s, step), i) && SlotOk(Apply(s, step), i)
    {
      if i == Touched(s, step) {
        TouchedSlotStep(s, step, i);
      } else {
        OtherSlotStep(s, step, i);
      }
    }
  }

  lemma ScanStep(s: State, step: Step)
    requires |s.slots| == THREAD_POOL_SIZE && ScanOk(s) && Enabled(s, step)
    ensures ScanOk(Apply(s, step))
  {
    if step.MLook? && s.slots[s.main.i].isOccupied {
      assert UpTo(s.main.i) + [s.main.i] == UpTo(s.main.i + 1);
    }
  }

  lemma ServedStep(s: State, step: Step)
    requires |s.slots| == THREAD_POOL_SIZE && (forall i: nat :: i < |s.slots| ==> SlotOk(s, i))
    requires ServedBeforeFreed(s) && Enabled(s, step)
    ensures ServedBeforeFreed(Apply(s, step))
  {
    if step.MStore? {
      assert SlotOk(s, s.main.i);
    }
  }

  predicate ByAcceptingThread(step: Step) {
    step.MAccept? || step.MLock? || step.MLook? || step.MStore? || step.MMark? || step.MSignal?
    || step.MRelease? || step.MSkip? || step.MGiveUp?
  }

  /** The copies of `fd` that neither the histories, the hand nor slot i accounts for. */
  ghost function Elsewhere(s: State, fd: int, i: nat): int
    requires In(s, i)
  {
    multiset(s.accepted)[fd] - multiset(s.closed)[fd] - multiset(DroppedFds(s.dropped))[fd]
    - Holding(fd)(s.slots[i]) - InMainHand(s.main, fd)
  }

  /** A step moves a descriptor between the histories, the hand and one slot. */
  lemma StepPassesDescriptorOn(s: State, step: Step, fd: int, i: nat)
    requires |s.slots| == THREAD_POOL_SIZE && Enabled(s, step) && i == Touched(s, step) && SlotOk(s, i)
    ensures var s' := Apply(s, step);
      s'.slots == s.slots[i := s'.slots[i]] && Elsewhere(s', fd, i) == Elsewhere(s, fd, i)
  {
    hide Elsewhere;
    if step.MGiveUp? {
      GiveUpPassesOn(s, fd, i);
    } else if ByAcceptingThread(step) {
      AcceptingThreadPassesOn(s, step, fd, i);
    } else {
      WorkerPassesOn(s, step, fd, i);
    }
  }

  lemma GiveUpPassesOn(s: State, fd: int, i: nat)
    requires |s.slots| == THREAD_POOL_SIZE && Enabled(s, MGiveUp) && In(s, i)
    ensures In(Apply(s, MGiveUp), i) && Elsewhere(Apply(s, MGiveUp), fd, i) == Elsewhere(s, fd, i)
  {
    assert DroppedFds(Apply(s, MGiveUp).dropped) == DroppedFds(s.dropped) + [s.main.fd];
  }

  lemma AcceptingThreadPassesOn(s: State, step: Step, fd: int, i: nat)
    requires |s.slots| == THREAD_POOL_SIZE && Enabled(s, step) && i == Touched(s, step) && SlotOk(s, i)
    requires ByAcceptingThread(step) && step != MGiveUp
    ensures In(Apply(s, step), i) && Elsewhere(Apply(s, step), fd, i) == Elsewhere(s, fd, i)
  {
    hide DroppedFds;
  }

  lemma WorkerPassesOn(s: State, step: Step, fd: int, i: nat)
    requires |s.slots| == THREAD_POOL_SIZE && Enabled(s, step) && i == Touched(s, step) && SlotOk(s, i)
    requires !ByAcceptingThread(step)
    ensures In(Apply(s, step), i) && Elsewhere(Apply(s, step), fd, i) == Elsewhere(s, fd, i)
  {
  }

  lemma StepPassesAnswerOn(s: State, step: Step, fd: int, i: nat)
    requires |s.slots| == THREAD_POOL_SIZE && Enabled(s, step) && i == Touched(s, step) && SlotOk(s, i)
    ensures var s' := Apply(s, step);
      && s'.slots == s.slots[i := s'.slots[i]]
      && multiset(s'.answered)[fd] - multiset(s'.closed)[fd] - Answering(fd)(s'.slots[i])
         == multiset(s.answered)[fd] - multiset(s.closed)[fd] - Answering(fd)(s.slots[i])
  {
  }

  lemma AccountedStep(s: State, step: Step, fd: int)
    requires |s.slots| == THREAD_POOL_SIZE && (forall i: nat :: i < |s.slots| ==> SlotOk(s, i))
    requires Enabled(s, step) && Accounted(s, fd)
    ensures Accounted(Apply(s, step), fd)
  {
    hide Apply, SlotOk, Enabled, Holding, Answering, InMainHand, DroppedFds;
    var s', i := Apply(s, step), Touched(s, step);
    TouchedExists(s, step);
    StepPassesDescriptorOn(s, step, fd, i);
    StepPassesAnswerOn(s, step, fd, i);
    TotalUpdate(s.slots, i, s'.slots[i], Holding(fd));
    TotalUpdate(s.slots, i, s'.slots[i], Answering(fd));
  }

  lemma TouchedExists(s: State, step: Step)
    requires |s.slots| == THREAD_POOL_SIZE && Enabled(s, step)
    ensures Touched(s, step) < |s.slots|
  {
  }

  lemma InvStep(s: State, step: Step)
    requires Inv(s) && Enabled(s, step)
    ensures Inv(Apply(s, step))
  {
    SlotsStep(s, step);
    ScanStep(s, step);
    ServedStep(s, step);
    forall fd
      ensures Accounted(Apply(s, step), fd)
    {
      assert Accounted(s, fd);
      AccountedStep(s, step, fd);
    }
  }

  /** Safety of every interleaving. */
  lemma {:induction false} EveryRunKeepsInv(s: State, steps: seq<Step>)
    requires Inv(s) && Schedule(s, steps)
    ensures Inv(Outcome(s, steps))
    decreases |steps|
  {
    if steps != [] {
      InvStep(s, steps[0]);
      EveryRunKeepsInv(Apply(s, steps[0]), steps[1..]);
    }
  }

  /** The schedules contain all spurious wakeups: whoever sleeps may wake at any moment. */
  lemma SleepersMayWake(s: State, w: nat)
    requires w < |s.slots| && s.slots[w].worker.Asleep?
    ensures Enabled(s, WSpurious(w))
    ensures Apply(s, WSpurious(w)) == s.(slots := s.slots[w := s.slots[w].(worker := Awake)])
  {
  }

  // ----- consequences for every run -----

  /** In every run each accepted descriptor is closed once, dropped, held by one slot or in
      the accepting thread's hand; each is answered exactly when it is closed, or is about to
      be; and a descriptor is dropped only by a scan that saw all five slots occupied. */
  lemma EachDescriptorGoesToOnePlace(init: State, steps: seq<Step>, fd: int)
    requires Init(init) && Schedule(init, steps)
    ensures var s := Outcome(init, steps);
      && multiset(s.accepted)[fd] ==
         multiset(s.closed)[fd] + multiset(DroppedFds(s.dropped))[fd] + Total(s.slots, Holding(fd))
         + InMainHand(s.main, fd)
      && multiset(s.answered)[fd] == multiset(s.closed)[fd] + Total(s.slots, Answering(fd))
      && forall d :: d in s.dropped ==> d.found == [0, 1, 2, 3, 4]
  {
    InvInit(init);
    EveryRunKeepsInv(init, steps);
    assert Accounted(Outcome(init, steps), fd);
    assert UpTo(THREAD_POOL_SIZE) == [0, 1, 2, 3, 4];
  }

  /** In every run no step overwrites a descriptor that was handed over, and only its worker
      frees the slot, after it has answered and closed that descriptor. */
  lemma HandedDescriptorIsKept(init: State, steps: seq<Step>, step: Step, i: nat)
    requires Init(init) && Schedule(init, steps) && Enabled(Outcome(init, steps), step)
    requires In(Outcome(init, steps), i) && Outcome(init, steps).slots[i].isOccupied
    ensures var s, s' := Outcome(init, steps), Apply(Outcome(init, steps), step);
      && s'.slots[i].clientFd == s.slots[i].clientFd
      && (!s'.slots[i].isOccupied ==>
            step == WClear(i) && s.slots[i].clientFd in s.answered && s.slots[i].clientFd in s.closed)
  {
    InvInit(init);
    EveryRunKeepsInv(init, steps);
    assert SlotOk(Outcome(init, steps), i);
  }

  /** No lost wakeup; and, because a worker serves with its mutex held, the accepting thread
      never sees a busy worker as occupied: the slots it skips, and hence those that make it
      drop a descriptor, are ones whose worker has not yet begun the previous hand-over. */
  lemma OccupiedMeansNotYetStarted(init: State, steps: seq<Step>, i: nat)
    requires Init(init) && Schedule(init, steps) && In(Outcome(init, steps), i)
    ensures var s := Outcome(init, steps);
      && (s.slots[i].isOccupied && s.slots[i].worker.Asleep? ==> s.main == Signal(i))
      && (s.main.Look? && MainAt(s, i) && s.slots[i].isOccupied
          ==> s.slots[i].worker.Idle? || s.slots[i].worker.Awake?)
  {
    InvInit(init);
    EveryRunKeepsInv(init, steps);
    assert SlotOk(Outcome(init, steps), i);
  }

  // ----- progress -----

  predicate Internal(step: Step) {
    !step.MAccept? && !step.WSpurious?
  }

  ghost predicate Quiescent(s: State) {
    && s.main.Accepting?
    && (forall i :: 0 <= i < |s.slots| ==> s.slots[i].worker.Asleep? && !s.slots[i].isOccupied)
    && multiset(s.answered) == multiset(s.closed)
    && forall fd :: multiset(s.accepted)[fd] == multiset(s.closed)[fd] + multiset(DroppedFds(s.dropped))[fd]
  }

  ghost function WorkerStep(w: nat, pc: Worker): Step {
    match pc
    case Test => WTest(w)
    case Wait => WSleep(w)
    case Read => WRead(w)
    case Write => WWrite(w)
    case Close => WClose(w)
    case Clear => WClear(w)
    case Unlock => WUnlock(w)
    case _ => WLock(w)
  }

  /** No deadlock: short of quiescence some thread can move on its own. */
  lemma Progress(s: State) returns (step: Step)
    requires Inv(s) && !Quiescent(s)
    ensures Internal(step) && Enabled(s, step)
  {
    if w: nat :| In(s, w) && s.slots[w].owner == ByWorker {
      assert SlotOk(s, w);
      step := WorkerStep(w, s.slots[w].worker);
    } else if !s.main.Accepting? {
      step := match s.main
        case Look(_, _) => MLook
        case Store(_, _) => MStore
        case Mark(_, _) => MMark
        case Signal(_) => MSignal
        case Release(_) => MRelease
        case Skip(_, _) => MSkip
        case Lock(_, i) => if i == THREAD_POOL_SIZE then MGiveUp else MLock;
      if step == MLock {
        assert SlotOk(s, s.main.i);
      }
    } else if w: nat :| In(s, w) && !s.slots[w].worker.Asleep? {
      assert SlotOk(s, w);
      step := WLock(w);
    } else {
      forall i: nat | i < |s.slots|
        ensures !s.slots[i].isOccupied
      {
        assert SlotOk(s, i);
      }
      forall fd
        ensures multiset(s.accepted)[fd] == multiset(s.closed)[fd] + multiset(DroppedFds(s.dropped))[fd]
        ensures multiset(s.answered)[fd] == multiset(s.closed)[fd]
      {
        assert Accounted(s, fd);
        TotalZero(s.slots, Holding(fd));
        TotalZero(s.slots, Answering(fd));
      }
    }
  }

  function SlotFuel(slot: Slot): int {
    match slot.worker
    case Read => 8
    case Write => 7
    case Close => 6
    case Clear => 5
    case Unlock => 4
    case Idle => 3 + OccupiedFuel(slot)
    case Awake => 3 + OccupiedFuel(slot)
    case Test => 2 + OccupiedFuel(slot)
    case Wait => 1 + OccupiedFuel(slot)
    case Asleep => OccupiedFuel(slot)
  }

  function OccupiedFuel(slot: Slot): int {
    if slot.isOccupied then 7 else 0
  }

  function MainFuel(m: Main): int {
    match m
    case Accepting => 0
    case Release(_) => 1
    case Signal(_) => 5
    case Mark(_, _) => 13
    case Store(_, _) => 14
    case Skip(_, i) => 14 + 10 * (THREAD_POOL_SIZE - i)
    case Look(_, i) => 15 + 10 * (THREAD_POOL_SIZE - i)
    case Lock(_, i) => 16 + 10 * (THREAD_POOL_SIZE - i)
  }

  ghost function Fuel(s: State): nat
    requires ScanOk(s)
  {
    TotalNonNegative(s.slots, SlotFuel);
    MainFuel(s.main) + Total(s.slots, SlotFuel)
  }

  lemma TouchedSlotBurnsFuel(s: State, step: Step, i: nat)
    requires |s.slots| == THREAD_POOL_SIZE && Enabled(s, step) && Internal(step)
    requires i == Touched(s, step) && SlotOk(s, i)
    ensures var s' := Apply(s, step);
      && s'.slots == s.slots[i := s'.slots[i]]
      && MainFuel(s'.main) + SlotFuel(s'.slots[i]) < MainFuel(s.main) + SlotFuel(s.slots[i])
  {
  }

  lemma InternalStepBurnsFuel(s: State, step: Step)
    requires Inv(s) && Enabled(s, step) && Internal(step)
    ensures ScanOk(Apply(s, step)) && Fuel(Apply(s, step)) < Fuel(s)
  {
    hide Apply, SlotOk, Enabled, MainFuel, SlotFuel, ScanOk, Accounted;
    ScanStep(s, step);
    var s', i := Apply(s, step), Touched(s, step);
    TouchedExists(s, step);
    TouchedSlotBurnsFuel(s, step, i);
    TotalUpdate(s.slots, i, s'.slots[i], SlotFuel);
  }

  /** However the threads are scheduled, without new connections and spurious wakeups they
      come to rest after a bounded number of steps, and then every accepted descriptor has
      been answered and closed, or was dropped. */
  lemma {:induction false} EveryDescriptorIsServedOrDropped(s: State, steps: seq<Step>)
    requires Inv(s) && Schedule(s, steps) && forall k :: 0 <= k < |steps| ==> Internal(steps[k])
    ensures |steps| <= Fuel(s)
    ensures (forall step :: Enabled(Outcome(s, steps), step) ==> !Internal(step)) ==> Quiescent(Outcome(s, steps))
    decreases |steps|
  {
    if steps == [] {
      if !Quiescent(s) {
        var step := Progress(s);
      }
    } else {
      InvStep(s, steps[0]);
      InternalStepBurnsFuel(s, steps[0]);
      EveryDescriptorIsServedOrDropped(Apply(s, steps[0]), steps[1..]);
    }
  }

  // ----- putting schedules together -----

  lemma StepBefore(s: State, step: Step, rest: seq<Step>)
    requires Enabled(s, step) && Schedule(Apply(s, step), rest)
    ensures Schedule(s, [step] + rest) && Outcome(s, [step] + rest) == Outcome(Apply(s, step), rest)
  {
    hide Enabled, Apply;
    assert ([step] + rest)[0] == step && ([step] + rest)[1..] == rest;
  }

  lemma {:induction false} OneAfterTheOther(s: State, first: seq<Step>, second: seq<Step>)
    requires Schedule(s, first) && Schedule(Outcome(s, first), second)
    ensures Schedule(s, first + second) && Outcome(s, first + second) == Outcome(Outcome(s, first), second)
    decreases |first|
  {
    hide Enabled, Apply;
    if first == [] {
      assert first + second == second;
    } else {
      OneAfterTheOther(Apply(s, first[0]), first[1..], second);
      assert (first + second)[1..] == first[1..] + second;
    }
  }

  // ----- the slot in memory -----

  /** While one side holds the mutex of slot i, no step of the other changes its fields, so a
      critical section may be read without interleaving. */
  lemma HolderAloneChanges(s: State, step: Step, i: nat)
    requires Inv(s) && Enabled(s, step) && In(s, i)
    requires if ByAcceptingThread(step) then s.slots[i].owner == ByWorker else s.slots[i].owner == ByMain
    ensures var slot, slot' := s.slots[i], Apply(s, step).slots[i];
      slot'.clientFd == slot.clientFd && slot'.isOccupied == slot.isOccupied && slot'.owner == slot.owner
  {
    assert SlotOk(s, i);
  }

  ghost function OfferSteps(taken: bool): seq<Step> {
    if taken then [MLook, MStore, MMark] else [MLook]
  }

  ghost function ServeSteps(w: nat): seq<Step> {
    [WRead(w), WWrite(w), WClose(w), WClear(w)]
  }

  /** What the accepting thread's critical section does to slot i. */
  lemma OfferIs(s: State, i: nat)
    requires s.main.Look? && s.main.i == i && In(s, i)
    ensures var taken := !s.slots[i].isOccupied;
      && Schedule(s, OfferSteps(taken))
      && Outcome(s, OfferSteps(taken)) ==
         if taken then SetSlot(s, i, s.slots[i].(clientFd := s.main.fd, isOccupied := true)).(main := Signal(i))
         else s.(main := Skip(s.main.fd, i), found := s.found + [i])
  {
    StepBefore(s, MLook, []);
    if !s.slots[i].isOccupied {
      var stored := Apply(Apply(s, MLook), MStore);
      StepBefore(stored, MMark, []);
      StepBefore(Apply(s, MLook), MStore, [MMark]);
      StepBefore(s, MLook, [MStore, MMark]);
      assert [MLook] + ([MStore] + [MMark]) == OfferSteps(true) && [MStore] + [MMark] == [MStore, MMark];
    }
  }

  /** What the worker's critical section does after its wait loop. */
  lemma ServeIs(s: State, w: nat)
    requires In(s, w) && s.slots[w].worker.Read?
    ensures Schedule(s, ServeSteps(w))
    ensures var fd := s.slots[w].clientFd;
      Outcome(s, ServeSteps(w)) ==
        s.(slots := s.slots[w := s.slots[w].(worker := Unlock, isOccupied := false)],
           answered := s.answered + [fd], closed := s.closed + [fd])
  {
    var s1 := Apply(s, WRead(w));
    var s2 := Apply(s1, WWrite(w));
    var s3 := Apply(s2, WClose(w));
    StepBefore(s3, WClear(w), []);
    StepBefore(s2, WClose(w), [WClear(w)]);
    StepBefore(s1, WWrite(w), [WClose(w), WClear(w)]);
    StepBefore(s, WRead(w), [WWrite(w), WClose(w), WClear(w)]);
    assert [WClose(w)] + [WClear(w)] == [WClose(w), WClear(w)];
    assert [WWrite(w)] + [WClose(w), WClear(w)] == [WWrite(w), WClose(w), WClear(w)];
    assert [WRead(w)] + [WWrite(w), WClose(w), WClear(w)] == ServeSteps(w);
  }

  /** A slot of the global array, as the two critical sections update it. */
  class WorkerSlot {
    var clientFd: int
    var isOccupied: bool

    ghost predicate Is(slot: Slot)
      reads this
    {
      slot.clientFd == clientFd && slot.isOccupied == isOccupied
    }

    constructor ()
      ensures !isOccupied
    {
      clientFd, isOccupied := 0, false;
    }

    /** The accepting thread's critical section in state s: in memory it does what its steps
        do to the state machine. */
    method Offer(fd: int, ghost s: State) returns (taken: bool)
      requires s.main.Look? && s.main.fd == fd && In(s, s.main.i) && Is(s.slots[s.main.i])
      modifies this
      ensures Schedule(s, OfferSteps(taken)) && |Outcome(s, OfferSteps(taken)).slots| == |s.slots|
      ensures var s', i := Outcome(s, OfferSteps(taken)), s.main.i;
        && Is(s'.slots[i]) && isOccupied
        && s'.main == (if taken then Signal(i) else Skip(fd, i))
        && forall k :: 0 <= k < |s.slots| && k != i ==> s'.slots[k] == s.slots[k]
    {
      OfferIs(s, s.main.i);
      taken := !isOccupied;
      if taken {
        clientFd := fd;
        isOccupied := true;
      }
    }

    /** The worker's critical section after its wait loop: the descriptors it reads from,
        answers and closes are, as in the state machine, the one that was handed over. */
    method Serve(ghost s: State, ghost w: nat) returns (readFrom: int, answered: int, closed: int)
      requires In(s, w) && s.slots[w].worker.Read? && Is(s.slots[w])
      modifies this
      ensures readFrom == s.slots[w].clientFd
      ensures Schedule(s, ServeSteps(w)) && |Outcome(s, ServeSteps(w)).slots| == |s.slots|
      ensures var s' := Outcome(s, ServeSteps(w));
        && Is(s'.slots[w]) && s'.slots[w].worker.Unlock?
        && s'.answered == s.answered + [answered] && s'.closed == s.closed + [closed]
        && forall k :: 0 <= k < |s.slots| && k != w ==> s'.slots[k] == s.slots[k]
    {
      ServeIs(s, w);
      readFrom := clientFd;
      answered := clientFd;
      closed := clientFd;
      isOccupied := false;
    }
  }
}
