/**
 When the thread-pool time server drops a connection: exactly when, at the accept, every slot
 still holds a descriptor that its worker has not begun to serve, and the threads are
 scheduled badly.  A worker that serves does not count: the scan waits for its mutex.
 */
module TimeServerDrops {
  import opened TimeServerPool

  /** The slot holds a descriptor and its worker, not yet inside, has still to begin with it. */
  predicate Pending(slot: Slot) {
    slot.isOccupied && (slot.worker.Idle? || slot.worker.Awake?)
  }

  ghost predicate AllPending(s: State) {
    forall i :: 0 <= i < |s.slots| ==> Pending(s.slots[i])
  }

  ghost predicate NoAccept(steps: seq<Step>) {
    forall k :: 0 <= k < |steps| ==> !steps[k].MAccept?
  }

  /** `steps` is what happens after `fd` was accepted in s, up to the next accept or earlier. */
  ghost predicate Continues(s: State, fd: int, steps: seq<Step>) {
    s.main.Accepting? && Schedule(Apply(s, MAccept(fd)), steps) && NoAccept(steps)
  }

  ghost function Continued(s: State, fd: int, steps: seq<Step>): State
    requires Continues(s, fd, steps)
  {
    Outcome(Apply(s, MAccept(fd)), steps)
  }

  /** The descriptor was dropped, by a scan that found all five slots occupied. */
  ghost predicate Drops(s: State, fd: int, steps: seq<Step>) {
    Continues(s, fd, steps) && Continued(s, fd, steps).dropped == s.dropped + [Drop(fd, [0, 1, 2, 3, 4])]
  }

  // ----- no drop if some slot is not pending -----

  predicate Scanning(m: Main) {
    m.Lock? || m.Look? || m.Store? || m.Mark? || m.Skip?
  }

  /** Since a scan began in `start`, the slot has not become pending if it was not, nor was it
      found occupied. */
  ghost predicate SlotScanned(start: State, s: State, i: nat)
    requires In(s, i) && In(start, i)
  {
    Pending(s.slots[i]) || i in s.found ==> Pending(start.slots[i])
  }

  ghost predicate Scanned(start: State, s: State) {
    && |start.slots| == |s.slots|
    && (s.dropped == start.dropped || AllPending(start))
    && (Scanning(s.main) ==> forall i: nat :: i < |s.slots| ==> SlotScanned(start, s, i))
  }

  lemma SlotScannedStep(start: State, s: State, step: Step, i: nat)
    requires In(s, i) && In(start, i) && SlotOk(s, i) && SlotScanned(start, s, i)
    requires Enabled(s, step) && !step.MAccept? && Scanning(s.main) && Scanning(Apply(s, step).main)
    ensures In(Apply(s, step), i) && SlotScanned(start, Apply(s, step), i)
  {
  }

  lemma ScannedStep(start: State, s: State, step: Step)
    requires Inv(s) && Scanned(start, s) && Enabled(s, step) && !step.MAccept?
    ensures Scanned(start, Apply(s, step))
  {
    hide Accounted, ServedBeforeFreed, AllPending, SlotScanned, SlotOk;
    if step.MGiveUp? {
      FullScan(start, s);
    }
    if Scanning(Apply(s, step).main) {
      forall i: nat | i < |Apply(s, step).slots|
        ensures SlotScanned(start, Apply(s, step), i)
      {
        assert SlotOk(s, i);
        SlotScannedStep(start, s, step, i);
      }
    }
  }

  lemma FullScan(start: State, s: State)
    requires |s.slots| == THREAD_POOL_SIZE && ScanOk(s) && Scanned(start, s)
    requires s.main.Lock? && s.main.i == THREAD_POOL_SIZE
    ensures AllPending(start)
  {
    forall i | 0 <= i < |start.slots|
      ensures Pending(start.slots[i])
    {
      assert UpTo(THREAD_POOL_SIZE)[i] == i;
      assert SlotScanned(start, s, i);
    }
  }

  lemma {:induction false} ScannedRun(start: State, s: State, steps: seq<Step>)
    requires Inv(s) && Scanned(start, s) && Schedule(s, steps) && NoAccept(steps)
    ensures Scanned(start, Outcome(s, steps))
    decreases |steps|
  {
    if steps != [] {
      ScannedStep(start, s, steps[0]);
      InvStep(s, steps[0]);
      ScannedRun(start, Apply(s, steps[0]), steps[1..]);
    }
  }

  // ----- a drop if all slots are pending -----

  /** The mutex of slot i is free and the slot taken. */
  ghost predicate Taken(s: State, i: nat) {
    In(s, i) && s.slots[i].isOccupied && s.slots[i].owner == Free
  }

  /** The accepting thread passes over a taken slot in three steps. */
  ghost function Skipped(s: State): State
    requires s.main.Lock?
  {
    s.(main := Lock(s.main.fd, s.main.i + 1), found := s.found + [s.main.i])
  }

  lemma SkipOne(s: State, rest: seq<Step>)
    requires s.main.Lock? && Taken(s, s.main.i)
    requires Schedule(Skipped(s), rest)
    ensures Schedule(s, [MLock, MLook, MSkip] + rest)
    ensures Outcome(s, [MLock, MLook, MSkip] + rest) == Outcome(Skipped(s), rest)
  {
    var held := Apply(s, MLock);
    var found := Apply(held, MLook);
    assert Apply(found, MSkip).slots == s.slots;
    assert Apply(found, MSkip) == Skipped(s);
    StepBefore(found, MSkip, rest);
    StepBefore(held, MLook, [MSkip] + rest);
    StepBefore(s, MLock, [MLook] + ([MSkip] + rest));
    assert [MLock] + ([MLook] + ([MSkip] + rest)) == [MLock, MLook, MSkip] + rest;
  }

  /** From slot i on all slots are taken: the scan comes to its end. */
  lemma {:induction false} SkipToTheEnd(s: State) returns (steps: seq<Step>)
    requires |s.slots| == THREAD_POOL_SIZE && ScanOk(s) && s.main.Lock?
    requires forall k: nat :: s.main.i <= k < THREAD_POOL_SIZE ==> Taken(s, k)
    ensures Schedule(s, steps) && NoAccept(steps)
    ensures Outcome(s, steps).dropped == s.dropped + [Drop(s.main.fd, UpTo(THREAD_POOL_SIZE))]
    decreases THREAD_POOL_SIZE - s.main.i
  {
    if s.main.i == THREAD_POOL_SIZE {
      steps := [MGiveUp];
      assert steps[1..] == [];
      assert Outcome(s, steps) == Apply(s, MGiveUp);
    } else {
      assert UpTo(s.main.i) + [s.main.i] == UpTo(s.main.i + 1);
      forall k: nat | s.main.i < k < THREAD_POOL_SIZE
        ensures Taken(Skipped(s), k)
      {
        assert Taken(s, k);
      }
      var rest := SkipToTheEnd(Skipped(s));
      SkipOne(s, rest);
      steps := [MLock, MLook, MSkip] + rest;
    }
  }

  lemma PendingIsTaken(s: State, i: nat)
    requires Inv(s) && s.main.Accepting? && In(s, i) && Pending(s.slots[i])
    ensures Taken(s, i)
  {
    assert SlotOk(s, i);
  }

  /** Exactly when a connection can be dropped: at its accept every slot is pending.  Else no
      scheduling of the threads drops it. */
  lemma DroppedIffAllPending(s: State, fd: int)
    requires Inv(s) && s.main.Accepting?
    ensures (exists steps :: Drops(s, fd, steps)) <==> AllPending(s)
    ensures !AllPending(s) ==> forall steps :: Continues(s, fd, steps) ==> Continued(s, fd, steps).dropped == s.dropped
  {
    var began := Apply(s, MAccept(fd));
    InvStep(s, MAccept(fd));
    forall steps | Continues(s, fd, steps)
      ensures !AllPending(s) ==> Continued(s, fd, steps).dropped == s.dropped
    {
      assert Scanned(s, began);
      ScannedRun(s, began, steps);
    }
    if AllPending(s) {
      forall k: nat | k < THREAD_POOL_SIZE
        ensures Taken(began, k)
      {
        PendingIsTaken(s, k);
      }
      var steps := SkipToTheEnd(began);
      assert UpTo(THREAD_POOL_SIZE) == [0, 1, 2, 3, 4];
      assert Drops(s, fd, steps);
    }
  }

  /** And then it is served: wherever the threads come to rest after the accept, they have
      answered and closed this descriptor as well. */
  lemma ServedUnlessAllPending(s: State, fd: int, steps: seq<Step>)
    requires Inv(s) && !AllPending(s)
    requires Continues(s, fd, steps) && forall k :: 0 <= k < |steps| ==> Internal(steps[k])
    requires forall step :: Enabled(Continued(s, fd, steps), step) ==> !Internal(step)
    ensures var done := Continued(s, fd, steps);
      && multiset(done.closed)[fd] + multiset(DroppedFds(s.dropped))[fd] == multiset(s.accepted)[fd] + 1
      && multiset(done.answered) == multiset(done.closed)
  {
    var began, done := Apply(s, MAccept(fd)), Continued(s, fd, steps);
    InvStep(s, MAccept(fd));
    DroppedIffAllPending(s, fd);
    EveryDescriptorIsServedOrDropped(began, steps);
    AcceptedStays(began, steps);
    assert multiset(done.accepted)[fd] == multiset(done.closed)[fd] + multiset(DroppedFds(done.dropped))[fd];
  }

  lemma {:induction false} AcceptedStays(s: State, steps: seq<Step>)
    requires Schedule(s, steps) && NoAccept(steps)
    ensures Outcome(s, steps).accepted == s.accepted
    decreases |steps|
  {
    if steps != [] {
      AcceptedStays(Apply(s, steps[0]), steps[1..]);
    }
  }

  // ----- a run that drops -----

  /** No worker has moved yet and the first k slots were taken. */
  ghost predicate Untouched(s: State, k: nat) {
    && |s.slots| == THREAD_POOL_SIZE && k <= THREAD_POOL_SIZE
    && forall i :: 0 <= i < THREAD_POOL_SIZE ==>
         s.slots[i].worker == Idle && s.slots[i].owner == Free && (s.slots[i].isOccupied <==> i < k)
  }

  /** The scan of a descriptor takes the first free slot, k. */
  lemma {:induction false} TakeSlot(s: State, k: nat) returns (steps: seq<Step>)
    requires Untouched(s, k) && k < THREAD_POOL_SIZE && s.main.Lock? && s.main.i <= k
    ensures Schedule(s, steps) && Outcome(s, steps).main.Accepting? && Untouched(Outcome(s, steps), k + 1)
    ensures Outcome(s, steps).dropped == s.dropped
    decreases k - s.main.i
  {
    if s.main.i < k {
      assert Untouched(Skipped(s), k);
      var rest := TakeSlot(Skipped(s), k);
      SkipOne(s, rest);
      steps := [MLock, MLook, MSkip] + rest;
    } else {
      steps := HandOver(s, k);
    }
  }

  lemma HandOver(s: State, k: nat) returns (steps: seq<Step>)
    requires Untouched(s, k) && k < THREAD_POOL_SIZE && s.main.Lock? && s.main.i == k
    ensures Schedule(s, steps) && Outcome(s, steps).main.Accepting? && Untouched(Outcome(s, steps), k + 1)
    ensures Outcome(s, steps).dropped == s.dropped
  {
    StoreIt(s, k);
    MarkIt(Outcome(s, [MLock, MLook, MStore]), k);
    OneAfterTheOther(s, [MLock, MLook, MStore], [MMark, MSignal, MRelease]);
    steps := [MLock, MLook, MStore] + [MMark, MSignal, MRelease];
  }

  /** Half way through the hand-over: slot k is locked and holds the new descriptor. */
  ghost predicate Stored(s: State, k: nat) {
    && |s.slots| == THREAD_POOL_SIZE && k < THREAD_POOL_SIZE && s.main.Mark? && s.main.i == k
    && s.slots[k] == Slot(s.slots[k].clientFd, false, ByMain, Idle)
    && forall i :: 0 <= i < THREAD_POOL_SIZE && i != k ==>
         s.slots[i].worker == Idle && s.slots[i].owner == Free && (s.slots[i].isOccupied <==> i < k)
  }

  lemma StoreIt(s: State, k: nat)
    requires Untouched(s, k) && k < THREAD_POOL_SIZE && s.main.Lock? && s.main.i == k
    ensures Schedule(s, [MLock, MLook, MStore])
    ensures var s' := Outcome(s, [MLock, MLook, MStore]); Stored(s', k) && s'.dropped == s.dropped
  {
    var s1 := Apply(s, MLock);
    var s2 := Apply(s1, MLook);
    StepBefore(s2, MStore, []);
    StepBefore(s1, MLook, [MStore]);
    StepBefore(s, MLock, [MLook, MStore]);
    assert [MLook] + [MStore] == [MLook, MStore] && [MLock] + [MLook, MStore] == [MLock, MLook, MStore];
  }

  lemma MarkIt(s: State, k: nat)
    requires Stored(s, k)
    ensures Schedule(s, [MMark, MSignal, MRelease])
    ensures var s' := Outcome(s, [MMark, MSignal, MRelease]);
      s'.main.Accepting? && Untouched(s', k + 1) && s'.dropped == s.dropped
  {
    var s1 := Apply(s, MMark);
    var s2 := Apply(s1, MSignal);
    assert Apply(s2, MRelease).slots == s.slots[k := Slot(s.slots[k].clientFd, true, Free, Idle)];
    StepBefore(s2, MRelease, []);
    StepBefore(s1, MSignal, [MRelease]);
    StepBefore(s, MMark, [MSignal, MRelease]);
    assert [MSignal] + [MRelease] == [MSignal, MRelease];
    assert [MMark] + [MSignal, MRelease] == [MMark, MSignal, MRelease];
  }

  /** The first connections, while no worker has started. */
  lemma {:induction false} FillSlots(init: State, fds: seq<int>) returns (steps: seq<Step>)
    requires Init(init) && |fds| <= THREAD_POOL_SIZE
    ensures Schedule(init, steps) && Outcome(init, steps).main.Accepting?
    ensures Untouched(Outcome(init, steps), |fds|) && Outcome(init, steps).dropped == []
    decreases |fds|
  {
    if fds == [] {
      steps := [];
    } else {
      var k := |fds| - 1;
      var before := FillSlots(init, fds[..k]);
      var s := Outcome(init, before);
      var began := Apply(s, MAccept(fds[k]));
      var rest := TakeSlot(began, k);
      StepBefore(s, MAccept(fds[k]), rest);
      OneAfterTheOther(init, before, [MAccept(fds[k])] + rest);
      steps := before + ([MAccept(fds[k])] + rest);
    }
  }

  /** The drop does happen: six connections that arrive before any worker has taken its
      mutex, and the sixth is dropped. */
  lemma SixthIsDropped(init: State, fds: seq<int>) returns (steps: seq<Step>)
    requires Init(init) && |fds| == THREAD_POOL_SIZE + 1
    ensures Schedule(init, steps) && Outcome(init, steps).dropped == [Drop(fds[5], [0, 1, 2, 3, 4])]
  {
    var before := FillSlots(init, fds[..5]);
    var s := Outcome(init, before);
    InvInit(init);
    EveryRunKeepsInv(init, before);
    DroppedIffAllPending(s, fds[5]);
    var rest :| Drops(s, fds[5], rest);
    StepBefore(s, MAccept(fds[5]), rest);
    OneAfterTheOther(init, before, [MAccept(fds[5])] + rest);
    steps := before + ([MAccept(fds[5])] + rest);
  }
}
