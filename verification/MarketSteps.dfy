/**
 What the market's threads do to the shelves: each touches only the stall whose mutex it
 holds, a buyer takes the first stall it finds unlocked, and the loader refills the stall
 it has drawn.
 */
module MarketSteps {
  import opened Market

  /** A shelf changes only in the hands of the thread that holds its mutex: a buyer takes one
      unit off it, the loader puts 200 on it.  The counter of finished buyers changes only in
      the hands of a buyer that holds the counter's mutex, and by one; and no step changes
      another buyer. */
  lemma HolderAloneTouches(s: State, step: Step, needs: seq<int>, stock: int)
    requires Inv(s, needs, stock) && Enabled(s, step)
    ensures Shape(Apply(s, step))
    ensures forall j: nat :: j < NUM_STALLS && Apply(s, step).goods[j] != s.goods[j] ==>
      match step
      case BuyerStep(b) => s.owners[j] == ByBuyer(b) && Apply(s, step).goods[j] == s.goods[j] - 1
      case LoaderStep(_) => s.owners[j] == ByLoader && Apply(s, step).goods[j] == s.goods[j] + 200
      case JoinStep => false
    ensures Apply(s, step).finished != s.finished ==>
      step.BuyerStep? && s.counterOwner == ByBuyer(step.b) && Apply(s, step).finished == s.finished + 1
    ensures forall c: nat :: c < NUM_BUYERS && Apply(s, step).buyers[c] != s.buyers[c] ==> step == BuyerStep(c)
  {
    ShapeStep(s, step);
    hide Needs, Stocked, Finishing, Joining, Goods, StallLock, CounterLock, ApplyBuyer, ApplyLoader;
    match step
    case BuyerStep(b) => BuyerTouches(s, b);
    case LoaderStep(choice) => LoaderTouches(s, choice);
    case JoinStep =>
  }

  lemma BuyerTouches(s: State, b: nat)
    requires Shape(s) && Exclusion(s) && Enabled(s, BuyerStep(b))
    ensures var s' := ApplyBuyer(s, b);
      && |s'.goods| == |s.goods| && |s'.buyers| == |s.buyers|
      && (forall j: nat :: j < NUM_STALLS && s'.goods[j] != s.goods[j] ==>
            s.owners[j] == ByBuyer(b) && s'.goods[j] == s.goods[j] - 1)
      && (s'.finished != s.finished ==> s.counterOwner == ByBuyer(b) && s'.finished == s.finished + 1)
      && (forall c: nat :: c < NUM_BUYERS && c != b ==> s'.buyers[c] == s.buyers[c])
  {
    hide StallLock;
    if s.buyers[b].pc.Grab? {
      BuyerOwns(s, b, s.buyers[b].pc.stall);
    }
  }

  lemma BuyerOwns(s: State, b: nat, j: nat)
    requires Shape(s) && Exclusion(s) && b < NUM_BUYERS && j < NUM_STALLS && BuyerHolds(s.buyers[b].pc, j)
    ensures s.owners[j] == ByBuyer(b)
  {
    assert StallLock(s, j);
  }

  lemma LoaderTouches(s: State, choice: nat)
    requires Shape(s) && Exclusion(s) && Enabled(s, LoaderStep(choice))
    ensures var s' := ApplyLoader(s, choice);
      && |s'.goods| == |s.goods| && s'.buyers == s.buyers && s'.finished == s.finished
      && forall j: nat :: j < NUM_STALLS && s'.goods[j] != s.goods[j] ==>
           s.owners[j] == ByLoader && s'.goods[j] == s.goods[j] + 200
  {
    if s.loader.LAdd? {
      assert StallLock(s, s.loader.stall);
    }
  }

  // ----- a buyer looks for a stall -----

  /** Tried from stall i on, stall k is the first that is not locked; 5 if all are locked. */
  ghost predicate FirstFree(s: State, i: nat, k: nat)
    requires Shape(s)
  {
    && i <= k <= NUM_STALLS
    && (forall j: nat :: i <= j < k ==> s.owners[j] != Free)
    && (k < NUM_STALLS ==> s.owners[k] == Free)
  }

  /** Buyer b in stall k, which it has locked; or, if it found all locked, at the start. */
  ghost function Entered(s: State, b: nat, k: nat): State
    requires Shape(s) && b < NUM_BUYERS && k <= NUM_STALLS
  {
    if k == NUM_STALLS then SetBuyer(s, b, s.buyers[b].(pc := Top))
    else SetBuyer(s, b, s.buyers[b].(pc := Shop(k))).(owners := s.owners[k := ByBuyer(b)])
  }

  lemma {:induction false} TriesInTurn(s: State, b: nat, k: nat)
    requires Shape(s) && b < NUM_BUYERS && s.buyers[b].pc.Try? && FirstFree(s, s.buyers[b].pc.stall, k)
    ensures var n := k - s.buyers[b].pc.stall + 1;
      Schedule(s, Alone(b, n)) && Outcome(s, Alone(b, n)) == Entered(s, b, k)
    decreases k - s.buyers[b].pc.stall
  {
    ShapeStep(s, BuyerStep(b));
    var i, s' := s.buyers[b].pc.stall, ApplyBuyer(s, b);
    if i == k {
      assert Alone(b, 0) == [];
      StepFirst(s, b, 0);
    } else {
      TriesInTurn(s', b, k);
      assert Entered(s', b, k).buyers == Entered(s, b, k).buyers;
      StepFirst(s, b, k - i);
    }
  }

  /** A buyer that still needs something locks the first stall it finds unlocked, trying them in
      order; if it finds all five locked it starts again, and nothing has changed. */
  lemma BuyerEntersFirstFree(s: State, b: nat, k: nat)
    requires Shape(s) && b < NUM_BUYERS && s.buyers[b].pc.Top? && s.buyers[b].need > 0 && FirstFree(s, 0, k)
    ensures Schedule(s, Alone(b, k + 2))
    ensures Outcome(s, Alone(b, k + 2)) == if k == 5 then s
      else s.(buyers := s.buyers[b := s.buyers[b].(pc := Shop(k))], owners := s.owners[k := ByBuyer(b)])
  {
    ShapeStep(s, BuyerStep(b));
    var s' := ApplyBuyer(s, b);
    TriesInTurn(s', b, k);
    StepFirst(s, b, k + 1);
    assert Entered(s', b, k).buyers == s.buyers[b := s.buyers[b].(pc := if k == 5 then Top else Shop(k))];
  }

  // ----- a round of the loader -----

  function LoaderAlone(choice: nat, n: nat): seq<Step> {
    seq(n, _ => LoaderStep(choice))
  }

  /** One step of the loader to s', and then the others. */
  lemma LoaderFirst(s: State, choice: nat, s': State, n: nat)
    requires Shape(s) && Enabled(s, LoaderStep(choice)) && ApplyLoader(s, choice) == s'
    requires Schedule(s', LoaderAlone(choice, n))
    ensures Schedule(s, LoaderAlone(choice, n + 1))
    ensures Outcome(s, LoaderAlone(choice, n + 1)) == Outcome(s', LoaderAlone(choice, n))
  {
    hide ApplyLoader, Shape, Enabled;
    var steps := LoaderAlone(choice, n + 1);
    assert steps[0] == LoaderStep(choice) && steps[1..] == LoaderAlone(choice, n);
  }

  lemma LoaderRests(s: State, choice: nat)
    requires Shape(s)
    ensures Schedule(s, LoaderAlone(choice, 0)) && Outcome(s, LoaderAlone(choice, 0)) == s
  {
    assert LoaderAlone(choice, 0) == [];
  }

  function Looked(s: State): State {
    s.(loader := if s.finished >= 3 then LGone else LChoose)
  }

  /** The loader looks at the counter, and goes or chooses. */
  lemma LoaderLooks(s: State, i: nat, n: nat)
    requires Shape(s) && s.loader.LTop? && s.counterOwner == Free && i < NUM_STALLS
    requires Schedule(Looked(s), LoaderAlone(i, n))
    ensures Schedule(s, LoaderAlone(i, n + 3))
    ensures Outcome(s, LoaderAlone(i, n + 3)) == Outcome(Looked(s), LoaderAlone(i, n))
  {
    var s1 := s.(loader := LTest, counterOwner := ByLoader);
    var s2 := s1.(loader := LUnlockCounter(s.finished >= 3));
    hide Schedule, Outcome;
    LoaderFirst(s2, i, Looked(s), n);
    LoaderFirst(s1, i, s2, n + 1);
    LoaderFirst(s, i, s1, n + 2);
  }

  ghost function Loaded(s: State, i: nat): State
    requires Shape(s) && i < NUM_STALLS
  {
    s.(loader := LTop, goods := s.goods[i := s.goods[i] + 200], loads := s.loads + 1,
       lateLoads := if s.finished >= 3 then s.lateLoads + 1 else s.lateLoads)
  }

  /** The loader with the mutex of stall i, about to load. */
  ghost function Locked(s: State, i: nat): State
    requires Shape(s) && i < NUM_STALLS
  {
    s.(loader := LAdd(i), owners := s.owners[i := ByLoader])
  }

  lemma LoaderLocks(s: State, i: nat, n: nat)
    requires Shape(s) && s.loader == LChoose && i < NUM_STALLS && s.owners[i] == Free
    requires Schedule(Locked(s, i), LoaderAlone(i, n))
    ensures Schedule(s, LoaderAlone(i, n + 2))
    ensures Outcome(s, LoaderAlone(i, n + 2)) == Outcome(Locked(s, i), LoaderAlone(i, n))
  {
    var s1 := s.(loader := LLock(i));
    hide Schedule, Outcome;
    LoaderFirst(s1, i, Locked(s, i), n);
    LoaderFirst(s, i, s1, n + 1);
  }

  lemma LoaderUnlocks(s: State, i: nat, n: nat)
    requires Shape(s) && i < NUM_STALLS && s.owners[i] == Free && Shape(Locked(s, i))
    requires Schedule(Loaded(s, i), LoaderAlone(i, n))
    ensures Schedule(Locked(s, i), LoaderAlone(i, n + 2))
    ensures Outcome(Locked(s, i), LoaderAlone(i, n + 2)) == Outcome(Loaded(s, i), LoaderAlone(i, n))
  {
    var s1 := Loaded(s, i).(loader := LUnlock(i), owners := s.owners[i := ByLoader]);
    assert s.owners[i := ByLoader][i := Free] == s.owners;
    hide Schedule, Outcome;
    LoaderFirst(s1, i, Loaded(s, i), n);
    LoaderFirst(Locked(s, i), i, s1, n + 1);
  }

  /** The loader has chosen stall i, locks it, loads, and unlocks it. */
  lemma LoaderLoads(s: State, i: nat, n: nat)
    requires Shape(s) && s.loader == LChoose && i < NUM_STALLS && s.owners[i] == Free
    requires Schedule(Loaded(s, i), LoaderAlone(i, n))
    ensures Schedule(s, LoaderAlone(i, n + 4))
    ensures Outcome(s, LoaderAlone(i, n + 4)) == Outcome(Loaded(s, i), LoaderAlone(i, n))
  {
    assert Shape(Locked(s, i));
    hide Schedule, Outcome, Loaded, Locked, Shape;
    LoaderUnlocks(s, i, n);
    LoaderLocks(s, i, n + 2);
  }

  lemma ShapeKept(s: State, s': State)
    requires Shape(s) && s'.buyers == s.buyers && !s'.loader.LLock? && !LoaderOnStall(s'.loader)
    requires |s'.goods| == |s.goods| && |s'.owners| == |s.owners|
    ensures Shape(s')
  {
  }

  /** Stall i refilled, and nothing else changed. */
  ghost function Refilled(s: State, i: nat): State
    requires i < |s.goods|
  {
    s.(goods := s.goods[i := s.goods[i] + 200], loads := s.loads + 1)
  }

  lemma LooksAndLoads(s: State, i: nat)
    requires Shape(s) && s.loader.LTop? && s.finished < 3 && i < NUM_STALLS
    ensures Shape(Looked(s)) && Shape(Refilled(s, i)) && Loaded(Looked(s), i) == Refilled(s, i)
  {
    ShapeKept(s, Looked(s));
    ShapeKept(s, Refilled(s, i));
  }

  /** Left alone, the loader goes if all buyers have finished, and nothing else changes; */
  lemma LoaderGoes(s: State, i: nat)
    requires Shape(s) && s.loader.LTop? && s.counterOwner == Free && i < NUM_STALLS && s.finished >= 3
    ensures Schedule(s, LoaderAlone(i, 3)) && Outcome(s, LoaderAlone(i, 3)) == s.(loader := LGone)
  {
    hide Schedule, Outcome, Enabled;
    LoaderRests(Looked(s), i);
    LoaderLooks(s, i, 0);
  }

  /** else it puts 200 on the shelf it has drawn, and on no other. */
  lemma LoaderRefills(s: State, i: nat)
    requires Shape(s) && s.loader.LTop? && s.counterOwner == Free && s.finished < 3
    requires i < NUM_STALLS && s.owners[i] == Free
    ensures Schedule(s, LoaderAlone(i, 7)) && Outcome(s, LoaderAlone(i, 7)) == Refilled(s, i)
  {
    hide Schedule, Outcome, Enabled, Loaded, Shape, Refilled;
    LooksAndLoads(s, i);
    LoaderRests(Refilled(s, i), i);
    LoaderLoads(Looked(s), i, 0);
    LoaderLooks(s, i, 4);
  }
}
