/**
 The market: five stalls, three buyers that try the stalls in turn with trylock, and a
 loader that refills a random stall until it sees that all buyers have finished.

 The threads are a state machine.  One step is one access to shared state; the goods of a
 stall and the need of a buyer change in separate steps.  `bought`, `loads` and `lateLoads`
 record the history and influence nothing.
 */
module Market {
  import opened Sums

  const NUM_STALLS := 5
  const NUM_BUYERS := 3
  const LOADER_ADD := 200

  datatype BuyerPc =
    | Top                      // at the test of need > 0
    | Try(stall: nat)          // about to trylock; 5 means that every stall was locked
    | Shop(stall: nat)         // holds the stall, at the inner loop test
    | Grab(stall: nat)         // about to take one unit off the shelf
    | Took(stall: nat)         // has the unit, about to reduce its need
    | Leave(stall: nat)        // about to unlock
    | Report                   // about to lock the counter of finished buyers
    | Count
    | Uncount                  // about to unlock the counter
    | Gone

  datatype Buyer = Buyer(need: int, bought: int, pc: BuyerPc)

  datatype LoaderPc =
    | LTop                     // about to lock the counter
    | LTest
    | LUnlockCounter(stop: bool)
    | LChoose
    | LLock(stall: nat)
    | LAdd(stall: nat)
    | LUnlock(stall: nat)
    | LGone

  datatype Owner = Free | ByBuyer(b: nat) | ByLoader

  datatype State = State(
    goods: seq<int>, owners: seq<Owner>, counterOwner: Owner, finished: int,
    buyers: seq<Buyer>, loader: LoaderPc, joined: nat, loads: nat, lateLoads: nat)

  datatype Step = BuyerStep(b: nat) | LoaderStep(choice: nat) | JoinStep

  ghost predicate Init(s: State) {
    && |s.goods| == NUM_STALLS && (forall g :: g in s.goods ==> g >= 0)
    && s.owners == seq(NUM_STALLS, _ => Free) && s.counterOwner == Free && s.finished == 0
    && |s.buyers| == NUM_BUYERS
    && (forall b :: b in s.buyers ==> b.need >= 0 && b.bought == 0 && b.pc == Top)
    && s.loader == LTop && s.joined == 0 && s.loads == s.lateLoads == 0
  }

  predicate OnStall(pc: BuyerPc) {
    pc.Shop? || pc.Grab? || pc.Took? || pc.Leave?
  }

  predicate LoaderOnStall(pc: LoaderPc) {
    pc.LAdd? || pc.LUnlock?
  }

  /** All stall numbers in use are numbers of stalls. */
  ghost predicate Shape(s: State) {
    && |s.goods| == |s.owners| == NUM_STALLS
    && |s.buyers| == NUM_BUYERS
    && (forall b :: 0 <= b < |s.buyers| && s.buyers[b].pc.Try? ==> s.buyers[b].pc.stall <= NUM_STALLS)
    && (forall b :: 0 <= b < |s.buyers| && OnStall(s.buyers[b].pc) ==> s.buyers[b].pc.stall < NUM_STALLS)
    && (s.loader.LLock? || LoaderOnStall(s.loader) ==> s.loader.stall < NUM_STALLS)
  }

  ghost predicate Enabled(s: State, step: Step)
    requires Shape(s)
  {
    match step
    case BuyerStep(b) =>
      b < NUM_BUYERS && !s.buyers[b].pc.Gone? && (s.buyers[b].pc.Report? ==> s.counterOwner == Free)
    case LoaderStep(choice) =>
      && !s.loader.LGone? && choice < NUM_STALLS
      && (s.loader.LTop? ==> s.counterOwner == Free)
      && (s.loader.LLock? ==> s.owners[s.loader.stall] == Free)
    case JoinStep =>
      if s.joined < NUM_BUYERS then s.buyers[s.joined].pc.Gone? else s.joined == NUM_BUYERS && s.loader.LGone?
  }

  ghost function SetBuyer(s: State, b: nat, buyer: Buyer): State
    requires b < |s.buyers|
  {
    s.(buyers := s.buyers[b := buyer])
  }

  ghost function ApplyBuyer(s: State, b: nat): State
    requires Shape(s) && Enabled(s, BuyerStep(b))
  {
    var me := s.buyers[b];
    match me.pc
    case Top => SetBuyer(s, b, me.(pc := if me.need > 0 then Try(0) else Report))
    case Try(i) =>
      if i == NUM_STALLS then SetBuyer(s, b, me.(pc := Top))
      else if s.owners[i] == Free then SetBuyer(s, b, me.(pc := Shop(i))).(owners := s.owners[i := ByBuyer(b)])
      else SetBuyer(s, b, me.(pc := Try(i + 1)))
    case Shop(i) => SetBuyer(s, b, me.(pc := if me.need > 0 && s.goods[i] > 0 then Grab(i) else Leave(i)))
    case Grab(i) => SetBuyer(s, b, me.(pc := Took(i))).(goods := s.goods[i := s.goods[i] - 1])
    case Took(i) => SetBuyer(s, b, Buyer(me.need - 1, me.bought + 1, Shop(i)))
    case Leave(i) => SetBuyer(s, b, me.(pc := Top)).(owners := s.owners[i := Free])
    case Report => SetBuyer(s, b, me.(pc := Count)).(counterOwner := ByBuyer(b))
    case Count => SetBuyer(s, b, me.(pc := Uncount)).(finished := s.finished + 1)
    case Uncount => SetBuyer(s, b, me.(pc := Gone)).(counterOwner := Free)
  }

  ghost function ApplyLoader(s: State, choice: nat): State
    requires Shape(s) && Enabled(s, LoaderStep(choice))
  {
    match s.loader
    case LTop => s.(loader := LTest, counterOwner := ByLoader)
    case LTest => s.(loader := LUnlockCounter(s.finished >= 3))
    case LUnlockCounter(stop) => s.(loader := if stop then LGone else LChoose, counterOwner := Free)
    case LChoose => s.(loader := LLock(choice))
    case LLock(i) => s.(loader := LAdd(i), owners := s.owners[i := ByLoader])
    case LAdd(i) =>
      s.(loader := LUnlock(i), goods := s.goods[i := s.goods[i] + LOADER_ADD], loads := s.loads + 1,
         lateLoads := if s.finished >= 3 then s.lateLoads + 1 else s.lateLoads)
    case LUnlock(i) => s.(loader := LTop, owners := s.owners[i := Free])
  }

  ghost function Apply(s: State, step: Step): State
    requires Shape(s) && Enabled(s, step)
  {
    match step
    case BuyerStep(b) => ApplyBuyer(s, b)
    case LoaderStep(choice) => ApplyLoader(s, choice)
    case JoinStep => s.(joined := s.joined + 1)
  }

  ghost predicate Schedule(s: State, steps: seq<Step>)
    decreases |steps|
  {
    Shape(s) && (steps == [] || (Enabled(s, steps[0]) && Schedule(Apply(s, steps[0]), steps[1..])))
  }

  ghost function Outcome(s: State, steps: seq<Step>): State
    requires Schedule(s, steps)
    decreases |steps|
  {
    if steps == [] then s else Outcome(Apply(s, steps[0]), steps[1..])
  }

  // ----- what every step keeps -----

  predicate BuyerHolds(pc: BuyerPc, i: nat) {
    OnStall(pc) && pc.stall == i
  }

  predicate LoaderHolds(pc: LoaderPc, i: nat) {
    LoaderOnStall(pc) && pc.stall == i
  }

  /** The mutex of stall i is held by its owner and nobody else. */
  ghost predicate StallLock(s: State, i: nat)
    requires Shape(s) && i < NUM_STALLS
  {
    && (forall b: nat :: b < NUM_BUYERS ==> (BuyerHolds(s.buyers[b].pc, i) <==> s.owners[i] == ByBuyer(b)))
    && (LoaderHolds(s.loader, i) <==> s.owners[i] == ByLoader)
    && (s.owners[i].ByBuyer? ==> s.owners[i].b < NUM_BUYERS)
  }

  ghost predicate CounterLock(s: State)
    requires Shape(s)
  {
    && (forall b: nat :: b < NUM_BUYERS ==>
         (s.buyers[b].pc.Count? || s.buyers[b].pc.Uncount? <==> s.counterOwner == ByBuyer(b)))
    && (s.loader.LTest? || s.loader.LUnlockCounter? <==> s.counterOwner == ByLoader)
    && (s.counterOwner.ByBuyer? ==> s.counterOwner.b < NUM_BUYERS)
  }

  ghost predicate Exclusion(s: State)
    requires Shape(s)
  {
    CounterLock(s) && forall i: nat :: i < NUM_STALLS ==> StallLock(s, i)
  }

  predicate IsCounted(pc: BuyerPc) {
    pc.Uncount? || pc.Gone?
  }

  function Counted(b: Buyer): int {
    if IsCounted(b.pc) then 1 else 0
  }

  /** `need` and `bought` keep a buyer's initial need, and it goes with nothing left to buy. */
  ghost predicate NeedOk(b: Buyer, initial: int) {
    && b.need >= 0
    && b.need + b.bought == initial
    && (b.pc.Try? || b.pc.Grab? || b.pc.Took? ==> b.need > 0)
    && (b.pc.Report? || b.pc.Count? || IsCounted(b.pc) ==> b.need == 0)
  }

  ghost predicate Needs(s: State, initial: seq<int>)
    requires Shape(s)
  {
    |initial| == NUM_BUYERS && forall b: nat :: b < NUM_BUYERS ==> NeedOk(s.buyers[b], initial[b])
  }

  ghost predicate Stocked(s: State)
    requires Shape(s)
  {
    && (forall i: nat :: i < NUM_STALLS ==> s.goods[i] >= 0)
    && (forall b: nat :: b < NUM_BUYERS && s.buyers[b].pc.Grab? ==> s.goods[s.buyers[b].pc.stall] > 0)
  }

  /** The loader stops only after every buyer is counted, and is late at most once. */
  ghost predicate Finishing(s: State) {
    && |s.buyers| == NUM_BUYERS
    && s.finished == Total(s.buyers, Counted)
    && (s.loader.LGone? || s.loader == LUnlockCounter(true) ==> s.finished == NUM_BUYERS)
    && (s.finished < NUM_BUYERS ==> s.lateLoads == 0)
    && s.lateLoads <= 1
    && (s.lateLoads == 1 ==> s.loader.LUnlock? || s.loader.LTop? || s.loader.LTest?
                             || s.loader == LUnlockCounter(true) || s.loader.LGone?)
  }

  ghost predicate Joining(s: State)
    requires Shape(s)
  {
    && s.joined <= NUM_BUYERS + 1
    && (forall b: nat :: b < NUM_BUYERS && b < s.joined ==> s.buyers[b].pc.Gone?)
    && (s.joined > NUM_BUYERS ==> s.loader.LGone?)
  }

  function Self(x: int): int {
    x
  }

  /** What a buyer has taken off the shelves. */
  function Taken(b: Buyer): int {
    b.bought + (if b.pc.Took? then 1 else 0)
  }

  ghost function Goods(s: State): int {
    Total(s.goods, Self) + Total(s.buyers, Taken)
  }

  ghost predicate Inv(s: State, needs: seq<int>, stock: int) {
    && Shape(s) && Exclusion(s) && Needs(s, needs) && Stocked(s) && Finishing(s) && Joining(s)
    && Goods(s) == stock + LOADER_ADD * s.loads
  }

  ghost function InitialNeeds(s: State): seq<int> {
    seq(|s.buyers|, b requires 0 <= b < |s.buyers| => s.buyers[b].need)
  }

  lemma InvInit(s: State)
    requires Init(s)
    ensures Inv(s, InitialNeeds(s), Total(s.goods, Self))
  {
    TotalZero(s.buyers, Counted);
    TotalZero(s.buyers, Taken);
    forall i: nat | i < NUM_STALLS
      ensures s.goods[i] >= 0
    {
      assert s.goods[i] in s.goods;
    }
  }

  lemma ShapeStep(s: State, step: Step)
    requires Shape(s) && Enabled(s, step)
    ensures Shape(Apply(s, step))
  {
  }

  lemma CounterLockStep(s: State, step: Step)
    requires Shape(s) && CounterLock(s) && Enabled(s, step)
    ensures Shape(Apply(s, step)) && CounterLock(Apply(s, step))
  {
    ShapeStep(s, step);
  }

  lemma StallLockBuyer(s: State, b: nat, i: nat)
    requires Shape(s) && i < NUM_STALLS && StallLock(s, i) && Enabled(s, BuyerStep(b))
    requires OnStall(s.buyers[b].pc) ==> StallLock(s, s.buyers[b].pc.stall)
    ensures Shape(ApplyBuyer(s, b)) && StallLock(ApplyBuyer(s, b), i)
  {
    ShapeStep(s, BuyerStep(b));
    var s' := ApplyBuyer(s, b);
    assert forall c: nat :: c < NUM_BUYERS && c != b ==> s'.buyers[c] == s.buyers[c];
  }

  lemma StallLockLoader(s: State, choice: nat, i: nat)
    requires Shape(s) && i < NUM_STALLS && StallLock(s, i) && Enabled(s, LoaderStep(choice))
    requires LoaderOnStall(s.loader) ==> StallLock(s, s.loader.stall)
    ensures Shape(ApplyLoader(s, choice)) && StallLock(ApplyLoader(s, choice), i)
  {
    ShapeStep(s, LoaderStep(choice));
  }

  lemma ExclusionStep(s: State, step: Step)
    requires Shape(s) && Exclusion(s) && Enabled(s, step)
    ensures Shape(Apply(s, step)) && Exclusion(Apply(s, step))
  {
    CounterLockStep(s, step);
    forall i: nat | i < NUM_STALLS
      ensures StallLock(Apply(s, step), i)
    {
      assert StallLock(s, i);
      match step
      case BuyerStep(b) => StallLockBuyer(s, b, i);
      case LoaderStep(choice) => StallLockLoader(s, choice, i);
      case JoinStep =>
    }
  }

  lemma NeedsStep(s: State, step: Step, needs: seq<int>)
    requires Shape(s) && Enabled(s, step) && Needs(s, needs)
    ensures Shape(Apply(s, step)) && Needs(Apply(s, step), needs)
  {
    ShapeStep(s, step);
  }

  lemma StockedStep(s: State, step: Step)
    requires Shape(s) && Exclusion(s) && Enabled(s, step) && Stocked(s)
    ensures Shape(Apply(s, step)) && Stocked(Apply(s, step))
  {
    ShapeStep(s, step);
    var s' := Apply(s, step);
    forall b: nat | b < NUM_BUYERS && s'.buyers[b].pc.Grab?
      ensures s'.goods[s'.buyers[b].pc.stall] > 0
    {
      var i := s'.buyers[b].pc.stall;
      assert StallLock(s, i);
      if step != BuyerStep(b) {
        assert BuyerHolds(s.buyers[b].pc, i);
      }
    }
  }

  lemma AllCounted(buyers: seq<Buyer>)
    requires |buyers| == NUM_BUYERS
    ensures Total(buyers, Counted) <= NUM_BUYERS
    ensures Total(buyers, Counted) == NUM_BUYERS <==> forall b :: 0 <= b < |buyers| ==> IsCounted(buyers[b].pc)
  {
    TotalOfThree(buyers, Counted);
  }

  lemma TotalOfThree(buyers: seq<Buyer>, f: Buyer -> int)
    requires |buyers| == NUM_BUYERS
    ensures Total(buyers, f) == f(buyers[0]) + f(buyers[1]) + f(buyers[2])
  {
    assert buyers[1..] == [buyers[1], buyers[2]];
    assert buyers[1..][1..] == [buyers[2]];
    assert Total([buyers[2]], f) == f(buyers[2]);
    assert Total(buyers[1..], f) == f(buyers[1]) + Total([buyers[2]], f);
  }

  lemma FinishingStep(s: State, step: Step)
    requires Shape(s) && Enabled(s, step) && Finishing(s)
    ensures Finishing(Apply(s, step))
  {
    var s' := Apply(s, step);
    AllCounted(s.buyers);
    AllCounted(s'.buyers);
    if step.BuyerStep? {
      CountedStep(s, step.b);
    }
  }

  lemma CountedStep(s: State, b: nat)
    requires Shape(s) && Enabled(s, BuyerStep(b)) && Finishing(s)
    ensures ApplyBuyer(s, b).finished == Total(ApplyBuyer(s, b).buyers, Counted)
    ensures s.finished <= ApplyBuyer(s, b).finished
  {
    TotalUpdate(s.buyers, b, ApplyBuyer(s, b).buyers[b], Counted);
  }

  lemma JoiningStep(s: State, step: Step)
    requires Shape(s) && Enabled(s, step) && Joining(s)
    ensures Shape(Apply(s, step)) && Joining(Apply(s, step))
  {
    ShapeStep(s, step);
  }

  lemma GoodsBuyer(s: State, b: nat)
    requires Shape(s) && Enabled(s, BuyerStep(b))
    ensures Goods(ApplyBuyer(s, b)) == Goods(s) && ApplyBuyer(s, b).loads == s.loads
  {
    var s' := ApplyBuyer(s, b);
    TotalUpdate(s.buyers, b, s'.buyers[b], Taken);
    if s.buyers[b].pc.Grab? {
      var i := s.buyers[b].pc.stall;
      TotalUpdate(s.goods, i, s'.goods[i], Self);
    }
  }

  lemma GoodsStep(s: State, step: Step)
    requires Shape(s) && Enabled(s, step)
    ensures Goods(Apply(s, step)) - LOADER_ADD * Apply(s, step).loads == Goods(s) - LOADER_ADD * s.loads
  {
    if step.BuyerStep? {
      hide ApplyBuyer, Goods;
      GoodsBuyer(s, step.b);
    } else if step.LoaderStep? && s.loader.LAdd? {
      TotalUpdate(s.goods, s.loader.stall, Apply(s, step).goods[s.loader.stall], Self);
    }
  }

  lemma InvStep(s: State, step: Step, needs: seq<int>, stock: int)
    requires Inv(s, needs, stock) && Enabled(s, step)
    ensures Inv(Apply(s, step), needs, stock)
  {
    hide Apply, Shape, Exclusion, Needs, Stocked, Finishing, Joining, Goods, Enabled;
    ExclusionStep(s, step);
    NeedsStep(s, step, needs);
    StockedStep(s, step);
    FinishingStep(s, step);
    JoiningStep(s, step);
    GoodsStep(s, step);
  }

  lemma {:induction false} EveryRunKeepsInv(s: State, steps: seq<Step>, needs: seq<int>, stock: int)
    requires Inv(s, needs, stock) && Schedule(s, steps)
    ensures Inv(Outcome(s, steps), needs, stock)
    decreases |steps|
  {
    if steps != [] {
      InvStep(s, steps[0], needs, stock);
      EveryRunKeepsInv(Apply(s, steps[0]), steps[1..], needs, stock);
    }
  }

  // ----- consequences for every run -----

  /** Conservation: what is on the shelves and what was taken is the initial stock and the
      completed loads; and no shelf is ever below zero. */
  lemma GoodsAreConserved(init: State, steps: seq<Step>)
    requires Init(init) && Schedule(init, steps)
    ensures var s := Outcome(init, steps);
      && Total(s.goods, Self) + Total(s.buyers, Taken) == Total(init.goods, Self) + LOADER_ADD * s.loads
      && forall g :: g in s.goods ==> g >= 0
  {
    InvInit(init);
    EveryRunKeepsInv(init, steps, InitialNeeds(init), Total(init.goods, Self));
  }

  /** A buyer that has finished bought exactly its need; the loader is gone only if all
      buyers finished; at most one load was made after the third buyer was counted; and when
      the main thread has joined everyone the stock left is the initial stock plus the loads
      minus all the needs. */
  lemma EverybodyLeavesSatisfied(init: State, steps: seq<Step>)
    requires Init(init) && Schedule(init, steps)
    ensures var s := Outcome(init, steps);
      && |s.buyers| == |init.buyers| == 3
      && (forall b :: 0 <= b < 3 && s.buyers[b].pc.Gone? ==>
            s.buyers[b].need == 0 && s.buyers[b].bought == init.buyers[b].need)
      && (s.loader.LGone? ==> forall b :: 0 <= b < 3 ==> IsCounted(s.buyers[b].pc))
      && s.lateLoads <= 1
      && (s.joined > 3 ==>
            && s.loader.LGone? && (forall b :: 0 <= b < 3 ==> s.buyers[b].pc.Gone?)
            && Total(s.goods, Self) == Total(init.goods, Self) + LOADER_ADD * s.loads
               - (init.buyers[0].need + init.buyers[1].need + init.buyers[2].need))
  {
    InvInit(init);
    EveryRunKeepsInv(init, steps, InitialNeeds(init), Total(init.goods, Self));
    var s := Outcome(init, steps);
    AllCounted(s.buyers);
    if s.joined > 3 {
      assert forall b: nat :: b < 3 ==> NeedOk(s.buyers[b], init.buyers[b].need);
      TotalOfThree(s.buyers, Taken);
    }
  }

  /** No deadlock: until the main thread has joined everyone, some thread can move. */
  lemma NoDeadlock(s: State, needs: seq<int>, stock: int) returns (step: Step)
    requires Inv(s, needs, stock) && s.joined <= NUM_BUYERS
    ensures Enabled(s, step)
  {
    AllCounted(s.buyers);
    if b: nat :| b < NUM_BUYERS && s.counterOwner == ByBuyer(b) {
      step := BuyerStep(b);
    } else if b: nat :| b < NUM_BUYERS && !s.buyers[b].pc.Gone? && (s.buyers[b].pc.Report? ==> s.counterOwner == Free) {
      step := BuyerStep(b);
    } else if s.counterOwner == ByLoader {
      step := LoaderStep(0);
    } else if s.joined < NUM_BUYERS || s.loader.LGone? {
      step := JoinStep;
    } else {
      if s.loader.LLock? {
        assert StallLock(s, s.loader.stall);
      }
      step := LoaderStep(0);
    }
  }

  // ----- a stall in memory -----

  function Min(a: int, b: int): int {
    if a < b then a else b
  }

  function Alone(b: nat, n: nat): seq<Step> {
    seq(n, _ => BuyerStep(b))
  }

  /** The state after buyer b has taken m units from stall i. */
  ghost function Bought(s: State, b: nat, i: nat, m: int, pc: BuyerPc): State
    requires Shape(s) && b < NUM_BUYERS && i < NUM_STALLS
  {
    s.(goods := s.goods[i := s.goods[i] - m],
       buyers := s.buyers[b := Buyer(s.buyers[b].need - m, s.buyers[b].bought + m, pc)])
  }

  lemma BoughtInParts(s: State, b: nat, i: nat, m: int)
    requires Shape(s) && b < NUM_BUYERS && i < NUM_STALLS
    ensures var one := Bought(s, b, i, 1, Shop(i));
      && Shape(one) && one.buyers[b].pc == Shop(i)
      && one.buyers[b].need == s.buyers[b].need - 1 && one.goods[i] == s.goods[i] - 1
      && Bought(one, b, i, m - 1, Leave(i)) == Bought(s, b, i, m, Leave(i))
  {
    var one := Bought(s, b, i, 1, Shop(i));
    assert one.goods[i := one.goods[i] - (m - 1)] == s.goods[i := s.goods[i] - m];
    assert Bought(one, b, i, m - 1, Leave(i)).buyers == Bought(s, b, i, m, Leave(i)).buyers;
  }

  /** A buyer that holds a stall and is at the inner loop takes, by its own steps, what it
      needs or what is there, as the method `Stall.Shop` does, and changes nothing else. */
  lemma {:induction false} BuyerShopsToTheEnd(s: State, b: nat, i: nat)
    requires Shape(s) && b < NUM_BUYERS && i < NUM_STALLS && s.buyers[b].pc == Shop(i)
    requires s.buyers[b].need >= 0 && s.goods[i] >= 0
    ensures var m := Min(s.buyers[b].need, s.goods[i]);
      && Schedule(s, Alone(b, 3 * m + 1))
      && Outcome(s, Alone(b, 3 * m + 1)) == Bought(s, b, i, m, Leave(i))
    decreases s.goods[i]
  {
    var m := Min(s.buyers[b].need, s.goods[i]);
    if m == 0 {
      NothingToTake(s, b, i);
    } else {
      hide ApplyBuyer, Schedule, Outcome, Enabled, Bought, Shape;
      BoughtInParts(s, b, i, m);
      OneUnit(s, b, i);
      BuyerShopsToTheEnd(Bought(s, b, i, 1, Shop(i)), b, i);
      StepFirst(ApplyBuyer(ApplyBuyer(s, b), b), b, 3 * m - 2);
      StepFirst(ApplyBuyer(s, b), b, 3 * m - 1);
      StepFirst(s, b, 3 * m);
    }
  }

  lemma NothingToTake(s: State, b: nat, i: nat)
    requires Shape(s) && b < NUM_BUYERS && i < NUM_STALLS && s.buyers[b].pc == Shop(i)
    requires Min(s.buyers[b].need, s.goods[i]) <= 0
    ensures Schedule(s, Alone(b, 1)) && Outcome(s, Alone(b, 1)) == Bought(s, b, i, 0, Leave(i))
  {
    ShapeStep(s, BuyerStep(b));
    assert Alone(b, 0) == [];
    StepFirst(s, b, 0);
    assert s.goods[i := s.goods[i] - 0] == s.goods;
  }

  /** One unit bought: three steps. */
  lemma OneUnit(s: State, b: nat, i: nat)
    requires Shape(s) && b < NUM_BUYERS && i < NUM_STALLS && s.buyers[b].pc == Shop(i)
    requires s.buyers[b].need > 0 && s.goods[i] > 0
    ensures Enabled(s, BuyerStep(b)) && Shape(ApplyBuyer(s, b)) && Enabled(ApplyBuyer(s, b), BuyerStep(b))
    ensures var s2 := ApplyBuyer(ApplyBuyer(s, b), b);
      Shape(s2) && Enabled(s2, BuyerStep(b)) && ApplyBuyer(s2, b) == Bought(s, b, i, 1, Shop(i))
  {
    ShapeStep(s, BuyerStep(b));
    var s1 := ApplyBuyer(s, b);
    ShapeStep(s1, BuyerStep(b));
    var s2 := ApplyBuyer(s1, b);
    ShapeStep(s2, BuyerStep(b));
  }

  lemma StepFirst(s: State, b: nat, n: nat)
    requires Shape(s) && Enabled(s, BuyerStep(b)) && Schedule(ApplyBuyer(s, b), Alone(b, n))
    ensures Schedule(s, Alone(b, n + 1)) && Outcome(s, Alone(b, n + 1)) == Outcome(ApplyBuyer(s, b), Alone(b, n))
  {
    hide ApplyBuyer, Shape, Enabled;
    assert Alone(b, n + 1)[0] == BuyerStep(b) && Alone(b, n + 1)[1..] == Alone(b, n);
  }

  /** A stall of the global array; its mutex is held during each method. */
  class Stall {
    var goods: int

    constructor (initial: int)
      ensures goods == initial
    {
      goods := initial;
    }

    /** The inner loop of buyer b in stall i, from state s: it takes as much as it needs and
        the shelf allows, and in memory it does what its steps do to the state machine. */
    method Shop(need: int, ghost s: State, ghost b: nat, ghost i: nat) returns (rest: int)
      requires Shape(s) && b < NUM_BUYERS && i < NUM_STALLS && s.buyers[b].pc == BuyerPc.Shop(i)
      requires need == s.buyers[b].need >= 0 && goods == s.goods[i] >= 0
      modifies this
      ensures goods == old(goods) - Min(need, old(goods))
      ensures rest == need - Min(need, old(goods))
      ensures var steps := Alone(b, 3 * Min(need, old(goods)) + 1);
        && Schedule(s, steps) && Shape(Outcome(s, steps))
        && Outcome(s, steps).goods == s.goods[i := goods]
        && Outcome(s, steps).buyers[b].need == rest && Outcome(s, steps).buyers[b].pc == Leave(i)
    {
      BuyerShopsToTheEnd(s, b, i);
      rest := need;
      while rest > 0 && goods > 0
        invariant goods >= 0 && rest >= 0
        invariant old(goods) - goods == need - rest
      {
        goods := goods - 1;
        rest := rest - 1;
      }
    }
  }
}
