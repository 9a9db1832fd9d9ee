/**
 The market can always come to its end: whatever has happened so far, some scheduling of the
 threads lets every buyer have what it needs, the loader see that, and main join everyone.
 */
module MarketEnding {
  import opened Market
  import Sums

  // ----- a measure of what is left to do -----

  /** What a buyer has still to take off the shelves. */
  function Missing(b: Buyer): int {
    b.need - if b.pc.Took? then 1 else 0
  }

  /** How far a buyer is from its next unit, or, with nothing left to take, from its end. */
  ghost function BuyerFuel(s: State, b: nat): nat
    requires Shape(s) && b < NUM_BUYERS
  {
    var me := s.buyers[b];
    match me.pc
    case Gone => 0
    case Uncount => 1
    case Count => 30
    case Report => 31
    case Grab(_) => 47
    case Shop(i) => if me.need > 0 && s.goods[i] > 0 then 48 else 52
    case Try(i) => if i == 0 then 49 else 53
    case Top => 50
    case Leave(_) => 51
    case Took(_) => 53
  }

  /** How far the loader is from its end once the buyers have finished, and before that from
      having stall 0 stocked; where that is so it has only to let go of what it holds. */
  ghost function LoaderFuel(s: State): nat
    requires Shape(s)
  {
    if s.finished >= NUM_BUYERS then
      match s.loader
      case LGone => 0
      case LUnlockCounter(stop) => if stop then 1 else 8
      case LTest => 2
      case LTop => 3
      case LUnlock(_) => 4
      case LAdd(_) => 5
      case LLock(_) => 6
      case LChoose => 7
    else if s.goods[0] > 0 then
      match s.loader
      case LTest => 2
      case LUnlockCounter(_) => 1
      case LAdd(_) => 2
      case LUnlock(_) => 1
      case _ => 0
    else
      match s.loader
      case LGone => 0
      case LAdd(i) => if i == 0 then 2 else 9
      case LLock(i) => if i == 0 then 3 else 10
      case LChoose => 4
      case LUnlockCounter(_) => 5
      case LTest => 6
      case LTop => 7
      case LUnlock(_) => 8
  }

  const UNIT := 60

  ghost function BuyersLeft(s: State, b: nat): int
    requires Shape(s) && b < NUM_BUYERS
  {
    UNIT * Missing(s.buyers[b]) + BuyerFuel(s, b)
  }

  ghost function Left(s: State): int
    requires Shape(s)
  {
    BuyersLeft(s, 0) + BuyersLeft(s, 1) + BuyersLeft(s, 2) + LoaderFuel(s) + (NUM_BUYERS + 1 - s.joined)
  }

  lemma LeftIsNatural(s: State, needs: seq<int>)
    requires Shape(s) && Needs(s, needs) && s.joined <= NUM_BUYERS + 1
    ensures Left(s) >= 0
  {
    forall b: nat | b < NUM_BUYERS
      ensures Missing(s.buyers[b]) >= 0
    {
      assert NeedOk(s.buyers[b], needs[b]);
    }
  }

  // ----- steps that lead on -----

  /** Any step of a buyer, but the mutex it tries must be free, and there must be goods in
      stall 0 when it tries that. */
  ghost predicate BuyerHelps(s: State, b: nat)
    requires Shape(s)
  {
    && b < NUM_BUYERS && Enabled(s, BuyerStep(b))
    && var pc := s.buyers[b].pc;
      pc.Try? ==>
        && s.buyers[b].need > 0
        && (pc.stall < NUM_STALLS ==> s.owners[pc.stall] == Free)
        && (pc.stall == 0 ==> s.goods[0] > 0)
  }

  predicate LoaderHolding(pc: LoaderPc) {
    pc.LTest? || pc.LUnlockCounter? || pc.LAdd? || pc.LUnlock?
  }

  /** A step of the loader while it holds a mutex, or stall 0 is empty, or all have finished. */
  ghost predicate LoaderHelps(s: State)
    requires Shape(s)
  {
    && Enabled(s, LoaderStep(0))
    && (LoaderHolding(s.loader) || s.goods[0] <= 0 || s.finished >= NUM_BUYERS)
    && (s.loader == LUnlockCounter(true) ==> s.finished >= NUM_BUYERS)
  }

  lemma BuyerLeavesLess(s: State, b: nat, c: nat)
    requires Shape(s) && BuyerHelps(s, b) && c < NUM_BUYERS && c != b
    requires s.buyers[b].pc.Grab? ==> s.goods[s.buyers[b].pc.stall] > 0
    ensures Shape(ApplyBuyer(s, b))
    ensures BuyersLeft(ApplyBuyer(s, b), c) <= BuyersLeft(s, c) + if s.buyers[b].pc.Grab? then 4 else 0
  {
    ShapeStep(s, BuyerStep(b));
  }

  lemma BuyerMovesOn(s: State, b: nat)
    requires Shape(s) && BuyerHelps(s, b)
    requires s.buyers[b].pc.Grab? || s.buyers[b].pc.Took? ==> s.buyers[b].need > 0
    ensures Shape(ApplyBuyer(s, b))
    ensures BuyersLeft(ApplyBuyer(s, b), b) + LoaderFuel(ApplyBuyer(s, b)) + (if s.buyers[b].pc.Grab? then 8 else 0)
      < BuyersLeft(s, b) + LoaderFuel(s)
    ensures ApplyBuyer(s, b).joined == s.joined
  {
    ShapeStep(s, BuyerStep(b));
  }

  lemma LoaderMovesOn(s: State)
    requires Shape(s) && LoaderHelps(s) && s.goods[0] >= 0
    ensures Shape(ApplyLoader(s, 0)) && LoaderFuel(ApplyLoader(s, 0)) < LoaderFuel(s)
    ensures ApplyLoader(s, 0).joined == s.joined
    ensures forall b: nat :: b < NUM_BUYERS ==> BuyersLeft(ApplyLoader(s, 0), b) <= BuyersLeft(s, b)
  {
    ShapeStep(s, LoaderStep(0));
  }

  ghost predicate Helps(s: State, step: Step)
    requires Shape(s)
  {
    match step
    case BuyerStep(b) => BuyerHelps(s, b)
    case LoaderStep(choice) => choice == 0 && LoaderHelps(s)
    case JoinStep => Enabled(s, JoinStep)
  }

  lemma BuyerLeavesAllLess(s: State, b: nat)
    requires Shape(s) && BuyerHelps(s, b)
    requires s.buyers[b].pc.Grab? || s.buyers[b].pc.Took? ==> s.buyers[b].need > 0
    requires s.buyers[b].pc.Grab? ==> s.goods[s.buyers[b].pc.stall] > 0
    ensures Shape(ApplyBuyer(s, b)) && Left(ApplyBuyer(s, b)) < Left(s)
  {
    assert b < NUM_BUYERS;
    hide BuyersLeft, LoaderFuel, ApplyBuyer, BuyerHelps, Enabled, Shape;
    BuyerMovesOn(s, b);
    forall c: nat | c < NUM_BUYERS && c != b
      ensures BuyersLeft(ApplyBuyer(s, b), c) <= BuyersLeft(s, c) + if s.buyers[b].pc.Grab? then 4 else 0
    {
      BuyerLeavesLess(s, b, c);
    }
  }

  lemma HelpingStepLeavesLess(s: State, step: Step, needs: seq<int>, stock: int)
    requires Inv(s, needs, stock) && Helps(s, step)
    ensures Enabled(s, step) && Shape(Apply(s, step)) && Left(Apply(s, step)) < Left(s)
  {
    hide Exclusion, Finishing, Goods, BuyersLeft, LoaderFuel, ApplyBuyer, ApplyLoader;
    match step
    case BuyerStep(b) =>
      assert NeedOk(s.buyers[b], needs[b]);
      BuyerLeavesAllLess(s, b);
    case LoaderStep(choice) =>
      LoaderLeavesAllLess(s);
    case JoinStep =>
      ShapeStep(s, JoinStep);
      JoinLeavesLess(s);
  }

  lemma LoaderLeavesAllLess(s: State)
    requires Shape(s) && LoaderHelps(s) && s.goods[0] >= 0
    ensures Shape(ApplyLoader(s, 0)) && Left(ApplyLoader(s, 0)) < Left(s)
  {
    hide BuyersLeft, LoaderFuel, ApplyLoader, LoaderHelps, Enabled, Shape;
    LoaderMovesOn(s);
  }

  lemma JoinLeavesLess(s: State)
    requires Shape(s)
    ensures Shape(s.(joined := s.joined + 1)) && Left(s.(joined := s.joined + 1)) < Left(s)
  {
    var s' := s.(joined := s.joined + 1);
    assert Shape(s');
    forall b: nat | b < NUM_BUYERS
      ensures BuyersLeft(s', b) == BuyersLeft(s, b)
    {
      assert BuyerFuel(s', b) == BuyerFuel(s, b);
    }
    assert LoaderFuel(s') == LoaderFuel(s);
    hide BuyersLeft, LoaderFuel, Shape;
  }

  // ----- there is always one -----

  lemma NobodyHolds(s: State)
    requires Shape(s) && Exclusion(s) && !LoaderHolding(s.loader)
    requires forall b: nat :: b < NUM_BUYERS ==>
      !OnStall(s.buyers[b].pc) && !s.buyers[b].pc.Count? && !s.buyers[b].pc.Uncount?
    ensures s.counterOwner == Free && forall i: nat :: i < NUM_STALLS ==> s.owners[i] == Free
  {
    forall i: nat | i < NUM_STALLS
      ensures s.owners[i] == Free
    {
      assert StallLock(s, i);
    }
  }

  lemma SomeStepHelps(s: State, needs: seq<int>, stock: int) returns (step: Step)
    requires Inv(s, needs, stock) && s.joined <= NUM_BUYERS
    ensures Helps(s, step)
  {
    AllCounted(s.buyers);
    if b: nat :| b < NUM_BUYERS && (OnStall(s.buyers[b].pc) || s.buyers[b].pc.Count? || s.buyers[b].pc.Uncount?) {
      step := BuyerStep(b);
    } else if LoaderHolding(s.loader) {
      step := LoaderStep(0);
    } else {
      NobodyHolds(s);
      if b: nat :| b < NUM_BUYERS && (s.buyers[b].pc.Top? || s.buyers[b].pc.Report?) {
        step := BuyerStep(b);
      } else if b: nat :| b < NUM_BUYERS && s.buyers[b].pc.Try? {
        assert NeedOk(s.buyers[b], needs[b]);
        assert !IsCounted(s.buyers[b].pc);
        step := if s.goods[0] > 0 then BuyerStep(b) else LoaderStep(0);
      } else {
        step := if s.joined < NUM_BUYERS || s.loader.LGone? then JoinStep else LoaderStep(0);
      }
    }
  }

  /** From every reachable state the market can come to its end. */
  lemma {:induction false} CanAlwaysEnd(s: State, needs: seq<int>, stock: int) returns (steps: seq<Step>)
    requires Inv(s, needs, stock)
    ensures Schedule(s, steps) && Outcome(s, steps).joined == NUM_BUYERS + 1
    decreases Left(s)
  {
    hide Left, Exclusion, Stocked, Finishing;
    LeftIsNatural(s, needs);
    if s.joined > NUM_BUYERS {
      steps := [];
    } else {
      var step := SomeStepHelps(s, needs, stock);
      HelpingStepLeavesLess(s, step, needs, stock);
      InvStep(s, step, needs, stock);
      LeftIsNatural(Apply(s, step), needs);
      var rest := CanAlwaysEnd(Apply(s, step), needs, stock);
      steps := [step] + rest;
      assert steps[0] == step && steps[1..] == rest;
    }
  }

  /** So every run can be completed, and then everybody has what it needed. */
  lemma EveryRunCanBeCompleted(init: State, steps: seq<Step>) returns (more: seq<Step>)
    requires Init(init) && Schedule(init, steps)
    ensures Schedule(init, steps + more)
    ensures var s := Outcome(init, steps + more);
      && s.joined == NUM_BUYERS + 1 && s.loader.LGone? && |s.buyers| == |init.buyers| == NUM_BUYERS
      && forall b :: 0 <= b < NUM_BUYERS ==> s.buyers[b].pc.Gone? && s.buyers[b].bought == init.buyers[b].need
  {
    InvInit(init);
    var needs, stock := InitialNeeds(init), Sums.Total(init.goods, Self);
    EveryRunKeepsInv(init, steps, needs, stock);
    more := CanAlwaysEnd(Outcome(init, steps), needs, stock);
    OneAfterTheOther(init, steps, more);
    EverybodyLeavesSatisfied(init, steps + more);
    EveryRunKeepsInv(init, steps + more, needs, stock);
  }

  lemma {:induction false} OneAfterTheOther(s: State, first: seq<Step>, second: seq<Step>)
    requires Schedule(s, first) && Schedule(Outcome(s, first), second)
    ensures Schedule(s, first + second) && Outcome(s, first + second) == Outcome(Outcome(s, first), second)
    decreases |first|
  {
    hide Enabled, Apply, Shape;
    if first == [] {
      assert first + second == second;
    } else {
      OneAfterTheOther(Apply(s, first[0]), first[1..], second);
      assert (first + second)[0] == first[0] && (first + second)[1..] == first[1..] + second;
    }
  }
}
