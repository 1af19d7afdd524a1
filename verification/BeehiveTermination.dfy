/** When the simulation ends: whether main stores must_terminate while the bees are together decides it. */
module BeehiveTermination {
  import opened FlowerField
  import opened Runs
  import opened Sums
  import opened Beehive
  import opened BeehiveInvariant
  import opened BeehiveResults

  // ---------------------------------------------------------------------------
  // Parted bees
  // ---------------------------------------------------------------------------

  /** At the loop test, or out of the loop. */
  predicate Outside(b: Bee) { b.AtLoop? || b.Gone? }

  /** Past the loop test, and not through the first barrier yet. */
  predicate Underway(b: Bee) { !Outside(b) && !SecondHalf(b) }

  /** Some bee is about to test must_terminate, or has left, while another is inside the round. */
  ghost predicate Parted(s: State) {
    && (exists i :: 0 <= i < |s.bees| && Outside(s.bees[i]))
    && (exists i :: 0 <= i < |s.bees| && Underway(s.bees[i]))
  }

  ghost predicate AllGone(s: State) {
    forall i :: 0 <= i < |s.bees| ==> s.bees[i].Gone?
  }

  /** main has joined all bees. */
  predicate Ended(s: State) { s.main == Joining(|s.bees|) }

  lemma LocalSide(c: Config, m: Memory, i: nat, b: Bee, attack: bool)
    requires Local(c, m, i, b, attack).Some? && m.terminate
    ensures var (m', b') := Local(c, m, i, b, attack).value;
            m'.terminate && Outside(b') == Outside(b) && SecondHalf(b') == SecondHalf(b)
  {
    hide Positions;
  }

  /** Once must_terminate is stored, bees that are parted stay parted, and bees that are not are never parted. */
  lemma PartedKept(c: Config, s: State, a: Action)
    requires PhaseOk(s) && s.mem.terminate && Step(c, s, a).Some?
    ensures var t := Step(c, s, a).value;
            t.mem.terminate && |t.bees| == |s.bees| && (Parted(t) <==> Parted(s))
  {
    var t := Step(c, s, a).value;
    if Alone(s, a) {
      LocalSide(c, s.mem, a.i, s.bees[a.i], a.attack);
      hide Local;
      assert forall k :: 0 <= k < |s.bees| ==> Outside(t.bees[k]) == Outside(s.bees[k]) && Underway(t.bees[k]) == Underway(s.bees[k]);
    } else if Arrival(s, a) {
      ArrivalOutcome(c, s, a);
      ArrivalMoves(c, s, a);
      hide Step;
      if Opens(s, a.i) {
        assert !Underway(t.bees[a.i]);
        assert forall k :: 0 <= k < |s.bees| ==> !Underway(t.bees[k]) && !Outside(s.bees[k]);
      } else {
        assert forall k :: 0 <= k < |s.bees| ==> Outside(t.bees[k]) == Outside(s.bees[k]) && Underway(t.bees[k]) == Underway(s.bees[k]);
      }
    }
  }

  lemma {:induction false} PartedForGood(c: Config, s: State, acts: seq<Action>)
    requires Inv(c, s) && s.mem.terminate && Exec(Stepper(c), s, acts).Some?
    ensures var t := Exec(Stepper(c), s, acts).value;
            Inv(c, t) && t.mem.terminate && |t.bees| == |s.bees| && (Parted(t) <==> Parted(s))
    decreases |acts|
  {
    if acts != [] {
      InvParts(c, s);
      StepKeepsInv(c, s, acts[0]);
      PartedKept(c, s, acts[0]);
      hide Inv, Step, Parted, PhaseOk, Shape;
      PartedForGood(c, Step(c, s, acts[0]).value, acts[1..]);
    }
  }

  lemma PartedAtTheEnd(c: Config, s: State)
    requires Inv(c, s)
    ensures AllGone(s) ==> !Parted(s)
    ensures Stuck(c, s) ==> Parted(s)
  {
    StuckMeansStranded(c, s);
  }

  /** A bear strikes when all bees are together. */
  lemma BearPartsNobody(c: Config, s: State)
    requires Reachable(c, s) && s.mem.bear
    ensures s.mem.terminate && !Parted(s)
  {
    BearEndsTheRound(c, s);
  }

  /**
   With must_terminate stored: if the bees are parted, no continuation ends with all of them gone; if they are
   not, no continuation leaves them stuck.
   */
  lemma StoreDecides(c: Config, s: State, acts: seq<Action>)
    requires Reachable(c, s) && s.mem.terminate && Exec(Stepper(c), s, acts).Some?
    ensures Parted(s) ==> !AllGone(Exec(Stepper(c), s, acts).value)
    ensures !Parted(s) ==> !Stuck(c, Exec(Stepper(c), s, acts).value)
  {
    ReachableInv(c, s);
    PartedForGood(c, s, acts);
    PartedAtTheEnd(c, Exec(Stepper(c), s, acts).value);
  }

  // ---------------------------------------------------------------------------
  // Until no bee can move
  // ---------------------------------------------------------------------------

  function ByBees(): Action -> bool { (a: Action) => a.BeeAct? && !a.attack }

  ghost predicate Halted(c: Config, s: State) {
    forall i :: 0 <= i < |s.bees| ==> !CanMove(c, s, i)
  }

  ghost predicate Ending(c: Config, from: State, s: State) {
    Inv(c, s) && s.mem.terminate && s.main == from.main && |s.bees| == |from.bees|
  }

  function ToLeave(s: State): int { SumBy(Leaving, s.bees) }

  lemma MoveToEnd(c: Config, from: State, s: State) returns (a: Action)
    requires Ending(c, from, s) && !Halted(c, s)
    ensures ByBees()(a) && Step(c, s, a).Some? && Ending(c, from, Step(c, s, a).value)
    ensures 0 <= ToLeave(Step(c, s, a).value) < ToLeave(s)
  {
    var i :| 0 <= i < |s.bees| && CanMove(c, s, i);
    a := BeeAct(i, i, false);
    MainStays(c, s, a);
    InvParts(c, s);
    hide Inv, Step, Shape, PhaseOk, Parted;
    StepKeepsInv(c, s, a);
    LeavingFalls(c, s, a);
    PartedKept(c, s, a);
  }

  lemma MainStays(c: Config, s: State, a: Action)
    requires a.BeeAct? && Step(c, s, a).Some?
    ensures Step(c, s, a).value.main == s.main
  {
    if Arrival(s, a) { ArrivalMoves(c, s, a); }
  }

  /** With must_terminate stored, the bees alone reach the point where none of them can go on. */
  lemma ToHalt(c: Config, s: State) returns (acts: seq<Action>)
    requires Inv(c, s) && s.mem.terminate
    ensures Exec(Stepper(c), s, acts).Some?
    ensures var t := Exec(Stepper(c), s, acts).value; Ending(c, s, t) && Halted(c, t)
  {
    var keep := (t: State) => Ending(c, s, t);
    assert keep(s);
    hide Inv, Step, Ending, Halted, ToLeave;
    forall t | keep(t) && !Halted(c, t) ensures CanAdvance(Stepper(c), keep, ByBees(), ToLeave, t) {
      var a := MoveToEnd(c, s, t);
      assert Advances(Stepper(c), keep, ByBees(), ToLeave, t, a);
    }
    acts := CanReach(Stepper(c), keep, t => Halted(c, t), ByBees(), ToLeave, s);
  }

  lemma HaltedOutcome(c: Config, s: State)
    requires Inv(c, s) && Halted(c, s)
    ensures if Parted(s) then Stuck(c, s) else AllGone(s)
  {
    PartedAtTheEnd(c, s);
  }

  /** With must_terminate stored, all bees can still leave exactly when they are not parted, and get stuck exactly when they are. */
  lemma BeesLeaveExactly(c: Config, s: State)
    requires Reachable(c, s) && s.mem.terminate
    ensures (exists acts :: Exec(Stepper(c), s, acts).Some? && AllGone(Exec(Stepper(c), s, acts).value)) <==> !Parted(s)
    ensures (exists acts :: Exec(Stepper(c), s, acts).Some? && Stuck(c, Exec(Stepper(c), s, acts).value)) <==> Parted(s)
  {
    ReachableInv(c, s);
    hide Inv, Step, Parted, AllGone, Stuck, Reachable;
    var run := ToHalt(c, s);
    PartedForGood(c, s, run);
    HaltedOutcome(c, Exec(Stepper(c), s, run).value) by { HaltedAfter(c, s, Exec(Stepper(c), s, run).value); }
    forall acts | Exec(Stepper(c), s, acts).Some?
      ensures Parted(s) ==> !AllGone(Exec(Stepper(c), s, acts).value)
      ensures !Parted(s) ==> !Stuck(c, Exec(Stepper(c), s, acts).value)
    {
      StoreDecides(c, s, acts);
    }
  }

  lemma HaltedAfter(c: Config, s: State, t: State)
    requires Ending(c, s, t)
    ensures Inv(c, t)
  {
  }

  // ---------------------------------------------------------------------------
  // The end of the program
  // ---------------------------------------------------------------------------

  /** A bear's victory that is not stored yet is about to be. */
  ghost predicate Storing(s: State) {
    s.mem.bear && !s.mem.destroyed ==> exists i :: 0 <= i < |s.bees| && s.bees[i].StoringDestroyed?
  }

  lemma LocalStoring(c: Config, m: Memory, i: nat, b: Bee, attack: bool)
    requires Local(c, m, i, b, attack).Some?
    ensures var (m', b') := Local(c, m, i, b, attack).value;
            && (m'.bear && !m'.destroyed ==> !m.destroyed && (m.bear || b'.StoringDestroyed?))
            && (b.StoringDestroyed? ==> m'.destroyed)
  {
    hide Positions;
  }

  lemma StoringKept(c: Config, s: State, a: Action)
    requires Storing(s) && Step(c, s, a).Some?
    ensures Storing(Step(c, s, a).value)
  {
    var t := Step(c, s, a).value;
    if Alone(s, a) {
      LocalStoring(c, s.mem, a.i, s.bees[a.i], a.attack);
      hide Local;
      if t.mem.bear && !t.mem.destroyed && !t.bees[a.i].StoringDestroyed? {
        var i :| 0 <= i < |s.bees| && s.bees[i].StoringDestroyed?;
        assert t.bees[i].StoringDestroyed?;
      }
    } else if Arrival(s, a) && s.mem.bear && !s.mem.destroyed {
      var i :| 0 <= i < |s.bees| && s.bees[i].StoringDestroyed?;
      assert t.bees[i].StoringDestroyed?;
    }
  }

  lemma BearIsStored(c: Config, s: State)
    requires Reachable(c, s)
    ensures Storing(s)
  {
    var acts :| Exec(Stepper(c), Init(c), acts) == Some(s);
    assert Storing(Init(c));
    hide Step, Init, Storing;
    forall t, a | Storing(t) && Stepper(c)(t, a).Some? ensures Storing(Stepper(c)(t, a).value) {
      StoringKept(c, t, a);
    }
    KeepsInvariant(Stepper(c), t => Storing(t), Init(c), acts);
  }

  /** Operations of main until it has joined all bees, once it will not look at the counters in vain. */
  function ToJoin(s: State): int {
    match s.main
    case ReadCount => |s.bees| + 3
    case ReadDestroyed => |s.bees| + 2
    case StoreTerminate => |s.bees| + 1
    case Joining(k) => |s.bees| - k
  }

  ghost predicate Closing(c: Config, s: State) {
    Reachable(c, s) && AllGone(s) && (s.mem.destroyed || s.main.Joining?) && ToJoin(s) >= 0
  }

  lemma MainMoves(c: Config, s: State)
    requires Closing(c, s) && !Ended(s)
    ensures Step(c, s, MainAct).Some? && Closing(c, Step(c, s, MainAct).value)
    ensures 0 <= ToJoin(Step(c, s, MainAct).value) < ToJoin(s)
  {
    ReachableInv(c, s);
    assert EndingOk(s);
    hide Inv, Shape, Frontier, Started, CountOk, WorkOk, PhaseOk, RoundsOk, Reachable;
    assert Step(c, s, MainAct).Some?;
    LeadsOneOn(Stepper(c), Init(c), s, MainAct);
  }

  lemma ToJoins(c: Config, s: State) returns (acts: seq<Action>)
    requires Closing(c, s)
    ensures Exec(Stepper(c), s, acts).Some? && Ended(Exec(Stepper(c), s, acts).value)
  {
    var keep := (t: State) => Closing(c, t);
    var allowed := (a: Action) => true;
    hide Closing, Step, ToJoin, Ended;
    forall t | keep(t) && !Ended(t) ensures CanAdvance(Stepper(c), keep, allowed, ToJoin, t) {
      MainMoves(c, t);
      assert Advances(Stepper(c), keep, allowed, ToJoin, t, MainAct);
    }
    acts := CanReach(Stepper(c), keep, t => Ended(t), allowed, ToJoin, s);
  }

  /** With must_terminate stored and the bees not parted, the program can end. */
  lemma EndsTogether(c: Config, s: State) returns (acts: seq<Action>)
    requires Reachable(c, s) && s.mem.terminate && !Parted(s)
    ensures Exec(Stepper(c), s, acts).Some? && Ended(Exec(Stepper(c), s, acts).value)
  {
    ReachableInv(c, s);
    var xs := ToHalt(c, s);
    var t := Exec(Stepper(c), s, xs).value;
    PartedForGood(c, s, xs);
    HaltedOutcome(c, t);
    LeadsOn(Stepper(c), Init(c), s, xs);
    CanClose(c, t);
    hide Inv, Step, Parted, Reachable, Closing, Ended;
    var ys := ToJoins(c, t);
    ExecAppend(Stepper(c), s, xs, ys);
    acts := xs + ys;
  }

  lemma CanClose(c: Config, s: State)
    requires Reachable(c, s) && s.mem.terminate && AllGone(s)
    ensures Closing(c, s)
  {
    ReachableInv(c, s);
    BearIsStored(c, s);
    assert EndingOk(s);
  }

  // ---------------------------------------------------------------------------
  // As long as main has not stored must_terminate
  // ---------------------------------------------------------------------------

  /** Until the harvest is complete, or a bear wins. */
  ghost predicate Working(c: Config, s: State) {
    Reachable(c, s) && (s.mem.terminate ==> s.mem.bear)
  }

  predicate AllAtLoop(s: State) { forall i :: 0 <= i < |s.bees| ==> s.bees[i].AtLoop? }

  /** Some bee can go on, without another bear. */
  lemma MoveAtWork(c: Config, s: State) returns (a: Action)
    requires Working(c, s) && !s.mem.bear
    ensures ByBees()(a) && Step(c, s, a).Some? && Working(c, Step(c, s, a).value)
    ensures Step(c, s, a).value.main == s.main
  {
    ReachableInv(c, s);
    assert EndingOk(s);
    StuckMeansStranded(c, s);
    forall k | 0 <= k < |s.bees| ensures !s.bees[k].Gone? { assert FlagsSeen(s.mem, s.bees[k]); }
    var i :| 0 <= i < |s.bees| && CanMove(c, s, i);
    a := BeeAct(i, i, false);
    hide Inv, Reachable;
    LeadsOneOn(Stepper(c), Init(c), s, a);
    NoOtherStore(c, s, a);
  }

  /** Bees store must_terminate only for a bear. */
  lemma NoOtherStore(c: Config, s: State, a: Action)
    requires !s.mem.terminate && a.BeeAct? && Step(c, s, a).Some?
    ensures var t := Step(c, s, a).value; (t.mem.terminate ==> t.mem.bear) && t.main == s.main
  {
    hide Positions;
    if Arrival(s, a) { ArrivalMoves(c, s, a); }
  }

  function ToHarvest(c: Config): State -> int {
    (s: State) => ROUND * c.bees * (2 + GridEdges(c.field)) - Potential(c, s)
  }

  lemma CloserToHarvest(c: Config, s: State, a: Action)
    requires Reachable(c, s) && !Complete(s.mem) && a.BeeAct? && Step(c, s, a).Some?
    ensures 0 <= ToHarvest(c)(Step(c, s, a).value) < ToHarvest(c)(s)
  {
    var t := Step(c, s, a).value;
    ReachableInv(c, s);
    InvParts(c, s);
    RoundBound(c, s);
    ProgressMade(c, s, a);
    RoundsStep(c, s, a);
    hide Inv, Step, Reachable, Shape, PhaseOk, Complete;
    PotentialBelow(c, t, GridEdges(c.field) + 1);
  }

  lemma RoundsStep(c: Config, s: State, a: Action)
    requires Shape(c, s) && PhaseOk(s) && Step(c, s, a).Some?
    ensures Step(c, s, a).value.rounds <= s.rounds + 1 && |Step(c, s, a).value.bees| == c.bees
  {
    if Arrival(s, a) { ArrivalOutcome(c, s, a); }
  }

  lemma PotentialBelow(c: Config, s: State, rounds: int)
    requires s.rounds <= rounds && |s.bees| == c.bees
    ensures Potential(c, s) < ROUND * c.bees * (rounds + 1)
  {
    var most := (b: Bee) => 20;
    SumLeq(Progress, s.bees, most, s.bees);
    SumConst(most, s.bees, 20);
    RoundsTimes(ROUND * c.bees, s.rounds, rounds);
    assert s.rounds * (ROUND * c.bees) + ROUND * c.bees <= ROUND * c.bees * (1 + rounds);
  }

  lemma Harvest(c: Config, s: State) returns (acts: seq<Action>)
    requires Working(c, s)
    ensures Exec(Stepper(c), s, acts).Some?
    ensures var t := Exec(Stepper(c), s, acts).value; Working(c, t) && (Complete(t.mem) || t.mem.bear)
  {
    var keep := (t: State) => Working(c, t);
    var stop := (t: State) => Complete(t.mem) || t.mem.bear;
    hide Step, Complete, ToHarvest;
    forall t | keep(t) && !stop(t) ensures CanAdvance(Stepper(c), keep, ByBees(), ToHarvest(c), t) {
      var a := MoveAtWork(c, t);
      CloserToHarvest(c, t, a);
      assert Advances(Stepper(c), keep, ByBees(), ToHarvest(c), t, a);
    }
    acts := CanReach(Stepper(c), keep, stop, ByBees(), ToHarvest(c), s);
  }

  function ToRoundEnd(): State -> int {
    (s: State) => if AllAtLoop(s) then 0 else 1 + 20 * |s.bees| - SumBy(Progress, s.bees)
  }

  lemma CloserToRoundEnd(c: Config, s: State, a: Action)
    requires Reachable(c, s) && !AllAtLoop(s) && a.BeeAct? && Step(c, s, a).Some?
    ensures 0 <= ToRoundEnd()(Step(c, s, a).value) < ToRoundEnd()(s)
    ensures Complete(s.mem) ==> Complete(Step(c, s, a).value.mem)
  {
    var t := Step(c, s, a).value;
    ReachableInv(c, s);
    InvParts(c, s);
    ProgressMade(c, s, a);
    if Arrival(s, a) { ArrivalOutcome(c, s, a); }
    if Complete(s.mem) { HarvestStays(c, s, a); }
    hide Inv, Step, Reachable, Complete;
    ProgressBelow(s);
    ProgressBelow(t);
    if t.rounds == s.rounds {
      assert SumBy(Progress, s.bees) + 1 <= SumBy(Progress, t.bees);
    } else {
      assert AllAtLoop(t);
    }
  }

  lemma HarvestStays(c: Config, s: State, a: Action)
    requires Complete(s.mem) && Step(c, s, a).Some?
    ensures Complete(Step(c, s, a).value.mem)
  {
    forall q | 0 <= q < |Step(c, s, a).value.mem.nectar| ensures !Step(c, s, a).value.mem.nectar[q] {
      if Step(c, s, a).value.mem.nectar[q] { NectarOnlyGoes(c, s, a, q); }
    }
  }

  lemma ProgressBelow(s: State)
    ensures SumBy(Progress, s.bees) <= 20 * |s.bees|
  {
    var most := (b: Bee) => 20;
    SumLeq(Progress, s.bees, most, s.bees);
    SumConst(most, s.bees, 20);
  }

  lemma FinishRound(c: Config, s: State) returns (acts: seq<Action>)
    requires Working(c, s) && Complete(s.mem)
    ensures Exec(Stepper(c), s, acts).Some?
    ensures var t := Exec(Stepper(c), s, acts).value;
            Working(c, t) && Complete(t.mem) && (AllAtLoop(t) || t.mem.bear)
  {
    var keep := (t: State) => Working(c, t) && Complete(t.mem);
    var stop := (t: State) => AllAtLoop(t) || t.mem.bear;
    hide Step, Complete, ToRoundEnd, AllAtLoop;
    forall t | keep(t) && !stop(t) ensures CanAdvance(Stepper(c), keep, ByBees(), ToRoundEnd(), t) {
      var a := MoveAtWork(c, t);
      CloserToRoundEnd(c, t, a);
      assert Advances(Stepper(c), keep, ByBees(), ToRoundEnd(), t, a);
    }
    acts := CanReach(Stepper(c), keep, stop, ByBees(), ToRoundEnd(), s);
  }

  /** With everything harvested and all bees at the loop test, main can store must_terminate while they are together. */
  lemma StoreInTime(c: Config, s: State) returns (acts: seq<Action>)
    requires Reachable(c, s) && !s.mem.terminate && Complete(s.mem) && AllAtLoop(s)
    ensures Exec(Stepper(c), s, acts).Some?
    ensures var t := Exec(Stepper(c), s, acts).value; t.mem.terminate && !Parted(t)
  {
    ReachableInv(c, s);
    AllCounted(c, s);
    assert EndingOk(s);
    hide Inv, Reachable, Shape, Frontier, Started, CountOk, WorkOk, PhaseOk, RoundsOk;
    acts := if s.main.ReadCount? then [MainAct, MainAct]
            else if s.main.ReadDestroyed? then [MainAct, MainAct, MainAct]
            else [MainAct];
    MainSteps(c, s, |acts|);
    assert acts == seq(|acts|, _ => MainAct);
  }

  lemma MainSteps(c: Config, s: State, n: nat)
    requires s.mem.collected == c.field.Size() && !s.mem.destroyed && AllAtLoop(s)
    requires s.main == (if n == 1 then StoreTerminate else if n == 2 then ReadCount else ReadDestroyed) && 1 <= n <= 3
    ensures Exec(Stepper(c), s, seq(n, _ => MainAct)).Some?
    ensures var t := Exec(Stepper(c), s, seq(n, _ => MainAct)).value; t.mem.terminate && t.bees == s.bees && !Parted(t)
    decreases n
  {
    var t := Step(c, s, MainAct).value;
    assert seq(n, _ => MainAct)[1..] == seq(n - 1, _ => MainAct);
    if n > 1 { MainSteps(c, t, n - 1); }
  }

  lemma EndsFromWork(c: Config, s: State) returns (acts: seq<Action>)
    requires Working(c, s)
    ensures Exec(Stepper(c), s, acts).Some? && Ended(Exec(Stepper(c), s, acts).value)
  {
    var xs := Harvest(c, s);
    var t := Exec(Stepper(c), s, xs).value;
    var ys: seq<Action> := [];
    if !t.mem.bear { ys := FinishRound(c, t); }
    var u := Exec(Stepper(c), t, ys).value;
    var zs: seq<Action> := [];
    if !u.mem.bear { zs := StoreInTime(c, u); } else { BearPartsNobody(c, u); }
    LeadsOn(Stepper(c), Init(c), u, zs);
    var ends := EndsTogether(c, Exec(Stepper(c), u, zs).value);
    hide *;
    ExecAppend(Stepper(c), u, zs, ends);
    ExecAppend(Stepper(c), t, ys, zs + ends);
    ExecAppend(Stepper(c), s, xs, ys + (zs + ends));
    acts := xs + (ys + (zs + ends));
  }

  /** The program can still end from a state exactly when must_terminate was not stored while the bees were parted. */
  lemma CanEndExactly(c: Config, s: State)
    requires Reachable(c, s)
    ensures (exists acts :: Exec(Stepper(c), s, acts).Some? && Ended(Exec(Stepper(c), s, acts).value))
            <==> !(s.mem.terminate && Parted(s))
  {
    hide Parted, Ended, Step, Init;
    if s.mem.terminate && Parted(s) {
      forall acts | Exec(Stepper(c), s, acts).Some? ensures !Ended(Exec(Stepper(c), s, acts).value) {
        StoreDecides(c, s, acts);
        LeadsOn(Stepper(c), Init(c), s, acts);
        EndedMeansGone(c, Exec(Stepper(c), s, acts).value);
      }
    } else if s.mem.terminate {
      var acts := EndsTogether(c, s);
    } else {
      assert Working(c, s);
      var acts := EndsFromWork(c, s);
    }
  }

  lemma EndedMeansGone(c: Config, s: State)
    requires Reachable(c, s)
    ensures Ended(s) ==> AllGone(s)
  {
    if Ended(s) { FinalReport(c, s); }
  }
}
