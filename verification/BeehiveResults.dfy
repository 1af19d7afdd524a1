/** What the invariant of the beehive means for its users: work, rounds, termination and its one flaw. */
module BeehiveResults {
  import opened FlowerField
  import opened Runs
  import opened Sums
  import opened Beehive
  import opened BeehiveInvariant

  /** W(H-1) + H(W-1), the number of pairs of neighbouring flowers. */
  function GridEdges(g: Geometry): int {
    g.width * (g.height - 1) + g.height * (g.width - 1)
  }

  // ---------------------------------------------------------------------------
  // Safety of the flood fill
  // ---------------------------------------------------------------------------

  /** No flower is forgotten: one that should be visited is queued, being visited, or about to be reported. */
  lemma NoFlowerForgotten(c: Config, s: State, p: nat, q: nat)
    requires Reachable(c, s) && q < |s.mem.nectar| && s.mem.nectar[q]
    requires q == Start(c.field) || (p < |s.mem.nectar| && !s.mem.nectar[p] && Adjacent(c.field, p, q))
    ensures || q in s.mem.queue
            || (exists i :: 0 <= i < |s.bees| && Carries(s.bees[i], q))
            || (q != Start(c.field) && exists i :: 0 <= i < |s.bees| && Announces(c, s.bees[i], p, q))
  {
    ReachableInv(c, s);
    if q != Start(c.field) {
      PositionsAreTheNeighbours(c.field, p, q);
      assert AtFrontier(c, s.mem.nectar, p, q);
    }
  }

  /** main puts the flower in the middle of the field into the queue, and nothing else. */
  lemma StartsInTheMiddle(c: Config)
    ensures Init(c).mem.queue == [c.field.width * c.field.height / 2] && Init(c).mem.pushes == 1
    ensures Start(c.field) < c.field.Size()
  {
    assert c.field.Size() >= 1;
  }

  /** No two bees are at the queue at a time, and no two in the field. */
  lemma OneBeeAtATime(c: Config, s: State, i: nat, j: nat)
    requires Reachable(c, s) && i < j < |s.bees|
    ensures !(HoldsQueue(s.bees[i]) && HoldsQueue(s.bees[j])) && !(HoldsField(s.bees[i]) && HoldsField(s.bees[j]))
  {
    ReachableInv(c, s);
    assert BeeOk(c, s.mem, i, s.bees[i]) && BeeOk(c, s.mem, j, s.bees[j]);
  }

  /**
   What a step can do to the queue: a bee takes the first entry, or one that looks around its flower adds a
   neighbour that has nectar behind all others.
   */
  lemma QueueTurn(c: Config, s: State, a: Action)
    requires Step(c, s, a).Some?
    ensures var (q, r) := (s.mem.queue, Step(c, s, a).value.mem.queue);
            || r == q
            || (&& a.BeeAct? && q != [] && r == q[1..] && s.bees[a.i].AtPop?
                && Step(c, s, a).value.bees[a.i] == AtQueueUnlock(Some(q[0])))
            || (&& a.BeeAct? && s.bees[a.i].Reporting? && s.bees[a.i].i < 4
                && var flower := Positions(c.field, s.bees[a.i].pos)[s.bees[a.i].i];
                   r == q + [flower] && NectarAt(s.mem.nectar, flower))
  {
    if Arrival(s, a) { ArrivalMoves(c, s, a); }
  }

  /** A bee harvests the flower it has taken out of the queue, and nobody else's nectar ever goes. */
  lemma HarvestTurn(c: Config, s: State, a: Action)
    requires Step(c, s, a).Some? && Step(c, s, a).value.mem.nectar != s.mem.nectar
    ensures a.BeeAct? && s.bees[a.i].InField? && NectarAt(s.mem.nectar, s.bees[a.i].pos)
    ensures Step(c, s, a).value.mem.nectar == s.mem.nectar[s.bees[a.i].pos := false]
  {
    if Arrival(s, a) { ArrivalMoves(c, s, a); }
  }

  /** An empty queue while no bee is under way: every flower is harvested, and every one is counted. */
  lemma QuietMeansDone(c: Config, s: State)
    requires Reachable(c, s) && s.mem.queue == []
    requires forall i :: 0 <= i < |s.bees| ==> !UnderWay(s.bees[i])
    ensures Complete(s.mem) && s.mem.collected == c.field.Size()
  {
    ReachableInv(c, s);
    NothingLeft(c, s);
    AllCounted(c, s);
  }

  lemma AllCounted(c: Config, s: State)
    requires Shape(c, s) && CountOk(s) && Complete(s.mem)
    requires forall i :: 0 <= i < |s.bees| ==> !s.bees[i].Counting?
    ensures s.mem.collected == c.field.Size()
  {
    SumConst(IsCounting, s.bees, 0);
    SumConst(Harvested, s.mem.nectar, 1);
  }

  /** Each flower is counted once: the counter lags behind the harvest by the bees about to count. */
  lemma CounterIsExact(c: Config, s: State)
    requires Reachable(c, s)
    ensures s.mem.collected + SumBy(IsCounting, s.bees) == SumBy(Harvested, s.mem.nectar)
    ensures s.mem.collected <= c.field.Size()
    ensures s.mem.collected == c.field.Size() ==> Complete(s.mem)
  {
    ReachableInv(c, s);
    SumNonNeg(IsCounting, s.bees);
    var one := (b: bool) => 1;
    SumLeq(Harvested, s.mem.nectar, one, s.mem.nectar);
    SumConst(one, s.mem.nectar, 1);
    if s.mem.collected == c.field.Size() { FullCount(c, s); }
  }

  // ---------------------------------------------------------------------------
  // Exact work
  // ---------------------------------------------------------------------------

  lemma {:induction false} NothingRipe(g: Geometry, nectar: seq<bool>, pos: nat, i: nat)
    requires g.Valid() && i <= 4 && forall p :: 0 <= p < |nectar| ==> !nectar[p]
    ensures Ripe(g, nectar, pos, i) == 0
    decreases 4 - i
  {
    if i < 4 { NothingRipe(g, nectar, pos, i + 1); }
  }

  /** Every grid edge is pushed at most once, and a full harvest pushes every one of them exactly once. */
  lemma ExactWork(c: Config, s: State)
    requires Reachable(c, s)
    ensures s.mem.pushes <= 1 + GridEdges(c.field)
    ensures Complete(s.mem) ==> s.mem.pushes == 1 + GridEdges(c.field)
    ensures s.mem.pops <= s.mem.pushes
  {
    ReachableInv(c, s);
    EdgesOfTheGrid(c.field);
    TouchedBounds(c.field, s.mem.nectar, |s.mem.nectar|);
    if Complete(s.mem) && s.mem.fieldOwner.Some? && s.mem.fieldOwner.value < |s.bees| {
      match s.bees[s.mem.fieldOwner.value]
      case Counting(pos) => NothingRipe(c.field, s.mem.nectar, pos, 0);
      case Reporting(pos, i) => if i <= 4 { NothingRipe(c.field, s.mem.nectar, pos, i); }
      case _ =>
    }
  }

  /** One round per possible push is enough, for any number of bees. */
  lemma RoundBound(c: Config, s: State)
    requires Reachable(c, s)
    ensures s.rounds >= 1 + GridEdges(c.field) ==> Complete(s.mem)
  {
    ReachableInv(c, s);
    ExactWork(c, s);
    if !Complete(s.mem) && s.rounds >= s.mem.pushes {
      assert !SomeServed(s);
      assert s.mem.queue == [];
      forall i | 0 <= i < |s.bees| ensures !UnderWay(s.bees[i]) { assert !Served(s.bees[i]); }
      NothingLeft(c, s);
    }
  }

  /** How far a bee has come in its round; every operation of a bee moves it forward. */
  function Progress(b: Bee): int {
    match b
    case AtLoop => 0
    case AtQueueLock => 1
    case InQueue => 2
    case AtPop => 3
    case AtQueueUnlock(_) => 4
    case Flying(_) => 5
    case InField(_) => 6
    case Counting(_) => 7
    case Reporting(_, i) => 8 + if i <= 4 then i else 4
    case AtFieldUnlock => 13
    case AtBarrier1 => 14
    case InBarrier1 => 15
    case Bear => 16
    case StoringTerminate => 17
    case StoringDestroyed => 18
    case AtBarrier2 => 19
    case InBarrier2 => 20
    case Gone => 1
  }

  const ROUND: int := 21

  function Potential(c: Config, s: State): int {
    s.rounds * (ROUND * c.bees) + SumBy(Progress, s.bees)
  }

  function BeeWork(a: Action): int { Bit(a.BeeAct?) }

  function BeeGain(): (State, Action) -> int { (s: State, a: Action) => BeeWork(a) }

  lemma LocalProgress(c: Config, m: Memory, i: nat, b: Bee, attack: bool)
    requires Local(c, m, i, b, attack).Some? && BeeOk(c, m, i, b)
    ensures Progress(Local(c, m, i, b, attack).value.1) >= Progress(b) + 1
  {
    hide Positions;
  }

  lemma ArrivalProgress(c: Config, s: State, a: Action)
    requires |s.bees| == c.bees && PhaseOk(s) && Arrival(s, a) && Step(c, s, a).Some?
    ensures var t := Step(c, s, a).value;
            || (t.rounds == s.rounds && SumBy(Progress, t.bees) >= SumBy(Progress, s.bees) + 1)
            || (t.rounds == s.rounds + 1 && SumBy(Progress, t.bees) + ROUND * c.bees >= SumBy(Progress, s.bees) + 1)
  {
    var t := Step(c, s, a).value;
    ArrivalOutcome(c, s, a);
    hide Step, PhaseOk;
    var waiting := WaitingOf(s.bees[a.i]);
    SumUpdate(Progress, s.bees, a.i, waiting);
    if Opens(s, a.i) {
      var arrived := s.bees[a.i := waiting];
      assert forall k :: 0 <= k < |arrived| ==> arrived[k] == waiting;
      if waiting.InBarrier1? {
        SumLeq(Progress, arrived, Progress, t.bees);
      } else {
        SumConst(Progress, arrived, 20);
        SumConst(Progress, t.bees, 0);
      }
    }
  }

  lemma ProgressMade(c: Config, s: State, a: Action)
    requires Shape(c, s) && PhaseOk(s) && Step(c, s, a).Some?
    ensures Potential(c, s) + BeeWork(a) <= Potential(c, Step(c, s, a).value)
  {
    hide Local;
    var t := Step(c, s, a).value;
    if Alone(s, a) {
      LocalProgress(c, s.mem, a.i, s.bees[a.i], a.attack);
      SumUpdate(Progress, s.bees, a.i, t.bees[a.i]);
    } else if Arrival(s, a) {
      ArrivalProgress(c, s, a);
      assert (s.rounds + 1) * (ROUND * c.bees) == s.rounds * (ROUND * c.bees) + ROUND * c.bees;
    }
  }

  /** The number of bee operations in a schedule. */
  function BeeOperations(c: Config, acts: seq<Action>): int {
    Gained(Stepper(c), BeeGain(), Init(c), acts)
  }

  /** Any schedule with enough bee operations harvests the whole field, whoever is scheduled when. */
  lemma EnoughOperationsHarvestAll(c: Config, acts: seq<Action>)
    requires Exec(Stepper(c), Init(c), acts).Some?
    ensures BeeOperations(c, acts) >= ROUND * c.bees * (2 + GridEdges(c.field)) ==>
              Complete(Exec(Stepper(c), Init(c), acts).value.mem)
  {
    var s := Exec(Stepper(c), Init(c), acts).value;
    assert Reachable(c, s);
    ReachableInv(c, s);
    PotentialGrows(c, acts);
    var most := (b: Bee) => 20;
    SumLeq(Progress, s.bees, most, s.bees);
    SumConst(most, s.bees, 20);
    if s.rounds <= GridEdges(c.field) {
      RoundsTimes(ROUND * c.bees, s.rounds, GridEdges(c.field));
    } else {
      RoundBound(c, s);
    }
  }

  lemma RoundsTimes(k: nat, r: int, e: int)
    requires r <= e
    ensures r * k + k <= k * (1 + e)
    ensures k * (2 + e) == k * (1 + e) + k
  {
    assert (e - r) * k >= 0;
  }

  lemma PotentialGrows(c: Config, acts: seq<Action>)
    requires Exec(Stepper(c), Init(c), acts).Some?
    ensures BeeOperations(c, acts) <= Potential(c, Exec(Stepper(c), Init(c), acts).value)
  {
    InitInv(c);
    SumConst(Progress, Init(c).bees, 0);
    hide Step, Init, Inv, Potential, BeeWork;
    forall t, a | Inv(c, t) && Stepper(c)(t, a).Some?
      ensures Inv(c, Stepper(c)(t, a).value)
      ensures Potential(c, t) + BeeGain()(t, a) <= Potential(c, Stepper(c)(t, a).value)
    {
      StepKeepsInv(c, t, a);
      InvParts(c, t);
      ProgressMade(c, t, a);
    }
    GainBounded(Stepper(c), t => Inv(c, t), t => Potential(c, t), BeeGain(), Init(c), acts);
  }

  lemma InvParts(c: Config, s: State)
    requires Inv(c, s)
    ensures Shape(c, s) && PhaseOk(s)
  {
  }

  // ---------------------------------------------------------------------------
  // Leaving the loop
  // ---------------------------------------------------------------------------

  /** A bee that is past the loop test while another has left: only after the whole field was harvested. */
  lemma StrandedOnlyAfterHarvest(c: Config, s: State, gone: nat, other: nat)
    requires Reachable(c, s) && gone < |s.bees| && other < |s.bees|
    requires s.bees[gone].Gone? && !s.bees[other].Gone? && !s.bees[other].AtLoop?
    ensures Complete(s.mem) && !s.mem.destroyed && !s.mem.bear && s.main.Joining?
  {
    ReachableInv(c, s);
    OnlyAfterHarvest(s, gone, other);
  }

  lemma OnlyAfterHarvest(s: State, gone: nat, other: nat)
    requires PhaseOk(s) && EndingOk(s) && gone < |s.bees| && other < |s.bees|
    requires s.bees[gone].Gone? && !s.bees[other].Gone? && !s.bees[other].AtLoop?
    ensures Complete(s.mem) && !s.mem.destroyed && !s.mem.bear && s.main.Joining?
  {
    assert FlagsSeen(s.mem, s.bees[gone]) && FlagsSeen(s.mem, s.bees[other]);
  }

  /** A bear strikes between the two barriers, when all bees are there; none of them starts another round. */
  lemma BearEndsTheRound(c: Config, s: State)
    requires Reachable(c, s) && s.mem.bear
    ensures s.mem.terminate
    ensures || (forall i :: 0 <= i < |s.bees| ==> SecondHalf(s.bees[i]))
            || (forall i :: 0 <= i < |s.bees| ==> s.bees[i].AtLoop? || s.bees[i].Gone?)
  {
    ReachableInv(c, s);
    forall i | 0 <= i < |s.bees| ensures SecondHalf(s.bees[i]) || s.bees[i].AtLoop? || s.bees[i].Gone? {
      assert FlagsSeen(s.mem, s.bees[i]);
    }
  }

  /** Operations that bee b has at most left once must_terminate is stored. */
  function Leaving(b: Bee): int {
    match b
    case AtQueueLock => 21
    case InQueue => 20
    case AtPop => 19
    case AtQueueUnlock(_) => 18
    case Flying(_) => 17
    case InField(_) => 16
    case Counting(_) => 15
    case Reporting(_, i) => 14 - if i <= 4 then i else 4
    case AtFieldUnlock => 9
    case AtBarrier1 => 8
    case InBarrier1 => 7
    case Bear => 6
    case StoringTerminate => 5
    case StoringDestroyed => 4
    case AtBarrier2 => 3
    case InBarrier2 => 2
    case AtLoop => 1
    case Gone => 0
  }

  /** Once must_terminate is stored, each operation of a bee brings the end of all bees closer. */
  lemma LeavingShrinks(c: Config, s: State, a: Action)
    requires Reachable(c, s) && s.mem.terminate && a.BeeAct? && Step(c, s, a).Some?
    ensures 0 <= SumBy(Leaving, Step(c, s, a).value.bees) < SumBy(Leaving, s.bees)
    ensures Step(c, s, a).value.mem.terminate
    ensures s.mem.bear ==> Step(c, s, a).value.mem.bear
  {
    ReachableInv(c, s);
    InvParts(c, s);
    LeavingFalls(c, s, a);
  }

  lemma LeavingFalls(c: Config, s: State, a: Action)
    requires Shape(c, s) && PhaseOk(s) && s.mem.terminate && a.BeeAct? && Step(c, s, a).Some?
    ensures 0 <= SumBy(Leaving, Step(c, s, a).value.bees) < SumBy(Leaving, s.bees)
    ensures Step(c, s, a).value.mem.terminate
    ensures s.mem.bear ==> Step(c, s, a).value.mem.bear
  {
    SumNonNeg(Leaving, Step(c, s, a).value.bees);
    if Alone(s, a) {
      LocalLeaving(c, s.mem, a.i, s.bees[a.i], a.attack);
      hide Local, Leaving, Shape, PhaseOk;
      SumUpdate(Leaving, s.bees, a.i, Step(c, s, a).value.bees[a.i]);
    } else {
      ArrivalLeaving(c, s, a);
    }
  }

  lemma ArrivalLeaving(c: Config, s: State, a: Action)
    requires PhaseOk(s) && Arrival(s, a) && Step(c, s, a).Some?
    ensures var t := Step(c, s, a).value;
            SumBy(Leaving, t.bees) < SumBy(Leaving, s.bees) && t.mem == s.mem
  {
    ArrivalOutcome(c, s, a);
    ArrivalMoves(c, s, a);
    hide Step, PhaseOk;
    WaitingLeaving(s, a.i, Step(c, s, a).value);
  }

  lemma WaitingLeaving(s: State, i: nat, t: State)
    requires i < |s.bees| == |t.bees| && (s.bees[i].AtBarrier1? || s.bees[i].AtBarrier2?)
    requires if !Opens(s, i) then t.bees == s.bees[i := WaitingOf(s.bees[i])]
             else if s.bees[i].AtBarrier1? then forall k :: 0 <= k < |t.bees| ==> t.bees[k].Bear? || t.bees[k].AtBarrier2?
             else forall k :: 0 <= k < |t.bees| ==> t.bees[k].AtLoop?
    ensures SumBy(Leaving, t.bees) < SumBy(Leaving, s.bees)
  {
    var waiting := WaitingOf(s.bees[i]);
    var arrived := s.bees[i := waiting];
    SumUpdate(Leaving, s.bees, i, waiting);
    if Opens(s, i) {
      forall k | 0 <= k < |t.bees| ensures Leaving(t.bees[k]) <= Leaving(arrived[k]) {
        assert arrived[k] == waiting;
      }
      SumLeq(Leaving, t.bees, Leaving, arrived);
    }
  }

  lemma LocalLeaving(c: Config, m: Memory, i: nat, b: Bee, attack: bool)
    requires Local(c, m, i, b, attack).Some? && m.terminate
    ensures Leaving(Local(c, m, i, b, attack).value.1) < Leaving(b)
    ensures Local(c, m, i, b, attack).value.0.terminate
    ensures m.bear ==> Local(c, m, i, b, attack).value.0.bear
  {
    hide Positions;
  }

  predicate CanMove(c: Config, s: State, i: nat) {
    i < |s.bees| && Step(c, s, BeeAct(i, i, false)).Some?
  }

  /** Which bees are blocked: the ones that wait for a mutex in use, wait in the barrier, or have left. */
  lemma CannotMove(c: Config, s: State, i: nat)
    requires i < |s.bees| && BeeOk(c, s.mem, i, s.bees[i])
    ensures CanMove(c, s, i) <==>
            !(|| InBarrier(s.bees[i]) || s.bees[i].Gone?
              || (s.bees[i].AtQueueLock? && s.mem.queueOwner.Some?) || (s.bees[i].Flying? && s.mem.fieldOwner.Some?))
  {
    hide Positions;
  }

  /** No bee can take a step although some bee has not left. */
  ghost predicate Stuck(c: Config, s: State) {
    && (forall i :: 0 <= i < |s.bees| ==> !CanMove(c, s, i))
    && (exists i :: 0 <= i < |s.bees| && !s.bees[i].Gone?)
  }

  /** Some bees have left, all others wait for them in the first barrier of a round. */
  ghost predicate Stranded(s: State) {
    && (forall i :: 0 <= i < |s.bees| ==> s.bees[i].Gone? || s.bees[i].InBarrier1?)
    && (exists i :: 0 <= i < |s.bees| && s.bees[i].Gone?)
    && (exists i :: 0 <= i < |s.bees| && s.bees[i].InBarrier1?)
  }

  /** The bees get stuck in exactly one way, and then there was nothing left to harvest and no bear. */
  lemma StuckExactlyWhenStranded(c: Config, s: State)
    requires Reachable(c, s)
    ensures Stuck(c, s) <==> Stranded(s)
    ensures Stuck(c, s) ==> Complete(s.mem) && s.mem.collected == c.field.Size() && !s.mem.destroyed
  {
    ReachableInv(c, s);
    StuckMeansStranded(c, s);
  }

  lemma StuckMeansStranded(c: Config, s: State)
    requires Inv(c, s)
    ensures Stuck(c, s) <==> Stranded(s)
    ensures Stuck(c, s) ==> Complete(s.mem) && s.mem.collected == c.field.Size() && !s.mem.destroyed
  {
    hide CanMove;
    forall i | 0 <= i < |s.bees| { CannotMove(c, s, i); }
    if Stuck(c, s) {
      MutexesFree(c, s);
      var j :| 0 <= j < |s.bees| && !InBarrier(s.bees[j]);
      var k :| 0 <= k < |s.bees| && !s.bees[k].Gone?;
      OnlyAfterHarvest(s, j, k);
      AllCounted(c, s);
    }
  }

  /** The owner of a mutex is never blocked. */
  lemma MutexesFree(c: Config, s: State)
    requires Shape(c, s) && Stuck(c, s)
    ensures s.mem.queueOwner == None && s.mem.fieldOwner == None
  {
    hide CanMove;
    forall i | 0 <= i < |s.bees| { CannotMove(c, s, i); }
    assert forall i :: 0 <= i < |s.bees| ==> !HoldsQueue(s.bees[i]) && !HoldsField(s.bees[i]);
    assert s.mem.queueOwner.Some? ==> BeeOk(c, s.mem, s.mem.queueOwner.value, s.bees[s.mem.queueOwner.value]);
    assert s.mem.fieldOwner.Some? ==> BeeOk(c, s.mem, s.mem.fieldOwner.value, s.bees[s.mem.fieldOwner.value]);
  }

  /** When main has joined all bees, its report is right: destroyed, or every flower collected. */
  lemma FinalReport(c: Config, s: State)
    requires Reachable(c, s) && s.main == Joining(|s.bees|)
    ensures !s.mem.destroyed ==> s.mem.collected == c.field.Size() && Complete(s.mem)
    ensures s.mem.destroyed ==> s.mem.collected <= c.field.Size()
    ensures forall i :: 0 <= i < |s.bees| ==> s.bees[i].Gone?
  {
    ReachableInv(c, s);
    CounterIsExact(c, s);
    if !s.mem.destroyed { AllCounted(c, s); }
  }
}
