/** When the bear destroys the hive: exactly by the turns of the bee that meets it. */
module BeehiveBear {
  import opened FlowerField
  import opened Runs
  import opened Sums
  import opened Beehive
  import opened BeehiveInvariant
  import opened BeehiveResults
  import opened BeehiveTermination

  // ---------------------------------------------------------------------------
  // Who meets the bear
  // ---------------------------------------------------------------------------

  /** When the first barrier of a round opens, the serial thread and nobody else is to look for a bear. */
  lemma ExactlyOneMeetsTheBear(c: Config, s: State, a: Action)
    requires Reachable(c, s) && Arrival(s, a) && s.bees[a.i].AtBarrier1? && Opens(s, a.i) && Step(c, s, a).Some?
    ensures var t := Step(c, s, a).value;
            && a.serial < |t.bees| == |s.bees|
            && forall k :: 0 <= k < |t.bees| ==> t.bees[k] == if k == a.serial then Bear else AtBarrier2
  {
    ReachableInv(c, s);
    InvParts(c, s);
    ArrivalOutcome(c, s, a);
    hide Inv, Shape, PhaseOk, Reachable;
  }

  /** Nobody else ever looks for a bear: a bee that starts to was named by the opening barrier. */
  lemma OnlyTheSerialBee(c: Config, s: State, a: Action, k: nat)
    requires Step(c, s, a).Some? && k < |s.bees| == |Step(c, s, a).value.bees|
    requires !s.bees[k].Bear? && Step(c, s, a).value.bees[k].Bear?
    ensures a.BeeAct? && k == a.serial && (s.bees[k].InBarrier1? || (k == a.i && s.bees[k].AtBarrier1?))
  {
    hide Positions;
  }

  // ---------------------------------------------------------------------------
  // The turns of a bee that meets the bear
  // ---------------------------------------------------------------------------

  /** An action that is a turn of bee i. */
  predicate TurnOf(c: Config, i: nat, a: Action) { a.BeeAct? && a.i == i && a.serial < c.bees }

  function Turns(c: Config, i: nat, schedule: seq<Action>): nat {
    if schedule == [] then 0
    else Turns(c, i, schedule[..|schedule| - 1]) + if TurnOf(c, i, schedule[|schedule| - 1]) then 1 else 0
  }

  /** A bear that wins sends the bee to store it; a repelled one, or none, leaves no trace. */
  lemma BearTurn(c: Config, s: State, i: nat, x: Action)
    requires |s.bees| == c.bees && i < c.bees && s.bees[i].Bear? && TurnOf(c, i, x)
    ensures Step(c, s, x) == Some(s.(bees := s.bees[i := if x.attack then StoringTerminate else AtBarrier2]))
  {
  }

  lemma StoreTurns(c: Config, s: State, i: nat, y: Action)
    requires |s.bees| == c.bees && i < c.bees && TurnOf(c, i, y)
    ensures s.bees[i].StoringTerminate? ==>
              Step(c, s, y) == Some(s.(bees := s.bees[i := StoringDestroyed], mem := s.mem.(terminate := true, bear := true)))
    ensures s.bees[i].StoringDestroyed? ==>
              Step(c, s, y) == Some(s.(bees := s.bees[i := AtBarrier2], mem := s.mem.(destroyed := true)))
  {
  }

  /** With a bear that wins, three turns of the bee that meets it end the simulation. */
  lemma ThreeTurns(c: Config, s: State, i: nat, x: Action, y: Action, z: Action)
    requires Reachable(c, s) && i < |s.bees| && s.bees[i].Bear?
    requires TurnOf(c, i, x) && TurnOf(c, i, y) && TurnOf(c, i, z) && x.attack
    ensures Exec(Stepper(c), s, [x, y, z]).Some?
    ensures var t := Exec(Stepper(c), s, [x, y, z]).value;
            t.mem.terminate && t.mem.destroyed && t.mem.nectar == s.mem.nectar && t.mem.collected == s.mem.collected
  {
    ReachableInv(c, s);
    SizeOf(c, s);
    hide Step, TurnOf, Inv, Reachable;
    BearTurn(c, s, i, x);
    var t := Step(c, s, x).value;
    StoreTurns(c, t, i, y);
    var u := Step(c, t, y).value;
    StoreTurns(c, u, i, z);
    ExecOne(Stepper(c), u, z);
    assert [x, y, z][1..] == [y, z] && [y, z][1..] == [z];
  }

  lemma SizeOf(c: Config, s: State)
    requires Inv(c, s)
    ensures |s.bees| == c.bees
  {
  }

  /** A bee with a victory to store goes on by its own turns only; nothing else brings a bee there, or destroys the hive. */
  lemma StoringTurn(c: Config, s: State, a: Action, i: nat)
    requires |s.bees| == c.bees && i < c.bees
    ensures var t := Turn(Stepper(c), s, a);
            && |t.bees| == c.bees
            && (s.bees[i].StoringTerminate? ==> t.bees[i] == if TurnOf(c, i, a) then StoringDestroyed else StoringTerminate)
            && (s.bees[i].StoringDestroyed? && !TurnOf(c, i, a) ==> t.bees[i] == StoringDestroyed)
            && (s.bees[i].StoringDestroyed? && TurnOf(c, i, a) ==> t.mem.destroyed)
            && (s.bees[i].Bear? && TurnOf(c, i, a) && a.attack ==> t.bees[i] == StoringTerminate)
            && (t.bees[i].StoringTerminate? ==> if TurnOf(c, i, a) then s.bees[i].Bear? && a.attack else s.bees[i].StoringTerminate?)
            && (t.bees[i].StoringDestroyed? ==> if TurnOf(c, i, a) then s.bees[i].StoringTerminate? else s.bees[i].StoringDestroyed?)
            && (s.mem.destroyed ==> t.mem.destroyed)
  {
    hide Positions;
  }

  lemma DestroyingTurn(c: Config, s: State, a: Action)
    requires |s.bees| == c.bees && !s.mem.destroyed && Turn(Stepper(c), s, a).mem.destroyed
    ensures a.BeeAct? && a.i < c.bees && TurnOf(c, a.i, a) && s.bees[a.i].StoringDestroyed?
  {
    hide Positions;
  }

  // ---------------------------------------------------------------------------
  // Over whole schedules
  // ---------------------------------------------------------------------------

  function After(c: Config, schedule: seq<Action>): State { Driven(Stepper(c), Init(c), schedule) }

  /** At turn k of the schedule, bee i looks for a bear, and it comes and wins. */
  predicate Struck(c: Config, schedule: seq<Action>, k: nat, i: nat) {
    && k < |schedule| && i < c.bees
    && TurnOf(c, i, schedule[k]) && schedule[k].attack
    && i < |After(c, schedule[..k]).bees| && After(c, schedule[..k]).bees[i].Bear?
  }

  /** Bee i has had n turns since turn k. */
  predicate Since(c: Config, schedule: seq<Action>, k: nat, i: nat, n: nat) {
    Struck(c, schedule, k, i) && Turns(c, i, schedule[k + 1..]) == n
  }

  ghost predicate BearWins(c: Config, schedule: seq<Action>) {
    exists k, i :: Struck(c, schedule, k, i) && Turns(c, i, schedule[k + 1..]) >= 2
  }

  lemma SizeAfter(c: Config, schedule: seq<Action>)
    ensures |After(c, schedule).bees| == c.bees && Reachable(c, After(c, schedule))
  {
    DrivenLeads(Stepper(c), Init(c), schedule);
    ReachableInv(c, After(c, schedule));
    SizeOf(c, After(c, schedule));
  }

  lemma StruckStays(c: Config, schedule: seq<Action>, k: nat, i: nat)
    requires schedule != [] && k < |schedule| - 1
    ensures var before := schedule[..|schedule| - 1];
            && (Struck(c, schedule, k, i) <==> Struck(c, before, k, i))
            && Turns(c, i, schedule[k + 1..]) ==
               Turns(c, i, before[k + 1..]) + if TurnOf(c, i, schedule[|schedule| - 1]) then 1 else 0
  {
    var before := schedule[..|schedule| - 1];
    assert schedule[..k] == before[..k];
    assert schedule[k + 1..][..|schedule| - k - 2] == before[k + 1..];
  }

  /** How far the bee that was struck has come. */
  lemma {:induction false} StruckGoesOn(c: Config, schedule: seq<Action>, k: nat, i: nat)
    requires Struck(c, schedule, k, i)
    ensures var (s, n) := (After(c, schedule), Turns(c, i, schedule[k + 1..]));
            && |s.bees| == c.bees
            && (n == 0 ==> s.bees[i] == StoringTerminate)
            && (n == 1 ==> s.bees[i] == StoringDestroyed)
            && (n >= 2 ==> s.mem.destroyed)
    decreases |schedule|
  {
    var (before, a) := (schedule[..|schedule| - 1], schedule[|schedule| - 1]);
    SizeAfter(c, before);
    SizeAfter(c, schedule);
    StoringTurn(c, After(c, before), a, i);
    if k == |schedule| - 1 {
      assert schedule[k + 1..] == [];
    } else {
      StruckStays(c, schedule, k, i);
      StruckGoesOn(c, before, k, i);
    }
    hide Stepper, Struck, TurnOf, Init;
  }

  /** Whoever stores a bear's victory was struck by it. */
  lemma {:induction false} StoringWasStruck(c: Config, schedule: seq<Action>, i: nat)
    requires i < c.bees
    ensures |After(c, schedule).bees| == c.bees
    ensures After(c, schedule).bees[i].StoringTerminate? ==> exists k :: Since(c, schedule, k, i, 0)
    ensures After(c, schedule).bees[i].StoringDestroyed? ==> exists k :: Since(c, schedule, k, i, 1)
    decreases |schedule|
  {
    SizeAfter(c, schedule);
    if schedule != [] {
      var (before, a) := (schedule[..|schedule| - 1], schedule[|schedule| - 1]);
      var (s, t) := (After(c, before), After(c, schedule));
      StoringWasStruck(c, before, i);
      StoringTurn(c, s, a, i);
      if t.bees[i].StoringTerminate? && TurnOf(c, i, a) {
        assert schedule[|before| + 1..] == [];
        assert Since(c, schedule, |before|, i, 0);
      } else if t.bees[i].StoringTerminate? {
        var k :| Since(c, before, k, i, 0);
        StruckStays(c, schedule, k, i);
        assert Since(c, schedule, k, i, 0);
      } else if t.bees[i].StoringDestroyed? {
        var k :| Since(c, before, k, i, if TurnOf(c, i, a) then 0 else 1);
        StruckStays(c, schedule, k, i);
        assert Since(c, schedule, k, i, 1);
      }
    }
  }

  lemma {:induction false} DestroyedByBear(c: Config, schedule: seq<Action>)
    requires After(c, schedule).mem.destroyed
    ensures BearWins(c, schedule)
    decreases |schedule|
  {
    var (before, a) := (schedule[..|schedule| - 1], schedule[|schedule| - 1]);
    SizeAfter(c, before);
    if After(c, before).mem.destroyed {
      DestroyedByBear(c, before);
      var k, i :| Struck(c, before, k, i) && Turns(c, i, before[k + 1..]) >= 2;
      StruckStays(c, schedule, k, i);
    } else {
      DestroyingTurn(c, After(c, before), a);
      StoringWasStruck(c, before, a.i);
      var k :| Since(c, before, k, a.i, 1);
      StruckStays(c, schedule, k, a.i);
    }
  }

  /** The hive is destroyed exactly when a bear has won against some bee that has since had two more turns. */
  lemma DestroyedExactly(c: Config, schedule: seq<Action>)
    ensures After(c, schedule).mem.destroyed <==> BearWins(c, schedule)
  {
    if BearWins(c, schedule) {
      var k, i :| Struck(c, schedule, k, i) && Turns(c, i, schedule[k + 1..]) >= 2;
      StruckGoesOn(c, schedule, k, i);
    }
    if After(c, schedule).mem.destroyed { DestroyedByBear(c, schedule); }
  }

  // ---------------------------------------------------------------------------
  // A bear can win in every hive
  // ---------------------------------------------------------------------------

  ghost predicate BearMet(s: State) { exists i :: 0 <= i < |s.bees| && s.bees[i].Bear? }

  /** In the first half of the first round. */
  ghost predicate FirstHalf(c: Config, s: State) {
    && Working(c, s) && !s.mem.bear && |s.bees| == c.bees && s.rounds == 0
    && (BearMet(s) || forall i :: 0 <= i < |s.bees| ==> !SecondHalf(s.bees[i]))
  }

  function ToBear(s: State): int { 20 * |s.bees| - SumBy(Progress, s.bees) }

  lemma MoveToBear(c: Config, s: State) returns (a: Action)
    requires FirstHalf(c, s) && !BearMet(s)
    ensures ByBees()(a) && Step(c, s, a).Some? && FirstHalf(c, Step(c, s, a).value)
    ensures 0 <= ToBear(Step(c, s, a).value) < ToBear(s)
  {
    a := MoveAtWork(c, s);
    var t := Step(c, s, a).value;
    ReachableInv(c, s);
    InvParts(c, s);
    SizeOf(c, s);
    ReachableInv(c, t);
    SizeOf(c, t);
    ProgressMade(c, s, a);
    hide Inv, Shape, Reachable, ByBees;
    if Arrival(s, a) {
      ArrivalOutcome(c, s, a);
      ArrivalMoves(c, s, a);
      if Opens(s, a.i) {
        OpenedToBear(c, s, a);
        assert t.bees[a.serial].Bear?;
      }
    } else {
      AloneToBear(c, s, a);
    }
    ProgressBelow(t);
    hide Step, BearMet;
  }

  lemma OpenedToBear(c: Config, s: State, a: Action)
    requires PhaseOk(s) && Arrival(s, a) && s.bees[a.i].AtBarrier1? && Opens(s, a.i) && Step(c, s, a).Some?
    ensures a.serial < |s.bees| == |Step(c, s, a).value.bees| && Step(c, s, a).value.bees[a.serial].Bear?
    ensures Step(c, s, a).value.rounds == s.rounds
  {
    ArrivalOutcome(c, s, a);
  }

  lemma AloneToBear(c: Config, s: State, a: Action)
    requires !s.mem.bear && a.BeeAct? && !a.attack && Step(c, s, a).Some? && !Arrival(s, a)
    requires forall i :: 0 <= i < |s.bees| ==> !SecondHalf(s.bees[i])
    ensures var t := Step(c, s, a).value;
            && !t.mem.bear && t.rounds == s.rounds && |t.bees| == |s.bees|
            && forall i :: 0 <= i < |t.bees| ==> !SecondHalf(t.bees[i])
  {
    LocalPhase(c, s.mem, a.i, s.bees[a.i], a.attack);
    hide Positions;
  }

  /** In every hive some schedule makes a bee meet a bear in the first round. */
  lemma SomeBeeMeetsTheBear(c: Config) returns (acts: seq<Action>)
    ensures Exec(Stepper(c), Init(c), acts).Some?
    ensures BearMet(Exec(Stepper(c), Init(c), acts).value) && Reachable(c, Exec(Stepper(c), Init(c), acts).value)
  {
    var keep := (t: State) => FirstHalf(c, t);
    assert keep(Init(c)) by { StartsInFirstHalf(c); }
    hide Step, Init, FirstHalf, BearMet, ToBear;
    forall t | keep(t) && !BearMet(t) ensures CanAdvance(Stepper(c), keep, ByBees(), ToBear, t) {
      var a := MoveToBear(c, t);
      assert Advances(Stepper(c), keep, ByBees(), ToBear, t, a);
    }
    acts := CanReach(Stepper(c), keep, t => BearMet(t), ByBees(), ToBear, Init(c));
  }

  lemma StartsInFirstHalf(c: Config)
    ensures FirstHalf(c, Init(c))
  {
    assert Exec(Stepper(c), Init(c), []) == Some(Init(c));
  }

  /** In every hive some schedule ends with the hive destroyed. */
  lemma DestructionIsReachable(c: Config) returns (s: State)
    ensures Reachable(c, s) && s.mem.destroyed
  {
    var acts := SomeBeeMeetsTheBear(c);
    var t := Exec(Stepper(c), Init(c), acts).value;
    var i :| 0 <= i < |t.bees| && t.bees[i].Bear?;
    ReachableInv(c, t);
    SizeOf(c, t);
    var a := BeeAct(i, i, true);
    hide Step, Init, Inv;
    ThreeTurns(c, t, i, a, a, a);
    s := Exec(Stepper(c), t, [a, a, a]).value;
    LeadsOn(Stepper(c), Init(c), t, [a, a, a]);
  }
}
