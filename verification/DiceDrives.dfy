/** How long games of dice take: rounds end, games are bounded by their ties, and every game can still end. */
module DiceDrives {
  import opened Runs
  import opened Sums
  import opened DiceGame
  import opened DiceInvariant
  import opened DiceResults

  // ---------------------------------------------------------------------------
  // Every operation of a player is progress
  // ---------------------------------------------------------------------------

  /** How far a player has come since the last election. */
  function Progress(size: nat, p: Player): int {
    match p.pc
    case Judging => 0
    case Decrementing => 1
    case Removing => 2
    case AtLoop => 7
    case Rolling => 8
    case Done => 8
    case Resetting => 11
    case Scanning(k) => 12 + if k < size then k else size
    case AtBarrier(k) => if k == 1 then 9 else if k == 2 then 13 + size else if k == 3 then 3 else 5
    case InBarrier(k) => if k == 1 then 10 else if k == 2 then 14 + size else if k == 3 then 4 else 6
  }

  function ProgressOf(size: nat): Player -> int { (p: Player) => Progress(size, p) }

  function Reached(s: State): int { SumBy(ProgressOf(|s.players|), s.players) }

  lemma ReachedBounds(s: State)
    ensures 0 <= Reached(s) <= |s.players| * (14 + |s.players|)
  {
    var most := (p: Player) => 14 + |s.players|;
    SumNonNeg(ProgressOf(|s.players|), s.players);
    SumLeq(ProgressOf(|s.players|), s.players, most, s.players);
    SumConst(most, s.players, 14 + |s.players|);
  }

  function Elections(s: State): nat { s.mem.ties + s.mem.decisive }

  /** The step with which the last player arrives at the second barrier. */
  predicate Elects(s: State, a: Action) {
    Opens(s, a.i) && s.players[a.i].pc == AtBarrier(2)
  }

  lemma LocalProgress(m: Memory, size: nat, i: nat, p: Player, roll: nat, seen: nat)
    requires PlayerOk(m, size, i, p) && Local(m, size, p, roll, seen).Some?
    ensures Progress(size, Local(m, size, p, roll, seen).value.1) >= Progress(size, p) + 1
  {
  }

  lemma StepProgress(s: State, a: Action)
    requires Inv(s) && Step(s, a).Some?
    ensures var t := Step(s, a).value;
            && |t.players| == |s.players|
            && (Elects(s, a) ==> Elections(t) == Elections(s) + 1)
            && (!Elects(s, a) ==> Elections(t) == Elections(s) && Reached(t) >= Reached(s) + 1)
  {
    var f :| PhaseInv(s, f);
    assert PlayerOk(s.mem, |s.players|, a.i, s.players[a.i]);
    InPhaseOf(s, f);
    hide PhaseInv;
    if Alone(s, a) {
      LocalBasics(s.mem, |s.players|, a.i, s.players[a.i], a.roll, Seen(s, s.players[a.i]));
      LocalProgress(s.mem, |s.players|, a.i, s.players[a.i], a.roll, Seen(s, s.players[a.i]));
      hide Local, Progress, PlayerOk, InPhase;
      SumUpdate(ProgressOf(|s.players|), s.players, a.i, Step(s, a).value.players[a.i]);
    } else {
      PhaseRange(s, a.i);
      ArrivalProgress(s, a, f);
    }
  }

  lemma ArrivalProgress(s: State, a: Action, f: nat)
    requires InPhase(s, f) && 1 <= f <= 4 && a.i < |s.players| && s.players[a.i].pc.AtBarrier? && Step(s, a).Some?
    ensures var t := Step(s, a).value;
            && |t.players| == |s.players|
            && (Elects(s, a) ==> Elections(t) == Elections(s) + 1)
            && (!Elects(s, a) ==> Elections(t) == Elections(s) && Reached(t) >= Reached(s) + 1)
  {
    var t := Step(s, a).value;
    var size := |s.players|;
    ArrivalOutcome(s, a, f);
    hide Step, InPhase;
    var waiting := s.players[a.i].(pc := InBarrier(f));
    var arrived := s.players[a.i := waiting];
    SumUpdate(ProgressOf(size), s.players, a.i, waiting);
    if Opens(s, a.i) && f != 2 {
      SumLeq(ProgressOf(size), arrived, ProgressOf(size), t.players);
    }
  }

  function Always(): (State, Action) -> int { (s: State, a: Action) => 1 }

  lemma {:induction false} AlwaysCounts(s: State, acts: seq<Action>)
    requires Exec(Stepper(), s, acts).Some?
    ensures Gained(Stepper(), Always(), s, acts) == |acts|
    decreases |acts|
  {
    if acts != [] { AlwaysCounts(Step(s, acts[0]).value, acts[1..]); }
  }

  function Potential(s: State): int {
    Elections(s) * (|s.players| * (14 + |s.players|)) + Reached(s)
  }

  lemma PotentialGrows(s: State, a: Action)
    requires Inv(s) && Step(s, a).Some?
    ensures Potential(s) + 1 <= Potential(Step(s, a).value)
  {
    var t := Step(s, a).value;
    var k := |s.players| * (14 + |s.players|);
    StepProgress(s, a);
    if Elects(s, a) {
      ReachedAtElection(s, a);
      ReachedBounds(t);
      hide Step, Inv, Reached;
      assert (Elections(s) + 1) * k == Elections(s) * k + k;
    }
  }

  lemma ReachedAtElection(s: State, a: Action)
    requires Elects(s, a)
    ensures Reached(s) < |s.players| * (14 + |s.players|)
  {
    var size := |s.players|;
    var most := (p: Player) => 14 + size;
    SumUpdate(ProgressOf(size), s.players, a.i, s.players[a.i].(pc := InBarrier(2)));
    ReachedBounds(State(s.mem, s.players[a.i := s.players[a.i].(pc := InBarrier(2))]));
  }

  lemma OperationsCounted(players: nat, acts: seq<Action>)
    requires players >= 1 && Exec(Stepper(), Init(players), acts).Some?
    ensures Potential(Init(players)) + |acts| <= Potential(Exec(Stepper(), Init(players), acts).value)
  {
    InitInv(players);
    AlwaysCounts(Init(players), acts);
    hide Step, Init, Inv, Potential, Exec, Gained;
    forall u, a | Inv(u) && Stepper()(u, a).Some?
      ensures Inv(Stepper()(u, a).value) && Potential(u) + 1 <= Potential(Stepper()(u, a).value)
    {
      StepKeepsInv(u, a);
      PotentialGrows(u, a);
    }
    GainBounded(Stepper(), u => Inv(u), u => Potential(u), Always(), Init(players), acts);
  }

  /** A game takes longer only by having more ties: a bound on the operations of every run. */
  lemma RunsAreShort(players: nat, acts: seq<Action>)
    requires players >= 1 && Exec(Stepper(), Init(players), acts).Some?
    ensures var t := Exec(Stepper(), Init(players), acts).value;
            |acts| <= players * (14 + players) * (t.mem.ties + players)
  {
    var t := Exec(Stepper(), Init(players), acts).value;
    assert Reachable(players, t);
    hide *;
    OperationsCounted(players, acts);
    PotentialBounds(players, Init(players), t);
  }

  lemma PotentialBounds(players: nat, s: State, t: State)
    requires players >= 1 && s == Init(players) && Reachable(players, t)
    ensures 0 <= Potential(s)
    ensures Potential(t) <= players * (14 + players) * (t.mem.ties + players)
  {
    ReachableInv(players, t);
    FewDecisiveRounds(players, t);
    ReachedBounds(s);
    ReachedBounds(t);
    var k := players * (14 + players);
    Times(k, Elections(t) + 1, t.mem.ties + players);
  }

  lemma Times(k: nat, x: int, y: int)
    requires x <= y
    ensures k * x <= k * y && (x - 1) * k + k == k * x
  {
    assert k * (y - x) >= 0;
  }
}
