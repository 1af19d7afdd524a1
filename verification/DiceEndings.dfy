/** Runs that the players' schedule and rolls can bring about: through a round, and to the end of the game. */
module DiceEndings {
  import opened Runs
  import opened Sums
  import opened DiceGame
  import opened DiceInvariant
  import opened DiceResults
  import opened DiceDrives

  // ---------------------------------------------------------------------------
  // Rolls on demand
  // ---------------------------------------------------------------------------

  /** Actions with which player i rolls rolls[i]. */
  function ToRoll(rolls: seq<nat>): Action -> bool {
    (a: Action) => a.i < |rolls| && a.roll == rolls[a.i]
  }

  predicate Die(rolls: seq<nat>, players: nat) {
    |rolls| == players && forall i :: 0 <= i < players ==> 1 <= rolls[i] <= 6
  }

  /** Unless player p is eliminated or still has to roll, it has rolled roll. */
  predicate Rolled(p: Player, roll: nat) {
    !p.loser && !p.pc.AtLoop? && !p.pc.Rolling? && !p.pc.Done? ==> p.roll == roll
  }

  predicate RolledAll(s: State, rolls: seq<nat>) {
    |rolls| == |s.players| && forall i :: 0 <= i < |s.players| ==> Rolled(s.players[i], rolls[i])
  }

  lemma LocalRolls(m: Memory, size: nat, p: Player, roll: nat, seen: nat)
    requires Rolled(p, roll) && Local(m, size, p, roll, seen).Some?
    ensures Rolled(Local(m, size, p, roll, seen).value.1, roll)
  {
  }

  lemma RollsKept(s: State, a: Action, rolls: seq<nat>)
    requires Inv(s) && RolledAll(s, rolls) && Step(s, a).Some? && ToRoll(rolls)(a)
    ensures RolledAll(Step(s, a).value, rolls)
  {
    var t := Step(s, a).value;
    if Alone(s, a) {
      LocalRolls(s.mem, |s.players|, s.players[a.i], a.roll, Seen(s, s.players[a.i]));
    } else {
      var f :| PhaseInv(s, f);
      InPhaseOf(s, f);
      ArrivalOutcome(s, a, f);
      hide Step, PhaseInv;
      forall i | 0 <= i < |t.players| ensures Rolled(t.players[i], rolls[i]) {
        assert Rolled(s.players[i], rolls[i]);
      }
    }
  }

  // ---------------------------------------------------------------------------
  // Up to the second barrier
  // ---------------------------------------------------------------------------

  /** Everybody but player last waits at the second barrier, where last is about to arrive. */
  predicate AtElection(s: State, last: nat) {
    Opens(s, last) && s.players[last].pc == AtBarrier(2) && forall i :: 0 <= i < |s.players| && i != last ==> s.players[i].pc == InBarrier(2)
  }

  ghost predicate Elected(s: State) { exists last :: AtElection(s, last) }

  predicate FirstHalf(s: State) {
    s.mem.n > 1 && forall i :: 0 <= i < |s.players| ==> Phase(s.players[i].pc) <= 2
  }

  predicate SameLosers(s: State, t: State) {
    |s.players| == |t.players| && forall i :: 0 <= i < |s.players| ==> s.players[i].loser == t.players[i].loser
  }

  /** On the way from a state to the second barrier: no election, nobody has left, and the rolls are as given. */
  ghost predicate Electing(from: State, rolls: seq<nat>, s: State) {
    && Inv(s) && FirstHalf(s) && SameLosers(from, s)
    && s.mem.n == from.mem.n && Elections(s) == Elections(from)
    && (RolledAll(from, rolls) ==> RolledAll(s, rolls))
  }

  /** A player that can move without opening the second barrier. */
  lemma MoverBeforeElection(s: State) returns (i: nat)
    requires Inv(s) && FirstHalf(s) && !Elected(s)
    ensures i < |s.players| && !s.players[i].pc.InBarrier? && !s.players[i].pc.Done?
    ensures s.players[i].pc == AtBarrier(2) ==> !Opens(s, i)
  {
    var f :| PhaseInv(s, f);
    i :| 0 <= i < |s.players| && !s.players[i].pc.InBarrier?;
    assert PlayerOk(s.mem, |s.players|, i, s.players[i]);
    if s.players[i].pc == AtBarrier(2) && Opens(s, i) {
      forall j | 0 <= j < |s.players| && j != i ensures s.players[j].pc == InBarrier(2) {
        assert Phase(s.players[j].pc) == f;
      }
      assert AtElection(s, i);
      assert false;
    }
  }

  lemma MoveBeforeElection(from: State, rolls: seq<nat>, s: State) returns (a: Action)
    requires Electing(from, rolls, s) && !Elected(s) && Die(rolls, |s.players|)
    ensures Step(s, a).Some? && ToRoll(rolls)(a) && !Elects(s, a)
    ensures Electing(from, rolls, Step(s, a).value)
  {
    var i := MoverBeforeElection(s);
    a := Action(i, rolls[i], i);
    var f :| PhaseInv(s, f);
    assert Phase(s.players[i].pc) == f;
    InPhaseOf(s, f);
    assert PlayerOk(s.mem, |s.players|, i, s.players[i]);
    CanStep(s, a);
    if RolledAll(s, rolls) { RollsKept(s, a, rolls); }
    StepKeepsInv(s, a);
    StepProgress(s, a);
    BeforeElection(s, a, f);
  }

  /** Whoever does not wait in the barrier and has not ended can move. */
  lemma CanStep(s: State, a: Action)
    requires a.i < |s.players| && a.serial < |s.players| && 1 <= a.roll <= 6
    requires !s.players[a.i].pc.InBarrier? && !s.players[a.i].pc.Done?
    ensures Step(s, a).Some?
  {
  }

  lemma BeforeElection(s: State, a: Action, f: nat)
    requires InPhase(s, f) && f <= 2 && s.mem.n > 1 && Step(s, a).Some? && !Elects(s, a)
    requires PlayerOk(s.mem, |s.players|, a.i, s.players[a.i])
    ensures FirstHalf(Step(s, a).value) && Step(s, a).value.mem.n == s.mem.n && SameLosers(s, Step(s, a).value)
  {
    assert 1 <= Phase(s.players[a.i].pc);
    var t := Step(s, a).value;
    if Alone(s, a) {
      LocalBasics(s.mem, |s.players|, a.i, s.players[a.i], a.roll, Seen(s, s.players[a.i]));
      LocalLoser(s.mem, |s.players|, s.players[a.i], a.roll, Seen(s, s.players[a.i]));
      hide Local;
    } else {
      ArrivalOutcome(s, a, f);
      ArrivalPhase(s, a, f);
      hide Step;
    }
  }

  lemma LocalLoser(m: Memory, size: nat, p: Player, roll: nat, seen: nat)
    requires Local(m, size, p, roll, seen).Some? && !p.pc.Removing?
    ensures Local(m, size, p, roll, seen).value.1.loser == p.loser
  {
  }

  function Remaining(s: State): int { |s.players| * (14 + |s.players|) - Reached(s) }

  /** From the first half of a round, with whatever rolls, an election can be held. */
  lemma ToElection(s: State, rolls: seq<nat>) returns (acts: seq<Action>)
    requires Inv(s) && FirstHalf(s) && Die(rolls, |s.players|)
    ensures Exec(Stepper(), s, acts).Some?
    ensures Electing(s, rolls, Exec(Stepper(), s, acts).value) && Elected(Exec(Stepper(), s, acts).value)
  {
    var keep := (t: State) => Electing(s, rolls, t);
    assert keep(s);
    hide Electing, Elected, Inv, FirstHalf, Step, Remaining;
    forall t | keep(t) && !Elected(t) ensures CanAdvance(Stepper(), keep, ToRoll(rolls), Remaining, t) {
      assert |t.players| == |s.players| by { SizeKept(s, rolls, t); }
      var a := MoveBeforeElection(s, rolls, t);
      Closer(s, rolls, t, a);
      assert Advances(Stepper(), keep, ToRoll(rolls), Remaining, t, a);
    }
    acts := CanReach(Stepper(), keep, t => Elected(t), ToRoll(rolls), Remaining, s);
  }

  lemma SizeKept(from: State, rolls: seq<nat>, s: State)
    requires Electing(from, rolls, s)
    ensures |s.players| == |from.players|
  {
  }

  lemma Closer(from: State, rolls: seq<nat>, s: State, a: Action)
    requires Electing(from, rolls, s) && Step(s, a).Some? && !Elects(s, a)
    ensures 0 <= Remaining(Step(s, a).value) < Remaining(s)
  {
    StepProgress(s, a);
    ReachedBounds(Step(s, a).value);
  }

  // ---------------------------------------------------------------------------
  // Through the elimination
  // ---------------------------------------------------------------------------

  /** Nobody is about to remove itself, and nobody will decide to. */
  predicate Quiet(s: State) {
    forall i :: 0 <= i < |s.players| ==>
      !s.players[i].pc.Decrementing? &&
      (s.players[i].pc.Judging? && !s.players[i].loser ==> s.players[i].roll != s.mem.max)
  }

  /** Between the second and the fourth barrier of a round that began with base players and has count holders. */
  ghost predicate Eliminating(players: nat, base: int, count: nat, elections: nat, quiet: bool, n: int, s: State) {
    && Inv(s) && |s.players| == players && (InPhase(s, 3) || InPhase(s, 4))
    && s.mem.base == base && s.mem.count == count && Elections(s) == elections
    && (quiet ==> s.mem.n == n && (InPhase(s, 3) ==> Quiet(s)))
  }

  lemma MoveInElimination(players: nat, base: int, count: nat, elections: nat, quiet: bool, n: int, s: State) returns (a: Action)
    requires Eliminating(players, base, count, elections, quiet, n, s) && !InPhase(s, 4)
    ensures Step(s, a).Some? && 0 <= Remaining(Step(s, a).value) < Remaining(s)
    ensures Eliminating(players, base, count, elections, quiet, n, Step(s, a).value)
  {
    var i :| 0 <= i < |s.players| && !s.players[i].pc.InBarrier?;
    a := Action(i, 1, i);
    CanStep(s, a);
    StepKeepsInv(s, a);
    StepProgress(s, a);
    assert PlayerOk(s.mem, |s.players|, a.i, s.players[a.i]) && !Elects(s, a);
    Eliminates(s, a, quiet);
    hide Inv, Step;
    ReachedBounds(Step(s, a).value);
  }

  lemma Eliminates(s: State, a: Action, quiet: bool)
    requires InPhase(s, 3) && Step(s, a).Some? && PlayerOk(s.mem, |s.players|, a.i, s.players[a.i])
    requires quiet ==> Quiet(s)
    ensures var t := Step(s, a).value;
            && (InPhase(t, 3) || InPhase(t, 4))
            && t.mem.base == s.mem.base && t.mem.count == s.mem.count
            && (quiet ==> t.mem.n == s.mem.n && (InPhase(t, 3) ==> Quiet(t)))
  {
    var t := Step(s, a).value;
    assert Phase(s.players[a.i].pc) == 3;
    if Alone(s, a) {
      LocalBasics(s.mem, |s.players|, a.i, s.players[a.i], a.roll, Seen(s, s.players[a.i]));
      assert !t.players[a.i].pc.InBarrier?;
      if quiet { QuietMove(s.mem, |s.players|, s.players[a.i], a.roll, Seen(s, s.players[a.i])); }
      hide Local, PlayerOk;
    } else {
      ArrivalOutcome(s, a, 3);
      ArrivalPhase(s, a, 3);
      if t.players != [] { assert 0 <= a.i < |t.players|; }
      hide Step, PlayerOk;
    }
  }

  lemma QuietMove(m: Memory, size: nat, p: Player, roll: nat, seen: nat)
    requires Phase(p.pc) == 3 && !p.pc.Decrementing? && (p.pc.Judging? && !p.loser ==> p.roll != m.max)
    requires Local(m, size, p, roll, seen).Some?
    ensures var (m', p') := Local(m, size, p, roll, seen).value; m' == m && !p'.pc.Decrementing? && !p'.pc.Judging?
  {
  }

  /** An elimination can be completed; when it is quiet already, nobody else leaves. */
  lemma ToEndOfElimination(s: State) returns (acts: seq<Action>)
    requires Inv(s) && (InPhase(s, 3) || InPhase(s, 4))
    ensures Exec(Stepper(), s, acts).Some?
    ensures var t := Exec(Stepper(), s, acts).value;
            && Inv(t) && |t.players| == |s.players| && InPhase(t, 4)
            && t.mem.base == s.mem.base && t.mem.count == s.mem.count && Elections(t) == Elections(s)
            && (Quiet(s) ==> t.mem.n == s.mem.n)
  {
    var (size, m, elections, quiet) := (|s.players|, s.mem, Elections(s), Quiet(s));
    var keep := (t: State) => Eliminating(size, m.base, m.count, elections, quiet, m.n, t);
    assert keep(s);
    var allowed := (a: Action) => true;
    hide Inv, Step, Remaining, Quiet;
    forall t | keep(t) && !InPhase(t, 4) ensures CanAdvance(Stepper(), keep, allowed, Remaining, t) {
      var a := MoveInElimination(size, m.base, m.count, elections, quiet, m.n, t);
      assert Advances(Stepper(), keep, allowed, Remaining, t, a);
    }
    acts := CanReach(Stepper(), keep, t => InPhase(t, 4), allowed, Remaining, s);
  }

  // ---------------------------------------------------------------------------
  // Back to the loop test, and out of the loop
  // ---------------------------------------------------------------------------

  predicate AllAtLoop(s: State) { forall i :: 0 <= i < |s.players| ==> s.players[i].pc.AtLoop? }

  predicate AllDone(s: State) { forall i :: 0 <= i < |s.players| ==> s.players[i].pc.Done? }

  ghost predicate Returning(players: nat, n: int, s: State) {
    Inv(s) && |s.players| == players && s.mem.n == n && (InPhase(s, 4) || AllAtLoop(s))
  }

  lemma MoveToLoop(players: nat, n: int, s: State) returns (a: Action)
    requires Returning(players, n, s) && !AllAtLoop(s)
    ensures Step(s, a).Some? && 0 <= Remaining(Step(s, a).value) < Remaining(s)
    ensures Returning(players, n, Step(s, a).value)
  {
    var i :| 0 <= i < |s.players| && !s.players[i].pc.InBarrier?;
    a := Action(i, 1, i);
    CanStep(s, a);
    StepKeepsInv(s, a);
    StepProgress(s, a);
    assert Phase(s.players[i].pc) == 4 && !Elects(s, a);
    ArrivalOutcome(s, a, 4);
    ArrivalPhase(s, a, 4);
    hide Inv, Step;
    ReachedBounds(Step(s, a).value);
  }

  lemma ToLoop(s: State) returns (acts: seq<Action>)
    requires Inv(s) && InPhase(s, 4)
    ensures Exec(Stepper(), s, acts).Some?
    ensures var t := Exec(Stepper(), s, acts).value;
            Inv(t) && |t.players| == |s.players| && t.mem.n == s.mem.n && AllAtLoop(t)
  {
    var (size, n) := (|s.players|, s.mem.n);
    var keep := (t: State) => Returning(size, n, t);
    assert keep(s);
    var allowed := (a: Action) => true;
    hide Inv, Step, Remaining, AllAtLoop;
    forall t | keep(t) && !AllAtLoop(t) ensures CanAdvance(Stepper(), keep, allowed, Remaining, t) {
      var a := MoveToLoop(size, n, t);
      assert Advances(Stepper(), keep, allowed, Remaining, t, a);
    }
    acts := CanReach(Stepper(), keep, t => AllAtLoop(t), allowed, Remaining, s);
  }

  ghost predicate Leaving(s: State) {
    Inv(s) && s.mem.n <= 1 && forall i :: 0 <= i < |s.players| ==> s.players[i].pc.AtLoop? || s.players[i].pc.Done?
  }

  lemma MoveOut(s: State) returns (a: Action)
    requires Leaving(s) && !AllDone(s)
    ensures Step(s, a).Some? && 0 <= Remaining(Step(s, a).value) < Remaining(s)
    ensures Leaving(Step(s, a).value)
  {
    var i :| 0 <= i < |s.players| && !s.players[i].pc.Done?;
    a := Action(i, 1, i);
    StepKeepsInv(s, a);
    StepProgress(s, a);
    hide Inv;
    ReachedBounds(Step(s, a).value);
  }

  lemma ToTheDoor(s: State) returns (acts: seq<Action>)
    requires Leaving(s)
    ensures Exec(Stepper(), s, acts).Some? && AllDone(Exec(Stepper(), s, acts).value)
  {
    var allowed := (a: Action) => true;
    hide Leaving, Step, Remaining, AllDone;
    var keep := (t: State) => Leaving(t);
    forall t | keep(t) && !AllDone(t) ensures CanAdvance(Stepper(), keep, allowed, Remaining, t) {
      var a := MoveOut(t);
      assert Advances(Stepper(), keep, allowed, Remaining, t, a);
    }
    acts := CanReach(Stepper(), keep, t => AllDone(t), allowed, Remaining, s);
  }

  // ---------------------------------------------------------------------------
  // Whole rounds, and the end of the game
  // ---------------------------------------------------------------------------

  /** The last player arrives at the second barrier: the elimination begins. */
  lemma Elect(s: State, last: nat)
    requires Inv(s) && AtElection(s, last)
    ensures var a := Action(last, 1, last);
            Step(s, a).Some? &&
            var t := Step(s, a).value;
            && Inv(t) && InPhase(t, 3) && |t.players| == |s.players|
            && t.mem.base == t.mem.n == s.mem.n && t.mem.count == s.mem.count && t.mem.max == s.mem.max
            && Elections(t) == Elections(s) + 1
  {
    var a := Action(last, 1, last);
    var f :| PhaseInv(s, f);
    assert Phase(s.players[last].pc) == f;
    CanStep(s, a);
    StepKeepsInv(s, a);
    ArrivalOutcome(s, a, 2);
    ArrivalPhase(s, a, 2);
  }

  lemma {:induction false} Chained(s: State, xs: seq<Action>, ys: seq<Action>)
    requires Exec(Stepper(), s, xs).Some? && Exec(Stepper(), Exec(Stepper(), s, xs).value, ys).Some?
    ensures Exec(Stepper(), s, xs + ys) == Exec(Stepper(), Exec(Stepper(), s, xs).value, ys)
  {
    ExecAppend(Stepper(), s, xs, ys);
  }

  lemma OutcomeAtEnd(s: State)
    requires Inv(s) && InPhase(s, 4)
    ensures Outcome(s.mem) && s.mem.n <= s.mem.base
  {
    var f :| PhaseInv(s, f);
    assert Phase(s.players[0].pc) == f;
  }

  /** From an election to the next loop test; a decisive one leaves fewer players. */
  lemma FinishRound(s: State, last: nat) returns (acts: seq<Action>)
    requires Inv(s) && AtElection(s, last)
    ensures Exec(Stepper(), s, acts).Some?
    ensures var t := Exec(Stepper(), s, acts).value;
            && Inv(t) && |t.players| == |s.players| && AllAtLoop(t)
            && t.mem.n <= s.mem.n && (s.mem.count < s.mem.n ==> t.mem.n < s.mem.n)
  {
    var a := Action(last, 1, last);
    Elect(s, last);
    ExecOne(Stepper(), s, a);
    var t := Step(s, a).value;
    hide Inv, InPhase, AtElection, Step, AllAtLoop;
    var xs := ToEndOfElimination(t);
    var u := Exec(Stepper(), t, xs).value;
    OutcomeAtEnd(u);
    var ys := ToLoop(u);
    Chained(t, xs, ys);
    Chained(s, [a], xs + ys);
    acts := [a] + (xs + ys);
  }

  /** A round with these rolls, from anywhere in its first half. */
  lemma PlayRound(s: State, rolls: seq<nat>) returns (acts: seq<Action>, elected: State)
    requires Inv(s) && FirstHalf(s) && Die(rolls, |s.players|)
    ensures Electing(s, rolls, elected) && Elected(elected)
    ensures Exec(Stepper(), s, acts).Some?
    ensures var t := Exec(Stepper(), s, acts).value;
            && Inv(t) && |t.players| == |s.players| && AllAtLoop(t)
            && t.mem.n <= s.mem.n && (elected.mem.count < elected.mem.n ==> t.mem.n < s.mem.n)
  {
    var xs := ToElection(s, rolls);
    elected := Exec(Stepper(), s, xs).value;
    var last :| AtElection(elected, last);
    hide FirstHalf, AtElection, AllAtLoop, Step;
    var ys := FinishRound(elected, last);
    Chained(s, xs, ys);
    acts := xs + ys;
  }

  /** Two players that are still in the game. */
  lemma TwoSurvivors(s: State) returns (v: nat, w: nat)
    requires Counted(s) && s.mem.n >= 2
    ensures v < |s.players| && w < |s.players| && v != w && !Out(s.players[v]) && !Out(s.players[w])
  {
    var stays := (p: Player) => 1 - IsOut()(p);
    OutAndNotOut(s.players);
    w := SumPositive(stays, s.players);
    var gone := s.players[w].(loser := true);
    SumUpdate(stays, s.players, w, gone);
    v := SumPositive(stays, s.players[w := gone]);
  }

  /** When one survivor rolls 6 and all others roll 1, the round is not a tie. */
  function OneSix(players: nat, w: nat): seq<nat> { seq(players, i => if i == w then 6 else 1) }

  lemma OneSixDecides(s: State, last: nat, v: nat, w: nat)
    requires Inv(s) && AtElection(s, last) && RolledAll(s, OneSix(|s.players|, w))
    requires v < |s.players| && w < |s.players| && v != w && !s.players[v].loser && !s.players[w].loser
    ensures s.mem.count < s.mem.n
  {
    ElectionOk(s);
    var stays := (p: Player) => 1 - IsOut()(p);
    OutAndNotOut(s.players);
    assert Rolled(s.players[v], 1) && Rolled(s.players[w], 6);
    var gone := s.players[v].(loser := true);
    SumUpdate(stays, s.players, v, gone);
    SumLeq(IsHolder(s.mem.max), s.players, stays, s.players[v := gone]);
  }

  lemma LoopIsFirstHalf(s: State)
    requires AllAtLoop(s)
    ensures (s.mem.n > 1 ==> FirstHalf(s)) && (Inv(s) && s.mem.n <= 1 ==> Leaving(s))
    ensures forall rolls :: |rolls| == |s.players| ==> RolledAll(s, rolls)
  {
  }

  lemma {:induction false} EndsFromLoop(s: State) returns (acts: seq<Action>)
    requires Inv(s) && AllAtLoop(s)
    ensures Exec(Stepper(), s, acts).Some? && AllDone(Exec(Stepper(), s, acts).value)
    decreases s.mem.n
  {
    LoopIsFirstHalf(s);
    if s.mem.n <= 1 {
      acts := ToTheDoor(s);
    } else {
      var v, w := TwoSurvivors(s) by { assert Counted(s); }
      var rolls := OneSix(|s.players|, w);
      assert Die(rolls, |s.players|) && !s.players[v].loser && !s.players[w].loser;
      var xs, elected := PlayRound(s, rolls);
      assert elected.mem.count < elected.mem.n by {
        var last :| AtElection(elected, last);
        OneSixDecides(elected, last, v, w);
      }
      hide Inv, AllAtLoop, FirstHalf, Electing, AllDone, Step;
      var ys := EndsFromLoop(Exec(Stepper(), s, xs).value);
      Chained(s, xs, ys);
      acts := xs + ys;
    }
  }

  /** From every state of every game, some continuation ends it. */
  lemma EveryGameCanEnd(players: nat, s: State) returns (acts: seq<Action>)
    requires players >= 1 && Reachable(players, s)
    ensures Exec(Stepper(), s, acts).Some? && AllDone(Exec(Stepper(), s, acts).value)
  {
    ReachableInv(players, s);
    var f :| PhaseInv(s, f);
    InPhaseOf(s, f);
    var i :| 0 <= i < |s.players| && !s.players[i].pc.InBarrier?;
    PhaseRange(s, i) by { assert PlayerOk(s.mem, |s.players|, i, s.players[i]); }
    if f <= 2 {
      acts := EndsFromFirstHalf(s, f);
    } else {
      hide Inv, AllDone, AllAtLoop, Step;
      var xs := ToEndOfElimination(s);
      var ys := ToLoop(Exec(Stepper(), s, xs).value);
      Chained(s, xs, ys);
      var zs := EndsFromLoop(Exec(Stepper(), s, xs + ys).value);
      Chained(s, xs + ys, zs);
      acts := xs + ys + zs;
    }
  }

  lemma EndsFromFirstHalf(s: State, f: nat) returns (acts: seq<Action>)
    requires Inv(s) && InPhase(s, f) && f <= 2
    ensures Exec(Stepper(), s, acts).Some? && AllDone(Exec(Stepper(), s, acts).value)
  {
    forall i | 0 <= i < |s.players|
      ensures s.mem.n <= 1 ==> s.players[i].pc.AtLoop? || s.players[i].pc.Done?
    {
      assert PlayerOk(s.mem, |s.players|, i, s.players[i]);
    }
    if s.mem.n <= 1 {
      acts := ToTheDoor(s);
    } else {
      assert Die(OneSix(|s.players|, 0), |s.players|);
      var xs, elected := PlayRound(s, OneSix(|s.players|, 0));
      hide Inv, AllDone, AllAtLoop, Step;
      var ys := EndsFromLoop(Exec(Stepper(), s, xs).value);
      Chained(s, xs, ys);
      acts := xs + ys;
    }
  }
}
