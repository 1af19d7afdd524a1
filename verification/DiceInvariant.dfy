/** Every operation of every player keeps the invariant of the dice game. */
module DiceInvariant {
  import opened Runs
  import opened Sums
  import opened DiceGame

  // ---------------------------------------------------------------------------
  // One player outside the barrier
  // ---------------------------------------------------------------------------

  predicate Alone(s: State, a: Action) {
    a.i < |s.players| && !s.players[a.i].pc.AtBarrier?
  }

  lemma LocalBasics(m: Memory, size: nat, i: nat, p: Player, roll: nat, seen: nat)
    requires PlayerOk(m, size, i, p) && Local(m, size, p, roll, seen).Some?
    ensures var (m', p') := Local(m, size, p, roll, seen).value;
            && PlayerOk(m', size, i, p')
            && Phase(p'.pc) == Phase(p.pc) <= 3
            && !p'.pc.InBarrier?
            && m'.n - m.n == IsOut()(p) - IsOut()(p')
            && m'.base == m.base && m'.scanner == m.scanner
            && (Phase(p.pc) != 3 ==> m'.n == m.n && (p.pc.Rolling? || p'.roll == p.roll))
            && (Phase(p.pc) != 2 ==> m'.max == m.max && m'.count == m.count)
            && m'.ties == m.ties && m'.decisive == m.decisive
            && m'.n <= m.n
  {
  }

  lemma LocalStable(m: Memory, size: nat, p: Player, roll: nat, seen: nat, j: nat, d: Player)
    requires PlayerOk(m, size, j, d) && Phase(p.pc) == Phase(d.pc) && Local(m, size, p, roll, seen).Some?
    ensures PlayerOk(Local(m, size, p, roll, seen).value.0, size, j, d)
  {
  }

  lemma AloneBasics(s: State, a: Action, f: nat)
    requires InPhase(s, f) && Counted(s) && Alone(s, a) && Step(s, a).Some?
    requires forall i :: 0 <= i < |s.players| ==> PlayerOk(s.mem, |s.players|, i, s.players[i])
    ensures var t := Step(s, a).value;
            && InPhase(t, f) && Counted(t) && |t.players| == |s.players|
            && (forall i :: 0 <= i < |t.players| ==> PlayerOk(t.mem, |t.players|, i, t.players[i]))
  {
    var t := Step(s, a).value;
    var (p, seen) := (s.players[a.i], Seen(s, s.players[a.i]));
    LocalBasics(s.mem, |s.players|, a.i, p, a.roll, seen);
    forall j | 0 <= j < |s.players| && j != a.i ensures PlayerOk(t.mem, |t.players|, j, t.players[j]) {
      LocalStable(s.mem, |s.players|, p, a.roll, seen, j, s.players[j]);
    }
    hide Local, PlayerOk;
    SumUpdate(IsOut(), s.players, a.i, t.players[a.i]);
    assert !t.players[a.i].pc.InBarrier?;
  }

  /** In the second part only the elected player moves outside the barrier, and its loop follows Best. */
  lemma AloneScan(s: State, a: Action)
    requires PhaseInv(s, 2) && Alone(s, a) && Step(s, a).Some?
    requires forall i :: 0 <= i < |s.players| ==> PlayerOk(s.mem, |s.players|, i, s.players[i])
    ensures ScanOk(Step(s, a).value) && DecisiveOk(Step(s, a).value, 2)
  {
    var t := Step(s, a).value;
    var p := s.players[a.i];
    assert PlayerOk(s.mem, |s.players|, a.i, p) && Phase(p.pc) == 2;
    assert Rolls(t.players) == Rolls(s.players);
    var rolls := Rolls(s.players);
    if p.pc.Scanning? && p.pc.k < |s.players| {
      assert rolls[..p.pc.k + 1][..p.pc.k] == rolls[..p.pc.k];
    }
    hide PlayerOk;
  }

  lemma LocalRace(m: Memory, size: nat, i: nat, p: Player, roll: nat, seen: nat)
    requires PlayerOk(m, size, i, p) && RaceOk(m, p) && Phase(p.pc) == 3 && Local(m, size, p, roll, seen).Some?
    requires m.count <= m.base && (m.count == m.base ==> m.n == m.base)
    ensures var (m', p') := Local(m, size, p, roll, seen).value;
            && RaceOk(m', p')
            && IsHolder(m.max)(p') - m'.n == IsHolder(m.max)(p) - m.n
            && (m'.n != m.n ==> m.count < m.base && m'.n == m.n - 1)
  {
  }

  lemma AloneElimination(s: State, a: Action)
    requires InPhase(s, 3) && EliminationOk(s) && Alone(s, a) && Step(s, a).Some?
    requires forall i :: 0 <= i < |s.players| ==> PlayerOk(s.mem, |s.players|, i, s.players[i])
    ensures EliminationOk(Step(s, a).value)
  {
    var t := Step(s, a).value;
    var (p, seen) := (s.players[a.i], Seen(s, s.players[a.i]));
    LocalBasics(s.mem, |s.players|, a.i, p, a.roll, seen);
    LocalRace(s.mem, |s.players|, a.i, p, a.roll, seen);
    hide Local, PlayerOk;
    SumUpdate(IsHolder(s.mem.max), s.players, a.i, t.players[a.i]);
  }

  lemma AloneKeeps(s: State, a: Action, f: nat)
    requires PhaseInv(s, f) && Counted(s) && Alone(s, a) && Step(s, a).Some?
    requires forall i :: 0 <= i < |s.players| ==> PlayerOk(s.mem, |s.players|, i, s.players[i])
    ensures PhaseInv(Step(s, a).value, f)
  {
    AloneBasics(s, a, f);
    LocalBasics(s.mem, |s.players|, a.i, s.players[a.i], a.roll, Seen(s, s.players[a.i]));
    if f == 2 { AloneScan(s, a); }
    if f == 3 { AloneElimination(s, a); }
    hide Local, PlayerOk, ScanOk, EliminationOk, InPhase, Counted;
  }

  // ---------------------------------------------------------------------------
  // The barrier
  // ---------------------------------------------------------------------------

  /** Player i is the last to arrive. */
  predicate Opens(s: State, i: nat) {
    i < |s.players| && forall j :: 0 <= j < |s.players| && j != i ==> s.players[j].pc.InBarrier?
  }

  lemma ArrivalOutcome(s: State, a: Action, f: nat)
    requires InPhase(s, f) && a.i < |s.players| && s.players[a.i].pc.AtBarrier? && Step(s, a).Some?
    ensures var t := Step(s, a).value;
            && |t.players| == |s.players|
            && s.players[a.i].pc.k == f
            && (!Opens(s, a.i) ==> t == State(s.mem, s.players[a.i := s.players[a.i].(pc := InBarrier(f))]))
            && (Opens(s, a.i) ==>
                  && t.mem == Opened(s.mem, f, a.serial)
                  && forall j :: 0 <= j < |s.players| ==>
                       (s.players[j].pc == InBarrier(f) || s.players[j].pc == AtBarrier(f))
                       && t.players[j] == s.players[j].(pc := Released(InBarrier(f), j == a.serial)))
  {
    var arrived := s.players[a.i := s.players[a.i].(pc := InBarrier(s.players[a.i].pc.k))];
    if forall j :: 0 <= j < |arrived| ==> arrived[j].pc.InBarrier? {
      forall j | 0 <= j < |s.players| && j != a.i ensures s.players[j].pc.InBarrier? {
        assert arrived[j] == s.players[j];
      }
    }
  }

  lemma BarrierPlayer(m: Memory, m': Memory, size: nat, i: nat, p: Player, p': Player, f: nat, serial: bool)
    requires PlayerOk(m, size, i, p) && 1 <= f <= 4
    requires m' == m || m' == Opened(m, f, m'.scanner)
    requires || p' == p
             || (p.pc == AtBarrier(f) && p' == p.(pc := InBarrier(f)))
             || ((p.pc == AtBarrier(f) || p.pc == InBarrier(f)) && p' == p.(pc := Released(InBarrier(f), serial)))
    requires m' != m ==> p.pc == AtBarrier(f) || p.pc == InBarrier(f)
    requires p' != p && p'.pc.Resetting? ==> i == m'.scanner
    ensures PlayerOk(m', size, i, p')
  {
  }

  lemma ArrivalOk(s: State, a: Action, f: nat)
    requires InPhase(s, f) && 1 <= f <= 4 && a.i < |s.players| && s.players[a.i].pc.AtBarrier? && Step(s, a).Some?
    requires forall i :: 0 <= i < |s.players| ==> PlayerOk(s.mem, |s.players|, i, s.players[i])
    ensures forall i :: 0 <= i < |s.players| ==> PlayerOk(Step(s, a).value.mem, |s.players|, i, Step(s, a).value.players[i])
    ensures |Step(s, a).value.players| == |s.players|
  {
    var t := Step(s, a).value;
    ArrivalOutcome(s, a, f);
    hide Step, PlayerOk, InPhase, Released;
    forall i | 0 <= i < |t.players| ensures PlayerOk(t.mem, |t.players|, i, t.players[i]) {
      ReleasedElect(f, i == a.serial);
      BarrierPlayer(s.mem, t.mem, |s.players|, i, s.players[i], t.players[i], f, i == a.serial);
    }
  }

  lemma ReleasedElect(f: nat, serial: bool)
    ensures Released(InBarrier(f), serial).Resetting? ==> f == 1 && serial
  {
  }

  lemma ArrivalCounted(s: State, a: Action, f: nat)
    requires InPhase(s, f) && Counted(s) && a.i < |s.players| && s.players[a.i].pc.AtBarrier? && Step(s, a).Some?
    ensures Counted(Step(s, a).value)
  {
    var t := Step(s, a).value;
    ArrivalOutcome(s, a, f);
    hide Step, InPhase;
    forall j | 0 <= j < |s.players| ensures IsOut()(s.players[j]) == IsOut()(t.players[j]) {
      assert !Released(InBarrier(f), j == a.serial).Removing?;
    }
    hide Released, Opens;
    SumEq(IsOut(), s.players, IsOut(), t.players);
  }

  lemma ArrivalPhase(s: State, a: Action, f: nat)
    requires InPhase(s, f) && 1 <= f <= 4 && a.i < |s.players| && s.players[a.i].pc.AtBarrier? && Step(s, a).Some?
    ensures InPhase(Step(s, a).value, if Opens(s, a.i) then (if f == 4 then 1 else f + 1) else f)
  {
    var t := Step(s, a).value;
    ArrivalOutcome(s, a, f);
    hide Step;
    if Opens(s, a.i) {
      forall j | 0 <= j < |t.players|
        ensures Phase(t.players[j].pc) == (if f == 4 then 1 else f + 1) && !t.players[j].pc.InBarrier?
      {
        assert t.players[j].pc == Released(InBarrier(f), j == a.serial);
      }
      assert !t.players[a.i].pc.InBarrier?;
    } else {
      var j :| 0 <= j < |s.players| && j != a.i && !s.players[j].pc.InBarrier?;
      assert !t.players[j].pc.InBarrier?;
    }
  }

  /** The elected player's result holds for the survivors, although the others left zeros behind. */
  lemma ScanCountsHolders(s: State, t: State)
    requires |t.players| == |s.players| && t.mem == s.mem.(ties := t.mem.ties, decisive := t.mem.decisive)
    requires Counted(s) && s.mem.n >= 2 && s.mem.base == s.mem.n
    requires Scanned(s, |s.players|)
    requires forall i :: 0 <= i < |s.players| ==>
               && t.players[i] == s.players[i].(pc := Judging) && !s.players[i].pc.Removing?
               && (if s.players[i].loser then s.players[i].roll == 0 else s.players[i].roll >= 1)
    ensures EliminationOk(t)
  {
    var m := s.mem;
    var rolls := Rolls(s.players);
    assert rolls[..|s.players|] == rolls;
    BestIsTheMaximum(rolls);
    var notOut := (p: Player) => 1 - IsOut()(p);
    OutAndNotOut(s.players);
    var i := SumPositive(notOut, s.players);
    assert rolls[i] >= 1 && m.max >= 1;
    SumEq(Occurs(m.max), rolls, IsHolder(m.max), t.players);
    SumLeq(Occurs(m.max), rolls, notOut, s.players);
    var k :| 0 <= k < |rolls| && rolls[k] == m.max;
    SumNonNeg(Occurs(m.max), rolls);
    assert Occurs(m.max)(rolls[k]) == 1;
  }

  lemma {:induction false} OutAndNotOut(ps: seq<Player>)
    ensures SumBy((p: Player) => 1 - IsOut()(p), ps) == |ps| - SumBy(IsOut(), ps)
  {
    if ps != [] { OutAndNotOut(ps[1..]); }
  }

  lemma EndOfScan(s: State, a: Action)
    requires PhaseInv(s, 2) && Counted(s) && Opens(s, a.i) && s.players[a.i].pc.AtBarrier? && Step(s, a).Some?
    requires forall i :: 0 <= i < |s.players| ==> PlayerOk(s.mem, |s.players|, i, s.players[i])
    ensures EliminationOk(Step(s, a).value) && DecisiveOk(Step(s, a).value, 3)
  {
    var t := Step(s, a).value;
    ArrivalOutcome(s, a, 2);
    hide Step;
    assert PlayerOk(s.mem, |s.players|, a.i, s.players[a.i]);
    assert s.players[s.mem.scanner].pc == InBarrier(2) || s.players[s.mem.scanner].pc == AtBarrier(2);
    forall i | 0 <= i < |s.players|
      ensures t.players[i] == s.players[i].(pc := Judging) && !s.players[i].pc.Removing?
      ensures if s.players[i].loser then s.players[i].roll == 0 else s.players[i].roll >= 1
    {
      assert PlayerOk(s.mem, |s.players|, i, s.players[i]);
    }
    hide PlayerOk, InPhase;
    ScanCountsHolders(s, t);
  }

  lemma EndOfElimination(s: State, a: Action)
    requires PhaseInv(s, 3) && Opens(s, a.i) && s.players[a.i].pc.AtBarrier? && Step(s, a).Some?
    ensures Outcome(s.mem) && s.mem.n >= 1 && s.mem.decisive <= |s.players| - s.mem.n
  {
    ArrivalOutcome(s, a, 3);
    hide Step;
    var m := s.mem;
    SumNonNeg(IsHolder(m.max), s.players);
    if SumBy(IsHolder(m.max), s.players) > 0 {
      var i := SumPositive(IsHolder(m.max), s.players);
      assert RaceOk(m, s.players[i]);
    }
  }

  lemma ArrivalKeeps(s: State, a: Action, f: nat)
    requires PhaseInv(s, f) && 1 <= f <= 4 && Counted(s) && a.i < |s.players| && s.players[a.i].pc.AtBarrier? && Step(s, a).Some?
    requires forall i :: 0 <= i < |s.players| ==> PlayerOk(s.mem, |s.players|, i, s.players[i])
    ensures Opens(s, a.i) ==> PhaseInv(Step(s, a).value, if f == 4 then 1 else f + 1)
    ensures !Opens(s, a.i) ==> PhaseInv(Step(s, a).value, f)
  {
    var t := Step(s, a).value;
    ArrivalOutcome(s, a, f);
    ArrivalPhase(s, a, f);
    if Opens(s, a.i) {
      if f == 2 { EndOfScan(s, a); }
      if f == 3 { EndOfElimination(s, a); }
    } else {
      WaitingKeeps(s, t, a.i, f);
    }
  }

  /** A player that starts to wait changes nothing else. */
  lemma WaitingKeeps(s: State, t: State, i: nat, f: nat)
    requires PhaseInv(s, f) && InPhase(t, f) && i < |s.players| && s.players[i].pc == AtBarrier(f)
    requires t == State(s.mem, s.players[i := s.players[i].(pc := InBarrier(f))])
    ensures PhaseInv(t, f)
  {
    if f == 2 {
      assert Rolls(t.players) == Rolls(s.players);
    }
    if f == 3 {
      assert RaceOk(s.mem, s.players[i]);
      SumUpdate(IsHolder(s.mem.max), s.players, i, t.players[i]);
    }
    hide InPhase, SumBy;
  }

  lemma StepKeepsInv(s: State, a: Action)
    requires Inv(s) && Step(s, a).Some?
    ensures Inv(Step(s, a).value)
  {
    var f :| PhaseInv(s, f);
    assert PlayerOk(s.mem, |s.players|, a.i, s.players[a.i]) && Phase(s.players[a.i].pc) == f;
    hide Step, PhaseInv, PlayerOk;
    if Alone(s, a) {
      InPhaseOf(s, f);
      AloneBasics(s, a, f);
      AloneKeeps(s, a, f);
    } else {
      InPhaseOf(s, f);
      PhaseRange(s, a.i);
      ArrivalCounted(s, a, f);
      ArrivalOk(s, a, f);
      ArrivalKeeps(s, a, f);
    }
  }

  lemma InPhaseOf(s: State, f: nat)
    requires PhaseInv(s, f)
    ensures InPhase(s, f)
  {
  }

  lemma PhaseRange(s: State, i: nat)
    requires i < |s.players| && PlayerOk(s.mem, |s.players|, i, s.players[i])
    ensures 1 <= Phase(s.players[i].pc) <= 4
  {
  }

  lemma InitInv(players: nat)
    requires players >= 1
    ensures Inv(Init(players))
  {
    var s := Init(players);
    SumConst(IsOut(), s.players, 0);
    assert !s.players[0].pc.InBarrier?;
    assert PhaseInv(s, 1);
  }

  lemma ReachableInv(players: nat, s: State)
    requires players >= 1 && Reachable(players, s)
    ensures Inv(s) && |s.players| == players
  {
    var acts :| Exec(Stepper(), Init(players), acts) == Some(s);
    InitInv(players);
    hide Init, Inv;
    forall t, a | Inv(t) && |t.players| == players && Stepper()(t, a).Some?
      ensures Inv(Stepper()(t, a).value) && |Stepper()(t, a).value.players| == players
    {
      StepKeepsInv(t, a);
    }
    assert |Init(players).players| == players by { SizeOfInit(players); }
    KeepsInvariant(Stepper(), t => Inv(t) && |t.players| == players, Init(players), acts);
  }

  lemma SizeOfInit(players: nat)
    ensures |Init(players).players| == players
  {
  }
}
