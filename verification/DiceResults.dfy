/** What the dice game guarantees: one winner, agreement on when to stop, and exactly which eliminations can happen. */
module DiceResults {
  import opened Sums
  import opened DiceGame
  import opened DiceInvariant

  // ---------------------------------------------------------------------------
  // Whole games
  // ---------------------------------------------------------------------------

  /** n counts the players that have not removed themselves, and never reaches zero. */
  lemma SomeoneSurvives(players: nat, s: State)
    requires players >= 1 && Reachable(players, s)
    ensures 1 <= s.mem.n == players - SumBy(IsOut(), s.players)
  {
    ReachableInv(players, s);
    var f :| PhaseInv(s, f);
    if f == 3 { SumNonNeg(IsHolder(s.mem.max), s.players); }
    var i :| 0 <= i < |s.players| && !s.players[i].pc.InBarrier?;
    PhaseRange(s, i);
  }

  lemma AtMostOneLeft(players: nat, s: State)
    requires players >= 1 && Reachable(players, s) && s.mem.n <= 1
    ensures forall i, j :: 0 <= i < j < |s.players| ==> Out(s.players[i]) || Out(s.players[j])
  {
    SomeoneSurvives(players, s);
    ReachableInv(players, s);
    OutAndNotOut(s.players);
    var stays := (p: Player) => 1 - IsOut()(p);
    forall i, j | 0 <= i < j < |s.players| ensures Out(s.players[i]) || Out(s.players[j]) {
      var gone := s.players[j].(loser := true);
      SumUpdate(stays, s.players, j, gone);
      SumNonNeg(stays, s.players[j := gone]);
      assert s.players[j := gone][i] == s.players[i];
    }
  }

  /** When all threads have ended, exactly one player has not lost. */
  lemma ExactlyOneWinner(players: nat, s: State)
    requires players >= 1 && Reachable(players, s)
    requires forall i :: 0 <= i < |s.players| ==> s.players[i].pc.Done?
    ensures s.mem.n == 1
    ensures exists i :: 0 <= i < |s.players| && !s.players[i].loser
    ensures forall i, j :: 0 <= i < j < |s.players| ==> s.players[i].loser || s.players[j].loser
  {
    SomeoneSurvives(players, s);
    ReachableInv(players, s);
    assert PlayerOk(s.mem, |s.players|, 0, s.players[0]);
    OutAndNotOut(s.players);
    var stays := (p: Player) => 1 - IsOut()(p);
    var w := SumPositive(stays, s.players);
    assert !s.players[w].loser;
    AtMostOneLeft(players, s);
  }

  /** All threads test the loop condition on the same n: once one has left, none stays in the game. */
  lemma LeaveTogether(players: nat, s: State, gone: nat)
    requires players >= 1 && Reachable(players, s) && gone < |s.players| && s.players[gone].pc.Done?
    ensures s.mem.n == 1
    ensures forall i :: 0 <= i < |s.players| ==> s.players[i].pc.Done? || s.players[i].pc.AtLoop?
  {
    ReachableInv(players, s);
    SomeoneSurvives(players, s);
    var f :| PhaseInv(s, f);
    assert PlayerOk(s.mem, |s.players|, gone, s.players[gone]);
    forall i | 0 <= i < |s.players| ensures s.players[i].pc.Done? || s.players[i].pc.AtLoop? {
      assert PlayerOk(s.mem, |s.players|, i, s.players[i]);
    }
  }

  /** No thread is ever left alone at a barrier: until all have ended, one of them can go on. */
  lemma NeverStuck(players: nat, s: State) returns (a: Action)
    requires players >= 1 && Reachable(players, s)
    requires exists i :: 0 <= i < |s.players| && !s.players[i].pc.Done?
    ensures Step(s, a).Some?
  {
    ReachableInv(players, s);
    var f :| PhaseInv(s, f);
    var i :| 0 <= i < |s.players| && !s.players[i].pc.InBarrier?;
    if s.players[i].pc.Done? {
      LeaveTogether(players, s, i);
      i :| 0 <= i < |s.players| && !s.players[i].pc.Done?;
    }
    a := Action(i, 1, i);
    hide PlayerOk, PhaseInv;
  }

  /** At most players - 1 rounds of a game are not ties. */
  lemma FewDecisiveRounds(players: nat, s: State)
    requires players >= 1 && Reachable(players, s)
    ensures s.mem.decisive <= players - 1
  {
    ReachableInv(players, s);
    var f :| PhaseInv(s, f);
    SomeoneSurvives(players, s);
    var i :| 0 <= i < |s.players| && !s.players[i].pc.InBarrier?;
    PhaseRange(s, i);
    if f == 2 { assert PlayerOk(s.mem, |s.players|, s.mem.scanner, s.players[s.mem.scanner]); }
  }

  // ---------------------------------------------------------------------------
  // One round
  // ---------------------------------------------------------------------------

  /** All players wait for the second barrier to open: max and count describe the rolls of the survivors. */
  lemma ElectionIsRight(players: nat, s: State)
    requires players >= 1 && Reachable(players, s)
    requires forall i :: 0 <= i < |s.players| ==> s.players[i].pc == AtBarrier(2) || s.players[i].pc == InBarrier(2)
    ensures forall i :: 0 <= i < |s.players| && !s.players[i].loser ==> 1 <= s.players[i].roll <= s.mem.max
    ensures s.mem.count == SumBy(IsHolder(s.mem.max), s.players) >= 1
  {
    ReachableInv(players, s);
    ElectionOk(s);
  }

  lemma ElectionOk(s: State)
    requires Inv(s)
    requires forall i :: 0 <= i < |s.players| ==> s.players[i].pc == AtBarrier(2) || s.players[i].pc == InBarrier(2)
    ensures forall i :: 0 <= i < |s.players| && !s.players[i].loser ==> 1 <= s.players[i].roll <= s.mem.max
    ensures s.mem.count == SumBy(IsHolder(s.mem.max), s.players) >= 1
  {
    var f :| PhaseInv(s, f);
    assert Phase(s.players[0].pc) == 2;
    forall i | 0 <= i < |s.players|
      ensures !s.players[i].pc.Removing? && (if s.players[i].loser then s.players[i].roll == 0 else s.players[i].roll >= 1)
      ensures s.mem.n >= 2
    {
      assert PlayerOk(s.mem, |s.players|, i, s.players[i]);
    }
    hide PlayerOk, PhaseInv, InPhase, Best, SumBy;
    ScannedRolls(s);
  }

  lemma ScannedRolls(s: State)
    requires |s.players| >= 1 && Counted(s) && s.mem.base == s.mem.n >= 2 && Scanned(s, |s.players|)
    requires forall i :: 0 <= i < |s.players| ==>
               !s.players[i].pc.Removing? && (if s.players[i].loser then s.players[i].roll == 0 else s.players[i].roll >= 1)
    ensures forall i :: 0 <= i < |s.players| ==> s.players[i].roll <= s.mem.max
    ensures s.mem.count == SumBy(IsHolder(s.mem.max), s.players) >= 1
  {
    var rolls := Rolls(s.players);
    assert rolls[..|s.players|] == rolls;
    BestIsTheMaximum(rolls);
    forall i | 0 <= i < |s.players| ensures s.players[i].roll <= s.mem.max { assert rolls[i] <= s.mem.max; }
    var t := State(s.mem, seq(|s.players|, i requires 0 <= i < |s.players| => s.players[i].(pc := Judging)));
    hide Best, SumBy;
    ScanCountsHolders(s, t);
    SumEq(IsHolder(s.mem.max), s.players, IsHolder(s.mem.max), t.players);
  }

  /** The outcome of the racy elimination: nobody in a tie, otherwise min(m, n-m) to m of the m holders. */
  lemma EliminationInterval(players: nat, s: State)
    requires players >= 1 && Reachable(players, s)
    requires forall i :: 0 <= i < |s.players| ==> Phase(s.players[i].pc) == 4
    ensures var (m, n, e) := (s.mem.count, s.mem.base, s.mem.base - s.mem.n);
            if m == n then e == 0 else 1 <= m < n && Min(m, n - m) <= e <= m
  {
    ReachableInv(players, s);
    var f :| PhaseInv(s, f);
    assert Phase(s.players[0].pc) == 4;
  }

  /** Only holders of the maximum remove themselves. */
  lemma OnlyHoldersLeave(players: nat, s: State, a: Action)
    requires players >= 1 && Reachable(players, s) && Step(s, a).Some? && Step(s, a).value.mem.n != s.mem.n
    ensures s.players[a.i].roll == s.mem.max && !s.players[a.i].loser
    ensures Step(s, a).value.mem.n == s.mem.n - 1
  {
    ReachableInv(players, s);
    var f :| PhaseInv(s, f);
    assert PlayerOk(s.mem, |s.players|, a.i, s.players[a.i]);
    if !Alone(s, a) {
      ArrivalOutcome(s, a, f);
    }
  }
}
