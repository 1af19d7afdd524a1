/** Exactly which eliminations happen: every number of the interval, from the start of a game of any size. */
module DiceOutcomes {
  import opened Runs
  import opened Sums
  import opened DiceGame
  import opened DiceInvariant
  import opened DiceResults
  import opened DiceDrives
  import opened DiceEndings

  // ---------------------------------------------------------------------------
  // The elimination as a race
  // ---------------------------------------------------------------------------

  /** The elimination as a race: holders that have not looked at n, holders about to decrement it, and n. */
  datatype Race = Race(untested: nat, passed: nat, n: int)

  datatype Move = Judge | Leave

  function RaceStep(count: nat): (Race, Move) -> Option<Race> {
    (r: Race, x: Move) =>
      if x.Judge? then
        if r.untested == 0 then None
        else Some(Race(r.untested - 1, if r.n != count then r.passed + 1 else r.passed, r.n))
      else
        if r.passed == 0 then None else Some(Race(r.untested, r.passed - 1, r.n - 1))
  }

  function Times(x: Move, k: nat): seq<Move> { seq(k, _ => x) }

  lemma {:induction false} Tests(count: nat, r: Race, k: nat)
    requires k <= r.untested
    ensures Exec(RaceStep(count), r, Times(Judge, k)) ==
            Some(Race(r.untested - k, if r.n != count then r.passed + k else r.passed, r.n))
    decreases k
  {
    if k > 0 {
      assert Times(Judge, k)[1..] == Times(Judge, k - 1);
      Tests(count, RaceStep(count)(r, Judge).value, k - 1);
    }
  }

  lemma {:induction false} Departures(count: nat, r: Race, k: nat)
    requires k <= r.passed
    ensures Exec(RaceStep(count), r, Times(Leave, k)) == Some(Race(r.untested, r.passed - k, r.n - k))
    decreases k
  {
    if k > 0 {
      assert Times(Leave, k)[1..] == Times(Leave, k - 1);
      Departures(count, RaceStep(count)(r, Leave).value, k - 1);
    }
  }

  /** A schedule of the race after which exactly e of the m holders have left. */
  function RaceFor(m: nat, n: nat, e: nat): seq<Move>
    requires m < n && Min(m, n - m) <= e <= m
  {
    if e == m then Times(Judge, m) + Times(Leave, m)
    else Times(Judge, e) + Times(Leave, n - m) + Times(Judge, m - e) + Times(Leave, e - (n - m))
  }

  lemma RaceReaches(m: nat, n: nat, e: nat)
    requires m < n && Min(m, n - m) <= e <= m
    ensures Exec(RaceStep(m), Race(m, 0, n), RaceFor(m, n, e)) == Some(Race(0, 0, n - e))
  {
    var step := RaceStep(m);
    var r0 := Race(m, 0, n);
    Tests(m, r0, e);
    var r1 := Race(m - e, e, n);
    if e == m {
      Departures(m, r1, m);
      ExecAppend(step, r0, Times(Judge, m), Times(Leave, m));
    } else {
      var r2 := Race(m - e, e - (n - m), m);
      var r3 := Race(0, e - (n - m), m);
      Departures(m, r1, n - m);
      Tests(m, r2, m - e);
      Departures(m, r3, e - (n - m));
      ExecAppend(step, r0, Times(Judge, e), Times(Leave, n - m));
      ExecAppend(step, r0, Times(Judge, e) + Times(Leave, n - m), Times(Judge, m - e));
      ExecAppend(step, r0, Times(Judge, e) + Times(Leave, n - m) + Times(Judge, m - e), Times(Leave, e - (n - m)));
    }
  }

  predicate Untested(max: nat, p: Player) { p.pc.Judging? && !p.loser && p.roll == max }

  function IsUntested(max: nat): Player -> int { (p: Player) => if Untested(max, p) then 1 else 0 }

  function IsPassed(): Player -> int { (p: Player) => if p.pc.Decrementing? then 1 else 0 }

  /** The race that a state of the third part of a round stands for. */
  function View(s: State): Race {
    var (u, p) := (SumBy(IsUntested(s.mem.max), s.players), SumBy(IsPassed(), s.players));
    Race(if u >= 0 then u else 0, if p >= 0 then p else 0, s.mem.n)
  }

  lemma ViewCounts(s: State)
    ensures View(s).untested == SumBy(IsUntested(s.mem.max), s.players)
    ensures View(s).passed == SumBy(IsPassed(), s.players)
  {
    SumNonNeg(IsUntested(s.mem.max), s.players);
    SumNonNeg(IsPassed(), s.players);
  }

  /** Every move of the race is a step of some player. */
  lemma MoveInGame(s: State, x: Move) returns (a: Action)
    requires RaceStep(s.mem.count)(View(s), x).Some?
    ensures Step(s, a).Some? && Alone(s, a) && Phase(s.players[a.i].pc) == 3
    ensures View(Step(s, a).value) == RaceStep(s.mem.count)(View(s), x).value
    ensures Step(s, a).value.mem == s.mem.(n := Step(s, a).value.mem.n)
  {
    ViewCounts(s);
    var i: nat;
    if x.Judge? {
      i := SumPositive(IsUntested(s.mem.max), s.players);
    } else {
      i := SumPositive(IsPassed(), s.players);
    }
    a := Action(i, 1, i);
    var t := Step(s, a).value;
    ViewCounts(t);
    SumUpdate(IsUntested(s.mem.max), s.players, i, t.players[i]);
    SumUpdate(IsPassed(), s.players, i, t.players[i]);
  }

  lemma {:induction false} RaceInGame(s: State, moves: seq<Move>) returns (acts: seq<Action>)
    requires Inv(s) && InPhase(s, 3) && Exec(RaceStep(s.mem.count), View(s), moves).Some?
    ensures Exec(Stepper(), s, acts).Some?
    ensures var t := Exec(Stepper(), s, acts).value;
            && Inv(t) && InPhase(t, 3) && |t.players| == |s.players|
            && View(t) == Exec(RaceStep(s.mem.count), View(s), moves).value
            && t.mem == s.mem.(n := t.mem.n)
    decreases |moves|
  {
    if moves == [] {
      acts := [];
    } else {
      var a := MoveInGame(s, moves[0]);
      StepKeepsInv(s, a);
      AloneBasics(s, a, 3);
      hide Inv, InPhase, Step, View;
      var rest := RaceInGame(Step(s, a).value, moves[1..]);
      acts := [a] + rest;
      assert acts[1..] == rest;
    }
  }

  /** The second barrier opens: all holders of the maximum are still to judge. */
  lemma RaceBegins(s: State, last: nat)
    requires Inv(s) && AtElection(s, last) && s.mem.count < s.mem.n
    ensures var a := Action(last, 1, last);
            Step(s, a).Some? && View(Step(s, a).value) == Race(s.mem.count, 0, s.mem.n)
  {
    var a := Action(last, 1, last);
    Elect(s, last);
    ElectionOk(s);
    ArrivalOutcome(s, a, 2) by { PhaseAtElection(s, last); }
    var t := Step(s, a).value;
    hide Inv, Step, AtElection;
    ViewCounts(t);
    SumConst(IsPassed(), t.players, 0);
    SumEq(IsHolder(t.mem.max), s.players, IsUntested(t.mem.max), t.players);
  }

  lemma PhaseAtElection(s: State, last: nat)
    requires Inv(s) && AtElection(s, last)
    ensures InPhase(s, 2)
  {
    var f :| PhaseInv(s, f);
    assert Phase(s.players[last].pc) == f;
  }

  /** A finished race is a quiet elimination. */
  lemma FinishedRaceIsQuiet(s: State)
    requires InPhase(s, 3) && View(s).untested == 0 && View(s).passed == 0
    ensures Quiet(s)
  {
    ViewCounts(s);
    SumNonNeg(IsUntested(s.mem.max), s.players);
    SumNonNeg(IsPassed(), s.players);
    forall i | 0 <= i < |s.players|
      ensures !s.players[i].pc.Decrementing?
      ensures s.players[i].pc.Judging? && !s.players[i].loser ==> s.players[i].roll != s.mem.max
    {
      assert IsUntested(s.mem.max)(s.players[i]) <= 0 && IsPassed()(s.players[i]) <= 0;
    }
  }

  // ---------------------------------------------------------------------------
  // The interval is exact
  // ---------------------------------------------------------------------------

  /** The elimination that begins with the election about to be held in s is over in t. */
  predicate RoundOver(s: State, t: State) {
    && Elections(t) == Elections(s) + 1
    && |t.players| == |s.players|
    && forall i :: 0 <= i < |t.players| ==> Phase(t.players[i].pc) == 4
  }

  /**
   An election is about to be held in which m of the n survivors have the highest roll, and m < n: for every e
   with min(m, n-m) <= e <= m some schedule eliminates exactly e of them.
   */
  lemma EveryOutcomeHappens(s: State, last: nat, e: nat) returns (acts: seq<Action>)
    requires Inv(s) && AtElection(s, last) && s.mem.count < s.mem.n
    requires Min(s.mem.count, s.mem.n - s.mem.count) <= e <= s.mem.count
    ensures Exec(Stepper(), s, acts).Some?
    ensures var t := Exec(Stepper(), s, acts).value; Inv(t) && RoundOver(s, t) && t.mem.count == s.mem.count && t.mem.n == s.mem.n - e
  {
    var a := Action(last, 1, last);
    Elect(s, last);
    RaceBegins(s, last);
    ExecOne(Stepper(), s, a);
    var t := Step(s, a).value;
    hide Inv, InPhase, Step, AtElection, View, Min;
    RaceReaches(s.mem.count, s.mem.n, e);
    var xs := RaceInGame(t, RaceFor(s.mem.count, s.mem.n, e));
    var u := Exec(Stepper(), t, xs).value;
    FinishedRaceIsQuiet(u);
    var ys := ToEndOfElimination(u);
    ViewOfN(u);
    Chained(t, xs, ys);
    Chained(s, [a], xs + ys);
    acts := [a] + (xs + ys);
    PhaseFour(Exec(Stepper(), s, acts).value);
  }

  lemma ViewOfN(s: State)
    ensures View(s).n == s.mem.n
  {
  }

  lemma PhaseFour(s: State)
    requires InPhase(s, 4)
    ensures forall i :: 0 <= i < |s.players| ==> Phase(s.players[i].pc) == 4
  {
  }

  // ---------------------------------------------------------------------------
  // When all holders are eliminated
  // ---------------------------------------------------------------------------

  /** What remains known of an election until its elimination is over. */
  ghost predicate Since(s: State, t: State) {
    || t == s
    || (&& Inv(t) && |t.players| == |s.players| && Elections(t) >= Elections(s) + 1
        && (Elections(t) == Elections(s) + 1 && (InPhase(t, 3) || InPhase(t, 4)) ==>
              t.mem.base == s.mem.n && t.mem.count == s.mem.count))
  }

  lemma SinceKept(s: State, last: nat, t: State, a: Action)
    requires Inv(s) && AtElection(s, last) && Since(s, t) && Step(t, a).Some?
    ensures Since(s, Step(t, a).value)
  {
    if t == s {
      ElectionStep(s, last, a);
    } else {
      if !Elects(t, a) { LaterStep(t, a); }
      StepKeepsInv(t, a);
      StepProgress(t, a);
    }
    hide Inv, Step, AtElection, InPhase, Elects;
  }

  lemma ElectionStep(s: State, last: nat, a: Action)
    requires Inv(s) && AtElection(s, last) && Step(s, a).Some?
    ensures Since(s, Step(s, a).value)
  {
    assert a.i == last;
    PhaseAtElection(s, last);
    StepKeepsInv(s, a);
    ArrivalOutcome(s, a, 2);
    hide Inv;
  }

  lemma LaterStep(t: State, a: Action)
    requires Inv(t) && Step(t, a).Some? && !Elects(t, a)
    ensures var u := Step(t, a).value;
            InPhase(u, 3) || InPhase(u, 4) ==>
              (InPhase(t, 3) || InPhase(t, 4)) && u.mem.base == t.mem.base && u.mem.count == t.mem.count
  {
    var f :| PhaseInv(t, f);
    InPhaseOf(t, f);
    assert PlayerOk(t.mem, |t.players|, a.i, t.players[a.i]);
    hide PhaseInv, Inv;
    PhaseRange(t, a.i);
    SinceElimination(t, a, f);
  }

  lemma SinceElimination(t: State, a: Action, f: nat)
    requires InPhase(t, f) && 1 <= f <= 4 && Step(t, a).Some? && PlayerOk(t.mem, |t.players|, a.i, t.players[a.i])
    requires !Elects(t, a)
    ensures var u := Step(t, a).value;
            InPhase(u, 3) || InPhase(u, 4) ==>
              (f == 3 || f == 4) && u.mem.base == t.mem.base && u.mem.count == t.mem.count
  {
    var u := Step(t, a).value;
    assert Phase(t.players[a.i].pc) == f;
    if Alone(t, a) {
      LocalBasics(t.mem, |t.players|, a.i, t.players[a.i], a.roll, Seen(t, t.players[a.i]));
      assert Phase(u.players[a.i].pc) == f;
      hide Local;
    } else {
      ArrivalOutcome(t, a, f);
      ArrivalPhase(t, a, f);
      var g := if Opens(t, a.i) then (if f == 4 then 1 else f + 1) else f;
      assert Phase(u.players[a.i].pc) == g;
      hide Step;
    }
  }

  lemma SinceHolds(s: State, last: nat, acts: seq<Action>)
    requires Inv(s) && AtElection(s, last) && Exec(Stepper(), s, acts).Some?
    ensures Since(s, Exec(Stepper(), s, acts).value)
  {
    SinceStart(s);
    hide Step, Inv, AtElection, Since, Exec;
    forall u, a | Since(s, u) && Stepper()(u, a).Some? ensures Since(s, Stepper()(u, a).value) {
      SinceKept(s, last, u, a);
    }
    KeepsInvariant(Stepper(), u => Since(s, u), s, acts);
  }

  /** In every schedule the number eliminated lies in the interval. */
  lemma OutcomeInInterval(s: State, last: nat, acts: seq<Action>)
    requires Inv(s) && AtElection(s, last) && Exec(Stepper(), s, acts).Some? && RoundOver(s, Exec(Stepper(), s, acts).value)
    ensures var (m, n, e) := (s.mem.count, s.mem.n, s.mem.n - Exec(Stepper(), s, acts).value.mem.n);
            if m == n then e == 0 else 1 <= m < n && Min(m, n - m) <= e <= m
  {
    hide *;
    SinceHolds(s, last, acts);
    OutcomeOf(s, Exec(Stepper(), s, acts).value);
  }

  lemma SinceStart(s: State)
    ensures Since(s, s)
  {
  }

  lemma OutcomeOf(s: State, t: State)
    requires Since(s, t) && RoundOver(s, t)
    ensures var (m, n, e) := (s.mem.count, s.mem.n, s.mem.n - t.mem.n);
            if m == n then e == 0 else 1 <= m < n && Min(m, n - m) <= e <= m
  {
    var f :| PhaseInv(t, f);
    InPhaseOf(t, f);
    var i :| 0 <= i < |t.players| && !t.players[i].pc.InBarrier?;
    assert Phase(t.players[i].pc) == f == 4;
  }

  lemma SomeOutcome(s: State, last: nat) returns (acts: seq<Action>)
    requires Inv(s) && AtElection(s, last)
    ensures Exec(Stepper(), s, acts).Some? && RoundOver(s, Exec(Stepper(), s, acts).value)
  {
    var a := Action(last, 1, last);
    Elect(s, last);
    ExecOne(Stepper(), s, a);
    hide Inv, InPhase, Step, AtElection;
    var xs := ToEndOfElimination(Step(s, a).value);
    Chained(s, [a], xs);
    acts := [a] + xs;
    PhaseFour(Exec(Stepper(), s, acts).value);
  }

  ghost predicate AllHoldersLeave(s: State) {
    forall acts :: Exec(Stepper(), s, acts).Some? && RoundOver(s, Exec(Stepper(), s, acts).value) ==>
      Exec(Stepper(), s, acts).value.mem.n == s.mem.n - s.mem.count
  }

  lemma LeaveIfFew(s: State, last: nat)
    requires Inv(s) && AtElection(s, last) && 2 * s.mem.count <= s.mem.n
    ensures AllHoldersLeave(s)
  {
    forall acts | Exec(Stepper(), s, acts).Some? && RoundOver(s, Exec(Stepper(), s, acts).value)
      ensures Exec(Stepper(), s, acts).value.mem.n == s.mem.n - s.mem.count
    {
      hide Inv, AtElection, Step, RoundOver, Exec;
      OutcomeInInterval(s, last, acts);
    }
  }

  lemma StayIfMany(s: State, last: nat)
    requires Inv(s) && AtElection(s, last) && 2 * s.mem.count > s.mem.n
    ensures !AllHoldersLeave(s)
  {
    hide Inv, AtElection, Step, RoundOver, Exec;
    var acts := SomeOutcome(s, last);
    OutcomeInInterval(s, last, acts);
    if s.mem.count < s.mem.n {
      acts := EveryOutcomeHappens(s, last, s.mem.n - s.mem.count);
    }
    assert Exec(Stepper(), s, acts).value.mem.n != s.mem.n - s.mem.count;
  }

  /**
   An election is about to be held: all holders of the maximum are eliminated under every schedule exactly when
   they are at most half of the survivors.
   */
  lemma AllHoldersLeaveExactly(players: nat, s: State, last: nat)
    requires players >= 1 && Reachable(players, s) && AtElection(s, last)
    ensures AllHoldersLeave(s) <==> 2 * s.mem.count <= s.mem.n
  {
    ReachableInv(players, s);
    hide *;
    if 2 * s.mem.count <= s.mem.n { LeaveIfFew(s, last); } else { StayIfMany(s, last); }
  }

  // ---------------------------------------------------------------------------
  // These elections are held
  // ---------------------------------------------------------------------------

  /** The first m players roll 6, the others 1. */
  function Sixes(m: nat, players: nat): seq<nat> { seq(players, i => if i < m then 6 else 1) }

  lemma {:induction false} SixesCounted(m: nat, players: nat)
    requires m <= players
    ensures SumBy(Occurs(6), Sixes(m, players)) == m
  {
    var (high, low) := (seq<nat>(m, _ => 6), seq<nat>(players - m, _ => 1));
    assert Sixes(m, players) == high + low;
    SumAppend(Occurs(6), high, low);
    SumConst(Occurs(6), high, 1);
    SumConst(Occurs(6), low, 0);
  }

  /** In a game of any size, the first election can have any number of holders. */
  lemma FirstElection(players: nat, m: nat) returns (acts: seq<Action>, last: nat)
    requires 1 <= m <= players && players >= 2
    ensures Exec(Stepper(), Init(players), acts).Some?
    ensures var s := Exec(Stepper(), Init(players), acts).value;
            && Inv(s) && AtElection(s, last) && |s.players| == players
            && s.mem.n == players && s.mem.count == m && Elections(s) == 0
  {
    var (start, rolls) := (Init(players), Sixes(m, players));
    InitInv(players);
    assert FirstHalf(start) && RolledAll(start, rolls) && Elections(start) == 0;
    acts := ToElection(start, rolls);
    var s := Exec(Stepper(), start, acts).value;
    last :| AtElection(s, last);
    HoldersOfSixes(start, s, last, m);
  }

  lemma HoldersOfSixes(start: State, s: State, last: nat, m: nat)
    requires Inv(s) && AtElection(s, last) && SameLosers(start, s) && 1 <= m <= |s.players|
    requires forall i :: 0 <= i < |start.players| ==> !start.players[i].loser
    requires RolledAll(s, Sixes(m, |s.players|))
    ensures s.mem.count == m
  {
    var rolls := Sixes(m, |s.players|);
    ElectionOk(s);
    forall i | 0 <= i < |s.players| ensures s.players[i].roll == rolls[i] && !Out(s.players[i]) {
      assert Rolled(s.players[i], rolls[i]);
    }
    var h := SumPositive(IsHolder(s.mem.max), s.players);
    assert s.players[0].roll == 6 && s.mem.max == 6;
    SumEq(IsHolder(6), s.players, Occurs(6), rolls);
    SixesCounted(m, |s.players|);
  }

  /**
   From the start of a game of any size, for every number m of holders below it and every e with
   min(m, players-m) <= e <= m, a run in whose first round exactly e of m holders are eliminated.
   */
  lemma EveryFirstRoundHappens(players: nat, m: nat, e: nat) returns (acts: seq<Action>, t: State)
    requires 1 <= m < players && Min(m, players - m) <= e <= m
    ensures Exec(Stepper(), Init(players), acts) == Some(t)
    ensures Elections(t) == 1 && t.mem.count == m
    ensures |t.players| == players && t.mem.n == players - e && forall i :: 0 <= i < players ==> Phase(t.players[i].pc) == 4
  {
    hide Inv, AtElection, Step, Init, Min, Elections;
    var xs, last := FirstElection(players, m);
    var s := Exec(Stepper(), Init(players), xs).value;
    var ys := EveryOutcomeHappens(s, last, e);
    Chained(Init(players), xs, ys);
    acts := xs + ys;
    t := Exec(Stepper(), s, ys).value;
  }
}
