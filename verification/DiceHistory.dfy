/** What the rolls and the losers of a game of dice say about the run that led to them. */
module DiceHistory {
  import opened Runs
  import opened Sums
  import opened DiceGame
  import opened DiceInvariant
  import opened DiceResults

  // ---------------------------------------------------------------------------
  // Who takes itself off n
  // ---------------------------------------------------------------------------

  /** Player i decrements n. */
  function Departure(i: nat): (State, Action) -> int {
    (s: State, a: Action) => if a.i == i && i < |s.players| && s.players[i].pc.Decrementing? then 1 else 0
  }

  function Departures(i: nat, s: State, acts: seq<Action>): int { Gained(Stepper(), Departure(i), s, acts) }

  lemma OutTurn(s: State, a: Action, i: nat)
    requires Inv(s) && Step(s, a).Some? && i < |s.players|
    ensures |Step(s, a).value.players| == |s.players|
    ensures IsOut()(Step(s, a).value.players[i]) == IsOut()(s.players[i]) + Departure(i)(s, a)
  {
    assert PlayerOk(s.mem, |s.players|, i, s.players[i]);
    if !Alone(s, a) {
      var f :| PhaseInv(s, f);
      InPhaseOf(s, f);
      ArrivalOutcome(s, a, f);
    }
  }

  /** A player is off n exactly if it has decremented n, and it does so at most once. */
  lemma {:induction false} OutByDeparture(i: nat, s: State, acts: seq<Action>)
    requires Inv(s) && i < |s.players| && Exec(Stepper(), s, acts).Some?
    ensures var t := Exec(Stepper(), s, acts).value;
            && Inv(t) && |t.players| == |s.players|
            && IsOut()(t.players[i]) == IsOut()(s.players[i]) + Departures(i, s, acts)
    decreases |acts|
  {
    if acts != [] {
      StepKeepsInv(s, acts[0]);
      OutTurn(s, acts[0], i);
      hide Inv, Step, IsOut, Departure;
      OutByDeparture(i, Step(s, acts[0]).value, acts[1..]);
    }
  }

  /** When a game has ended, the winner is the player that never decremented n; all others did so once. */
  lemma WinnerNeverLeft(players: nat, acts: seq<Action>) returns (winner: nat)
    requires players >= 1 && Exec(Stepper(), Init(players), acts).Some?
    requires forall i :: 0 <= i < |Exec(Stepper(), Init(players), acts).value.players| ==>
               Exec(Stepper(), Init(players), acts).value.players[i].pc.Done?
    ensures winner < players && Departures(winner, Init(players), acts) == 0
    ensures forall i: nat :: i < players && i != winner ==> Departures(i, Init(players), acts) == 1
    ensures var t := Exec(Stepper(), Init(players), acts).value;
            |t.players| == players && forall i :: 0 <= i < players ==> (t.players[i].loser <==> i != winner)
  {
    var t := Exec(Stepper(), Init(players), acts).value;
    InitInv(players);
    assert Leads(Stepper(), Init(players), t);
    SizeOfInit(players);
    ReachableInv(players, t);
    ExactlyOneWinner(players, t);
    winner :| 0 <= winner < players && !t.players[winner].loser;
    forall i: nat | i < players
      ensures Departures(i, Init(players), acts) == if i == winner then 0 else 1
      ensures t.players[i].loser <==> i != winner
    {
      OutByDeparture(i, Init(players), acts);
      StartsIn(players, i);
    }
  }

  lemma StartsIn(players: nat, i: nat)
    requires i < players
    ensures IsOut()(Init(players).players[i]) == 0
  {
  }

  // ---------------------------------------------------------------------------
  // What players have rolled
  // ---------------------------------------------------------------------------

  /** The last roll of player i in a run, if it has rolled, or else what it had before. */
  function Thrown(i: nat, s: State, acts: seq<Action>, before: nat): nat
    decreases |acts|
  {
    if acts == [] || Step(s, acts[0]).None? then before
    else
      var rolls := acts[0].i == i && i < |s.players| && s.players[i].pc.Rolling?;
      Thrown(i, Step(s, acts[0]).value, acts[1..], if rolls then acts[0].roll else before)
  }

  lemma RollTurn(s: State, a: Action, i: nat)
    requires Inv(s) && Step(s, a).Some? && i < |s.players|
    ensures var (p, q) := (s.players[i], Step(s, a).value.players[i]);
            && (p.loser ==> q.loser)
            && (!q.loser ==> q.roll == if a.i == i && p.pc.Rolling? then a.roll else p.roll)
            && (a.i == i && p.pc.Rolling? ==> 1 <= a.roll <= 6)
            && (q.roll == p.roll || q.roll == 0 || q.roll == a.roll <= 6)
  {
    if !Alone(s, a) {
      var f :| PhaseInv(s, f);
      InPhaseOf(s, f);
      ArrivalOutcome(s, a, f);
    }
  }

  /** The entry of a player that has not lost is what it rolled last. */
  lemma {:induction false} RollsAreThrown(i: nat, s: State, acts: seq<Action>)
    requires Inv(s) && i < |s.players| && Exec(Stepper(), s, acts).Some?
    ensures var t := Exec(Stepper(), s, acts).value;
            && |t.players| == |s.players|
            && (s.players[i].loser ==> t.players[i].loser)
            && (!t.players[i].loser ==> t.players[i].roll == Thrown(i, s, acts, s.players[i].roll))
    decreases |acts|
  {
    if acts != [] {
      var u := Step(s, acts[0]).value;
      StepKeepsInv(s, acts[0]);
      OutTurn(s, acts[0], i);
      RollTurn(s, acts[0], i);
      hide Inv, Step, IsOut;
      RollsAreThrown(i, u, acts[1..]);
    }
  }

  /** Every entry is a face of a die, or 0. */
  lemma {:induction false} FacesOnly(i: nat, s: State, acts: seq<Action>)
    requires Inv(s) && i < |s.players| && s.players[i].roll <= 6 && Exec(Stepper(), s, acts).Some?
    ensures i < |Exec(Stepper(), s, acts).value.players| && Exec(Stepper(), s, acts).value.players[i].roll <= 6
    decreases |acts|
  {
    if acts != [] {
      StepKeepsInv(s, acts[0]);
      OutTurn(s, acts[0], i);
      RollTurn(s, acts[0], i);
      hide Inv, Step, IsOut;
      FacesOnly(i, Step(s, acts[0]).value, acts[1..]);
    }
  }

  /** A player that is to roll can roll each of the six faces and nothing else, and others' entries stay. */
  lemma SixFaces(s: State, a: Action)
    requires a.i < |s.players| && a.serial < |s.players| && s.players[a.i].pc.Rolling?
    ensures Step(s, a).Some? <==> 1 <= a.roll <= 6
    ensures Step(s, a).Some? ==>
              Step(s, a).value == s.(players := s.players[a.i := s.players[a.i].(pc := AtBarrier(1), roll := a.roll)])
  {
  }

  /** When the first barrier of a round opens, the serial thread is elected and nobody else. */
  lemma ExactlyOneElected(players: nat, s: State, a: Action)
    requires players >= 1 && Reachable(players, s) && Opens(s, a.i) && s.players[a.i].pc == AtBarrier(1) && Step(s, a).Some?
    ensures var t := Step(s, a).value;
            && a.serial < |t.players| == players
            && forall i :: 0 <= i < players ==> t.players[i].pc == if i == a.serial then Resetting else AtBarrier(2)
  {
    ReachableInv(players, s);
    var f :| PhaseInv(s, f);
    InPhaseOf(s, f);
    ArrivalOutcome(s, a, f);
    hide Inv, PhaseInv;
  }
}
