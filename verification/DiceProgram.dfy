/** The dice game on its shared memory: the rolls, the number of survivors and the result of the election. */
module DiceProgram {
  import opened Runs
  import opened DiceGame
  import opened DiceResults

  class Game {
    const rolls: array<nat>
    const losers: array<bool>
    const pcs: array<Pc>
    var n: int
    var max: nat
    var count: nat
    ghost var base: int
    ghost var scanner: nat
    ghost var ties: nat
    ghost var decisive: nat

    ghost predicate Valid()
      reads this
    {
      pcs.Length == rolls.Length == losers.Length
    }

    ghost function Mem(): Memory
      reads this
    {
      Memory(n, max, count, base, scanner, ties, decisive)
    }

    ghost function Players(): seq<Player>
      requires Valid()
      reads this, rolls, losers, pcs
    {
      seq(pcs.Length, i requires 0 <= i < pcs.Length reads this, rolls, losers, pcs requires Valid() =>
        Player(pcs[i], losers[i], rolls[i]))
    }

    ghost function Abs(): State
      requires Valid()
      reads this, rolls, losers, pcs
    {
      State(Mem(), Players())
    }

    constructor (players: nat)
      ensures Valid() && Abs() == Init(players) && pcs.Length == players
      ensures fresh(rolls) && fresh(losers) && fresh(pcs)
    {
      rolls := new nat[players](_ => 0);
      losers := new bool[players](_ => false);
      pcs := new Pc[players](_ => AtLoop);
      n, max, count := players, 0, 0;
      base, scanner, ties, decisive := players, 0, 0, 0;
    }

    /** The next operation of player i, unless the barrier blocks it or it has left. */
    method Play(i: nat, roll: nat, serial: nat) returns (moved: bool)
      requires Valid()
      modifies this, rolls, losers, pcs
      ensures moved <==> Step(old(Abs()), Action(i, roll, serial)).Some?
      ensures Abs() == if moved then Step(old(Abs()), Action(i, roll, serial)).value else old(Abs())
    {
      if i >= pcs.Length || serial >= pcs.Length { return false; }
      if pcs[i].AtBarrier? {
        Wait(i, pcs[i].k, serial);
        moved := true;
      } else {
        moved := Operate(i, roll);
      }
    }

    method Operate(i: nat, roll: nat) returns (moved: bool)
      requires Valid() && i < pcs.Length && !pcs[i].AtBarrier?
      modifies this, rolls, losers, pcs
      ensures moved <==> Local(old(Mem()), pcs.Length, old(Players())[i], roll, Seen(old(Abs()), old(Players())[i])).Some?
      ensures moved ==> Local(old(Mem()), pcs.Length, old(Players())[i], roll, Seen(old(Abs()), old(Players())[i]))
                        == Some((Mem(), Players()[i]))
      ensures Players() == old(Players())[i := Players()[i]]
      ensures !moved ==> Abs() == old(Abs())
    {
      match pcs[i] {
        case AtLoop => pcs[i] := if n > 1 then (if losers[i] then AtBarrier(1) else Rolling) else Done;
        case Rolling =>
          if !(1 <= roll <= 6) { return false; }
          rolls[i] := roll;
          pcs[i] := AtBarrier(1);
        case Resetting =>
          max, count := 0, 0;
          pcs[i] := Scanning(0);
        case Scanning(k) => Scan(i, k);
        case Judging =>
          pcs[i] := if !losers[i] && count != n && rolls[i] == max then Decrementing else AtBarrier(3);
        case Decrementing =>
          n := n - 1;
          pcs[i] := Removing;
        case Removing =>
          rolls[i] := 0;
          losers[i] := true;
          pcs[i] := AtBarrier(3);
        case _ => return false;
      }
      return true;
    }

    /** One turn of the elected player's loop over the rolls, or its end. */
    method Scan(i: nat, k: nat)
      requires Valid() && i < pcs.Length && pcs[i] == Scanning(k)
      modifies `max, `count, pcs
      ensures Local(old(Mem()), pcs.Length, old(Players())[i], 0, Seen(old(Abs()), old(Players())[i])) == Some((Mem(), Players()[i]))
      ensures pcs[..] == old(pcs[..])[i := pcs[i]]
    {
      if k < rolls.Length {
        if rolls[k] > max {
          max := rolls[k];
          count := 1;
        } else if rolls[k] == max {
          count := count + 1;
        }
        pcs[i] := Scanning(k + 1);
      } else {
        pcs[i] := AtBarrier(2);
      }
    }

    /** All players have arrived at barrier k. */
    method Open(k: nat, serial: nat)
      requires Valid()
      modifies `base, `scanner, `ties, `decisive, pcs
      ensures Mem() == Opened(old(Mem()), k, serial)
      ensures forall j :: 0 <= j < pcs.Length ==> pcs[j] == Released(old(pcs[..])[j], j == serial)
    {
      if k == 1 {
        base, scanner := n, serial;
      } else if k == 2 {
        if count == n { ties := ties + 1; } else { decisive := decisive + 1; }
      }
      Release(serial);
    }

    /** pthread_barrier_wait number k of the round: the last player to arrive releases all. */
    method Wait(i: nat, k: nat, serial: nat)
      requires Valid() && i < pcs.Length
      modifies `base, `scanner, `ties, `decisive, pcs
      ensures Abs() == Arrive(old(Abs()), i, k, serial)
    {
      pcs[i] := InBarrier(k);
      ghost var arrived := Players();
      assert arrived == old(Players())[i := old(Players())[i].(pc := InBarrier(k))];
      assert forall j :: 0 <= j < pcs.Length ==> arrived[j].pc == pcs[j];
      var full := EverybodyWaits();
      assert full <==> forall j :: 0 <= j < |arrived| ==> arrived[j].pc.InBarrier?;
      if full {
        Open(k, serial);
        assert Players() == Arrive(old(Abs()), i, k, serial).players;
      }
    }

    method EverybodyWaits() returns (all: bool)
      ensures all <==> forall j :: 0 <= j < pcs.Length ==> pcs[j].InBarrier?
    {
      for j := 0 to pcs.Length
        invariant forall l :: 0 <= l < j ==> pcs[l].InBarrier?
      {
        if !pcs[j].InBarrier? { return false; }
      }
      return true;
    }

    method Release(serial: nat)
      modifies pcs
      ensures forall j :: 0 <= j < pcs.Length ==> pcs[j] == Released(old(pcs[..])[j], j == serial)
    {
      for j := 0 to pcs.Length
        invariant forall l :: 0 <= l < j ==> pcs[l] == Released(old(pcs[l]), l == serial)
        invariant forall l :: j <= l < pcs.Length ==> pcs[l] == old(pcs[l])
      {
        pcs[j] := Released(pcs[j], j == serial);
      }
    }
  }

  /**
   A whole game under an arbitrary schedule, in which blocked players skip their turns: whether all have ended,
   and who won, which is then exactly one of them.
   */
  method PlayGame(players: nat, schedule: seq<Action>) returns (finished: bool, winners: seq<nat>)
    requires players >= 1
    ensures var s := Driven(Stepper(), Init(players), schedule);
            && |s.players| == players
            && (finished <==> forall i :: 0 <= i < players ==> s.players[i].pc.Done?)
            && (forall i: nat :: i in winners <==> i < players && s.players[i].pc.Done? && !s.players[i].loser)
    ensures |winners| <= 1 && (finished ==> |winners| == 1)
  {
    var game := new Game(players);
    hide Step, Init;
    for k := 0 to |schedule|
      invariant fresh(game) && fresh(game.rolls) && fresh(game.losers) && fresh(game.pcs)
      invariant game.Valid() && game.pcs.Length == players
      invariant game.Abs() == Driven(Stepper(), Init(players), schedule[..k])
    {
      DrivenNext(Stepper(), Init(players), schedule, k);
      var a := schedule[k];
      var moved := game.Play(a.i, a.roll, a.serial);
    }
    assert schedule[..|schedule|] == schedule;
    ghost var s := game.Abs();
    assert forall j :: 0 <= j < players ==> s.players[j] == Player(game.pcs[j], game.losers[j], game.rolls[j]);
    finished, winners := true, [];
    for i := 0 to players
      invariant finished <==> forall j :: 0 <= j < i ==> s.players[j].pc.Done?
      invariant forall j :: 0 <= j < |winners| ==>
                  winners[j] < i && s.players[winners[j]].pc.Done? && !s.players[winners[j]].loser
      invariant forall j :: 0 <= j < i && s.players[j].pc.Done? && !s.players[j].loser ==> j in winners
      invariant forall j, l :: 0 <= j < l < |winners| ==> winners[j] < winners[l]
    {
      if !game.pcs[i].Done? {
        finished := false;
      } else if !game.losers[i] {
        assert forall j :: j in winners ==> j in winners + [i];
        winners := winners + [i];
      }
    }
    DrivenLeads(Stepper(), Init(players), schedule);
    OnlyOneWins(players, s, winners);
  }

  lemma OnlyOneWins(players: nat, s: State, winners: seq<nat>)
    requires players >= 1 && Reachable(players, s)
    requires forall i: nat :: i in winners <==> i < |s.players| && s.players[i].pc.Done? && !s.players[i].loser
    requires forall j, l :: 0 <= j < l < |winners| ==> winners[j] < winners[l]
    ensures |winners| <= 1
    ensures (forall i :: 0 <= i < |s.players| ==> s.players[i].pc.Done?) ==> |winners| == 1
  {
    assert |winners| > 1 ==> winners[0] in winners && winners[1] in winners && winners[0] < winners[1];
    OneWinnerAtMost(players, s);
    if forall i :: 0 <= i < |s.players| ==> s.players[i].pc.Done? {
      ExactlyOneWinner(players, s);
      var w :| 0 <= w < |s.players| && !s.players[w].loser;
      assert w in winners;
    }
  }

  /** No two players ever print that they won: with one of them out of the loop, all others have lost. */
  lemma OneWinnerAtMost(players: nat, s: State)
    requires players >= 1 && Reachable(players, s)
    ensures forall i, j :: 0 <= i < j < |s.players| ==>
              !(s.players[i].pc.Done? && !s.players[i].loser && s.players[j].pc.Done? && !s.players[j].loser)
  {
    forall i, j | 0 <= i < j < |s.players|
      ensures !(s.players[i].pc.Done? && !s.players[i].loser && s.players[j].pc.Done? && !s.players[j].loser)
    {
      if s.players[i].pc.Done? {
        LeaveTogether(players, s, i);
        AtMostOneLeft(players, s);
      }
    }
  }
}
