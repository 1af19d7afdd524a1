/** The simulation on its shared memory: the field, the work queue, the mutexes, the flags and where each bee is. */
module BeehiveProgram {
  import opened FlowerField
  import opened Runs
  import opened Beehive
  import opened BeehiveInvariant
  import opened BeehiveResults
  import opened BeehiveBear
  import BeeWork

  class Colony {
    const c: Config
    const hive: BeeWork.Hive
    const bees: array<Bee>
    var terminate: bool
    var destroyed: bool
    var queueOwner: Option<nat>
    var fieldOwner: Option<nat>
    var main: Main
    ghost var pushes: nat
    ghost var pops: nat
    ghost var bear: bool
    ghost var rounds: nat

    ghost predicate Valid()
      reads this, hive, hive.queue, hive.queue.spine, hive.field
    {
      hive.Valid() && hive.g == c.field && bees.Length == c.bees
    }

    ghost function Mem(): Memory
      reads this, hive, hive.queue, hive.queue.spine, hive.field
    {
      Memory(hive.field[..], hive.queue.Contents(), hive.collected, terminate, destroyed, queueOwner, fieldOwner, pushes, pops, bear)
    }

    ghost function Abs(): State
      reads this, hive, hive.queue, hive.queue.spine, hive.field, bees
    {
      State(Mem(), bees[..], main, rounds)
    }

    constructor (c: Config)
      ensures Valid() && this.c == c && Abs() == Init(c)
      ensures hive.queue.Contents() == [c.field.width * c.field.height / 2]
      ensures fresh(hive) && fresh(hive.field) && fresh(hive.queue) && fresh(hive.queue.Entries()) && fresh(bees)
    {
      this.c := c;
      hive := new BeeWork.Hive(c.field);
      bees := new Bee[c.bees](_ => AtLoop);
      terminate, destroyed, queueOwner, fieldOwner, main := false, false, None, None, ReadCount;
      pushes, pops, bear, rounds := 1, 0, false, 0;
    }

    /** The next operation of bee i, unless it is blocked; attack says whether bear_attack destroys the hive. */
    method Fly(i: nat, serial: nat, attack: bool) returns (moved: bool)
      requires Valid() && (i < c.bees ==> TaskOk(c, Mem(), bees[i]))
      modifies this, hive, hive.field, hive.queue, hive.queue.Entries(), bees
      ensures Valid() && fresh(hive.queue.Entries() - old(hive.queue.Entries()))
      ensures moved <==> Step(c, old(Abs()), BeeAct(i, serial, attack)).Some?
      ensures Abs() == if moved then Step(c, old(Abs()), BeeAct(i, serial, attack)).value else old(Abs())
    {
      if i >= bees.Length || serial >= bees.Length { return false; }
      if bees[i].AtBarrier1? {
        Wait(i, InBarrier1, serial);
        return true;
      }
      if bees[i].AtBarrier2? {
        Wait(i, InBarrier2, serial);
        return true;
      }
      if bees[i].AtQueueLock? || HoldsQueue(bees[i]) {
        moved := FetchTask(i);
      } else if bees[i].Flying? || HoldsField(bees[i]) {
        moved := Harvest(i);
      } else {
        moved := Decide(i, attack);
      }
    }

    /** The part of the loop under queue_mutex. */
    method FetchTask(i: nat) returns (moved: bool)
      requires Valid() && i < bees.Length && (bees[i].AtQueueLock? || HoldsQueue(bees[i]))
      modifies `queueOwner, `pops, hive.queue, bees
      ensures Valid() && hive.queue.Entries() <= old(hive.queue.Entries())
      ensures bees[..] == old(bees[..])[i := bees[i]]
      ensures moved <==> Local(c, old(Mem()), i, old(bees[i]), false).Some?
      ensures if moved then Local(c, old(Mem()), i, old(bees[i]), false) == Some((Mem(), bees[i])) else Abs() == old(Abs())
    {
      var empty := hive.queue.IsEmpty();
      match bees[i] {
        case AtQueueLock =>
          if queueOwner.Some? { return false; }
          queueOwner := Some(i);
          bees[i] := InQueue;
        case InQueue => bees[i] := if empty then AtQueueUnlock(None) else AtPop;
        case AtPop =>
          if empty { return false; }
          TakeTask(i);
        case AtQueueUnlock(task) =>
          queueOwner := None;
          bees[i] := if task.Some? then Flying(task.value) else AtBarrier1;
      }
      return true;
    }

    method TakeTask(i: nat)
      requires Valid() && i < bees.Length && bees[i].AtPop? && hive.queue.Contents() != []
      modifies `pops, hive.queue, bees
      ensures Valid() && hive.queue.Entries() <= old(hive.queue.Entries())
      ensures bees[..] == old(bees[..])[i := bees[i]]
      ensures Local(c, old(Mem()), i, old(bees[i]), false) == Some((Mem(), bees[i]))
    {
      ghost var before := hive.queue.Contents();
      var pos := hive.queue.Pop();
      assert before[0] == pos && before[1..] == hive.queue.Contents();
      pops := pops + 1;
      bees[i] := AtQueueUnlock(Some(pos));
    }

    /** The part of the loop under field_mutex. */
    method Harvest(i: nat) returns (moved: bool)
      requires Valid() && i < bees.Length && (bees[i].Flying? || HoldsField(bees[i])) && TaskOk(c, Mem(), bees[i])
      modifies `fieldOwner, `pushes, hive, hive.field, hive.queue, hive.queue.Entries(), bees
      ensures Valid() && fresh(hive.queue.Entries() - old(hive.queue.Entries()))
      ensures bees[..] == old(bees[..])[i := bees[i]]
      ensures moved <==> Local(c, old(Mem()), i, old(bees[i]), false).Some?
      ensures if moved then Local(c, old(Mem()), i, old(bees[i]), false) == Some((Mem(), bees[i])) else Abs() == old(Abs())
    {
      match bees[i] {
        case Flying(pos) =>
          if fieldOwner.Some? { return false; }
          fieldOwner := Some(i);
          bees[i] := InField(pos);
        case InField(pos) =>
          if hive.field[pos] {
            hive.field[pos] := false;
            bees[i] := Counting(pos);
          } else {
            bees[i] := AtFieldUnlock;
          }
        case Counting(pos) =>
          hive.collected := hive.collected + 1;
          bees[i] := Reporting(pos, 0);
        case Reporting(pos, k) =>
          if k >= 4 {
            bees[i] := AtFieldUnlock;
          } else {
            Report(i, pos, k);
          }
        case AtFieldUnlock =>
          fieldOwner := None;
          bees[i] := AtBarrier1;
      }
      return true;
    }

    /** Push q if it has nectar. */
    method PushReport(q: nat)
      requires Valid() && (q == NO_POSITION || q < c.field.Size())
      modifies `pushes, hive.queue, hive.queue.Entries()
      ensures Valid() && fresh(hive.queue.Entries() - old(hive.queue.Entries()))
      ensures Mem() == Reported(old(Mem()), q)
    {
      hive.ReportOne(q);
      hide NectarAt;
      if NectarAt(hive.field[..], q) { pushes := pushes + 1; }
    }

    method Report(i: nat, pos: nat, k: nat)
      requires Valid() && i < bees.Length && bees[i] == Reporting(pos, k) && k < 4 && pos < c.field.Size()
      modifies `pushes, hive.queue, hive.queue.Entries(), bees
      ensures Valid() && fresh(hive.queue.Entries() - old(hive.queue.Entries()))
      ensures bees[..] == old(bees[..])[i := bees[i]]
      ensures Local(c, old(Mem()), i, old(bees[i]), false) == Some((Mem(), bees[i]))
    {
      BeeWork.ReportedInside(c.field, hive.field[..], pos, k);
      ReportingStep(c, Mem(), i, pos, k);
      hide Positions, Local, Reported, NectarAt;
      PushReport(Positions(c.field, pos)[k]);
      bees[i] := Reporting(pos, k + 1);
    }

    /** The loop test, and what the serial bee does between the barriers. */
    method Decide(i: nat, attack: bool) returns (moved: bool)
      requires Valid() && i < bees.Length && !bees[i].AtBarrier1? && !bees[i].AtBarrier2?
      requires !bees[i].AtQueueLock? && !HoldsQueue(bees[i]) && !bees[i].Flying? && !HoldsField(bees[i])
      modifies `terminate, `destroyed, `bear, bees
      ensures Valid() && bees[..] == old(bees[..])[i := bees[i]]
      ensures moved <==> Local(c, old(Mem()), i, old(bees[i]), attack).Some?
      ensures if moved then Local(c, old(Mem()), i, old(bees[i]), attack) == Some((Mem(), bees[i])) else Abs() == old(Abs())
    {
      match bees[i] {
        case AtLoop => bees[i] := if terminate then Gone else AtQueueLock;
        case Bear => bees[i] := if attack then StoringTerminate else AtBarrier2;
        case StoringTerminate =>
          terminate, bear := true, true;
          bees[i] := StoringDestroyed;
        case StoringDestroyed =>
          destroyed := true;
          bees[i] := AtBarrier2;
        case _ => return false;
      }
      return true;
    }

    /** pthread_barrier_wait by bee i: the last bee to arrive releases all. */
    method Wait(i: nat, waiting: Bee, serial: nat)
      requires Valid() && i < bees.Length
      modifies `rounds, bees
      ensures Valid() && Abs() == Arrive(old(Abs()), i, waiting, serial)
    {
      bees[i] := waiting;
      ghost var arrived := bees[..];
      assert arrived == old(bees[..])[i := waiting];
      var full := EverybodyWaits();
      assert full <==> forall k :: 0 <= k < |arrived| ==> InBarrier(arrived[k]);
      if full {
        Release(serial);
        rounds := rounds + Bit(waiting.InBarrier2?);
      }
    }

    method EverybodyWaits() returns (all: bool)
      ensures all <==> forall k :: 0 <= k < bees.Length ==> InBarrier(bees[k])
    {
      for k := 0 to bees.Length
        invariant forall l :: 0 <= l < k ==> InBarrier(bees[l])
      {
        if !InBarrier(bees[k]) { return false; }
      }
      return true;
    }

    method Release(serial: nat)
      modifies bees
      ensures var before := old(bees[..]);
              bees[..] == seq(|before|, k requires 0 <= k < |before| => Released(before[k], k == serial))
    {
      for k := 0 to bees.Length
        invariant forall l :: 0 <= l < k ==> bees[l] == Released(old(bees[l]), l == serial)
        invariant forall l :: k <= l < bees.Length ==> bees[l] == old(bees[l])
      {
        bees[k] := Released(bees[k], k == serial);
      }
    }

    /** The next operation of main: watch the counters, end the bees' loops, join. */
    method Watch() returns (moved: bool)
      requires Valid()
      modifies `main, `terminate
      ensures Valid()
      ensures moved <==> Step(c, old(Abs()), MainAct).Some?
      ensures Abs() == if moved then Step(c, old(Abs()), MainAct).value else old(Abs())
    {
      match main {
        case ReadCount => main := if hive.collected < c.field.Size() then ReadDestroyed else StoreTerminate;
        case ReadDestroyed => main := if destroyed then StoreTerminate else ReadCount;
        case StoreTerminate =>
          terminate := true;
          main := Joining(0);
        case Joining(k) =>
          if k >= bees.Length || !bees[k].Gone? { return false; }
          main := Joining(k + 1);
      }
      return true;
    }
  }

  /**
   The whole simulation under an arbitrary schedule, in which blocked threads skip their turns: whether main has
   joined all bees, and what it reports.
   */
  method Simulate(c: Config, schedule: seq<Action>) returns (finished: bool, collected: nat, destroyed: bool)
    ensures var s := Driven(Stepper(c), Init(c), schedule);
            && (finished <==> s.main == Joining(c.bees))
            && collected == s.mem.collected && destroyed == s.mem.destroyed
    ensures destroyed <==> BearWins(c, schedule)
    ensures collected <= c.field.Size()
    ensures finished && !destroyed ==> collected == c.field.Size()
  {
    var colony := new Colony(c);
    hide Step, Init, Inv, TaskOk;
    for k := 0 to |schedule|
      invariant colony.Valid() && colony.c == c && colony.Abs() == Driven(Stepper(c), Init(c), schedule[..k])
      invariant fresh(colony) && fresh(colony.hive) && fresh(colony.hive.field) && fresh(colony.bees)
      invariant fresh(colony.hive.queue) && fresh(colony.hive.queue.Entries())
    {
      DrivenNext(Stepper(c), Init(c), schedule, k);
      var moved: bool;
      match schedule[k] {
        case BeeAct(i, serial, attack) =>
          if i < c.bees { TasksAreInside(c, schedule[..k], i); }
          moved := colony.Fly(i, serial, attack);
        case MainAct => moved := colony.Watch();
      }
    }
    assert schedule[..|schedule|] == schedule;
    finished := colony.main == Joining(c.bees);
    collected, destroyed := colony.hive.collected, colony.destroyed;
    DrivenLeads(Stepper(c), Init(c), schedule);
    CounterIsExact(c, colony.Abs());
    DestroyedExactly(c, schedule);
    if finished { FinalReport(c, colony.Abs()); }
  }

  lemma ReportingStep(c: Config, m: Memory, i: nat, pos: nat, k: nat)
    requires k < 4
    ensures Local(c, m, i, Reporting(pos, k), false) == Some((Reported(m, Positions(c.field, pos)[k]), Reporting(pos, k + 1)))
  {
  }

  /** No bee ever works at a position outside the field. */
  lemma TasksAreInside(c: Config, schedule: seq<Action>, i: nat)
    ensures var s := Driven(Stepper(c), Init(c), schedule);
            i < |s.bees| ==> TaskOk(c, s.mem, s.bees[i])
  {
    var s := Driven(Stepper(c), Init(c), schedule);
    DrivenLeads(Stepper(c), Init(c), schedule);
    ReachableInv(c, s);
    if i < |s.bees| { assert BeeOk(c, s.mem, i, s.bees[i]); }
  }
}
