/** The producer/consumer program on its shared memory: the pool, the consumers' sums and main's total. */
module SumProgram {
  import opened Runs
  import PoolProgram
  import P = WorkerPool
  import SC = SumConsumers

  class Program {
    const c: P.ConfigData
    const pool: PoolProgram.Pool
    const sums: array<int>
    var total: int

    ghost predicate Valid()
      reads this, pool, pool.queue, pool.queue.spine
    {
      pool.Valid() && pool.c == c && sums.Length == c.workers
    }

    ghost function Abs(): SC.State
      reads this, pool, pool.queue, pool.queue.spine, pool.workers, sums
    {
      SC.State(pool.Abs(), sums[..], total)
    }

    constructor (c: P.ConfigData)
      ensures Valid() && this.c == c && Abs() == SC.Init(c)
      ensures fresh(pool) && fresh(pool.queue) && fresh(pool.workers) && fresh(sums) && pool.queue.Entries() == {}
    {
      this.c := c;
      pool := new PoolProgram.Pool(c);
      sums := new int[c.workers](_ => 0);
      total := 0;
    }

    /** Consumer i executes its next operation; what it adds to its sum is 0 if a polling consumer popped nothing. */
    method Consume(i: nat) returns (moved: bool)
      requires Valid()
      modifies pool, pool.queue, pool.workers, sums
      ensures Valid() && pool.queue.Entries() <= old(pool.queue.Entries())
      ensures moved <==> SC.Step(c, old(Abs()), P.Work(i)).Some?
      ensures Abs() == if moved then SC.Step(c, old(Abs()), P.Work(i)).value else old(Abs())
    {
      if i < sums.Length && pool.workers[i].Handling? {
        var item := pool.workers[i].item;
        if item.Some? && item.value.value != c.pill {
          sums[i] := sums[i] + item.value.value;
        }
      }
      assert i < sums.Length ==> sums[..] == old(sums[..])[i := sums[i]];
      hide P.Step;
      moved := pool.Work(i);
    }

    /** main executes its next operation; joining a consumer adds its sum. */
    method Produce(wakes: nat) returns (moved: bool)
      requires Valid()
      modifies this, pool, pool.queue, pool.queue.Entries(), pool.workers
      ensures Valid() && fresh(pool.queue.Entries() - old(pool.queue.Entries()))
      ensures moved <==> SC.Step(c, old(Abs()), P.Main(wakes)).Some?
      ensures Abs() == if moved then SC.Step(c, old(Abs()), P.Main(wakes)).value else old(Abs())
    {
      hide P.Step;
      var next := pool.joined;
      var joins := pool.pc == |c.script|;
      moved := pool.Produce(wakes);
      if moved && joins && next < sums.Length {
        total := total + sums[next];
      }
    }

    method WakeSpuriously(i: nat) returns (moved: bool)
      requires Valid()
      modifies pool.workers
      ensures Valid()
      ensures moved <==> SC.Step(c, old(Abs()), P.Spurious(i)).Some?
      ensures Abs() == if moved then SC.Step(c, old(Abs()), P.Spurious(i)).value else old(Abs())
    {
      hide P.Step;
      moved := pool.WakeSpuriously(i);
    }
  }

  /**
   The whole program under an arbitrary schedule, in which blocked threads skip their turns: whether main has
   joined all consumers, and its total, which is then n mod 2.
   */
  method Run(n: nat, consumers: nat, polling: bool, schedule: seq<P.Action>) returns (finished: bool, total: int)
    requires consumers >= 1
    ensures var s := Driven(SC.Stepper(SC.Config(n, consumers, polling)), SC.Init(SC.Config(n, consumers, polling)), schedule);
            (finished <==> P.Finished(s.pool)) && total == s.total
    ensures finished ==> total == n % 2
  {
    var c := SC.Config(n, consumers, polling);
    var program := new Program(c);
    hide SC.Step, SC.Init, SC.Config;
    for k := 0 to |schedule|
      invariant program.Valid() && program.c == c
      invariant program.Abs() == Driven(SC.Stepper(c), SC.Init(c), schedule[..k])
      invariant fresh(program) && fresh(program.pool) && fresh(program.sums)
      invariant fresh(program.pool.queue) && fresh(program.pool.queue.Entries()) && fresh(program.pool.workers)
    {
      DrivenNext(SC.Stepper(c), SC.Init(c), schedule, k);
      var moved: bool;
      match schedule[k] {
        case Work(i) => moved := program.Consume(i);
        case Spurious(i) => moved := program.WakeSpuriously(i);
        case Main(wakes) => moved := program.Produce(wakes);
      }
    }
    assert schedule[..|schedule|] == schedule;
    finished := program.pool.joined == program.pool.workers.Length;
    total := program.total;
    DrivenLeads(SC.Stepper(c), SC.Init(c), schedule);
    if finished { SC.FinalSum(n, consumers, polling, program.Abs()); }
  }

}
