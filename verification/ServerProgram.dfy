/** The web server on its shared memory: the pool, how far each handler is, the balance and the running counter. */
module ServerProgram {
  import opened Runs
  import opened Sums
  import opened HandlerPool
  import opened HandlerResults
  import PoolProgram
  import P = WorkerPool

  class Server {
    const conns: seq<Connection>
    const c: P.ConfigData
    const pool: PoolProgram.Pool
    const stages: array<Stage>
    var donationOwner: Option<nat>
    var balance: int
    var running: int

    ghost predicate Valid()
      reads this, pool, pool.queue, pool.queue.spine
    {
      pool.Valid() && pool.c == c && stages.Length == c.workers
    }

    ghost function Abs(): State
      reads this, pool, pool.queue, pool.queue.spine, pool.workers, stages
    {
      State(pool.Abs(), stages[..], donationOwner, balance, running)
    }

    constructor (conns: seq<Connection>, handlers: nat)
      ensures Valid() && this.conns == conns && c == Config(conns, handlers) && Abs() == Init(c)
      ensures fresh(pool) && fresh(pool.queue) && fresh(pool.workers) && fresh(stages) && pool.queue.Entries() == {}
    {
      var c' := Config(conns, handlers);
      this.conns := conns;
      c := c';
      pool := new PoolProgram.Pool(c');
      stages := new Stage[c'.workers](_ => Fresh);
      donationOwner, balance, running := None, 0, 1;
    }

    /** The next operation of handler i, of main, or of nobody in particular, on the queue and its mutex. */
    method OnQueue(a: P.Action) returns (moved: bool)
      requires Valid()
      modifies pool, pool.queue, pool.queue.Entries(), pool.workers, stages
      ensures Valid() && fresh(pool.queue.Entries() - old(pool.queue.Entries()))
      ensures moved <==> Step(conns, c, old(Abs()), OnPool(a)).Some?
      ensures Abs() == if moved then Step(conns, c, old(Abs()), OnPool(a)).value else old(Abs())
    {
      hide P.Step;
      match a {
        case Work(i) =>
          if i < stages.Length && Busy(c, pool.workers[i]) {
            if stages[i] != Served { return false; }
            moved := pool.Work(i);
            if moved { stages[i] := Fresh; }
          } else {
            moved := pool.Work(i);
          }
        case Spurious(i) => moved := pool.WakeSpuriously(i);
        case Main(wakes) => moved := pool.Produce(wakes);
      }
    }

    /** The next operation of handler i in handle_client that others can see. */
    method HandleClient(i: nat) returns (moved: bool)
      requires Valid()
      modifies this, stages
      ensures Valid()
      ensures moved <==> Step(conns, c, old(Abs()), Handle(i)).Some?
      ensures Abs() == if moved then Step(conns, c, old(Abs()), Handle(i)).value else old(Abs())
    {
      if i >= stages.Length || !Busy(c, pool.workers[i]) { return false; }
      var request := RequestOf(conns, pool.workers[i].item.value.index);
      match stages[i] {
        case Fresh =>
          match request {
            case Donate(_) =>
              if donationOwner.Some? { return false; }
              donationOwner := Some(i);
              stages[i] := Locked;
            case Shutdown =>
              running := running - 1;
              stages[i] := Served;
            case NoEffect => stages[i] := Served;
          }
        case Locked =>
          if request.Donate? { balance := balance + request.amount; }
          stages[i] := Added;
        case Added =>
          donationOwner := None;
          stages[i] := Served;
        case Served => return false;
      }
      return true;
    }
  }

  /**
   The whole server under an arbitrary schedule, in which blocked threads skip their turns: whether main has
   joined all handlers, and the balance and counter, in which then nothing is missing.
   */
  method Serve(conns: seq<Connection>, handlers: nat, schedule: seq<Action>)
    returns (finished: bool, balance: int, running: int)
    requires handlers >= 1
    ensures var s := Driven(Stepper(conns, Config(conns, handlers)), Init(Config(conns, handlers)), schedule);
            (finished <==> P.Finished(s.pool)) && balance == s.balance && running == s.running
    ensures finished ==> balance == SumBy(AmountOf(), conns)
    ensures finished ==> running == 1 - SumBy(StopsOf(), conns)
  {
    var server := new Server(conns, handlers);
    ghost var c := Config(conns, handlers);
    hide Step, Init, Config, SumBy;
    for k := 0 to |schedule|
      invariant server.Valid() && server.c == c && server.conns == conns
      invariant server.Abs() == Driven(Stepper(conns, c), Init(c), schedule[..k])
      invariant fresh(server) && fresh(server.pool) && fresh(server.stages)
      invariant fresh(server.pool.queue) && fresh(server.pool.queue.Entries()) && fresh(server.pool.workers)
    {
      DrivenNext(Stepper(conns, c), Init(c), schedule, k);
      var moved: bool;
      match schedule[k] {
        case OnPool(a) => moved := server.OnQueue(a);
        case Handle(i) => moved := server.HandleClient(i);
      }
    }
    assert schedule[..|schedule|] == schedule;
    finished := server.pool.joined == server.pool.workers.Length;
    balance, running := server.balance, server.running;
    DrivenLeads(Stepper(conns, c), Init(c), schedule);
    if finished { EverythingHandled(conns, handlers, server.Abs()); }
  }

}
