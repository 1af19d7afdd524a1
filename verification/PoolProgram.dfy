/** The pool on its shared memory: the linked queue, where the workers and the producer are, and who owns the mutex. */
module PoolProgram {
  import opened Runs
  import opened WorkerPool
  import MyQueue

  class Pool {
    const c: ConfigData
    const queue: MyQueue.Queue<int>
    const workers: array<Worker>
    var owner: Owner
    var pc: nat
    var joined: nat
    var taken: seq<nat>  // history: who popped what

    ghost predicate Valid()
      reads this, queue, queue.spine
    {
      queue.Valid() && workers.Length == c.workers && pc <= |c.script|
    }

    ghost function Mem(): Memory
      reads this, queue, queue.spine
    {
      Memory(queue.Contents(), owner, taken)
    }

    ghost function Abs(): State
      reads this, queue, queue.spine, workers
    {
      State(Mem(), workers[..], pc, joined)
    }

    constructor (c: ConfigData)
      ensures Valid() && this.c == c && Abs() == Init(c)
      ensures fresh(queue) && fresh(workers) && queue.Entries() == {}
    {
      this.c := c;
      queue := new MyQueue.Queue<int>();
      workers := new Worker[c.workers](_ => if c.polling then Polling else AtLock);
      owner, pc, joined, taken := Free, 0, 0, [];
    }

    /** Worker i executes its next operation, unless it is blocked. */
    method Work(i: nat) returns (moved: bool)
      requires Valid()
      modifies this, queue, workers
      ensures Valid() && queue.Entries() <= old(queue.Entries())
      ensures moved <==> Step(c, old(Abs()), Action.Work(i)).Some?
      ensures Abs() == if moved then Step(c, old(Abs()), Action.Work(i)).value else old(Abs())
    {
      if i >= workers.Length { return false; }
      match workers[i] {
        case Polling =>
          var empty := queue.IsEmpty();
          if !empty { workers[i] := AtLock; }
        case AtLock =>
          if owner != Free { return false; }
          owner := ByWorker(i);
          workers[i] := Testing;
        case Testing => Test(i);
        case Popping =>
          var empty := queue.IsEmpty();
          if empty { return false; }
          Pop(i);
        case Waiting => return false;
        case Woken =>
          if owner != Free { return false; }
          owner := ByWorker(i);
          workers[i] := Testing;
        case Unlocking(item) =>
          owner := Free;
          workers[i] := Handling(item);
        case Handling(item) =>
          workers[i] := if item.Some? && item.value.value == c.pill then Exited(item.value.index) else AtLock;
        case Exited(_) => return false;
      }
      return true;
    }

    /** An empty queue makes a worker wait and release the lock, or give up the lock and try again later. */
    method Test(i: nat)
      requires Valid() && i < workers.Length && workers[i].Testing?
      modifies `owner, workers
      ensures Valid() && Step(c, old(Abs()), Action.Work(i)) == Some(Abs())
    {
      var empty := queue.IsEmpty();
      if !empty {
        workers[i] := Popping;
      } else if c.polling {
        workers[i] := Unlocking(None);
      } else {
        owner := Free;
        workers[i] := Waiting;
      }
    }

    method Pop(i: nat)
      requires Valid() && i < workers.Length && workers[i].Popping? && queue.Contents() != []
      modifies this, queue, workers
      ensures Valid() && queue.Entries() <= old(queue.Entries())
      ensures Step(c, old(Abs()), Action.Work(i)) == Some(Abs())
    {
      ghost var before := queue.Contents();
      var value := queue.Pop();
      assert before[0] == value && before[1..] == queue.Contents();
      workers[i] := Unlocking(Some(Item(|taken|, value)));
      taken := taken + [i];
    }

    /** Whether pthread_cond_signal finds a worker to wake. */
    method AnyWaiting() returns (any: bool)
      ensures any <==> exists k :: 0 <= k < workers.Length && workers[k].Waiting?
    {
      for k := 0 to workers.Length
        invariant forall j :: 0 <= j < k ==> !workers[j].Waiting?
      {
        if workers[k].Waiting? { return true; }
      }
      return false;
    }

    /** pthread_cond_signal, which wakes worker number wakes; false if that is not a worker it can choose. */
    method WakeOne(wakes: nat) returns (done: bool)
      modifies workers
      ensures done <==> (forall k :: 0 <= k < workers.Length ==> !old(workers[k]).Waiting?)
                        || (wakes < workers.Length && old(workers[wakes]).Waiting?)
      ensures workers[..] == if wakes < workers.Length && old(workers[wakes]).Waiting? then old(workers[..])[wakes := Woken]
                             else old(workers[..])
    {
      var any := AnyWaiting();
      done := !any;
      if wakes < workers.Length && workers[wakes].Waiting? {
        workers[wakes] := Woken;
        done := true;
      }
    }

    /** pthread_cond_broadcast. */
    method WakeEverybody()
      modifies workers
      ensures workers[..] == WakeAll(old(workers[..]))
    {
      for k := 0 to workers.Length
        invariant forall j :: 0 <= j < k ==> workers[j] == Wake(old(workers[j]))
        invariant forall j :: k <= j < workers.Length ==> workers[j] == old(workers[j])
      {
        workers[k] := Wake(workers[k]);
      }
    }

    /** The producer executes its next instruction, unless it is blocked; a signal wakes worker number wakes. */
    method Execute(wakes: nat) returns (moved: bool)
      requires Valid() && pc < |c.script|
      modifies `pc, `owner, queue, queue.Entries(), workers
      ensures Valid() && fresh(queue.Entries() - old(queue.Entries()))
      ensures moved <==> MainStep(c, old(Abs()), wakes).Some?
      ensures Abs() == if moved then MainStep(c, old(Abs()), wakes).value else old(Abs())
    {
      match c.script[pc] {
        case Lock =>
          if owner != Free { return false; }
          owner := ByMain;
        case Push(v) => queue.Push(v);
        case Signal =>
          var done := WakeOne(wakes);
          if !done { return false; }
        case Broadcast => WakeEverybody();
        case Unlock => owner := Free;
      }
      pc := pc + 1;
      return true;
    }

    /** The producer executes its script and then joins the workers in order. */
    method Produce(wakes: nat) returns (moved: bool)
      requires Valid()
      modifies this, queue, queue.Entries(), workers
      ensures Valid() && fresh(queue.Entries() - old(queue.Entries()))
      ensures moved <==> Step(c, old(Abs()), Main(wakes)).Some?
      ensures Abs() == if moved then Step(c, old(Abs()), Main(wakes)).value else old(Abs())
    {
      if pc < |c.script| {
        moved := Execute(wakes);
      } else {
        moved := joined < workers.Length && workers[joined].Exited?;
        if moved { joined := joined + 1; }
      }
    }

    /** pthread_cond_wait returns in worker i although nobody woke it. */
    method WakeSpuriously(i: nat) returns (moved: bool)
      requires Valid()
      modifies workers
      ensures Valid()
      ensures moved <==> Step(c, old(Abs()), Spurious(i)).Some?
      ensures Abs() == if moved then Step(c, old(Abs()), Spurious(i)).value else old(Abs())
    {
      moved := i < workers.Length && workers[i].Waiting?;
      if moved { workers[i] := Woken; }
    }
  }
}
