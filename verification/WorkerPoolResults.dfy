/** What every pool of this kind guarantees: delivery exactly once, no lost wakeup, progress, an end. */
module WorkerPoolResults {
  import opened Runs
  import opened Sums
  import opened WorkerPool
  import opened WorkerPoolInvariant

  // ---------------------------------------------------------------------------
  // Delivery
  // ---------------------------------------------------------------------------

  /** Values leave the queue in the order in which the producer sends them, and none is lost on the way. */
  lemma FirstInFirstOut(c: ConfigData, s: State)
    requires WellFormed(c) && Reachable(c, s)
    ensures |s.mem.taken| + |s.mem.queue| <= |All(c)|
    ensures s.mem.queue == All(c)[|s.mem.taken|..|s.mem.taken| + |s.mem.queue|]
  {
    ReachableInv(c, s);
  }

  /** A value in the hand of a worker was popped by that worker only. */
  lemma InOneHand(c: ConfigData, s: State, i: nat, j: nat)
    requires WellFormed(c) && Reachable(c, s) && i < |s.workers| && j < |s.workers|
    requires InHand(s.workers[i]).Some?
    ensures var it := InHand(s.workers[i]).value;
            && it.index < |s.mem.taken| <= |All(c)| && it.value == All(c)[it.index]
            && (i != j && InHand(s.workers[j]).Some? ==> InHand(s.workers[j]).value.index != it.index)
  {
    ReachableInv(c, s);
    assert WorkerOk(c, s.mem, i, s.workers[i]) && WorkerOk(c, s.mem, j, s.workers[j]);
  }

  /** At most one thread is between a lock and an unlock: one worker, or main at a place that holds the mutex. */
  lemma MutualExclusion(c: ConfigData, s: State, i: nat, j: nat)
    requires WellFormed(c) && Reachable(c, s) && i < |s.workers| && j < |s.workers| && s.pc <= |c.script|
    requires s.workers[i].Testing? || s.workers[i].Popping? || s.workers[i].Unlocking?
    ensures s.mem.owner == ByWorker(i) && !ScanOf(c.script[..s.pc], c.polling).held
    ensures s.workers[j].Testing? || s.workers[j].Popping? || s.workers[j].Unlocking? ==> i == j
  {
    ReachableInv(c, s);
    assert WorkerOk(c, s.mem, i, s.workers[i]) && WorkerOk(c, s.mem, j, s.workers[j]);
  }

  /** No worker sees a pill before every item has been popped, and no worker sees a second one. */
  lemma PillsComeLastAndOnce(c: ConfigData, s: State, i: nat)
    requires WellFormed(c) && Reachable(c, s) && i < |s.workers|
    ensures HasPill(c, s.workers[i]) ==> |s.mem.taken| > |c.items| && forall v :: v in s.mem.queue ==> v == c.pill
    ensures forall k, l :: |c.items| <= k <= l < |s.mem.taken| && s.mem.taken[k] == s.mem.taken[l] == i ==> k == l
  {
    ReachableInv(c, s);
    assert WorkerOk(c, s.mem, i, s.workers[i]);
    if HasPill(c, s.workers[i]) {
      if InHand(s.workers[i]).Some? { ItemAt(c, InHand(s.workers[i]).value.index); }
      hide All;
      forall k | 0 <= k < |s.mem.queue| ensures s.mem.queue[k] == c.pill {
        ItemAt(c, |s.mem.taken| + k);
      }
    }
  }

  /** After all joins the queue is empty, everything was delivered, and each worker took one pill. */
  lemma FinishedMeansDelivered(c: ConfigData, s: State)
    requires WellFormed(c) && Reachable(c, s) && Finished(s)
    ensures s.mem.queue == [] && |s.mem.taken| == |All(c)|
    ensures forall i :: 0 <= i < |s.workers| ==>
              s.workers[i].Exited? && |c.items| <= s.workers[i].pill < |All(c)| && s.mem.taken[s.workers[i].pill] == i
  {
    ReachableInv(c, s);
    assert c.script[..s.pc] == c.script;
    SumConst(TookPill(c), s.workers, 1);
    forall i | 0 <= i < |s.workers| ensures s.workers[i].Exited? && |c.items| <= s.workers[i].pill < |All(c)|
      && s.mem.taken[s.workers[i].pill] == i
    {
      assert WorkerOk(c, s.mem, i, s.workers[i]);
    }
  }

  // ---------------------------------------------------------------------------
  // No lost wakeup, no deadlock
  // ---------------------------------------------------------------------------

  lemma {:induction false} UnlockedMeansWoken(script: seq<Instr>)
    requires ScanOf(script, false).ok && !ScanOf(script, false).held
    ensures ScanOf(script, false).slack == 0
  {
    if script != [] {
      var before := script[..|script| - 1];
      if script[|script| - 1].Signal? || script[|script| - 1].Broadcast? {
        UnlockedMeansWoken(before);
      }
    }
  }

  /** Whenever the producer does not hold the mutex, waiting workers mean enough awake workers for the queue. */
  lemma NoWakeupIsLost(c: ConfigData, s: State)
    requires WellFormed(c) && !c.polling && Reachable(c, s) && s.mem.owner != ByMain
    ensures || (forall i :: 0 <= i < |s.workers| ==> !s.workers[i].Waiting?)
            || |s.mem.queue| <= SumBy(IsAwake(c), s.workers)
  {
    ReachableInv(c, s);
    ScanStaysOk(c.script, c.polling, s.pc);
    UnlockedMeansWoken(c.script[..s.pc]);
    WaitersCounted(c, s.workers);
  }

  /** While the program is not finished, the producer or a worker can take a step without spurious help. */
  lemma NeverStuck(c: ConfigData, s: State) returns (a: Action)
    requires WellFormed(c) && Reachable(c, s) && !Finished(s)
    ensures !a.Spurious? && Step(c, s, a).Some?
  {
    ReachableInv(c, s);
    if s.mem.owner.ByWorker? {
      assert WorkerOk(c, s.mem, s.mem.owner.i, s.workers[s.mem.owner.i]);
      return Work(s.mem.owner.i);
    }
    if s.pc < |c.script| {
      a := ProducerMoves(c, s);
    } else if i :| 0 <= i < |s.workers| && !s.workers[i].Waiting? && !s.workers[i].Exited? {
      assert c.script[..s.pc] == c.script;
      assert WorkerOk(c, s.mem, i, s.workers[i]);
      return Work(i);
    } else {
      AllPillsGone(c, s);
      return Main(0);
    }
  }

  lemma ProducerMoves(c: ConfigData, s: State) returns (a: Action)
    requires WellFormed(c) && Shape(c, s) && s.pc < |c.script| && !s.mem.owner.ByWorker?
    ensures a.Main? && Step(c, s, a).Some?
  {
    PrefixStep(c, s.pc);
    ScanStaysOk(c.script, c.polling, s.pc + 1);
    hide WellFormed, All, Sent, WorkerOk;
    if c.script[s.pc].Signal? {
      if k :| 0 <= k < |s.workers| && s.workers[k].Waiting? { return Main(k); }
    }
    a := Main(0);
  }

  /** With the producer done and everyone waiting or gone, nobody can be waiting. */
  lemma AllPillsGone(c: ConfigData, s: State)
    requires WellFormed(c) && Inv(c, s) && s.pc == |c.script| && !Finished(s)
    requires forall i :: 0 <= i < |s.workers| ==> s.workers[i].Waiting? || s.workers[i].Exited?
    ensures s.workers[s.joined].Exited?
  {
    assert c.script[..s.pc] == c.script;
    WaitersCounted(c, s.workers);
    if s.workers[s.joined].Waiting? {
      assert WorkerOk(c, s.mem, s.joined, s.workers[s.joined]);
      UnlockedMeansWoken(c.script);
      SumConst(IsAwake(c), s.workers, 0);
      assert |s.mem.taken| == |All(c)|;
      SumUpdate(TookPill(c), s.workers, s.joined, Exited(0));
      var one := (w: Worker) => 1;
      SumLeq(TookPill(c), s.workers[s.joined := Exited(0)], one, s.workers);
      SumConst(one, s.workers, 1);
      assert false;
    }
  }

  // ---------------------------------------------------------------------------
  // Every run ends
  // ---------------------------------------------------------------------------

  function Effort(w: Worker): int {
    match w
    case Polling => 3
    case AtLock => 2
    case Testing => 1
    case Popping => 0
    case Waiting => 0
    case Woken => 2
    case Unlocking(_) => 4
    case Handling(_) => 3
    case Exited(_) => 0
  }

  /** What is still to do: values to pop, operations of the workers, of the producer, and joins. */
  function Remaining(c: ConfigData, s: State): int {
    5 * (|All(c)| - |s.mem.taken|) + SumBy(Effort, s.workers) + (2 * c.workers + 3) * (|c.script| - s.pc) + (c.workers - s.joined)
  }

  /** Operations that get nothing done: a spurious wakeup, or finding the queue empty while polling. */
  predicate Fruitless(c: ConfigData, s: State, a: Action) {
    || a.Spurious?
    || (a.Work? && a.i < |s.workers| && s.mem.queue == [] && (s.workers[a.i].Polling? || (s.workers[a.i].Testing? && c.polling)))
  }

  function Fruit(c: ConfigData): (State, Action) -> int {
    (s: State, a: Action) => if Fruitless(c, s, a) then -3 else 1
  }

  lemma LocalEffort(c: ConfigData, m: Memory, i: nat, w: Worker)
    requires Local(c, m, i, w).Some?
    ensures var (m', w') := Local(c, m, i, w).value;
            var fruit := if m.queue == [] && (w.Polling? || (w.Testing? && c.polling)) then -3 else 1;
            Effort(w') + fruit <= Effort(w) + 5 * (|m'.taken| - |m.taken|)
  {
  }

  lemma {:induction false} WakingEffort(ws: seq<Worker>)
    ensures SumBy(Effort, WakeAll(ws)) <= SumBy(Effort, ws) + 2 * |ws|
  {
    var more := (w: Worker) => Effort(w) + 2;
    SumLeq(Effort, WakeAll(ws), more, ws);
    AddTwo(ws);
  }

  lemma {:induction false} AddTwo(ws: seq<Worker>)
    ensures SumBy((w: Worker) => Effort(w) + 2, ws) == SumBy(Effort, ws) + 2 * |ws|
  {
    if ws != [] { AddTwo(ws[1..]); }
  }

  lemma RemainingShrinks(c: ConfigData, s: State, a: Action)
    requires WellFormed(c) && Shape(c, s) && Step(c, s, a).Some?
    ensures Remaining(c, Step(c, s, a).value) + Fruit(c)(s, a) <= Remaining(c, s)
  {
    var t := Step(c, s, a).value;
    hide All, WellFormed, Shape;
    match a {
      case Work(i) =>
        LocalEffort(c, s.mem, i, s.workers[i]);
        hide Local, Effort;
        SumUpdate(Effort, s.workers, i, t.workers[i]);
      case Spurious(i) => SumUpdate(Effort, s.workers, i, Woken);
      case Main(wakes) => MainShrinks(c, s, wakes);
    }
  }

  lemma MainShrinks(c: ConfigData, s: State, wakes: nat)
    requires |s.workers| == c.workers && MainStep(c, s, wakes).Some?
    ensures Remaining(c, MainStep(c, s, wakes).value) + 1 <= Remaining(c, s)
  {
    var t := MainStep(c, s, wakes).value;
    hide All;
    if s.pc < |c.script| {
      WakingEffort(s.workers);
      if wakes < |s.workers| { SumUpdate(Effort, s.workers, wakes, Woken); }
      OneLess(2 * c.workers + 3, |c.script| - s.pc);
    }
  }

  lemma OneLess(k: nat, n: nat)
    requires n >= 1
    ensures k * n == k * (n - 1) + k
  {
  }

  /**
   In every run, the operations that get something done number at most Remaining(Init) plus three for each
   spurious wakeup or look into an empty queue: with a condition variable, no run goes on without an end.
   */
  lemma RunsAreShort(c: ConfigData, acts: seq<Action>)
    requires WellFormed(c) && Exec(Stepper(c), Init(c), acts).Some?
    ensures Gained(Stepper(c), Fruit(c), Init(c), acts) <=
            5 * |All(c)| + 4 * c.workers + (2 * c.workers + 3) * |c.script|
  {
    var s := Init(c);
    InitInv(c);
    SumConst(Effort, s.workers, if c.polling then 3 else 2);
    hide Step, Inv, WellFormed, Remaining, Fruit, Init;
    forall t, a | Inv(c, t) && Stepper(c)(t, a).Some?
      ensures Inv(c, Stepper(c)(t, a).value)
      ensures -Remaining(c, t) + Fruit(c)(t, a) <= -Remaining(c, Stepper(c)(t, a).value)
    {
      StepKeepsInv(c, t, a);
      ShapeOf(c, t);
      RemainingShrinks(c, t, a);
    }
    GainBounded(Stepper(c), t => Inv(c, t), t => -Remaining(c, t), Fruit(c), s, acts);
    var t := Exec(Stepper(c), s, acts).value;
    assert Leads(Stepper(c), Init(c), t);
    ReachableInv(c, t);
    RemainingBounds(c, t);
    RemainingAtStart(c);
  }

  lemma ShapeOf(c: ConfigData, s: State)
    requires Inv(c, s)
    ensures Shape(c, s)
  {
  }

  lemma RemainingBounds(c: ConfigData, s: State)
    requires Inv(c, s)
    ensures 0 <= Remaining(c, s)
  {
    SumNonNeg(Effort, s.workers);
    assert (2 * c.workers + 3) * (|c.script| - s.pc) >= 0;
  }

  lemma RemainingAtStart(c: ConfigData)
    ensures Remaining(c, Init(c)) <= 5 * |All(c)| + 4 * c.workers + (2 * c.workers + 3) * |c.script|
  {
    SumConst(Effort, Init(c).workers, if c.polling then 3 else 2);
  }

  /** A condition variable and no spurious wakeups: no run is longer than this. */
  lemma {:induction false} NothingWasted(c: ConfigData, s: State, acts: seq<Action>)
    requires WellFormed(c) && Inv(c, s) && !c.polling && Exec(Stepper(c), s, acts).Some?
    requires forall k :: 0 <= k < |acts| ==> !acts[k].Spurious?
    ensures Gained(Stepper(c), Fruit(c), s, acts) == |acts|
    decreases |acts|
  {
    if acts != [] {
      StepKeepsInv(c, s, acts[0]);
      NotPolling(c, s);
      hide Inv, WellFormed;
      NothingWasted(c, Step(c, s, acts[0]).value, acts[1..]);
    }
  }

  lemma NotPolling(c: ConfigData, s: State)
    requires Inv(c, s) && !c.polling
    ensures forall i :: 0 <= i < |s.workers| ==> !s.workers[i].Polling?
  {
    forall i | 0 <= i < |s.workers| ensures !s.workers[i].Polling? {
      assert WorkerOk(c, s.mem, i, s.workers[i]);
    }
  }

  lemma RunsEnd(c: ConfigData, acts: seq<Action>)
    requires WellFormed(c) && !c.polling && Exec(Stepper(c), Init(c), acts).Some?
    requires forall k :: 0 <= k < |acts| ==> !acts[k].Spurious?
    ensures |acts| <= 5 * |All(c)| + 4 * c.workers + (2 * c.workers + 3) * |c.script|
  {
    InitInv(c);
    hide *;
    NothingWasted(c, Init(c), acts);
    RunsAreShort(c, acts);
  }
}
