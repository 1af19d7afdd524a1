/** Every pool can finish from every state without outside help, and when it must. */
module WorkerPoolEndings {
  import opened Runs
  import opened Sums
  import opened WorkerPool
  import opened WorkerPoolInvariant
  import opened WorkerPoolResults

  function Unaided(): Action -> bool { (a: Action) => !a.Spurious? }

  // ---------------------------------------------------------------------------
  // To the end of the script
  // ---------------------------------------------------------------------------

  /** Operations of the owner of the mutex until it has released it. */
  function ToRelease(w: Worker): nat {
    match w
    case Testing => 3
    case Popping => 2
    case Unlocking(_) => 1
    case _ => 0
  }

  function ToScriptEnd(c: ConfigData): State -> int {
    (s: State) =>
      4 * (|c.script| - s.pc) +
      if s.mem.owner.ByWorker? && s.mem.owner.i < |s.workers| then ToRelease(s.workers[s.mem.owner.i]) else 0
  }

  ghost predicate Running(c: ConfigData, s: State) { WellFormed(c) && Reachable(c, s) }

  /** The worker that owns the mutex goes on to release it; when no worker owns it, the producer goes on. */
  lemma MoveToScriptEnd(c: ConfigData, s: State) returns (a: Action)
    requires Running(c, s) && s.pc < |c.script|
    ensures Unaided()(a) && Step(c, s, a).Some? && Running(c, Step(c, s, a).value)
    ensures 0 <= ToScriptEnd(c)(Step(c, s, a).value) < ToScriptEnd(c)(s)
  {
    ReachableInv(c, s);
    ShapeOf(c, s);
    if s.mem.owner.ByWorker? {
      a := Work(s.mem.owner.i);
      assert WorkerOk(c, s.mem, a.i, s.workers[a.i]);
      OwnerMoves(c, s.mem, a.i, s.workers[a.i]);
      hide Local, WorkerOk;
    } else {
      a := ProducerMoves(c, s);
      MainAdvances(c, s, a);
    }
    hide Inv, Shape, WellFormed, Reachable;
    LeadsOneOn(Stepper(c), Init(c), s, a);
  }

  lemma OwnerMoves(c: ConfigData, m: Memory, i: nat, w: Worker)
    requires WorkerOk(c, m, i, w) && m.owner == ByWorker(i)
    ensures Local(c, m, i, w).Some?
    ensures var (m', w') := Local(c, m, i, w).value;
            if m'.owner == m.owner then ToRelease(w') < ToRelease(w) else m'.owner == Free && ToRelease(w) > 0
  {
    hide All;
  }

  /** An unaided step of a pool in which no worker owns the mutex, when it is the producer's. */
  lemma MainAdvances(c: ConfigData, s: State, a: Action)
    requires s.pc < |c.script| && !s.mem.owner.ByWorker? && a.Main? && Step(c, s, a).Some?
    ensures var t := Step(c, s, a).value; t.pc == s.pc + 1 && !t.mem.owner.ByWorker?
  {
  }

  lemma FinishScript(c: ConfigData, s: State) returns (acts: seq<Action>)
    requires WellFormed(c) && Reachable(c, s)
    ensures forall k :: 0 <= k < |acts| ==> !acts[k].Spurious?
    ensures Exec(Stepper(c), s, acts).Some?
    ensures var t := Exec(Stepper(c), s, acts).value; Reachable(c, t) && t.pc == |c.script|
  {
    var keep := (t: State) => Running(c, t);
    var stop := (t: State) => t.pc >= |c.script|;
    assert keep(s);
    hide Step, Running, ToScriptEnd;
    forall t | keep(t) && !stop(t) ensures CanAdvance(Stepper(c), keep, Unaided(), ToScriptEnd(c), t) {
      var a := MoveToScriptEnd(c, t);
      assert Advances(Stepper(c), keep, Unaided(), ToScriptEnd(c), t, a);
    }
    acts := CanReach(Stepper(c), keep, stop, Unaided(), ToScriptEnd(c), s);
    WithinScript(c, Exec(Stepper(c), s, acts).value);
  }

  lemma WithinScript(c: ConfigData, s: State)
    requires Running(c, s)
    ensures s.pc <= |c.script| && Reachable(c, s) && WellFormed(c)
  {
    ReachableInv(c, s);
  }

  // ---------------------------------------------------------------------------
  // To the last join
  // ---------------------------------------------------------------------------

  /** With the script done and the queue empty, every worker has its pill: no operation is wasted. */
  lemma NoMoreWaste(c: ConfigData, s: State, a: Action)
    requires WellFormed(c) && Inv(c, s) && s.pc == |c.script| && !a.Spurious? && Step(c, s, a).Some?
    ensures !Fruitless(c, s, a)
  {
    if a.Work? && s.mem.queue == [] {
      assert c.script[..s.pc] == c.script;
      assert |s.mem.taken| == |All(c)|;
      var w := s.workers[a.i];
      var gone := Exited(0);
      SumUpdate(TookPill(c), s.workers, a.i, gone);
      var one := (w: Worker) => 1;
      SumLeq(TookPill(c), s.workers[a.i := gone], one, s.workers);
      SumConst(one, s.workers, 1);
      assert HasPill(c, w);
    }
  }

  ghost predicate Joining(c: ConfigData, s: State) { Running(c, s) && s.pc == |c.script| }

  lemma MoveToJoin(c: ConfigData, s: State) returns (a: Action)
    requires Joining(c, s) && !Finished(s)
    ensures Unaided()(a) && Step(c, s, a).Some? && Joining(c, Step(c, s, a).value)
    ensures 0 <= Remaining(c, Step(c, s, a).value) < Remaining(c, s)
  {
    a := NeverStuck(c, s);
    ReachableInv(c, s);
    ShapeOf(c, s);
    NoMoreWaste(c, s, a);
    RemainingShrinks(c, s, a);
    ScriptStays(c, s, a);
    hide Inv, Shape, WellFormed, Reachable, Remaining, Step, Fruitless;
    LeadsOneOn(Stepper(c), Init(c), s, a);
    ReachableInv(c, Step(c, s, a).value);
    RemainingBounds(c, Step(c, s, a).value);
  }

  lemma ScriptStays(c: ConfigData, s: State, a: Action)
    requires s.pc == |c.script| && Step(c, s, a).Some?
    ensures Step(c, s, a).value.pc == s.pc
  {
  }

  function Left(c: ConfigData): State -> int { (s: State) => Remaining(c, s) }

  lemma JoinAll(c: ConfigData, s: State) returns (acts: seq<Action>)
    requires WellFormed(c) && Reachable(c, s) && s.pc == |c.script|
    ensures forall k :: 0 <= k < |acts| ==> !acts[k].Spurious?
    ensures Exec(Stepper(c), s, acts).Some? && Finished(Exec(Stepper(c), s, acts).value)
  {
    var keep := (t: State) => Joining(c, t);
    assert keep(s);
    hide Step, Joining, Remaining, Finished;
    forall t | keep(t) && !Finished(t) ensures CanAdvance(Stepper(c), keep, Unaided(), Left(c), t) {
      var a := MoveToJoin(c, t);
      assert Advances(Stepper(c), keep, Unaided(), Left(c), t, a);
    }
    acts := CanReach(Stepper(c), keep, t => Finished(t), Unaided(), Left(c), s);
  }

  /** From every reachable state, without any spurious wakeup, the program can finish. */
  lemma CanFinish(c: ConfigData, s: State) returns (acts: seq<Action>)
    requires WellFormed(c) && Reachable(c, s)
    ensures forall k :: 0 <= k < |acts| ==> !acts[k].Spurious?
    ensures Exec(Stepper(c), s, acts).Some? && Finished(Exec(Stepper(c), s, acts).value)
  {
    hide *;
    var xs := FinishScript(c, s);
    var ys := JoinAll(c, Exec(Stepper(c), s, xs).value);
    ExecAppend(Stepper(c), s, xs, ys);
    acts := xs + ys;
  }

  // ---------------------------------------------------------------------------
  // Which pools must finish
  // ---------------------------------------------------------------------------

  /** A polling worker can look into the empty queue k times. */
  lemma {:induction false} MaySpin(c: ConfigData, k: nat)
    requires c.polling && c.workers >= 1
    ensures Exec(Stepper(c), Init(c), seq(k, _ => Work(0))) == Some(Init(c))
  {
    if k > 0 {
      var workers := Init(c).workers;
      assert workers[0 := Polling] == workers;
      assert seq(k, _ => Work(0))[1..] == seq(k - 1, _ => Work(0));
      MaySpin(c, k - 1);
    }
  }

  ghost predicate BoundedBy(c: ConfigData, bound: nat) {
    forall acts: seq<Action> ::
      Exec(Stepper(c), Init(c), acts).Some? && (forall k :: 0 <= k < |acts| ==> !acts[k].Spurious?) ==> |acts| <= bound
  }

  /** Runs without spurious wakeups are bounded exactly in the programs with a condition variable. */
  lemma BoundedExactly(c: ConfigData)
    requires WellFormed(c)
    ensures (exists bound :: BoundedBy(c, bound)) <==> !c.polling
  {
    if c.polling {
      hide Stepper, Init;
      forall bound: nat ensures !BoundedBy(c, bound) {
        var acts := seq(bound + 1, _ => Work(0));
        MaySpin(c, bound + 1);
        assert Exec(Stepper(c), Init(c), acts).Some? && |acts| > bound;
      }
    } else {
      var bound := 5 * |All(c)| + 4 * c.workers + (2 * c.workers + 3) * |c.script|;
      hide Stepper, Init, All, WellFormed;
      forall acts: seq<Action> | Exec(Stepper(c), Init(c), acts).Some? && forall k :: 0 <= k < |acts| ==> !acts[k].Spurious?
        ensures |acts| <= bound
      {
        RunsEnd(c, acts);
      }
      assert BoundedBy(c, bound);
    }
  }
}
