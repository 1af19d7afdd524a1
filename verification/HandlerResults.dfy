/** What the web server guarantees: nothing is lost, nobody leaves early, and every run ends. */
module HandlerResults {
  import opened Runs
  import opened Sums
  import opened HandlerPool
  import P = WorkerPool
  import R = WorkerPoolResults

  // ---------------------------------------------------------------------------
  // Nothing is lost
  // ---------------------------------------------------------------------------

  /** The balance is always the donations popped so far, without those still to be added. */
  lemma BalanceIsExact(conns: seq<Connection>, handlers: nat, s: State)
    requires handlers >= 1 && Reachable(conns, handlers, s)
    ensures |s.stages| == |s.pool.workers|
    ensures var c := Config(conns, handlers);
            s.balance + SumBy(AmountPending(conns, c), Handlers(s)) == SumBy(AmountOf(), Popped(conns, s))
  {
    ReachableInv(conns, handlers, s);
  }

  /** At most one handler is between locking and unlocking the donation mutex, and it has a donation in hand. */
  lemma OneDonationAtATime(conns: seq<Connection>, handlers: nat, s: State, i: nat, j: nat)
    requires handlers >= 1 && Reachable(conns, handlers, s) && |s.stages| == |s.pool.workers|
    requires i < |s.stages| && j < |s.stages| && (s.stages[i].Locked? || s.stages[i].Added?)
    ensures s.donationOwner == Some(i)
    ensures s.stages[j].Locked? || s.stages[j].Added? ==> i == j
    ensures P.InHand(s.pool.workers[i]).Some?
    ensures RequestOf(conns, P.InHand(s.pool.workers[i]).value.index).Donate?
  {
    ReachableInv(conns, handlers, s);
    assert HandlerOk(conns, Config(conns, handlers), s, i) && HandlerOk(conns, Config(conns, handlers), s, j);
  }

  /**
   Only the handler that has locked the donation mutex changes the balance, by the amount in its hand, and
   only a handler with a shutdown request in its hand changes the running counter, by one.
   */
  lemma EffectOfARequest(conns: seq<Connection>, handlers: nat, s: State, a: Action)
    requires handlers >= 1 && Reachable(conns, handlers, s)
    requires Step(conns, Config(conns, handlers), s, a).Some?
    ensures var t := Step(conns, Config(conns, handlers), s, a).value;
            t.balance != s.balance || t.running != s.running ==>
              && a.Handle? && a.i < |s.pool.workers| && P.InHand(s.pool.workers[a.i]).Some?
              && match RequestOf(conns, P.InHand(s.pool.workers[a.i]).value.index)
                 case Donate(amount) =>
                   && s.donationOwner == t.donationOwner == Some(a.i)
                   && t.balance == s.balance + amount && t.running == s.running
                 case Shutdown => t.balance == s.balance && t.running == s.running - 1
                 case NoEffect => false
  {
    hide P.Step, P.Inv, BalanceOk;
    if a.Handle? {
      ReachableInv(conns, handlers, s);
      assert HandlerOk(conns, Config(conns, handlers), s, a.i);
    }
    hide Config;
  }

  /** After all joins every donation is in the balance and every shutdown request has been counted. */
  lemma EverythingHandled(conns: seq<Connection>, handlers: nat, s: State)
    requires handlers >= 1 && Reachable(conns, handlers, s) && P.Finished(s.pool)
    ensures s.balance == SumBy(AmountOf(), conns)
    ensures s.running == 1 - SumBy(StopsOf(), conns)
  {
    var c := Config(conns, handlers);
    hide *;
    ConfigWellFormed(conns, handlers);
    ReachableInv(conns, handlers, s);
    R.FinishedMeansDelivered(c, s.pool);
    StagesOf(conns, c, s);
    AllPopped(conns, handlers, s);
    NobodyBusy(conns, c, s);
  }

  lemma AllPopped(conns: seq<Connection>, handlers: nat, s: State)
    requires |s.pool.mem.taken| == |P.All(Config(conns, handlers))|
    ensures Popped(conns, s) == conns
  {
    var c := Config(conns, handlers);
    assert |P.All(c)| == |c.items| + c.workers && |c.items| == |conns|;
  }

  lemma NobodyBusy(conns: seq<Connection>, c: P.ConfigData, s: State)
    requires BalanceOk(conns, c, s) && Popped(conns, s) == conns
    requires forall i :: 0 <= i < |s.pool.workers| ==> s.pool.workers[i].Exited?
    ensures s.balance == SumBy(AmountOf(), conns) && s.running == 1 - SumBy(StopsOf(), conns)
  {
    SumConst(AmountPending(conns, c), Handlers(s), 0);
    SumConst(StopPending(conns, c), Handlers(s), 0);
  }

  /** No handler exits while a connection is still queued, and none takes two pills. */
  lemma HandlersLeaveLast(conns: seq<Connection>, handlers: nat, s: State, i: nat)
    requires handlers >= 1 && Reachable(conns, handlers, s) && i < |s.pool.workers| && s.pool.workers[i].Exited?
    ensures |s.pool.mem.taken| > |conns| && forall v :: v in s.pool.mem.queue ==> v == POISON_PILL
    ensures forall k, l :: |conns| <= k <= l < |s.pool.mem.taken| && s.pool.mem.taken[k] == s.pool.mem.taken[l] == i ==> k == l
  {
    ConfigWellFormed(conns, handlers);
    ReachableInv(conns, handlers, s);
    R.PillsComeLastAndOnce(Config(conns, handlers), s.pool, i);
  }

  /** The two mutexes never block the server for good. */
  lemma NeverStuck(conns: seq<Connection>, handlers: nat, s: State) returns (a: Action)
    requires handlers >= 1 && Reachable(conns, handlers, s) && !P.Finished(s.pool)
    ensures a.Handle? || !a.a.Spurious?
    ensures Step(conns, Config(conns, handlers), s, a).Some?
  {
    hide Config, P.Step, P.WellFormed, P.Inv, P.Reachable, Reachable, Inv, StagesOk, BalanceOk;
    var c := Config(conns, handlers);
    ConfigWellFormed(conns, handlers);
    ReachableInv(conns, handlers, s);
    StagesOf(conns, c, s);
    var p := R.NeverStuck(c, s.pool);
    if p.Work? && p.i < |s.pool.workers| && Busy(c, s.pool.workers[p.i]) && !s.stages[p.i].Served? {
      a := HandlerMoves(conns, c, s, p.i);
    } else {
      a := OnPool(p);
    }
  }

  lemma StagesOf(conns: seq<Connection>, c: P.ConfigData, s: State)
    requires Inv(conns, c, s)
    ensures StagesOk(conns, c, s) && BalanceOk(conns, c, s) && |s.stages| == |s.pool.workers|
  {
  }

  /** A busy handler can go on, or the one that holds the donation mutex can. */
  lemma HandlerMoves(conns: seq<Connection>, c: P.ConfigData, s: State, i: nat) returns (a: Action)
    requires StagesOk(conns, c, s) && i < |s.stages| && Busy(c, s.pool.workers[i]) && !s.stages[i].Served?
    ensures a.Handle? && Step(conns, c, s, a).Some?
  {
    hide Pending, RequestOf;
    assert HandlerOk(conns, c, s, i);
    if s.donationOwner.Some? {
      assert HandlerOk(conns, c, s, s.donationOwner.value);
      if s.stages[i].Locked? || s.stages[i].Added? { return Handle(i); }
      return Handle(s.donationOwner.value);
    }
    a := Handle(i);
  }

  // ---------------------------------------------------------------------------
  // Every run is short
  // ---------------------------------------------------------------------------

  /** Operations of handle_client that are still to come for the request in hand. */
  function Rank(stage: Stage): int {
    match stage
    case Fresh => 3
    case Locked => 2
    case Added => 1
    case Served => 0
  }

  function Ahead(c: P.ConfigData, s: State): int {
    4 * R.Remaining(c, s.pool) + SumBy(Rank, s.stages)
  }

  /** A spurious wakeup costs the woken handler operations; every other operation gets something done. */
  function Gain(): (State, Action) -> int {
    (s: State, a: Action) => if a.OnPool? && a.a.Spurious? then -12 else 1
  }

  lemma AheadShrinks(conns: seq<Connection>, c: P.ConfigData, s: State, a: Action)
    requires P.WellFormed(c) && P.Shape(c, s.pool) && !c.polling && Step(conns, c, s, a).Some?
    ensures Ahead(c, Step(conns, c, s, a).value) + Gain()(s, a) <= Ahead(c, s)
  {
    match a {
      case OnPool(p) =>
        if p.Work? { assert P.WorkerOk(c, s.pool.mem, p.i, s.pool.workers[p.i]); }
        R.RemainingShrinks(c, s.pool, p);
        hide P.Shape, P.WellFormed, R.Remaining, P.Step, P.WorkerOk;
        if p.Work? && p.i < |s.stages| { SumUpdate(Rank, s.stages, p.i, Fresh); }
      case Handle(i) =>
        hide P.Shape, P.WellFormed, R.Remaining, P.Step;
        SumUpdate(Rank, s.stages, i, Step(conns, c, s, a).value.stages[i]);
    }
  }

  /** Without spurious wakeups, no run of the server takes more operations than this; each such wakeup adds 12. */
  lemma RunsAreShort(conns: seq<Connection>, handlers: nat, acts: seq<Action>)
    requires handlers >= 1 && Exec(Stepper(conns, Config(conns, handlers)), Init(Config(conns, handlers)), acts).Some?
    ensures var c := Config(conns, handlers);
            Gained(Stepper(conns, c), Gain(), Init(c), acts) <=
            4 * (5 * |P.All(c)| + 4 * c.workers + (2 * c.workers + 3) * |c.script|) + 3 * c.workers
  {
    var c := Config(conns, handlers);
    GainedFromAhead(conns, handlers, acts);
    hide *;
    AheadAtStart(c);
  }

  lemma GainedFromAhead(conns: seq<Connection>, handlers: nat, acts: seq<Action>)
    requires handlers >= 1 && Exec(Stepper(conns, Config(conns, handlers)), Init(Config(conns, handlers)), acts).Some?
    ensures var c := Config(conns, handlers);
            Gained(Stepper(conns, c), Gain(), Init(c), acts) <= Ahead(c, Init(c))
  {
    var c := Config(conns, handlers);
    assert !c.polling;
    ConfigWellFormed(conns, handlers);
    InitInv(conns, handlers);
    hide Config, Step, Init, Inv, P.WellFormed, Ahead, Gain, P.Shape, Exec, Gained;
    forall t, a | Inv(conns, c, t) && Stepper(conns, c)(t, a).Some?
      ensures Inv(conns, c, Stepper(conns, c)(t, a).value)
      ensures -Ahead(c, t) + Gain()(t, a) <= -Ahead(c, Stepper(conns, c)(t, a).value)
    {
      StepKeepsInv(conns, handlers, t, a);
      ShapeOf(conns, c, t);
      AheadShrinks(conns, c, t, a);
    }
    GainBounded(Stepper(conns, c), t => Inv(conns, c, t), t => -Ahead(c, t), Gain(), Init(c), acts);
    KeepsInvariant(Stepper(conns, c), t => Inv(conns, c, t), Init(c), acts);
    AheadAtEnds(conns, c, Exec(Stepper(conns, c), Init(c), acts).value);
  }

  lemma ShapeOf(conns: seq<Connection>, c: P.ConfigData, s: State)
    requires Inv(conns, c, s)
    ensures P.Shape(c, s.pool)
  {
  }

  lemma AheadAtEnds(conns: seq<Connection>, c: P.ConfigData, s: State)
    requires Inv(conns, c, s)
    ensures 0 <= Ahead(c, s)
  {
    hide P.Inv, StagesOk, BalanceOk;
    R.RemainingBounds(c, s.pool);
    SumNonNeg(Rank, s.stages);
  }

  lemma AheadAtStart(c: P.ConfigData)
    ensures Ahead(c, Init(c)) <= 4 * (5 * |P.All(c)| + 4 * c.workers + (2 * c.workers + 3) * |c.script|) + 3 * c.workers
  {
    R.RemainingAtStart(c);
    SumConst(Rank, Init(c).stages, 3);
  }

  function Unaided(): Action -> bool { (a: Action) => a.Handle? || !a.a.Spurious? }

  function AheadOf(c: P.ConfigData): State -> int { (s: State) => Ahead(c, s) }

  lemma MoveToFinish(conns: seq<Connection>, handlers: nat, s: State) returns (a: Action)
    requires handlers >= 1 && Reachable(conns, handlers, s) && !P.Finished(s.pool)
    ensures var c := Config(conns, handlers);
            && Unaided()(a) && Step(conns, c, s, a).Some? && Reachable(conns, handlers, Step(conns, c, s, a).value)
            && 0 <= Ahead(c, Step(conns, c, s, a).value) < Ahead(c, s)
  {
    var c := Config(conns, handlers);
    assert !c.polling;
    hide Config, Step, Reachable, Ahead, P.WellFormed, P.Reachable, P.Inv, StagesOk, BalanceOk;
    ConfigWellFormed(conns, handlers);
    a := NeverStuck(conns, handlers, s);
    ReachableInv(conns, handlers, s);
    ShapeOf(conns, c, s);
    AheadShrinks(conns, c, s, a);
    LeadsOneOn(Stepper(conns, c), Init(c), s, a);
    ReachableInv(conns, handlers, Step(conns, c, s, a).value);
    AheadAtEnds(conns, c, Step(conns, c, s, a).value);
  }

  /** From every reachable state, without any spurious wakeup, main can join all handlers. */
  lemma CanFinish(conns: seq<Connection>, handlers: nat, s: State) returns (acts: seq<Action>)
    requires handlers >= 1 && Reachable(conns, handlers, s)
    ensures forall k :: 0 <= k < |acts| ==> Unaided()(acts[k])
    ensures var c := Config(conns, handlers);
            Exec(Stepper(conns, c), s, acts).Some? && P.Finished(Exec(Stepper(conns, c), s, acts).value.pool)
  {
    var c := Config(conns, handlers);
    var keep := (t: State) => Reachable(conns, handlers, t);
    var stop := (t: State) => P.Finished(t.pool);
    hide Config, Step, Reachable, Ahead, P.Finished;
    forall t | keep(t) && !stop(t) ensures CanAdvance(Stepper(conns, c), keep, Unaided(), AheadOf(c), t) {
      var a := MoveToFinish(conns, handlers, t);
      assert Advances(Stepper(conns, c), keep, Unaided(), AheadOf(c), t, a);
    }
    acts := CanReach(Stepper(conns, c), keep, stop, Unaided(), AheadOf(c), s);
  }
}
