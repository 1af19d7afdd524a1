/** Every operation of the producer and of every worker keeps the invariant of the pool. */
module WorkerPoolInvariant {
  import opened Runs
  import opened Sums
  import opened WorkerPool

  lemma ItemAt(c: ConfigData, k: nat)
    requires k < |All(c)| && c.pill !in c.items
    ensures k < |c.items| ==> All(c)[k] == c.items[k] && All(c)[k] != c.pill
    ensures k >= |c.items| ==> All(c)[k] == c.pill
  {
  }

  lemma LocalShape(c: ConfigData, m: Memory, n: nat, i: nat, w: Worker)
    requires i < n && c.pill !in c.items && MemoryOk(c, m, n) && WorkerOk(c, m, i, w) && Local(c, m, i, w).Some?
    ensures MemoryOk(c, Local(c, m, i, w).value.0, n)
    ensures WorkerOk(c, Local(c, m, i, w).value.0, i, Local(c, m, i, w).value.1)
    ensures var m' := Local(c, m, i, w).value.0;
            |m'.taken| + |m'.queue| == |m.taken| + |m.queue| && (m'.owner == ByMain <==> m.owner == ByMain) && !w.Exited?
  {
    hide All;
    if w.Handling? && w.item.Some? { ItemAt(c, w.item.value.index); }
  }

  lemma LocalStable(c: ConfigData, m: Memory, i: nat, w: Worker, j: nat, d: Worker)
    requires i != j && WorkerOk(c, m, i, w) && WorkerOk(c, m, j, d) && Local(c, m, i, w).Some?
    requires |Local(c, m, i, w).value.0.taken| <= |All(c)|
    ensures WorkerOk(c, Local(c, m, i, w).value.0, j, d)
  {
    hide All;
  }

  /** A worker gets a pill exactly when it pops one, keeps it, and pops nothing after it. */
  lemma LocalPills(c: ConfigData, m: Memory, n: nat, i: nat, w: Worker)
    requires c.pill !in c.items && MemoryOk(c, m, n) && WorkerOk(c, m, i, w) && Local(c, m, i, w).Some?
    ensures var (m', w') := Local(c, m, i, w).value;
            && m.taken <= m'.taken
            && (|m'.taken| == |m.taken| ==> One(HasPill(c, w')) == One(HasPill(c, w)))
            && (|m'.taken| > |m.taken| ==>
                  && m'.taken == m.taken + [i] && !HasPill(c, w)
                  && (HasPill(c, w') <==> |m.taken| >= |c.items|) && KeepsPill(c, w', |m.taken|))
            && (forall k :: |c.items| <= k < |m.taken| && KeepsPill(c, w, k) ==> KeepsPill(c, w', k))
  {
    if w.Popping? { ItemAt(c, |m.taken|); }
    if InHand(w).Some? { ItemAt(c, InHand(w).value.index); }
    hide All;
  }

  lemma LocalWakeups(c: ConfigData, m: Memory, i: nat, w: Worker)
    requires Local(c, m, i, w).Some?
    ensures var (m', w') := Local(c, m, i, w).value;
            && !w.Waiting?
            && (w'.Waiting? ==> m'.queue == [])
            && (!w'.Waiting? ==> |m'.queue| - One(Awake(c, w')) <= |m.queue| - One(Awake(c, w)))
  {
  }

  lemma PrefixStep(c: ConfigData, pc: nat)
    requires pc < |c.script|
    ensures c.script[..pc + 1][..pc] == c.script[..pc] && c.script[..pc + 1][pc] == c.script[pc]
  {
  }

  lemma {:induction false} SentGrows(script: seq<Instr>, pc: nat)
    requires pc <= |script|
    ensures Sent(script[..pc]) <= Sent(script)
    decreases |script| - pc
  {
    if pc == |script| {
      assert script[..pc] == script;
    } else {
      assert script[..pc + 1][..pc] == script[..pc];
      SentGrows(script, pc + 1);
    }
  }

  lemma {:induction false} ScanStaysOk(script: seq<Instr>, polling: bool, pc: nat)
    requires pc <= |script| && ScanOf(script, polling).ok
    ensures ScanOf(script[..pc], polling).ok
    decreases |script| - pc
  {
    if pc == |script| {
      assert script[..pc] == script;
    } else {
      ScanStaysOk(script, polling, pc + 1);
      assert script[..pc + 1][..pc] == script[..pc];
    }
  }

  /** The producer does not disturb what worker i relies on. */
  lemma MainStable(c: ConfigData, m: Memory, m': Memory, i: nat, w: Worker, w': Worker)
    requires WorkerOk(c, m, i, w) && (w' == w || w' == Wake(w))
    requires m'.taken == m.taken && m.queue <= m'.queue && (m'.owner.ByWorker? || m.owner.ByWorker? ==> m'.owner == m.owner)
    ensures WorkerOk(c, m', i, w')
  {
    hide All;
  }

  /** What one instruction of the script does to the memory. */
  lemma ScriptMemory(c: ConfigData, s: State, wakes: nat)
    requires WellFormed(c) && s.pc < |c.script| && MainStep(c, s, wakes).Some?
    requires MemoryOk(c, s.mem, c.workers)
    requires Sent(c.script[..s.pc]) == All(c)[..|s.mem.taken| + |s.mem.queue|]
    requires s.mem.owner == ByMain <==> ScanOf(c.script[..s.pc], c.polling).held
    ensures var t := MainStep(c, s, wakes).value;
            && MemoryOk(c, t.mem, c.workers)
            && Sent(c.script[..t.pc]) == All(c)[..|t.mem.taken| + |t.mem.queue|]
            && (t.mem.owner == ByMain <==> ScanOf(c.script[..t.pc], c.polling).held)
            && t.mem.taken == s.mem.taken && s.mem.queue <= t.mem.queue
            && (t.mem.owner.ByWorker? || s.mem.owner.ByWorker? ==> t.mem.owner == s.mem.owner)
  {
    hide WellFormed, MainStep, ScanOf, All, Sent;
    SentNext(c, s.pc);
    MemoryNext(c, s, wakes);
    if c.script[s.pc].Push? { PushedNext(c, s) by { SentIsAll(c); } }
    ScriptOwner(c, s, wakes) by { SentIsAll(c); }
  }

  lemma SentIsAll(c: ConfigData)
    requires WellFormed(c)
    ensures Sent(c.script) == All(c) && ScanOf(c.script, c.polling).ok
  {
  }

  lemma SentNext(c: ConfigData, pc: nat)
    requires pc < |c.script|
    ensures Sent(c.script[..pc + 1]) == Sent(c.script[..pc]) + if c.script[pc].Push? then [c.script[pc].value] else []
  {
    PrefixStep(c, pc);
  }

  lemma MemoryNext(c: ConfigData, s: State, wakes: nat)
    requires s.pc < |c.script| && MainStep(c, s, wakes).Some?
    ensures var t := MainStep(c, s, wakes).value;
            && t.mem.taken == s.mem.taken && t.pc == s.pc + 1
            && t.mem.queue == s.mem.queue + if c.script[s.pc].Push? then [c.script[s.pc].value] else []
  {
  }

  lemma ScriptOwner(c: ConfigData, s: State, wakes: nat)
    requires ScanOf(c.script, c.polling).ok && s.pc < |c.script| && MainStep(c, s, wakes).Some?
    requires s.mem.owner == ByMain <==> ScanOf(c.script[..s.pc], c.polling).held
    ensures var t := MainStep(c, s, wakes).value;
            && (t.mem.owner == ByMain <==> ScanOf(c.script[..t.pc], c.polling).held)
            && (t.mem.owner.ByWorker? || s.mem.owner.ByWorker? ==> t.mem.owner == s.mem.owner)
  {
    PrefixStep(c, s.pc);
    ScanStaysOk(c.script, c.polling, s.pc + 1);
  }

  /** A push sends the next value of All. */
  lemma PushedNext(c: ConfigData, s: State)
    requires Sent(c.script) == All(c) && s.pc < |c.script| && c.script[s.pc].Push?
    requires MemoryOk(c, s.mem, c.workers)
    requires Sent(c.script[..s.pc]) == All(c)[..|s.mem.taken| + |s.mem.queue|]
    ensures var queue := s.mem.queue + [c.script[s.pc].value];
            && |s.mem.taken| + |queue| <= |All(c)|
            && queue == All(c)[|s.mem.taken|..|s.mem.taken| + |queue|]
            && Sent(c.script[..s.pc + 1]) == All(c)[..|s.mem.taken| + |queue|]
  {
    var k := |s.mem.taken| + |s.mem.queue|;
    SentNext(c, s.pc);
    SentGrows(c.script, s.pc + 1);
    hide All, Sent;
    assert All(c)[k] == Sent(c.script[..s.pc + 1])[k];
    assert All(c)[|s.mem.taken|..k + 1] == All(c)[|s.mem.taken|..k] + [All(c)[k]];
    assert All(c)[..k + 1] == All(c)[..k] + [All(c)[k]];
  }

  lemma MainShape(c: ConfigData, s: State, wakes: nat)
    requires WellFormed(c) && Shape(c, s) && MainStep(c, s, wakes).Some?
    ensures Shape(c, MainStep(c, s, wakes).value)
  {
    var t := MainStep(c, s, wakes).value;
    if s.pc < |c.script| {
      ScriptMemory(c, s, wakes);
      MainWakes(c, s, wakes);
      MemoryNext(c, s, wakes);
      hide All, WellFormed, WorkerOk, MemoryOk, Sent, ScanOf, MainStep, Wake;
      forall i | 0 <= i < |s.workers| ensures WorkerOk(c, t.mem, i, t.workers[i]) {
        MainStable(c, s.mem, t.mem, i, s.workers[i], t.workers[i]);
      }
    }
  }

  lemma ShapeKept(c: ConfigData, s: State, a: Action)
    requires WellFormed(c) && Shape(c, s) && Step(c, s, a).Some?
    ensures Shape(c, Step(c, s, a).value)
  {
    var t := Step(c, s, a).value;
    match a {
      case Work(i) =>
        LocalShape(c, s.mem, c.workers, i, s.workers[i]);
        hide All, WellFormed, Local, Sent, ScanOf, WorkerOk, MemoryOk;
        forall j | 0 <= j < |s.workers| && j != i ensures WorkerOk(c, t.mem, j, t.workers[j]) {
          TakenBounded(c, t.mem);
          LocalStable(c, s.mem, i, s.workers[i], j, s.workers[j]);
        }
      case Spurious(i) =>
        hide All, WellFormed, Sent, ScanOf, WorkerOk, MemoryOk;
        forall j | 0 <= j < |s.workers| ensures WorkerOk(c, t.mem, j, t.workers[j]) {
          MainStable(c, s.mem, t.mem, j, s.workers[j], t.workers[j]);
        }
      case Main(wakes) => MainShape(c, s, wakes);
    }
  }

  lemma TakenBounded(c: ConfigData, m: Memory)
    requires MemoryOk(c, m, c.workers)
    ensures |m.taken| <= |All(c)|
  {
  }

  lemma WorkPills(c: ConfigData, s: State, i: nat)
    requires WellFormed(c) && Shape(c, s) && PillsKept(c, s) && PillsCounted(c, s) && Step(c, s, Work(i)).Some?
    ensures PillsKept(c, Step(c, s, Work(i)).value) && PillsCounted(c, Step(c, s, Work(i)).value)
  {
    var t := Step(c, s, Work(i)).value;
    LocalPills(c, s.mem, c.workers, i, s.workers[i]);
    hide All, WellFormed, Shape, Local, HasPill, KeepsPill;
    SumUpdate(TookPill(c), s.workers, i, t.workers[i]);
  }

  lemma PillsKeptKept(c: ConfigData, s: State, a: Action)
    requires WellFormed(c) && Shape(c, s) && PillsKept(c, s) && PillsCounted(c, s) && Step(c, s, a).Some?
    ensures PillsKept(c, Step(c, s, a).value) && PillsCounted(c, Step(c, s, a).value)
  {
    var t := Step(c, s, a).value;
    match a {
      case Work(i) => WorkPills(c, s, i);
      case Spurious(i) => SumUpdate(TookPill(c), s.workers, i, Woken);
      case Main(wakes) =>
        MainWakes(c, s, wakes);
        hide Step, Shape, WellFormed;
        SumEq(TookPill(c), s.workers, TookPill(c), t.workers);
    }
  }

  /** The producer changes workers only by waking them. */
  lemma MainWakes(c: ConfigData, s: State, wakes: nat)
    requires MainStep(c, s, wakes).Some?
    ensures var t := MainStep(c, s, wakes).value;
            && |t.workers| == |s.workers| && t.mem.taken == s.mem.taken
            && forall i :: 0 <= i < |s.workers| ==> t.workers[i] == s.workers[i] || t.workers[i] == Wake(s.workers[i])
  {
  }

  lemma WaitersCounted(c: ConfigData, ws: seq<Worker>)
    ensures 0 <= SumBy(IsWaiting(), ws) && 0 <= SumBy(IsAwake(c), ws)
    ensures SumBy(IsWaiting(), ws) == 0 <==> forall k :: 0 <= k < |ws| ==> !ws[k].Waiting?
  {
    SumNonNeg(IsWaiting(), ws);
    SumNonNeg(IsAwake(c), ws);
    if forall k :: 0 <= k < |ws| ==> !ws[k].Waiting? {
      SumConst(IsWaiting(), ws, 0);
    } else {
      var k :| 0 <= k < |ws| && ws[k].Waiting?;
      assert IsWaiting()(ws[k]) == 1;
    }
  }

  lemma WorkWakeups(c: ConfigData, s: State, i: nat)
    requires NoLostWakeup(c, s) && Step(c, s, Work(i)).Some?
    ensures NoLostWakeup(c, Step(c, s, Work(i)).value)
  {
    var t := Step(c, s, Work(i)).value;
    LocalWakeups(c, s.mem, i, s.workers[i]);
    hide Local, ScanOf, Awake;
    SumUpdate(IsWaiting(), s.workers, i, t.workers[i]);
    SumUpdate(IsAwake(c), s.workers, i, t.workers[i]);
    WaitersCounted(c, t.workers);
  }

  lemma MainWakeups(c: ConfigData, s: State, wakes: nat)
    requires NoLostWakeup(c, s) && MainStep(c, s, wakes).Some?
    ensures NoLostWakeup(c, MainStep(c, s, wakes).value)
  {
    var t := MainStep(c, s, wakes).value;
    WaitersCounted(c, s.workers);
    WaitersCounted(c, t.workers);
    if s.pc < |c.script| {
      PrefixStep(c, s.pc);
      match c.script[s.pc]
      case Signal =>
        if t.workers != s.workers {
          SumUpdate(IsWaiting(), s.workers, wakes, Woken);
          SumUpdate(IsAwake(c), s.workers, wakes, Woken);
        }
      case Broadcast =>
      case _ =>
    }
  }

  lemma WakeupsKept(c: ConfigData, s: State, a: Action)
    requires NoLostWakeup(c, s) && Step(c, s, a).Some?
    ensures NoLostWakeup(c, Step(c, s, a).value)
  {
    match a {
      case Work(i) => WorkWakeups(c, s, i);
      case Spurious(i) =>
        SumUpdate(IsWaiting(), s.workers, i, Woken);
        SumUpdate(IsAwake(c), s.workers, i, Woken);
        WaitersCounted(c, s.workers);
      case Main(wakes) => MainWakeups(c, s, wakes);
    }
  }

  lemma StepKeepsInv(c: ConfigData, s: State, a: Action)
    requires WellFormed(c) && Inv(c, s) && Step(c, s, a).Some?
    ensures Inv(c, Step(c, s, a).value)
  {
    hide Step, WellFormed, Shape, PillsKept, PillsCounted, NoLostWakeup;
    ShapeKept(c, s, a);
    PillsKeptKept(c, s, a);
    WakeupsKept(c, s, a);
  }

  lemma InitInv(c: ConfigData)
    requires WellFormed(c)
    ensures Inv(c, Init(c))
  {
    var s := Init(c);
    assert c.script[..0] == [];
    SumConst(TookPill(c), s.workers, 0);
    SumConst(IsWaiting(), s.workers, 0);
  }

  lemma ReachableInv(c: ConfigData, s: State)
    requires WellFormed(c) && Reachable(c, s)
    ensures Inv(c, s)
  {
    var acts :| Exec(Stepper(c), Init(c), acts) == Some(s);
    InitInv(c);
    hide Step, Init, Inv, WellFormed;
    forall t, a | Inv(c, t) && Stepper(c)(t, a).Some? ensures Inv(c, Stepper(c)(t, a).value) {
      StepKeepsInv(c, t, a);
    }
    KeepsInvariant(Stepper(c), t => Inv(c, t), Init(c), acts);
  }
}
