/**
 The producer/consumer exercise: n alternating values 1, -1, 1, ..., one INT_MAX per consumer as a pill,
 and consumers that add up what they pop. With a condition variable, and in the variant that polls.
 */
module SumConsumers {
  import opened Runs
  import opened Sums
  import P = WorkerPool
  import I = WorkerPoolInvariant
  import R = WorkerPoolResults
  import E = WorkerPoolEndings

  const INT_MAX: int := 0x7FFF_FFFF

  function Alternating(n: nat): seq<int> {
    seq(n, i => if i % 2 == 0 then 1 else -1)
  }

  /** One turn of a loop of main: push a value and, unless consumers poll, signal. */
  function Section(v: int, polling: bool): seq<P.Instr> {
    if polling then [P.Lock, P.Push(v), P.Unlock] else [P.Lock, P.Push(v), P.Signal, P.Unlock]
  }

  function Sections(values: seq<int>, polling: bool): seq<P.Instr> {
    if values == [] then []
    else Sections(values[..|values| - 1], polling) + Section(values[|values| - 1], polling)
  }

  function Config(n: nat, consumers: nat, polling: bool): P.ConfigData {
    P.ConfigData(
      consumers, Alternating(n), INT_MAX,
      Sections(Alternating(n) + seq(consumers, _ => INT_MAX), polling) + (if polling then [] else [P.Broadcast]),
      polling)
  }

  lemma AppendInstr(script: seq<P.Instr>, i: P.Instr, polling: bool)
    ensures var p := P.ScanOf(script, polling);
            P.ScanOf(script + [i], polling) ==
            match i
            case Lock => P.Scan(true, p.slack, p.ok && !p.held)
            case Push(_) => P.Scan(p.held, p.slack + 1, p.ok && p.held)
            case Signal => p.(slack := if p.slack == 0 then 0 else p.slack - 1)
            case Broadcast => p.(slack := 0)
            case Unlock => P.Scan(false, p.slack, p.ok && p.held && (polling || p.slack == 0))
    ensures P.Sent(script + [i]) == if i.Push? then P.Sent(script) + [i.value] else P.Sent(script)
  {
    assert (script + [i])[..|script|] == script;
  }

  lemma AppendSection(script: seq<P.Instr>, v: int, polling: bool)
    requires P.ScanOf(script, polling).ok && !P.ScanOf(script, polling).held
    requires !polling ==> P.ScanOf(script, polling).slack == 0
    ensures var p := P.ScanOf(script + Section(v, polling), polling);
            p.ok && !p.held && (!polling ==> p.slack == 0)
    ensures P.Sent(script + Section(v, polling)) == P.Sent(script) + [v]
  {
    var s1 := script + [P.Lock];
    var s2 := s1 + [P.Push(v)];
    AppendInstr(script, P.Lock, polling);
    AppendInstr(s1, P.Push(v), polling);
    hide P.ScanOf, P.Sent;
    if polling {
      AppendInstr(s2, P.Unlock, polling);
      assert s2 + [P.Unlock] == script + Section(v, polling);
    } else {
      var s3 := s2 + [P.Signal];
      AppendInstr(s2, P.Signal, polling);
      AppendInstr(s3, P.Unlock, polling);
      assert s3 + [P.Unlock] == script + Section(v, polling);
    }
  }

  lemma {:induction false} SectionsScan(values: seq<int>, polling: bool)
    ensures var p := P.ScanOf(Sections(values, polling), polling);
            p.ok && !p.held && (!polling ==> p.slack == 0)
    ensures P.Sent(Sections(values, polling)) == values
  {
    if values != [] {
      SectionsScan(values[..|values| - 1], polling);
      AppendSection(Sections(values[..|values| - 1], polling), values[|values| - 1], polling);
    }
  }

  /** Both programs meet the conditions under which the results about pools hold. */
  lemma ConfigWellFormed(n: nat, consumers: nat, polling: bool)
    requires consumers >= 1
    ensures P.WellFormed(Config(n, consumers, polling))
  {
    var values := Alternating(n) + seq(consumers, _ => INT_MAX);
    SectionsScan(values, polling);
    if polling {
      assert Config(n, consumers, polling).script == Sections(values, polling);
    } else {
      AppendInstr(Sections(values, polling), P.Broadcast, polling);
    }
  }

  /** Section k of the values starts at 4k, or at 3k without signals. */
  lemma {:induction false} SectionsAt(values: seq<int>, k: nat)
    requires k < |values|
    ensures |Sections(values, false)| == 4 * |values| && |Sections(values, true)| == 3 * |values|
    ensures Sections(values, false)[4 * k..4 * k + 4] == [P.Lock, P.Push(values[k]), P.Signal, P.Unlock]
    ensures Sections(values, true)[3 * k..3 * k + 3] == [P.Lock, P.Push(values[k]), P.Unlock]
  {
    var last := |values| - 1;
    SectionsLength(values[..last]);
    SectionsLength(values);
    if k < last { SectionsAt(values[..last], k); }
  }

  lemma {:induction false} SectionsLength(values: seq<int>)
    ensures |Sections(values, false)| == 4 * |values| && |Sections(values, true)| == 3 * |values|
  {
    if values != [] { SectionsLength(values[..|values| - 1]); }
  }

  /** Main's value number k: the consumers' pills follow n values that are 1 and -1 in turn. */
  function ValueSent(n: nat, k: nat): int {
    if k >= n then 2147483647 else if k % 2 == 0 then 1 else -1
  }

  /**
   The whole script: each value is pushed and signalled once in a critical section of its own, and one
   broadcast follows the last section, after the unlock.
   */
  lemma ScriptInFull(n: nat, consumers: nat, k: nat)
    requires k < n + consumers
    ensures var script := Config(n, consumers, false).script;
            && |script| == 4 * (n + consumers) + 1
            && script[4 * k..4 * k + 4] == [P.Lock, P.Push(ValueSent(n, k)), P.Signal, P.Unlock]
            && script[4 * (n + consumers)] == P.Broadcast
  {
    var values := Alternating(n) + seq(consumers, _ => INT_MAX);
    SectionsAt(values, k);
    hide Sections;
    assert values[k] == ValueSent(n, k);
    assert Config(n, consumers, false).script[4 * k..4 * k + 4] == Sections(values, false)[4 * k..4 * k + 4];
  }

  /** The polling variant pushes the same values in sections of their own, and wakes nobody. */
  lemma PollingScriptInFull(n: nat, consumers: nat, k: nat)
    requires k < n + consumers
    ensures var script := Config(n, consumers, true).script;
            && |script| == 3 * (n + consumers)
            && script[3 * k..3 * k + 3] == [P.Lock, P.Push(ValueSent(n, k)), P.Unlock]
  {
    var values := Alternating(n) + seq(consumers, _ => INT_MAX);
    SectionsAt(values, k);
    hide Sections;
    assert values[k] == ValueSent(n, k);
    assert Config(n, consumers, true).script == Sections(values, true);
  }

  // ---------------------------------------------------------------------------
  // Sums
  // ---------------------------------------------------------------------------

  /** sums is data[i].sum of each consumer; total is what main has added up in its join loop. */
  datatype State = State(pool: P.State, sums: seq<int>, total: int)

  function Init(c: P.ConfigData): State {
    State(P.Init(c), seq(c.workers, _ => 0), 0)
  }

  /** A pill is not added; a value is, and so is the 0 that a polling consumer gets from an empty queue. */
  function Addend(c: P.ConfigData, w: P.Worker): int {
    if w.Handling? && w.item.Some? && w.item.value.value != c.pill then w.item.value.value else 0
  }

  function Step(c: P.ConfigData, s: State, a: P.Action): Option<State> {
    match P.Step(c, s.pool, a)
    case None => None
    case Some(p) =>
      match a
      case Work(i) =>
        if i < |s.sums| && i < |s.pool.workers| then
          Some(State(p, s.sums[i := s.sums[i] + Addend(c, s.pool.workers[i])], s.total))
        else None
      case Main(_) =>
        if s.pool.pc == |c.script| && s.pool.joined < |s.sums| then
          Some(State(p, s.sums, s.total + s.sums[s.pool.joined]))
        else Some(s.(pool := p))
      case Spurious(_) => Some(s.(pool := p))
  }

  function Stepper(c: P.ConfigData): (State, P.Action) -> Option<State> {
    (s: State, a: P.Action) => Step(c, s, a)
  }

  ghost predicate Reachable(c: P.ConfigData, s: State) {
    Leads(Stepper(c), Init(c), s)
  }

  function Id(v: int): int { v }

  /** Pills count nothing. */
  function Worth(c: P.ConfigData, v: int): int { if v == c.pill then 0 else v }

  function WorthInHand(c: P.ConfigData, w: P.Worker): int {
    if P.InHand(w).Some? then Worth(c, P.InHand(w).value.value) else 0
  }

  function Value(c: P.ConfigData): int -> int { (v: int) => Worth(c, v) }

  function Carried(c: P.ConfigData): P.Worker -> int { (w: P.Worker) => WorthInHand(c, w) }

  predicate Conserved(c: P.ConfigData, s: State) {
    && |s.sums| == |s.pool.workers|
    && |s.pool.mem.taken| <= |P.All(c)|
    && SumBy(Id, s.sums) + SumBy(Carried(c), s.pool.workers) == SumBy(Value(c), P.All(c)[..|s.pool.mem.taken|])
  }

  predicate Totalled(s: State) {
    s.pool.joined <= |s.sums| && s.total == SumBy(Id, s.sums[..s.pool.joined])
  }

  lemma LocalCarried(c: P.ConfigData, m: P.Memory, i: nat, w: P.Worker)
    requires P.MemoryOk(c, m, c.workers) && P.Local(c, m, i, w).Some?
    ensures var (m', w') := P.Local(c, m, i, w).value;
            && (|m'.taken| == |m.taken| ==> WorthInHand(c, w') + Addend(c, w) == WorthInHand(c, w))
            && (|m'.taken| != |m.taken| ==>
                  && |m'.taken| == |m.taken| + 1 && |m.taken| < |P.All(c)|
                  && Addend(c, w) == WorthInHand(c, w) == 0 && WorthInHand(c, w') == Worth(c, P.All(c)[|m.taken|]))
  {
    hide P.All;
    if w.Popping? { assert m.queue != [] ==> m.queue[0] == P.All(c)[|m.taken|]; }
  }

  lemma WorkConserves(c: P.ConfigData, s: State, i: nat)
    requires P.MemoryOk(c, s.pool.mem, c.workers) && Conserved(c, s) && Step(c, s, P.Work(i)).Some?
    ensures Conserved(c, Step(c, s, P.Work(i)).value)
  {
    var t := Step(c, s, P.Work(i)).value;
    var all := P.All(c);
    var k := |s.pool.mem.taken|;
    LocalCarried(c, s.pool.mem, i, s.pool.workers[i]);
    LocalTaken(c, s.pool.mem, i, s.pool.workers[i]);
    hide P.Local, P.All, Addend, WorthInHand, Worth, P.MemoryOk;
    SumUpdate(Id, s.sums, i, t.sums[i]);
    SumUpdate(Carried(c), s.pool.workers, i, t.pool.workers[i]);
    if |t.pool.mem.taken| > k {
      SumLast(Value(c), all[..k + 1]);
      assert all[..k + 1][..k] == all[..k];
    }
  }

  lemma LocalTaken(c: P.ConfigData, m: P.Memory, i: nat, w: P.Worker)
    requires P.Local(c, m, i, w).Some?
    ensures var m' := P.Local(c, m, i, w).value.0;
            m'.taken == m.taken || m'.taken == m.taken + [i]
  {
  }

  lemma ConservedKept(c: P.ConfigData, s: State, a: P.Action)
    requires P.MemoryOk(c, s.pool.mem, c.workers) && Conserved(c, s) && Step(c, s, a).Some?
    ensures Conserved(c, Step(c, s, a).value)
  {
    var t := Step(c, s, a).value;
    match a {
      case Work(i) => WorkConserves(c, s, i);
      case Spurious(i) => SumUpdate(Carried(c), s.pool.workers, i, P.Woken);
      case Main(wakes) =>
        I.MainWakes(c, s.pool, wakes);
        hide P.Step, P.All, P.MainStep, P.MemoryOk;
        SumEq(Carried(c), s.pool.workers, Carried(c), t.pool.workers);
    }
  }

  lemma TotalledKept(c: P.ConfigData, s: State, a: P.Action)
    requires P.Shape(c, s.pool) && |s.sums| == |s.pool.workers| && Totalled(s) && Step(c, s, a).Some?
    ensures Totalled(Step(c, s, a).value)
  {
    var t := Step(c, s, a).value;
    var k := s.pool.joined;
    hide P.All, P.WorkerOk, P.Sent, P.ScanOf;
    match a {
      case Work(i) => assert t.sums[..k] == s.sums[..k];
      case Spurious(i) =>
      case Main(_) =>
        if t.pool.joined == k + 1 {
          SumLast(Id, s.sums[..k + 1]);
          assert s.sums[..k + 1][..k] == s.sums[..k];
        }
    }
  }

  ghost predicate Inv(c: P.ConfigData, s: State) {
    P.Inv(c, s.pool) && Conserved(c, s) && Totalled(s)
  }

  lemma StepKeepsInv(c: P.ConfigData, s: State, a: P.Action)
    requires P.WellFormed(c) && Inv(c, s) && Step(c, s, a).Some?
    ensures Inv(c, Step(c, s, a).value)
  {
    I.StepKeepsInv(c, s.pool, a);
    ConservedKept(c, s, a);
    TotalledKept(c, s, a);
  }

  lemma InitInv(c: P.ConfigData)
    requires P.WellFormed(c)
    ensures Inv(c, Init(c))
  {
    I.InitInv(c);
    var s := Init(c);
    SumConst(Id, s.sums, 0);
    SumConst(Carried(c), s.pool.workers, 0);
  }

  lemma ReachableInv(c: P.ConfigData, s: State)
    requires P.WellFormed(c) && Reachable(c, s)
    ensures Inv(c, s) && P.Reachable(c, s.pool)
  {
    var acts :| Exec(Stepper(c), Init(c), acts) == Some(s);
    InitInv(c);
    hide Step, Init, Inv, P.WellFormed, P.Step;
    forall t, a | Inv(c, t) && Stepper(c)(t, a).Some? ensures Inv(c, Stepper(c)(t, a).value) {
      StepKeepsInv(c, t, a);
    }
    KeepsInvariant(Stepper(c), t => Inv(c, t), Init(c), acts);
    PoolRun(c, acts);
  }

  lemma PoolRun(c: P.ConfigData, acts: seq<P.Action>)
    requires Exec(Stepper(c), Init(c), acts).Some?
    ensures P.Reachable(c, Exec(Stepper(c), Init(c), acts).value.pool)
  {
    hide P.Step;
    ProjectedRun(Stepper(c), P.Stepper(c), (s: State) => s.pool, (a: P.Action) => Some(a), Init(c), acts);
  }

  // ---------------------------------------------------------------------------
  // Results
  // ---------------------------------------------------------------------------

  lemma {:induction false} AlternatingSum(n: nat, m: nat)
    requires m <= n
    ensures SumBy(Id, Alternating(n)[..m]) == m % 2
  {
    if m > 0 {
      AlternatingSum(n, m - 1);
      SumLast(Id, Alternating(n)[..m]);
      assert Alternating(n)[..m][..m - 1] == Alternating(n)[..m - 1];
    }
  }

  /** The first k values sent are worth the first min(k, n) of the alternating sequence. */
  lemma {:induction false} SentValue(n: nat, consumers: nat, polling: bool, k: nat)
    requires k <= n + consumers
    ensures SumBy(Value(Config(n, consumers, polling)), P.All(Config(n, consumers, polling))[..k]) == (if k <= n then k else n) % 2
  {
    var c := Config(n, consumers, polling);
    var all := P.All(c);
    assert |all| == n + consumers;
    if k > 0 {
      SentValue(n, consumers, polling, k - 1);
      SumLast(Value(c), all[..k]);
      assert all[..k][..k - 1] == all[..k - 1];
    }
  }

  lemma InvParts(c: P.ConfigData, s: State)
    requires Inv(c, s)
    ensures P.MemoryOk(c, s.pool.mem, c.workers) && Conserved(c, s)
    ensures |s.pool.mem.taken| + |s.pool.mem.queue| <= |P.All(c)| && |s.sums| == |s.pool.workers|
  {
  }

  lemma AllSent(n: nat, consumers: nat, polling: bool)
    ensures |P.All(Config(n, consumers, polling))| == n + consumers
  {
  }

  /** What is summed, in hands, and in the queue is worth what has been pushed, under every interleaving. */
  lemma Conservation(n: nat, consumers: nat, polling: bool, s: State)
    requires consumers >= 1 && Reachable(Config(n, consumers, polling), s)
    ensures var c := Config(n, consumers, polling);
            var pushed := |s.pool.mem.taken| + |s.pool.mem.queue|;
            SumBy(Id, s.sums) + SumBy(Carried(c), s.pool.workers) + SumBy(Value(c), s.pool.mem.queue)
            == (if pushed <= n then pushed else n) % 2
  {
    hide *;
    var c := Config(n, consumers, polling);
    ConfigWellFormed(n, consumers, polling);
    AllSent(n, consumers, polling);
    ReachableInv(c, s);
    InvParts(c, s);
    WorthOfPushed(c, s);
    SentValue(n, consumers, polling, |s.pool.mem.taken| + |s.pool.mem.queue|);
  }

  /** What the values that consumer i popped are worth; taken[k] is the consumer that popped value k. */
  function Share(c: P.ConfigData, taken: seq<nat>, i: nat): int
    requires |taken| <= |P.All(c)|
  {
    if taken == [] then 0
    else
      var k := |taken| - 1;
      Share(c, taken[..k], i) + if taken[k] == i then Worth(c, P.All(c)[k]) else 0
  }

  predicate Shared(c: P.ConfigData, s: State) {
    && |s.sums| == |s.pool.workers|
    && |s.pool.mem.taken| <= |P.All(c)|
    && forall i :: 0 <= i < |s.sums| ==> s.sums[i] + WorthInHand(c, s.pool.workers[i]) == Share(c, s.pool.mem.taken, i)
  }

  lemma ShareGrows(c: P.ConfigData, taken: seq<nat>, i: nat, j: nat)
    requires |taken| < |P.All(c)|
    ensures Share(c, taken + [i], j) == Share(c, taken, j) + if i == j then Worth(c, P.All(c)[|taken|]) else 0
  {
    assert (taken + [i])[..|taken|] == taken;
  }

  lemma WorkShares(c: P.ConfigData, s: State, i: nat)
    requires P.MemoryOk(c, s.pool.mem, c.workers) && Shared(c, s) && Step(c, s, P.Work(i)).Some?
    ensures Shared(c, Step(c, s, P.Work(i)).value)
  {
    var t := Step(c, s, P.Work(i)).value;
    LocalCarried(c, s.pool.mem, i, s.pool.workers[i]);
    LocalTaken(c, s.pool.mem, i, s.pool.workers[i]);
    hide P.Local, P.All, Addend, WorthInHand, Worth, P.MemoryOk, Share;
    forall j | 0 <= j < |t.sums|
      ensures t.sums[j] + WorthInHand(c, t.pool.workers[j]) == Share(c, t.pool.mem.taken, j)
    {
      if |t.pool.mem.taken| > |s.pool.mem.taken| { ShareGrows(c, s.pool.mem.taken, i, j); }
    }
  }

  lemma SharedKept(c: P.ConfigData, s: State, a: P.Action)
    requires P.MemoryOk(c, s.pool.mem, c.workers) && Shared(c, s) && Step(c, s, a).Some?
    ensures Shared(c, Step(c, s, a).value)
  {
    match a {
      case Work(i) => WorkShares(c, s, i);
      case Spurious(i) => hide Share, P.All;
      case Main(wakes) =>
        I.MainWakes(c, s.pool, wakes);
        hide P.Step, P.All, P.MainStep, P.MemoryOk, Share;
    }
  }

  /** A consumer's sum is what it popped itself and does not still hold, whoever else popped what. */
  lemma OwnShare(n: nat, consumers: nat, polling: bool, s: State, i: nat)
    requires consumers >= 1 && Reachable(Config(n, consumers, polling), s) && i < |s.sums|
    ensures var c := Config(n, consumers, polling);
            && |s.sums| == |s.pool.workers| == consumers
            && |s.pool.mem.taken| <= |P.All(c)|
            && s.sums[i] + WorthInHand(c, s.pool.workers[i]) == Share(c, s.pool.mem.taken, i)
    ensures s.pool.workers[i].Exited? ==> s.sums[i] == Share(Config(n, consumers, polling), s.pool.mem.taken, i)
  {
    var c := Config(n, consumers, polling);
    ConfigWellFormed(n, consumers, polling);
    ReachableShared(c, s);
    hide Share, P.All;
  }

  lemma ReachableShared(c: P.ConfigData, s: State)
    requires P.WellFormed(c) && Reachable(c, s)
    ensures Shared(c, s) && |s.sums| == c.workers
  {
    var acts :| Exec(Stepper(c), Init(c), acts) == Some(s);
    InitInv(c);
    assert Shared(c, Init(c));
    hide Step, Init, Inv, Shared, P.WellFormed;
    forall t, a | (Inv(c, t) && Shared(c, t)) && Stepper(c)(t, a).Some?
      ensures Inv(c, Stepper(c)(t, a).value) && Shared(c, Stepper(c)(t, a).value)
    {
      StepKeepsInv(c, t, a);
      InvParts(c, t);
      SharedKept(c, t, a);
    }
    KeepsInvariant(Stepper(c), t => Inv(c, t) && Shared(c, t), Init(c), acts);
    SizeOf(c, s);
  }

  lemma SizeOf(c: P.ConfigData, s: State)
    requires Inv(c, s)
    ensures |s.sums| == c.workers
  {
  }

  lemma WorthOfPushed(c: P.ConfigData, s: State)
    requires P.MemoryOk(c, s.pool.mem, c.workers) && Conserved(c, s)
    ensures SumBy(Id, s.sums) + SumBy(Carried(c), s.pool.workers) + SumBy(Value(c), s.pool.mem.queue)
            == SumBy(Value(c), P.All(c)[..|s.pool.mem.taken| + |s.pool.mem.queue|])
  {
    var k := |s.pool.mem.taken|;
    var all := P.All(c);
    hide P.All, WorthInHand, Worth;
    assert all[..k + |s.pool.mem.queue|] == all[..k] + s.pool.mem.queue;
    SumAppend(Value(c), all[..k], s.pool.mem.queue);
  }

  /** Every run that ends prints n mod 2. */
  lemma FinalSum(n: nat, consumers: nat, polling: bool, s: State)
    requires consumers >= 1 && Reachable(Config(n, consumers, polling), s) && P.Finished(s.pool)
    ensures s.total == n % 2
    ensures s.pool.mem.queue == []
  {
    var c := Config(n, consumers, polling);
    ConfigWellFormed(n, consumers, polling);
    ReachableInv(c, s);
    R.FinishedMeansDelivered(c, s.pool);
    SentValue(n, consumers, polling, n + consumers);
    assert P.All(c)[..n + consumers] == P.All(c);
    SumConst(Carried(c), s.pool.workers, 0);
    assert s.sums[..|s.sums|] == s.sums;
  }

  lemma StepOfPool(c: P.ConfigData, s: State, a: P.Action)
    requires |s.sums| == |s.pool.workers| && P.Step(c, s.pool, a).Some?
    ensures Step(c, s, a).Some?
  {
  }

  /** Until main has joined all consumers, some thread can go on. */
  lemma NeverStuck(n: nat, consumers: nat, polling: bool, s: State) returns (a: P.Action)
    requires consumers >= 1 && Reachable(Config(n, consumers, polling), s) && !P.Finished(s.pool)
    ensures !a.Spurious? && Step(Config(n, consumers, polling), s, a).Some?
  {
    var c := Config(n, consumers, polling);
    hide *;
    ConfigWellFormed(n, consumers, polling);
    ReachableInv(c, s);
    InvParts(c, s);
    a := R.NeverStuck(c, s.pool);
    StepOfPool(c, s, a);
  }

  /** What the pool can do, the program can do. */
  lemma {:induction false} RunOfPool(c: P.ConfigData, s: State, acts: seq<P.Action>)
    requires |s.sums| == |s.pool.workers| && Exec(P.Stepper(c), s.pool, acts).Some?
    ensures Exec(Stepper(c), s, acts).Some?
    ensures Exec(Stepper(c), s, acts).value.pool == Exec(P.Stepper(c), s.pool, acts).value
    decreases |acts|
  {
    if acts != [] {
      PoolStep(c, s, acts[0]);
      hide P.Step, Step;
      RunOfPool(c, Step(c, s, acts[0]).value, acts[1..]);
    }
  }

  lemma PoolStep(c: P.ConfigData, s: State, a: P.Action)
    requires |s.sums| == |s.pool.workers| && P.Step(c, s.pool, a).Some?
    ensures Step(c, s, a).Some?
    ensures var t := Step(c, s, a).value; t.pool == P.Step(c, s.pool, a).value && |t.sums| == |t.pool.workers|
  {
    if a.Main? { I.MainWakes(c, s.pool, a.wakes); }
  }

  /** From every reachable state of either variant, without any spurious wakeup, the program can print its sum. */
  lemma CanFinish(n: nat, consumers: nat, polling: bool, s: State) returns (acts: seq<P.Action>)
    requires consumers >= 1 && Reachable(Config(n, consumers, polling), s)
    ensures forall k :: 0 <= k < |acts| ==> !acts[k].Spurious?
    ensures var c := Config(n, consumers, polling);
            Exec(Stepper(c), s, acts).Some? &&
            P.Finished(Exec(Stepper(c), s, acts).value.pool) && Exec(Stepper(c), s, acts).value.total == n % 2
  {
    var c := Config(n, consumers, polling);
    hide Step, Init, Config, Inv, P.WellFormed, P.Finished, P.Reachable, SumBy;
    ConfigWellFormed(n, consumers, polling);
    ReachableInv(c, s);
    InvParts(c, s);
    acts := E.CanFinish(c, s.pool);
    RunOfPool(c, s, acts);
    LeadsOn(Stepper(c), Init(c), s, acts);
    FinalSum(n, consumers, polling, Exec(Stepper(c), s, acts).value);
  }

}
