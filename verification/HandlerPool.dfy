/**
 The request handlers of the web server: the pool of the producer/consumer exercise, fed with accepted
 sockets and stopped by -1 pills that main pushes under one lock. Handling a request may add a donation to
 the shared balance under a second mutex, or take one off the running counter.

 The requests are those of the connections accepted in the run; main leaves its accept loop after the last.
 Amounts are whole numbers of a unit that divides all of them.
 */
module HandlerPool {
  import opened Runs
  import opened Sums
  import P = WorkerPool
  import I = WorkerPoolInvariant
  import SC = SumConsumers

  const POISON_PILL: int := -1

  /** What handle_client finds; NoEffect stands for GET, unknown and malformed requests and read errors. */
  datatype Request = Donate(amount: int) | Shutdown | NoEffect

  datatype Connection = Connection(socket: nat, request: Request)

  function Sockets(conns: seq<Connection>): seq<int> {
    seq(|conns|, i requires 0 <= i < |conns| => conns[i].socket)
  }

  function Pushes(n: nat): seq<P.Instr> {
    seq(n, _ => P.Push(POISON_PILL))
  }

  /** main: one locked push and signal per connection, then all pills and a broadcast under one lock. */
  function Config(conns: seq<Connection>, handlers: nat): P.ConfigData {
    P.ConfigData(
      handlers, Sockets(conns), POISON_PILL,
      SC.Sections(Sockets(conns), false) + [P.Lock] + Pushes(handlers) + [P.Broadcast] + [P.Unlock],
      false)
  }

  lemma {:induction false} PillSection(script: seq<P.Instr>, n: nat)
    requires P.ScanOf(script, false).ok && P.ScanOf(script, false).held
    ensures P.ScanOf(script + Pushes(n), false).ok && P.ScanOf(script + Pushes(n), false).held
    ensures P.Sent(script + Pushes(n)) == P.Sent(script) + seq(n, _ => POISON_PILL)
  {
    if n == 0 {
      assert script + Pushes(0) == script;
    } else {
      PillSection(script, n - 1);
      assert script + Pushes(n) == script + Pushes(n - 1) + [P.Push(POISON_PILL)];
      SC.AppendInstr(script + Pushes(n - 1), P.Push(POISON_PILL), false);
      assert seq(n, _ => POISON_PILL) == seq(n - 1, _ => POISON_PILL) + [POISON_PILL];
    }
  }

  lemma ConfigWellFormed(conns: seq<Connection>, handlers: nat)
    requires handlers >= 1
    ensures P.WellFormed(Config(conns, handlers))
  {
    var s0 := SC.Sections(Sockets(conns), false);
    SC.SectionsScan(Sockets(conns), false);
    SC.AppendInstr(s0, P.Lock, false);
    PillSection(s0 + [P.Lock], handlers);
    var s1 := s0 + [P.Lock] + Pushes(handlers);
    SC.AppendInstr(s1, P.Broadcast, false);
    SC.AppendInstr(s1 + [P.Broadcast], P.Unlock, false);
  }

  /** What main does for connection k. */
  lemma AcceptScript(conns: seq<Connection>, handlers: nat, k: nat)
    requires k < |conns|
    ensures |Config(conns, handlers).script| == 4 * |conns| + handlers + 3
    ensures Config(conns, handlers).script[4 * k..4 * k + 4] == [P.Lock, P.Push(conns[k].socket), P.Signal, P.Unlock]
  {
    var script := Config(conns, handlers).script;
    SC.SectionsAt(Sockets(conns), k);
    hide SC.Sections;
    assert script[4 * k..4 * k + 4] == SC.Sections(Sockets(conns), false)[4 * k..4 * k + 4];
  }

  /** What main does at the end: all pills and one broadcast in a single critical section. */
  lemma PillScript(conns: seq<Connection>, handlers: nat)
    ensures var script := Config(conns, handlers).script;
            var pills := 4 * |conns|;
            && |script| == pills + handlers + 3
            && script[pills] == P.Lock
            && (forall i :: pills < i <= pills + handlers ==> script[i] == P.Push(-1))
            && script[pills + handlers + 1..] == [P.Broadcast, P.Unlock]
  {
    SC.SectionsLength(Sockets(conns));
    hide SC.Sections;
  }

  // ---------------------------------------------------------------------------
  // The handlers
  // ---------------------------------------------------------------------------

  /** How far a handler is with the request in its hand. */
  datatype Stage = Fresh | Locked | Added | Served

  datatype State = State(pool: P.State, stages: seq<Stage>, donationOwner: Option<nat>, balance: int, running: int)

  /** An operation on the queue, or an operation of handle_client in handler i. */
  datatype Action = OnPool(a: P.Action) | Handle(i: nat)

  function Init(c: P.ConfigData): State {
    State(P.Init(c), seq(c.workers, _ => Fresh), None, 0, 1)
  }

  /** Handler w is inside handle_client. */
  predicate Busy(c: P.ConfigData, w: P.Worker) {
    w.Handling? && w.item.Some? && w.item.value.value != c.pill
  }

  function RequestOf(conns: seq<Connection>, index: nat): Request {
    if index < |conns| then conns[index].request else NoEffect
  }

  function HandleStep(conns: seq<Connection>, s: State, i: nat, request: Request): Option<State>
    requires i < |s.stages|
  {
    match s.stages[i]
    case Fresh =>
      (match request
       case Donate(_) =>
         if s.donationOwner.Some? then None else Some(s.(stages := s.stages[i := Locked], donationOwner := Some(i)))
       case Shutdown => Some(s.(stages := s.stages[i := Served], running := s.running - 1))
       case NoEffect => Some(s.(stages := s.stages[i := Served])))
    case Locked =>
      Some(s.(stages := s.stages[i := Added], balance := s.balance + if request.Donate? then request.amount else 0))
    case Added => Some(s.(stages := s.stages[i := Served], donationOwner := None))
    case Served => None
  }

  function Step(conns: seq<Connection>, c: P.ConfigData, s: State, a: Action): Option<State> {
    match a
    case OnPool(p) =>
      if p.Work? && p.i < |s.stages| && p.i < |s.pool.workers| && Busy(c, s.pool.workers[p.i]) then
        if !s.stages[p.i].Served? then None
        else (match P.Step(c, s.pool, p)
          case None => None
          case Some(t) => Some(s.(pool := t, stages := s.stages[p.i := Fresh])))
      else (match P.Step(c, s.pool, p)
        case None => None
        case Some(t) => Some(s.(pool := t)))
    case Handle(i) =>
      if i < |s.stages| && i < |s.pool.workers| && Busy(c, s.pool.workers[i]) then
        HandleStep(conns, s, i, RequestOf(conns, s.pool.workers[i].item.value.index))
      else None
  }

  function Stepper(conns: seq<Connection>, c: P.ConfigData): (State, Action) -> Option<State> {
    (s: State, a: Action) => Step(conns, c, s, a)
  }

  ghost predicate Reachable(conns: seq<Connection>, handlers: nat, s: State) {
    var c := Config(conns, handlers);
    Leads(Stepper(conns, c), Init(c), s)
  }

  // ---------------------------------------------------------------------------
  // Invariant: the balance is the popped donations that are no longer pending
  // ---------------------------------------------------------------------------

  function Amount(r: Request): int { if r.Donate? then r.amount else 0 }

  function Stops(r: Request): int { if r.Shutdown? then 1 else 0 }

  function AmountOf(): Connection -> int { (x: Connection) => Amount(x.request) }

  function StopsOf(): Connection -> int { (x: Connection) => Stops(x.request) }

  /** A handler and its stage, seen as one. */
  datatype Handler = Handler(worker: P.Worker, stage: Stage)

  function Handlers(s: State): seq<Handler>
    requires |s.stages| == |s.pool.workers|
  {
    seq(|s.stages|, i requires 0 <= i < |s.stages| => Handler(s.pool.workers[i], s.stages[i]))
  }

  /** The request in the hand of h, if it is an ordinary one. */
  function Pending(conns: seq<Connection>, c: P.ConfigData, w: P.Worker): Request {
    if P.InHand(w).Some? then RequestOf(conns, P.InHand(w).value.index) else NoEffect
  }

  function PendingAmount(conns: seq<Connection>, c: P.ConfigData, h: Handler): int {
    if h.stage.Fresh? || h.stage.Locked? then Amount(Pending(conns, c, h.worker)) else 0
  }

  function PendingStop(conns: seq<Connection>, c: P.ConfigData, h: Handler): int {
    if h.stage.Fresh? then Stops(Pending(conns, c, h.worker)) else 0
  }

  function AmountPending(conns: seq<Connection>, c: P.ConfigData): Handler -> int {
    (h: Handler) => PendingAmount(conns, c, h)
  }

  function StopPending(conns: seq<Connection>, c: P.ConfigData): Handler -> int {
    (h: Handler) => PendingStop(conns, c, h)
  }

  predicate HandlerOk(conns: seq<Connection>, c: P.ConfigData, s: State, i: nat)
    requires i < |s.stages| == |s.pool.workers|
  {
    && (!s.stages[i].Fresh? ==> Busy(c, s.pool.workers[i]))
    && (s.stages[i].Locked? || s.stages[i].Added? ==> Pending(conns, c, s.pool.workers[i]).Donate?)
    && (s.donationOwner == Some(i) <==> s.stages[i].Locked? || s.stages[i].Added?)
  }

  predicate StagesOk(conns: seq<Connection>, c: P.ConfigData, s: State) {
    && |s.stages| == |s.pool.workers|
    && (s.donationOwner.Some? ==> s.donationOwner.value < |s.stages|)
    && (forall i :: 0 <= i < |s.stages| ==> HandlerOk(conns, c, s, i))
  }

  function Popped(conns: seq<Connection>, s: State): seq<Connection> {
    if |s.pool.mem.taken| <= |conns| then conns[..|s.pool.mem.taken|] else conns
  }

  predicate BalanceOk(conns: seq<Connection>, c: P.ConfigData, s: State) {
    && |s.stages| == |s.pool.workers|
    && s.balance + SumBy(AmountPending(conns, c), Handlers(s)) == SumBy(AmountOf(), Popped(conns, s))
    && s.running - SumBy(StopPending(conns, c), Handlers(s)) == 1 - SumBy(StopsOf(), Popped(conns, s))
  }

  ghost predicate Inv(conns: seq<Connection>, c: P.ConfigData, s: State) {
    P.Inv(c, s.pool) && StagesOk(conns, c, s) && BalanceOk(conns, c, s)
  }

  /** Popping connection number |taken| makes its request pending; nothing else changes what is pending. */
  lemma LocalPending(conns: seq<Connection>, c: P.ConfigData, m: P.Memory, i: nat, w: P.Worker)
    requires P.Local(c, m, i, w).Some? && |c.items| == |conns| && c.pill !in c.items
    requires P.WorkerOk(c, m, i, w)
    ensures var (m', w') := P.Local(c, m, i, w).value;
            && (|m'.taken| == |m.taken| ==>
                  Pending(conns, c, w') == Pending(conns, c, w) || (Pending(conns, c, w') == NoEffect && Busy(c, w)))
            && (|m'.taken| == |m.taken| || |m'.taken| == |m.taken| + 1)
            && (|m'.taken| > |m.taken| ==> Pending(conns, c, w) == NoEffect && Pending(conns, c, w') == RequestOf(conns, |m.taken|))
            && (Busy(c, w) ==> !Busy(c, w') && |m'.taken| == |m.taken|)
  {
    if P.InHand(w).Some? { I.ItemAt(c, P.InHand(w).value.index); }
    hide P.All;
  }

  lemma PoppedNext(conns: seq<Connection>, s: State, t: State)
    requires |t.pool.mem.taken| == |s.pool.mem.taken| + 1
    ensures SumBy(AmountOf(), Popped(conns, t)) == SumBy(AmountOf(), Popped(conns, s)) + Amount(RequestOf(conns, |s.pool.mem.taken|))
    ensures SumBy(StopsOf(), Popped(conns, t)) == SumBy(StopsOf(), Popped(conns, s)) + Stops(RequestOf(conns, |s.pool.mem.taken|))
  {
    var k := |s.pool.mem.taken|;
    if k < |conns| {
      SumLast(AmountOf(), conns[..k + 1]);
      SumLast(StopsOf(), conns[..k + 1]);
      assert conns[..k + 1][..k] == conns[..k];
    } else {
      assert Popped(conns, s) == conns;
    }
  }

  /** One handler changed. */
  lemma HandlerSums(conns: seq<Connection>, c: P.ConfigData, s: State, t: State, i: nat)
    requires |s.stages| == |s.pool.workers| && i < |s.stages|
    requires |t.stages| == |s.stages| == |t.pool.workers|
    requires t.stages == s.stages[i := t.stages[i]]
    requires t.pool.workers == s.pool.workers[i := t.pool.workers[i]]
    ensures var (h, h') := (Handler(s.pool.workers[i], s.stages[i]), Handler(t.pool.workers[i], t.stages[i]));
            && SumBy(AmountPending(conns, c), Handlers(t))
               == SumBy(AmountPending(conns, c), Handlers(s)) - PendingAmount(conns, c, h) + PendingAmount(conns, c, h')
            && SumBy(StopPending(conns, c), Handlers(t))
               == SumBy(StopPending(conns, c), Handlers(s)) - PendingStop(conns, c, h) + PendingStop(conns, c, h')
  {
    var h' := Handler(t.pool.workers[i], t.stages[i]);
    hide PendingAmount, PendingStop;
    assert Handlers(t) == Handlers(s)[i := h'];
    SumUpdate(AmountPending(conns, c), Handlers(s), i, h');
    SumUpdate(StopPending(conns, c), Handlers(s), i, h');
  }

  lemma HandleKeeps(conns: seq<Connection>, c: P.ConfigData, s: State, i: nat)
    requires StagesOk(conns, c, s) && BalanceOk(conns, c, s) && Step(conns, c, s, Handle(i)).Some?
    ensures var t := Step(conns, c, s, Handle(i)).value;
            StagesOk(conns, c, t) && BalanceOk(conns, c, t) && t.pool == s.pool
  {
    var t := Step(conns, c, s, Handle(i)).value;
    HandlerSums(conns, c, s, t, i);
    hide SumBy, Handlers;
    assert HandlerOk(conns, c, s, i);
    forall j | 0 <= j < |t.stages| ensures HandlerOk(conns, c, t, j) {
      assert HandlerOk(conns, c, s, j);
    }
  }

  lemma WorkStages(conns: seq<Connection>, c: P.ConfigData, s: State, i: nat)
    requires StagesOk(conns, c, s) && P.Shape(c, s.pool) && |c.items| == |conns| && c.pill !in c.items
    requires Step(conns, c, s, OnPool(P.Work(i))).Some?
    ensures StagesOk(conns, c, Step(conns, c, s, OnPool(P.Work(i))).value)
  {
    var t := Step(conns, c, s, OnPool(P.Work(i))).value;
    assert P.WorkerOk(c, s.pool.mem, i, s.pool.workers[i]);
    LocalPending(conns, c, s.pool.mem, i, s.pool.workers[i]);
    hide P.Local, P.Shape, P.WorkerOk;
    forall j | 0 <= j < |t.stages| ensures HandlerOk(conns, c, t, j) {
      assert HandlerOk(conns, c, s, j);
    }
  }

  lemma WorkBalance(conns: seq<Connection>, c: P.ConfigData, s: State, i: nat)
    requires StagesOk(conns, c, s) && BalanceOk(conns, c, s) && P.Shape(c, s.pool) && |c.items| == |conns| && c.pill !in c.items
    requires Step(conns, c, s, OnPool(P.Work(i))).Some?
    ensures BalanceOk(conns, c, Step(conns, c, s, OnPool(P.Work(i))).value)
  {
    var t := Step(conns, c, s, OnPool(P.Work(i))).value;
    assert P.WorkerOk(c, s.pool.mem, i, s.pool.workers[i]);
    assert HandlerOk(conns, c, s, i);
    LocalPending(conns, c, s.pool.mem, i, s.pool.workers[i]);
    HandlerSums(conns, c, s, t, i);
    if |t.pool.mem.taken| > |s.pool.mem.taken| { PoppedNext(conns, s, t); }
    hide P.Local, P.Shape, P.WorkerOk, SumBy, Handlers, Pending;
  }

  /** Steps of main and spurious wakeups touch no handler that is busy. */
  lemma OtherKeeps(conns: seq<Connection>, c: P.ConfigData, s: State, p: P.Action)
    requires StagesOk(conns, c, s) && BalanceOk(conns, c, s) && !p.Work? && Step(conns, c, s, OnPool(p)).Some?
    ensures StagesOk(conns, c, Step(conns, c, s, OnPool(p)).value) && BalanceOk(conns, c, Step(conns, c, s, OnPool(p)).value)
  {
    var t := Step(conns, c, s, OnPool(p)).value;
    if p.Main? { I.MainWakes(c, s.pool, p.wakes); }
    assert forall k :: 0 <= k < |s.stages| ==>
      (t.pool.workers[k] == s.pool.workers[k] || (s.pool.workers[k].Waiting? && t.pool.workers[k].Woken?));
    hide P.Step;
    forall j | 0 <= j < |t.stages| ensures HandlerOk(conns, c, t, j) {
      assert HandlerOk(conns, c, s, j);
    }
    SumEq(AmountPending(conns, c), Handlers(s), AmountPending(conns, c), Handlers(t));
    SumEq(StopPending(conns, c), Handlers(s), StopPending(conns, c), Handlers(t));
  }

  lemma StepKeepsInv(conns: seq<Connection>, handlers: nat, s: State, a: Action)
    requires handlers >= 1
    requires Inv(conns, Config(conns, handlers), s) && Step(conns, Config(conns, handlers), s, a).Some?
    ensures Inv(conns, Config(conns, handlers), Step(conns, Config(conns, handlers), s, a).value)
  {
    var c := Config(conns, handlers);
    ConfigWellFormed(conns, handlers);
    assert |c.items| == |conns| && c.pill !in c.items;
    hide Config, P.Step, StagesOk, BalanceOk;
    match a {
      case OnPool(p) =>
        I.StepKeepsInv(c, s.pool, p);
        if p.Work? {
          WorkStages(conns, c, s, p.i);
          WorkBalance(conns, c, s, p.i);
        } else {
          OtherKeeps(conns, c, s, p);
        }
      case Handle(i) => HandleKeeps(conns, c, s, i);
    }
  }

  lemma InitInv(conns: seq<Connection>, handlers: nat)
    requires handlers >= 1
    ensures Inv(conns, Config(conns, handlers), Init(Config(conns, handlers)))
  {
    var c := Config(conns, handlers);
    ConfigWellFormed(conns, handlers);
    hide Config, P.WellFormed, P.Inv, P.Init;
    I.InitInv(c);
    NothingPending(conns, c);
  }

  lemma NothingPending(conns: seq<Connection>, c: P.ConfigData)
    ensures StagesOk(conns, c, Init(c)) && BalanceOk(conns, c, Init(c))
  {
    var s := Init(c);
    assert Popped(conns, s) == [];
    forall h | h in Handlers(s) ensures PendingAmount(conns, c, h) == 0 && PendingStop(conns, c, h) == 0 {
      assert h.worker == P.AtLock || h.worker == P.Polling;
    }
    hide PendingAmount, PendingStop;
    SumConst(AmountPending(conns, c), Handlers(s), 0);
    SumConst(StopPending(conns, c), Handlers(s), 0);
  }

  lemma ReachableInv(conns: seq<Connection>, handlers: nat, s: State)
    requires handlers >= 1 && Reachable(conns, handlers, s)
    ensures Inv(conns, Config(conns, handlers), s)
    ensures P.Reachable(Config(conns, handlers), s.pool)
  {
    var c := Config(conns, handlers);
    var acts :| Exec(Stepper(conns, c), Init(c), acts) == Some(s);
    InitInv(conns, handlers);
    PoolRun(conns, c, acts);
    hide Step, Init, Inv, P.WellFormed;
    forall t, a | Inv(conns, c, t) && Stepper(conns, c)(t, a).Some? ensures Inv(conns, c, Stepper(conns, c)(t, a).value) {
      StepKeepsInv(conns, handlers, t, a);
    }
    KeepsInvariant(Stepper(conns, c), t => Inv(conns, c, t), Init(c), acts);
  }

  lemma PoolRun(conns: seq<Connection>, c: P.ConfigData, acts: seq<Action>)
    requires Exec(Stepper(conns, c), Init(c), acts).Some?
    ensures P.Reachable(c, Exec(Stepper(conns, c), Init(c), acts).value.pool)
  {
    var seen := (a: Action) => if a.OnPool? then Some(a.a) else None;
    var view := (s: State) => s.pool;
    hide P.Step;
    ProjectedRun(Stepper(conns, c), P.Stepper(c), view, seen, Init(c), acts);
    assert Exec(P.Stepper(c), P.Init(c), Visible(seen, acts)).Some?;
  }
}
