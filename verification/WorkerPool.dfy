/**
 One producer and a pool of workers that share a queue under one mutex, stopped by poison pills. The
 producer/consumer program with a condition variable, its polling variant and the web server are instances:
 they differ in what the producer does, in the pill, and in what a worker does when the queue is empty.
 */
module WorkerPool {
  import opened Runs
  import opened Sums

  /** The producer's operations on the mutex, the queue and the condition variable, in program order. */
  datatype Instr = Lock | Push(value: int) | Signal | Broadcast | Unlock

  /** items are the ordinary values in the order in which the producer pushes them. */
  datatype ConfigData = ConfigData(workers: nat, items: seq<int>, pill: int, script: seq<Instr>, polling: bool)

  /** Everything the producer pushes: the items, then one pill per worker. */
  function All(c: ConfigData): seq<int> {
    c.items + seq(c.workers, _ => c.pill)
  }

  /** What a script pushes. */
  function Sent(script: seq<Instr>): seq<int> {
    if script == [] then []
    else
      var before := Sent(script[..|script| - 1]);
      match script[|script| - 1]
      case Push(v) => before + [v]
      case _ => before
  }

  /**
   Whether the producer holds the mutex after a script, and how many pushes have had no wakeup yet;
   ok says that it pushes only under the mutex and leaves no push without a wakeup when it unlocks.
   */
  datatype Scan = Scan(held: bool, slack: nat, ok: bool)

  function ScanOf(script: seq<Instr>, polling: bool): Scan {
    if script == [] then Scan(false, 0, true)
    else
      var p := ScanOf(script[..|script| - 1], polling);
      match script[|script| - 1]
      case Lock => Scan(true, p.slack, p.ok && !p.held)
      case Push(_) => Scan(p.held, p.slack + 1, p.ok && p.held)
      case Signal => p.(slack := if p.slack == 0 then 0 else p.slack - 1)
      case Broadcast => p.(slack := 0)
      case Unlock => Scan(false, p.slack, p.ok && p.held && (polling || p.slack == 0))
  }

  predicate WellFormed(c: ConfigData) {
    && c.workers >= 1
    && c.pill !in c.items
    && Sent(c.script) == All(c)
    && ScanOf(c.script, c.polling).ok
    && !ScanOf(c.script, c.polling).held
  }

  /** A popped value; its index, the number of values popped before it, is history. */
  datatype Item = Item(index: nat, value: int)

  /** Where a worker is in its thread function. */
  datatype Worker =
    | Polling                        // polling variant: waits for the first value without the mutex
    | AtLock
    | Testing                        // holds the mutex, about to test emptiness
    | Popping                        // holds the mutex, found the queue non-empty
    | Waiting                        // blocked in pthread_cond_wait
    | Woken                          // about to lock the mutex again inside pthread_cond_wait
    | Unlocking(item: Option<Item>)  // holds the mutex; None: polling variant, nothing popped
    | Handling(item: Option<Item>)
    | Exited(pill: nat)

  datatype Owner = Free | ByMain | ByWorker(i: nat)

  /** taken, history: which worker popped which value. */
  datatype Memory = Memory(queue: seq<int>, owner: Owner, taken: seq<nat>)

  /** pc is the producer's position in its script; joined counts the workers it has joined after that. */
  datatype State = State(mem: Memory, workers: seq<Worker>, pc: nat, joined: nat)

  /** wakes chooses which waiting worker a signal wakes; Spurious is a wakeup without one. */
  datatype Action = Work(i: nat) | Spurious(i: nat) | Main(wakes: nat)

  function Init(c: ConfigData): State {
    State(Memory([], Free, []), seq(c.workers, _ => if c.polling then Polling else AtLock), 0, 0)
  }

  /** One operation of worker i; None while it is blocked. */
  function Local(c: ConfigData, m: Memory, i: nat, w: Worker): Option<(Memory, Worker)> {
    match w
    case Polling => Some((m, if m.queue == [] then Polling else AtLock))
    case AtLock => if m.owner.Free? then Some((m.(owner := ByWorker(i)), Testing)) else None
    case Testing =>
      if m.queue != [] then Some((m, Popping))
      else if c.polling then Some((m, Unlocking(None)))
      else Some((m.(owner := Free), Waiting))
    case Popping =>
      if m.queue == [] then None
      else Some((m.(queue := m.queue[1..], taken := m.taken + [i]), Unlocking(Some(Item(|m.taken|, m.queue[0])))))
    case Waiting => None
    case Woken => if m.owner.Free? then Some((m.(owner := ByWorker(i)), Testing)) else None
    case Unlocking(item) => Some((m.(owner := Free), Handling(item)))
    case Handling(item) =>
      Some((m, if item.Some? && item.value.value == c.pill then Exited(item.value.index) else AtLock))
    case Exited(_) => None
  }

  function Wake(w: Worker): Worker { if w.Waiting? then Woken else w }

  function WakeAll(ws: seq<Worker>): seq<Worker> {
    seq(|ws|, i requires 0 <= i < |ws| => Wake(ws[i]))
  }

  function MainStep(c: ConfigData, s: State, wakes: nat): Option<State> {
    if s.pc < |c.script| then
      var t := s.(pc := s.pc + 1);
      match c.script[s.pc]
      case Lock => if s.mem.owner.Free? then Some(t.(mem := s.mem.(owner := ByMain))) else None
      case Push(v) => Some(t.(mem := s.mem.(queue := s.mem.queue + [v])))
      case Signal =>
        if forall k :: 0 <= k < |s.workers| ==> !s.workers[k].Waiting? then Some(t)
        else if wakes < |s.workers| && s.workers[wakes].Waiting? then Some(t.(workers := s.workers[wakes := Woken]))
        else None
      case Broadcast => Some(t.(workers := WakeAll(s.workers)))
      case Unlock => Some(t.(mem := s.mem.(owner := Free)))
    else if s.joined < |s.workers| && s.workers[s.joined].Exited? then Some(s.(joined := s.joined + 1))
    else None
  }

  function Step(c: ConfigData, s: State, a: Action): Option<State> {
    match a
    case Work(i) =>
      if i >= |s.workers| then None
      else (match Local(c, s.mem, i, s.workers[i])
        case None => None
        case Some((m, w)) => Some(s.(mem := m, workers := s.workers[i := w])))
    case Spurious(i) =>
      if i < |s.workers| && s.workers[i].Waiting? then Some(s.(workers := s.workers[i := Woken])) else None
    case Main(wakes) => MainStep(c, s, wakes)
  }

  function Stepper(c: ConfigData): (State, Action) -> Option<State> {
    (s: State, a: Action) => Step(c, s, a)
  }

  ghost predicate Reachable(c: ConfigData, s: State) {
    Leads(Stepper(c), Init(c), s)
  }

  predicate Finished(s: State) { s.joined == |s.workers| }

  // ---------------------------------------------------------------------------
  // The invariant
  // ---------------------------------------------------------------------------

  predicate Holds(w: Worker) { w.Testing? || w.Popping? || w.Unlocking? }

  /** The value worker w has popped and not finished with. */
  function InHand(w: Worker): Option<Item> {
    if w.Unlocking? || w.Handling? then w.item else None
  }

  predicate HasPill(c: ConfigData, w: Worker) {
    w.Exited? || (InHand(w).Some? && InHand(w).value.value == c.pill)
  }

  /** Worker w is not waiting and is going to test the queue again. */
  predicate Awake(c: ConfigData, w: Worker) {
    !w.Waiting? && !HasPill(c, w)
  }

  function One(b: bool): int { if b then 1 else 0 }

  function IsWaiting(): Worker -> int { (w: Worker) => One(w.Waiting?) }
  function IsAwake(c: ConfigData): Worker -> int { (w: Worker) => One(Awake(c, w)) }
  function TookPill(c: ConfigData): Worker -> int { (w: Worker) => One(HasPill(c, w)) }

  predicate WorkerOk(c: ConfigData, m: Memory, i: nat, w: Worker) {
    && (Holds(w) <==> m.owner == ByWorker(i))
    && (w.Popping? ==> m.queue != [])
    && (w.Waiting? || w.Woken? ==> !c.polling)
    && (w.Polling? ==> c.polling)
    && (InHand(w).Some? ==>
          var it := InHand(w).value;
          it.index < |m.taken| <= |All(c)| && m.taken[it.index] == i && it.value == All(c)[it.index])
    && (w.Exited? ==> |c.items| <= w.pill < |m.taken| <= |All(c)| && m.taken[w.pill] == i)
  }

  /** Index k of the popped values is a pill, and worker w is the one that holds or held it. */
  predicate KeepsPill(c: ConfigData, w: Worker, k: nat) {
    (InHand(w).Some? && InHand(w).value.index == k) || w == Exited(k)
  }

  predicate MemoryOk(c: ConfigData, m: Memory, workers: nat) {
    && |m.taken| + |m.queue| <= |All(c)|
    && m.queue == All(c)[|m.taken|..|m.taken| + |m.queue|]
    && (m.owner.ByWorker? ==> m.owner.i < workers)
    && forall k :: 0 <= k < |m.taken| ==> m.taken[k] < workers
  }

  predicate Shape(c: ConfigData, s: State) {
    && |s.workers| == c.workers
    && s.pc <= |c.script|
    && s.joined <= |s.workers|
    && (s.joined > 0 ==> s.pc == |c.script|)
    && (forall k :: 0 <= k < s.joined ==> s.workers[k].Exited?)
    && MemoryOk(c, s.mem, c.workers)
    && Sent(c.script[..s.pc]) == All(c)[..|s.mem.taken| + |s.mem.queue|]
    && (s.mem.owner == ByMain <==> ScanOf(c.script[..s.pc], c.polling).held)
    && (forall i :: 0 <= i < |s.workers| ==> WorkerOk(c, s.mem, i, s.workers[i]))
  }

  /** Every popped pill is with the worker that popped it. */
  predicate PillsKept(c: ConfigData, s: State) {
    && |s.workers| == c.workers
    && forall k :: |c.items| <= k < |s.mem.taken| ==> s.mem.taken[k] < c.workers && KeepsPill(c, s.workers[s.mem.taken[k]], k)
  }

  predicate PillsCounted(c: ConfigData, s: State) {
    SumBy(TookPill(c), s.workers) == if |s.mem.taken| <= |c.items| then 0 else |s.mem.taken| - |c.items|
  }

  /** Nobody waits, or there are no more values in the queue than workers that are going to look for one. */
  predicate NoLostWakeup(c: ConfigData, s: State) {
    && s.pc <= |c.script|
    && (|| SumBy(IsWaiting(), s.workers) == 0
        || |s.mem.queue| <= SumBy(IsAwake(c), s.workers) + ScanOf(c.script[..s.pc], c.polling).slack)
  }

  predicate Inv(c: ConfigData, s: State) {
    Shape(c, s) && PillsKept(c, s) && PillsCounted(c, s) && NoLostWakeup(c, s)
  }
}
