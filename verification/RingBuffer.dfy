/**
 The circular buffer between two processes: one semaphore counts filled slots, the other empty ones.
 Arithmetic is that of uint64_t.
 */
module RingBuffer {
  import opened Arithmetic
  import opened Runs

  const W: nat := 0x1_0000_0000_0000_0000

  const UINT: nat := 0x1_0000_0000
  const SEM_VALUE_MAX: nat := 0x7FFF_FFFF
  /** From here on, the size of the shared memory in bytes does not fit its type. */
  const TOO_LONG: nat := 0x1000_0000_0000_0000

  /** N, the number of buffer operations K and the buffer length L, as main accepts them. */
  datatype ConfigData = ConfigData(N: nat, K: nat, L: nat)

  type Config = c: ConfigData | c.N < W && 1 <= c.K < W - 1 && 1 <= c.L < TOO_LONG
    witness ConfigData(1, 1, 1)

  datatype Pc = AtWait | AtWork | AtPost

  /** A child process in turn i of its loop; it is done when it waits no more, at i == K + 1. */
  datatype Child = Child(pc: Pc, i: nat)

  /** filled is sem_fd_1, empty is sem_fd_2. */
  datatype State = State(producer: Child, consumer: Child, filled: nat, empty: nat, buffer: seq<nat>, result: nat)

  datatype Who = A | B

  /** (uint64_t) x. */
  function U64(x: int): (r: nat)
    ensures r < W
  {
    x % W
  }

  function Slot(L: nat, i: nat): (k: nat)
    requires L >= 1
    ensures k < L
  {
    i % L
  }

  /** What the producer writes in turn i. */
  function Item(N: nat, i: nat): nat { U64(i * N) }

  /**
   The first value of the semaphore of empty slots. sem_init takes L as an unsigned int; it fails for values above
   SEM_VALUE_MAX, and main goes on with the zeros of the new shared memory.
   */
  function Granted(L: nat): (slots: nat)
    ensures slots <= L
  {
    if L % UINT <= SEM_VALUE_MAX then L % UINT else 0
  }

  function Init(c: Config): State {
    State(Child(AtWait, 1), Child(AtWait, 1), 0, Granted(c.L), seq(c.L, _ => 0), 0)
  }

  /** One semaphore operation or buffer access of child A, the producer, or child B, the consumer. */
  function Step(c: Config, s: State, who: Who): Option<State> {
    var child := if who.A? then s.producer else s.consumer;
    var slot := Slot(c.L, child.i);
    if child.i > c.K || slot >= |s.buffer| then None
    else match (who, child.pc)
      case (A, AtWait) =>
        if s.empty == 0 then None else Some(s.(producer := child.(pc := AtWork), empty := s.empty - 1))
      case (A, AtWork) =>
        Some(s.(producer := child.(pc := AtPost), buffer := s.buffer[slot := Item(c.N, child.i)]))
      case (A, AtPost) => Some(s.(producer := Child(AtWait, child.i + 1), filled := s.filled + 1))
      case (B, AtWait) =>
        if s.filled == 0 then None else Some(s.(consumer := child.(pc := AtWork), filled := s.filled - 1))
      case (B, AtWork) =>
        Some(s.(consumer := child.(pc := AtPost), result := U64(s.result + s.buffer[slot])))
      case (B, AtPost) => Some(s.(consumer := Child(AtWait, child.i + 1), empty := s.empty + 1))
  }

  function Stepper(c: Config): (State, Who) -> Option<State> {
    (s: State, who: Who) => Step(c, s, who)
  }

  ghost predicate Reachable(c: Config, s: State) {
    Leads(Stepper(c), Init(c), s)
  }

  predicate Finished(c: Config, s: State) {
    s.producer == Child(AtWait, c.K + 1) && s.consumer == Child(AtWait, c.K + 1)
  }

  // ---------------------------------------------------------------------------
  // The invariant
  // ---------------------------------------------------------------------------

  /** N + 2N + ... + kN, as a number. */
  function Total(N: nat, k: nat): nat {
    if k == 0 then 0 else Total(N, k - 1) + k * N
  }

  function Inside(x: Child): nat { if x.pc.AtWait? then 0 else 1 }

  /** How many turns of x have done their buffer access. */
  function Accessed(x: Child): int { if x.pc.AtPost? then x.i else x.i - 1 }

  predicate ChildOk(c: Config, x: Child) {
    1 <= x.i <= c.K + 1 && (x.i == c.K + 1 ==> x.pc.AtWait?)
  }

  predicate Inv(c: Config, s: State) {
    && |s.buffer| == c.L
    && ChildOk(c, s.producer) && ChildOk(c, s.consumer)
    && s.filled + Inside(s.consumer) == s.producer.i - s.consumer.i
    && s.empty + Inside(s.producer) == Granted(c.L) - (s.producer.i - s.consumer.i)
    && s.result == U64(Total(c.N, Accessed(s.consumer)))
    && forall j :: Accessed(s.consumer) < j <= Accessed(s.producer) ==> s.buffer[Slot(c.L, j)] == Item(c.N, j)
  }

  lemma ProducerKeepsInv(c: Config, s: State)
    requires Inv(c, s) && Step(c, s, A).Some?
    ensures Inv(c, Step(c, s, A).value)
  {
    var t := Step(c, s, A).value;
    if s.producer.pc.AtWork? {
      forall j | Accessed(t.consumer) < j <= Accessed(t.producer) ensures t.buffer[Slot(c.L, j)] == Item(c.N, j) {
        if j < s.producer.i { SlotsDiffer(c.L, s.producer.i, j); }
        hide U64, Item, Total;
      }
    }
    hide U64, Slot, Item, Total;
  }

  lemma ConsumerKeepsInv(c: Config, s: State)
    requires Inv(c, s) && Step(c, s, B).Some?
    ensures Inv(c, Step(c, s, B).value)
  {
    var i := s.consumer.i;
    TotalGrows(c.N, i);
    hide U64, Slot, Item, Total;
    if s.consumer.pc.AtWork? {
      assert s.buffer[Slot(c.L, i)] == Item(c.N, i);
    }
  }

  lemma TotalGrows(N: nat, i: nat)
    ensures i >= 1 ==> U64(U64(Total(N, i - 1)) + Item(N, i)) == U64(Total(N, i))
  {
    if i >= 1 {
      var (x, y) := (Total(N, i - 1), i * N);
      assert Total(N, i) == x + y;
      AddMod(x, y);
    }
  }

  lemma AddMod(x: nat, y: nat)
    ensures U64(U64(x) + U64(y)) == U64(x + y)
  {
  }

  lemma InitInv(c: Config)
    ensures Inv(c, Init(c))
  {
  }

  lemma ReachableInv(c: Config, s: State)
    requires Reachable(c, s)
    ensures Inv(c, s)
  {
    hide U64, Slot, Item;
    var acts :| Exec(Stepper(c), Init(c), acts) == Some(s);
    InitInv(c);
    forall t, who | Inv(c, t) && Stepper(c)(t, who).Some? ensures Inv(c, Stepper(c)(t, who).value) {
      hide Step, Inv;
      if who.A? { ProducerKeepsInv(c, t); } else { ConsumerKeepsInv(c, t); }
    }
    KeepsInvariant(Stepper(c), t => Inv(c, t), Init(c), acts);
  }

  // ---------------------------------------------------------------------------
  // Results
  // ---------------------------------------------------------------------------

  /** Every value that is produced and not yet consumed is intact in its slot. */
  lemma SlotsHoldTheirValues(c: Config, s: State, j: nat)
    requires Reachable(c, s) && Accessed(s.consumer) < j <= Accessed(s.producer)
    ensures |s.buffer| == c.L && s.buffer[j % c.L] == j * c.N % W
  {
    assert Slot(c.L, j) == j % c.L && Item(c.N, j) == j * c.N % W;
    hide Slot, Item, U64, Total;
    ReachableInv(c, s);
  }

  /** When both processes are between their wait and their post, they are in different slots. */
  lemma SlotExclusion(c: Config, s: State)
    requires Reachable(c, s) && !s.producer.pc.AtWait? && !s.consumer.pc.AtWait?
    ensures 1 <= s.producer.i - s.consumer.i <= Granted(c.L) - 1 <= c.L - 1
    ensures s.producer.i % c.L != s.consumer.i % c.L
  {
    ReachableInv(c, s);
    SlotsDiffer(c.L, s.producer.i, s.consumer.i);
  }

  /** The semaphores and the processes inside their sections share out the slots that sem_init granted. */
  lemma SlotsAreConserved(c: Config, s: State)
    requires Reachable(c, s)
    ensures s.filled + s.empty + Inside(s.producer) + Inside(s.consumer) == Granted(c.L)
  {
    hide Granted, U64, Slot, Item, Total;
    ReachableInv(c, s);
  }

  /** All L slots are granted when they fit the semaphore. */
  lemma AllGranted(L: nat)
    ensures Granted(L) == L <==> L <= SEM_VALUE_MAX
  {
    if L < UINT { assert L % UINT == L; }
  }

  /** A length of k * 2^32 + r is cut down to r, which is granted up to SEM_VALUE_MAX; a larger r grants nothing. */
  lemma GrantedInFull(k: nat, r: nat)
    requires r < 4294967296
    ensures Granted(k * 4294967296 + r) == if r <= 2147483647 then r else 0
  {
    DivModUnique(UINT, r, k);
  }

  lemma NeverStuck(c: Config, s: State) returns (who: Who)
    requires Granted(c.L) >= 1 && Reachable(c, s) && !Finished(c, s)
    ensures Step(c, s, who).Some?
  {
    hide Granted, U64, Slot, Item, Total;
    ReachableInv(c, s);
    who := if Step(c, s, A).Some? then A else B;
  }

  ghost predicate Stuck(c: Config, s: State) {
    !Finished(c, s) && forall who :: Step(c, s, who).None?
  }

  /** The children get stuck exactly when sem_init grants no slot at all: from the start, then. */
  lemma StuckExactly(c: Config)
    ensures (exists s :: Reachable(c, s) && Stuck(c, s)) <==> Granted(c.L) == 0
    ensures Granted(c.L) == 0 ==> Stuck(c, Init(c))
  {
    hide Granted, U64, Slot, Item, Total;
    assert Exec(Stepper(c), Init(c), []) == Some(Init(c));
    if Granted(c.L) == 0 {
      assert Stuck(c, Init(c));
    } else {
      forall s | Reachable(c, s) && !Finished(c, s) ensures !Stuck(c, s) {
        var who := NeverStuck(c, s);
      }
    }
  }

  /** Semaphore operations and buffer accesses still to come. */
  function Remaining(c: Config, s: State): int {
    6 * (c.K + 1) - 3 * s.producer.i - 3 * s.consumer.i - Done(s.producer.pc) - Done(s.consumer.pc)
  }

  function Done(pc: Pc): nat {
    match pc case AtWait => 0 case AtWork => 1 case AtPost => 2
  }

  lemma {:induction false} StepsTaken(c: Config, s: State, acts: seq<Who>)
    requires Exec(Stepper(c), s, acts).Some?
    ensures Remaining(c, Exec(Stepper(c), s, acts).value) + |acts| == Remaining(c, s)
    decreases |acts|
  {
    if acts != [] {
      StepsTaken(c, Step(c, s, acts[0]).value, acts[1..]);
      hide U64, Slot, Item;
    }
  }

  /** Every run that has finished took exactly 6K steps, and no run takes more. */
  lemma RunLength(c: Config, acts: seq<Who>)
    requires Exec(Stepper(c), Init(c), acts).Some?
    ensures |acts| <= 6 * c.K
    ensures Finished(c, Exec(Stepper(c), Init(c), acts).value) <==> |acts| == 6 * c.K
  {
    hide U64, Slot, Item, Total;
    StepsTaken(c, Init(c), acts);
    ReachableInv(c, Exec(Stepper(c), Init(c), acts).value);
  }

  lemma {:induction false} TotalClosedForm(N: nat, k: nat)
    ensures Total(N, k) == N * k * (k + 1) / 2
  {
    TwiceTotal(N, k);
  }

  lemma {:induction false} TwiceTotal(N: nat, k: nat)
    ensures 2 * Total(N, k) == N * k * (k + 1)
  {
    if k > 0 {
      TwiceTotal(N, k - 1);
      assert N * k * (k + 1) == N * k * (k - 1) + 2 * (k * N);
    }
  }

  /** The result of every finished run: N K (K+1) / 2, modulo 2^64. */
  lemma FinalResult(c: Config, s: State)
    requires Reachable(c, s) && Finished(c, s)
    ensures s.result == U64(c.N * c.K * (c.K + 1) / 2)
  {
    hide U64, Slot, Item, Total;
    ReachableInv(c, s);
    assert s.result == U64(Total(c.N, c.K));
    TotalClosedForm(c.N, c.K);
  }

  /** The checksum that the parent prints. */
  method ValidateResult(result: nat, K: nat, N: nat) returns (checksum: nat)
    requires result < W && K < W - 1 && N < W
    ensures checksum == U64(result - N * K * (K + 1) / 2)
  {
    hide Item, Total;
    checksum := result;
    TotalClosedForm(N, 0);
    var i := 1;
    while i <= K
      invariant 1 <= i <= K + 1
      invariant checksum == U64(result - Total(N, i - 1))
    {
      SubtractItem(result, N, i);
      checksum := (checksum - N * i % W) % W;
      i := i + 1;
    }
    TotalClosedForm(N, K);
  }

  lemma SubtractItem(result: nat, N: nat, i: nat)
    requires i >= 1
    ensures (U64(result - Total(N, i - 1)) - N * i % W) % W == U64(result - Total(N, i))
  {
    var (x, y) := (result - Total(N, i - 1), N * i);
    assert result - Total(N, i) == x - y;
    SubMod(x, y);
  }

  lemma SubMod(x: int, y: nat)
    ensures (x % W - y % W) % W == (x - y) % W
  {
  }

  // ---------------------------------------------------------------------------
  // The program on its shared memory
  // ---------------------------------------------------------------------------

  class SharedMemory {
    const c: Config
    const buffer: array<nat>
    var result: nat
    var filled: nat
    var empty: nat
    var producer: Child
    var consumer: Child

    ghost function Abs(): State
      reads this, buffer
    {
      State(producer, consumer, filled, empty, buffer[..], result)
    }

    constructor (c: Config)
      ensures this.c == c && Abs() == Init(c) && fresh(buffer) && buffer.Length == c.L
    {
      this.c := c;
      buffer := new nat[c.L](_ => 0);
      result, filled, empty := 0, 0, Granted(c.L);
      producer, consumer := Child(AtWait, 1), Child(AtWait, 1);
    }

    /** Child A takes its next step, unless sem_wait blocks it or its loop has ended. */
    method Produce() returns (moved: bool)
      requires buffer.Length == c.L
      modifies this, buffer
      ensures moved <==> Step(c, old(Abs()), A).Some?
      ensures Abs() == if moved then Step(c, old(Abs()), A).value else old(Abs())
    {
      var i := producer.i;
      if i > c.K { return false; }
      match producer.pc {
        case AtWait =>
          if empty == 0 { return false; }
          empty := empty - 1;
          producer := Child(AtWork, i);
        case AtWork =>
          buffer[i % c.L] := (i * c.N) % W;
          producer := Child(AtPost, i);
        case AtPost =>
          filled := filled + 1;
          producer := Child(AtWait, i + 1);
      }
      return true;
    }

    /** Child B takes its next step, unless sem_wait blocks it or its loop has ended. */
    method Consume() returns (moved: bool)
      requires buffer.Length == c.L
      modifies this
      ensures moved <==> Step(c, old(Abs()), B).Some?
      ensures Abs() == if moved then Step(c, old(Abs()), B).value else old(Abs())
    {
      var i := consumer.i;
      if i > c.K { return false; }
      match consumer.pc {
        case AtWait =>
          if filled == 0 { return false; }
          filled := filled - 1;
          consumer := Child(AtWork, i);
        case AtWork =>
          result := (result + buffer[i % c.L]) % W;
          consumer := Child(AtPost, i);
        case AtPost =>
          empty := empty + 1;
          consumer := Child(AtWait, i + 1);
      }
      return true;
    }
  }

  /**
   Both children under an arbitrary schedule, in which a blocked child skips its turns, and then the parent:
   whether both have ended, and the checksum, which is then 0.
   */
  method Program(c: Config, schedule: seq<Who>) returns (finished: bool, checksum: nat)
    ensures var s := Driven(Stepper(c), Init(c), schedule);
            && (finished <==> Finished(c, s))
            && checksum == U64(s.result - c.N * c.K * (c.K + 1) / 2)
    ensures finished ==> checksum == 0
  {
    var m := new SharedMemory(c);
    hide Step, Init, Inv, U64, Slot, Item, Total;
    for k := 0 to |schedule|
      invariant fresh(m) && fresh(m.buffer) && m.c == c && m.buffer.Length == c.L
      invariant m.Abs() == Driven(Stepper(c), Init(c), schedule[..k])
    {
      DrivenNext(Stepper(c), Init(c), schedule, k);
      var moved: bool;
      if schedule[k] == A { moved := m.Produce(); } else { moved := m.Consume(); }
    }
    assert schedule[..|schedule|] == schedule;
    DrivenLeads(Stepper(c), Init(c), schedule);
    ResultFits(c, m.Abs());
    finished := m.producer == Child(AtWait, c.K + 1) && m.consumer == Child(AtWait, c.K + 1);
    checksum := ValidateResult(m.result, c.K, c.N);
    if finished { NothingLeft(c, m.Abs()); }
  }

  lemma NothingLeft(c: Config, s: State)
    requires Reachable(c, s) && Finished(c, s)
    ensures U64(s.result - c.N * c.K * (c.K + 1) / 2) == 0
  {
    hide *;
    FinalResult(c, s);
    NothingLeftOver(c.N * c.K * (c.K + 1) / 2);
  }

  lemma NothingLeftOver(x: nat)
    ensures U64(U64(x) - x) == 0
  {
    assert x == x / W * W + x % W;
    assert (-(x / W) * W) % W == 0;
  }

  lemma ResultFits(c: Config, s: State)
    requires Reachable(c, s)
    ensures s.result < W
  {
    ReachableInv(c, s);
  }
}
