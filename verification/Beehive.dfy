/**
 The beehive: bees that share a work queue harvest a flower field in rounds separated by a barrier.
 One step of a bee is one lock, unlock, queue, barrier or atomic operation of thread_func.

 Queue operations are taken to be atomic. The program does not ensure this: it pushes under field_mutex
 but tests and pops under queue_mutex.
 */
module Beehive {
  import opened FlowerField
  import opened Runs
  import opened Sums

  datatype ConfigData = ConfigData(field: Geometry, bees: nat)

  type Config = c: ConfigData | c.field.Valid() && c.bees >= 1
    witness ConfigData(Geometry(1, 1), 1)

  /** Where a bee is in thread_func. */
  datatype Bee =
    | AtLoop                          // about to test must_terminate
    | AtQueueLock                     // about to lock queue_mutex
    | InQueue                         // holds queue_mutex, about to test emptiness
    | AtPop                           // holds queue_mutex, found the queue non-empty
    | AtQueueUnlock(task: Option<nat>) // about to release queue_mutex
    | Flying(pos: nat)                // about to lock field_mutex
    | InField(pos: nat)               // holds field_mutex, about to look for nectar
    | Counting(pos: nat)              // has taken the nectar, about to count it
    | Reporting(pos: nat, i: nat)     // looking at neighbour number i
    | AtFieldUnlock                   // about to release field_mutex
    | AtBarrier1
    | InBarrier1                      // blocked in the first wait of the round
    | Bear                            // serial thread, about to draw the outcome of bear_attack
    | StoringTerminate
    | StoringDestroyed
    | AtBarrier2
    | InBarrier2                      // blocked in the second wait of the round
    | Gone                            // has left the loop

  datatype Main = ReadCount | ReadDestroyed | StoreTerminate | Joining(joined: nat)

  /** Shared memory; pushes, pops and bear (a bear made terminate true) are history. */
  datatype Memory = Memory(
    nectar: seq<bool>, queue: seq<nat>, collected: nat, terminate: bool, destroyed: bool,
    queueOwner: Option<nat>, fieldOwner: Option<nat>, pushes: nat, pops: nat, bear: bool)

  /** rounds counts how often the second barrier of a round has opened. */
  datatype State = State(mem: Memory, bees: seq<Bee>, main: Main, rounds: nat)

  /**
   The next operation of bee i, or of main. The outcomes that POSIX or rand() leave open are part of the
   action: which thread a full barrier declares serial, and whether a bear destroys the hive.
   */
  datatype Action = BeeAct(i: nat, serial: nat, attack: bool) | MainAct

  function Init(c: Config): State {
    State(Memory(seq(c.field.Size(), _ => true), [Start(c.field)], 0, false, false, None, None, 1, 0, false),
          seq(c.bees, _ => AtLoop), ReadCount, 0)
  }

  /** The operations of bee i that involve no other bee; None when it is blocked. */
  function Local(c: Config, m: Memory, i: nat, b: Bee, attack: bool): Option<(Memory, Bee)> {
    match b
    case AtLoop => Some((m, if m.terminate then Gone else AtQueueLock))
    case AtQueueLock => if m.queueOwner.Some? then None else Some((m.(queueOwner := Some(i)), InQueue))
    case InQueue => Some((m, if m.queue == [] then AtQueueUnlock(None) else AtPop))
    case AtPop =>
      if m.queue == [] then None
      else Some((m.(queue := m.queue[1..], pops := m.pops + 1), AtQueueUnlock(Some(m.queue[0]))))
    case AtQueueUnlock(task) =>
      Some((m.(queueOwner := None), if task.Some? then Flying(task.value) else AtBarrier1))
    case Flying(pos) => if m.fieldOwner.Some? then None else Some((m.(fieldOwner := Some(i)), InField(pos)))
    case InField(pos) =>
      if NectarAt(m.nectar, pos) then Some((m.(nectar := m.nectar[pos := false]), Counting(pos)))
      else Some((m, AtFieldUnlock))
    case Counting(pos) => Some((m.(collected := m.collected + 1), Reporting(pos, 0)))
    case Reporting(pos, k) =>
      if k >= 4 then Some((m, AtFieldUnlock)) else Some((Reported(m, Positions(c.field, pos)[k]), Reporting(pos, k + 1)))
    case AtFieldUnlock => Some((m.(fieldOwner := None), AtBarrier1))
    case Bear => Some((m, if attack then StoringTerminate else AtBarrier2))
    case StoringTerminate => Some((m.(terminate := true, bear := true), StoringDestroyed))
    case StoringDestroyed => Some((m.(destroyed := true), AtBarrier2))
    case _ => None
  }

  function Reported(m: Memory, q: nat): Memory {
    if NectarAt(m.nectar, q) then m.(queue := m.queue + [q], pushes := m.pushes + 1) else m
  }

  predicate InBarrier(b: Bee) { b.InBarrier1? || b.InBarrier2? }

  function Released(b: Bee, serial: bool): Bee {
    if b.InBarrier1? then (if serial then Bear else AtBarrier2) else AtLoop
  }

  /** pthread_barrier_wait by bee i: the last of the threads to arrive releases all of them. */
  function Arrive(s: State, i: nat, waiting: Bee, serial: nat): State
    requires i < |s.bees|
  {
    var arrived := s.bees[i := waiting];
    if forall k :: 0 <= k < |arrived| ==> InBarrier(arrived[k]) then
      s.(bees := seq(|arrived|, k requires 0 <= k < |arrived| => Released(arrived[k], k == serial)),
         rounds := s.rounds + Bit(waiting.InBarrier2?))
    else
      s.(bees := arrived)
  }

  function MainStep(c: Config, s: State): Option<State> {
    match s.main
    case ReadCount => Some(s.(main := if s.mem.collected < c.field.Size() then ReadDestroyed else StoreTerminate))
    case ReadDestroyed => Some(s.(main := if s.mem.destroyed then StoreTerminate else ReadCount))
    case StoreTerminate => Some(s.(main := Joining(0), mem := s.mem.(terminate := true)))
    case Joining(k) =>
      if k < |s.bees| && s.bees[k].Gone? then Some(s.(main := Joining(k + 1))) else None
  }

  function BeeStep(c: Config, s: State, i: nat, serial: nat, attack: bool): Option<State>
    requires i < |s.bees|
  {
    if s.bees[i].AtBarrier1? then Some(Arrive(s, i, InBarrier1, serial))
    else if s.bees[i].AtBarrier2? then Some(Arrive(s, i, InBarrier2, serial))
    else match Local(c, s.mem, i, s.bees[i], attack)
      case None => None
      case Some((m, b)) => Some(s.(mem := m, bees := s.bees[i := b]))
  }

  function Step(c: Config, s: State, a: Action): Option<State> {
    match a
    case BeeAct(i, serial, attack) =>
      if i < |s.bees| && serial < |s.bees| then BeeStep(c, s, i, serial, attack) else None
    case MainAct => MainStep(c, s)
  }

  function Stepper(c: Config): (State, Action) -> Option<State> {
    (s: State, a: Action) => Step(c, s, a)
  }

  /** The states some interleaving leads to. */
  ghost predicate Reachable(c: Config, s: State) {
    Leads(Stepper(c), Init(c), s)
  }

  // ---------------------------------------------------------------------------
  // The invariant
  // ---------------------------------------------------------------------------

  predicate HoldsQueue(b: Bee) { b.InQueue? || b.AtPop? || b.AtQueueUnlock? }

  predicate HoldsField(b: Bee) { b.InField? || b.Counting? || b.Reporting? || b.AtFieldUnlock? }

  /** Positions in use are inside the field, and a flower being counted or reported is harvested. */
  predicate TaskOk(c: Config, m: Memory, b: Bee) {
    match b
    case AtPop => m.queue != []
    case AtQueueUnlock(task) => task.Some? ==> task.value < c.field.Size()
    case Flying(pos) => pos < c.field.Size()
    case InField(pos) => pos < c.field.Size()
    case Counting(pos) => pos < c.field.Size() && !NectarAt(m.nectar, pos)
    case Reporting(pos, i) => pos < c.field.Size() && !NectarAt(m.nectar, pos) && i <= 4
    case _ => true
  }

  predicate BeeOk(c: Config, m: Memory, i: nat, b: Bee) {
    && TaskOk(c, m, b)
    && (HoldsQueue(b) <==> m.queueOwner == Some(i))
    && (HoldsField(b) <==> m.fieldOwner == Some(i))
  }

  predicate MemoryOk(c: Config, m: Memory) {
    && |m.nectar| == c.field.Size()
    && (forall k :: 0 <= k < |m.queue| ==> m.queue[k] < c.field.Size())
    && (m.queueOwner.Some? ==> m.queueOwner.value < c.bees)
    && (m.fieldOwner.Some? ==> m.fieldOwner.value < c.bees)
  }

  predicate Shape(c: Config, s: State) {
    && MemoryOk(c, s.mem)
    && |s.bees| == c.bees
    && forall i :: 0 <= i < |s.bees| ==> BeeOk(c, s.mem, i, s.bees[i])
  }

  /** Bee b is on its way to flower q. */
  predicate Carries(b: Bee, q: nat) {
    b == AtQueueUnlock(Some(q)) || b == Flying(q) || b == InField(q)
  }

  /** Bee b has harvested p and is still going to look at its neighbour q. */
  predicate Announces(c: Config, b: Bee, p: nat, q: nat) {
    || b == Counting(p)
    || (b.Reporting? && b.pos == p && exists k :: b.i <= k < 4 && Positions(c.field, p)[k] == q)
  }

  ghost predicate Covered(s: State, q: nat) {
    q in s.mem.queue || exists i :: 0 <= i < |s.bees| && Carries(s.bees[i], q)
  }

  ghost predicate Announced(c: Config, s: State, p: nat, q: nat) {
    exists i :: 0 <= i < |s.bees| && Announces(c, s.bees[i], p, q)
  }

  /** q has nectar although its neighbour p has been harvested. */
  predicate AtFrontier(c: Config, nectar: seq<bool>, p: nat, q: nat) {
    p < |nectar| && !nectar[p] && NectarAt(nectar, q) && q in Positions(c.field, p)
  }

  /** Every flower with nectar next to a harvested one is queued, being flown to, or about to be reported. */
  ghost predicate Frontier(c: Config, s: State) {
    forall p, q :: AtFrontier(c, s.mem.nectar, p, q) ==> Covered(s, q) || Announced(c, s, p, q)
  }

  ghost predicate Started(c: Config, s: State) {
    NectarAt(s.mem.nectar, Start(c.field)) ==> Covered(s, Start(c.field))
  }

  function Harvested(nectar: bool): int { Bit(!nectar) }

  function IsCounting(b: Bee): int { Bit(b.Counting?) }

  /** The counter misses exactly the flowers whose bee is between taking the nectar and counting it. */
  predicate CountOk(s: State) {
    s.mem.collected + SumBy(IsCounting, s.bees) == SumBy(Harvested, s.mem.nectar)
  }

  /** Pushes that bee b still owes: the unreported neighbours with nectar of the flower it harvested. */
  function Owed(c: Config, nectar: seq<bool>, b: Bee): nat {
    match b
    case Counting(pos) => Ripe(c.field, nectar, pos, 0)
    case Reporting(pos, i) => if i <= 4 then Ripe(c.field, nectar, pos, i) else 0
    case _ => 0
  }

  function OwedPushes(c: Config, s: State): nat {
    if s.mem.fieldOwner.Some? && s.mem.fieldOwner.value < |s.bees| then
      Owed(c, s.mem.nectar, s.bees[s.mem.fieldOwner.value])
    else 0
  }

  /** One push per grid edge with a harvested end, and one for the start. */
  predicate WorkOk(c: Config, s: State) {
    && |s.mem.nectar| == c.field.Size()
    && s.mem.pushes + OwedPushes(c, s) == 1 + Touched(c.field, s.mem.nectar, |s.mem.nectar|)
    && s.mem.pushes == s.mem.pops + |s.mem.queue|
  }

  predicate SecondHalf(b: Bee) {
    b.Bear? || b.StoringTerminate? || b.StoringDestroyed? || b.AtBarrier2? || b.InBarrier2?
  }

  /** Bee b has taken its task of the current round out of the queue, or found none there. */
  predicate Served(b: Bee) {
    !b.AtLoop? && !b.AtQueueLock? && !b.InQueue? && !b.AtPop? && !b.Gone?
  }

  /** Bees are never in different halves of a round, and never all blocked in the barrier. */
  ghost predicate PhaseOk(s: State) {
    && (|| (forall i :: 0 <= i < |s.bees| ==> !SecondHalf(s.bees[i]))
        || (forall i :: 0 <= i < |s.bees| ==> SecondHalf(s.bees[i])))
    && (exists i :: 0 <= i < |s.bees| && !InBarrier(s.bees[i]))
  }

  predicate Complete(m: Memory) {
    forall p :: 0 <= p < |m.nectar| ==> !m.nectar[p]
  }

  ghost predicate SomeServed(s: State) {
    exists i :: 0 <= i < |s.bees| && Served(s.bees[i])
  }

  /** As long as there is nectar, every round takes at least one entry out of the queue. */
  ghost predicate RoundsOk(s: State) {
    !Complete(s.mem) ==> s.mem.pops >= s.rounds && (SomeServed(s) ==> s.mem.pops >= s.rounds + 1)
  }

  /** What the flags and the position of bee b say about each other. */
  predicate FlagsSeen(m: Memory, b: Bee) {
    && (b.StoringDestroyed? ==> m.bear)
    && (b.Gone? ==> m.terminate)
    && (m.bear ==> SecondHalf(b) || b.AtLoop? || b.Gone?)
  }

  /** Why must_terminate is true, and who can have seen it. */
  ghost predicate EndingOk(s: State) {
    && (s.mem.bear ==> s.mem.terminate)
    && (s.mem.destroyed ==> s.mem.bear)
    && (s.mem.terminate && !s.mem.bear ==> Complete(s.mem) && s.main.Joining?)
    && (s.main.StoreTerminate? || s.main.Joining? ==> Complete(s.mem) || s.mem.destroyed)
    && (s.main.Joining? ==> s.mem.terminate)
    && (s.main.Joining? ==> s.main.joined <= |s.bees| && forall i :: 0 <= i < s.main.joined ==> s.bees[i].Gone?)
    && (forall i :: 0 <= i < |s.bees| ==> FlagsSeen(s.mem, s.bees[i]))
  }

  ghost predicate Inv(c: Config, s: State) {
    Shape(c, s) && Frontier(c, s) && Started(c, s) && CountOk(s) && WorkOk(c, s) && PhaseOk(s) && RoundsOk(s) && EndingOk(s)
  }
}
