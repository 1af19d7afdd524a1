/**
 The dice game: in every round all players roll, one elected player finds the highest roll, and the players
 that have it remove themselves, unless all survivors have it. Four barrier waits separate the parts of a
 round; within the third part players read n while others decrement it.
 */
module DiceGame {
  import opened Runs
  import opened Sums

  /** Where a player is in thread_func; InBarrier(k) is blocked in the k-th wait of the round. */
  datatype Pc =
    | AtLoop
    | Rolling
    | Resetting          // elected: about to reset current_max and current_max_count
    | Scanning(k: nat)   // elected: about to look at rolls[k]
    | Judging            // about to read current_max_count, n and its own roll
    | Decrementing
    | Removing           // about to clear its roll and remember that it lost
    | AtBarrier(k: nat)
    | InBarrier(k: nat)
    | Done

  /** roll is rolls[id] of the shared array, which only its player writes. */
  datatype Player = Player(pc: Pc, loser: bool, roll: nat)

  /**
   n, current_max and current_max_count, and history: n at the last election, who was elected, and how many of
   the elections so far were ties, and how many were not.
   */
  datatype Memory = Memory(n: int, max: nat, count: nat, base: int, scanner: nat, ties: nat, decisive: nat)

  datatype State = State(mem: Memory, players: seq<Player>)

  /** Player i moves; roll is what rand() yields, serial whom an opening barrier elects. */
  datatype Action = Action(i: nat, roll: nat, serial: nat)

  function Init(players: nat): State {
    State(Memory(players, 0, 0, players, 0, 0, 0), seq(players, _ => Player(AtLoop, false, 0)))
  }

  /** One turn of the elected player's scan. */
  function Look(best: (nat, nat), roll: nat): (nat, nat) {
    if roll > best.0 then (roll, 1)
    else if roll == best.0 then (best.0, best.1 + 1)
    else best
  }

  /** One operation of a player outside the barrier; seen is the roll that a scanning player looks at. */
  function Local(m: Memory, size: nat, p: Player, roll: nat, seen: nat): Option<(Memory, Player)> {
    match p.pc
    case AtLoop => Some((m, p.(pc := if m.n > 1 then (if p.loser then AtBarrier(1) else Rolling) else Done)))
    case Rolling => if 1 <= roll <= 6 then Some((m, p.(pc := AtBarrier(1), roll := roll))) else None
    case Resetting => Some((m.(max := 0, count := 0), p.(pc := Scanning(0))))
    case Scanning(k) =>
      if k < size then
        var (max, count) := Look((m.max, m.count), seen);
        Some((m.(max := max, count := count), p.(pc := Scanning(k + 1))))
      else
        Some((m, p.(pc := AtBarrier(2))))
    case Judging =>
      Some((m, p.(pc := if !p.loser && m.count != m.n && p.roll == m.max then Decrementing else AtBarrier(3))))
    case Decrementing => Some((m.(n := m.n - 1), p.(pc := Removing)))
    case Removing => Some((m, p.(pc := AtBarrier(3), loser := true, roll := 0)))
    case _ => None
  }

  function Released(pc: Pc, serial: bool): Pc {
    match pc
    case InBarrier(k) =>
      if k == 1 then (if serial then Resetting else AtBarrier(2))
      else if k == 2 then Judging
      else if k == 3 then AtBarrier(4)
      else AtLoop
    case _ => pc
  }

  /** What the opening of barrier k of a round adds to the history. */
  function Opened(m: Memory, k: nat, serial: nat): Memory {
    if k == 1 then m.(base := m.n, scanner := serial)
    else if k == 2 then (if m.count == m.n then m.(ties := m.ties + 1) else m.(decisive := m.decisive + 1))
    else m
  }

  /** pthread_barrier_wait number k of the round by player i. */
  function Arrive(s: State, i: nat, k: nat, serial: nat): State
    requires i < |s.players|
  {
    var arrived := s.players[i := s.players[i].(pc := InBarrier(k))];
    if forall j :: 0 <= j < |arrived| ==> arrived[j].pc.InBarrier? then
      State(Opened(s.mem, k, serial),
            seq(|arrived|, j requires 0 <= j < |arrived| => arrived[j].(pc := Released(arrived[j].pc, j == serial))))
    else
      State(s.mem, arrived)
  }

  function Seen(s: State, p: Player): nat {
    if p.pc.Scanning? && p.pc.k < |s.players| then s.players[p.pc.k].roll else 0
  }

  function Step(s: State, a: Action): Option<State> {
    if a.i >= |s.players| || a.serial >= |s.players| then None
    else if s.players[a.i].pc.AtBarrier? then Some(Arrive(s, a.i, s.players[a.i].pc.k, a.serial))
    else
      match Local(s.mem, |s.players|, s.players[a.i], a.roll, Seen(s, s.players[a.i]))
      case None => None
      case Some((m, p)) => Some(State(m, s.players[a.i := p]))
  }

  function Stepper(): (State, Action) -> Option<State> {
    (s: State, a: Action) => Step(s, a)
  }

  ghost predicate Reachable(players: nat, s: State) {
    Leads(Stepper(), Init(players), s)
  }

  // ---------------------------------------------------------------------------
  // The scan
  // ---------------------------------------------------------------------------

  function Rolls(players: seq<Player>): seq<nat> {
    seq(|players|, i requires 0 <= i < |players| => players[i].roll)
  }

  function Best(rolls: seq<nat>): (nat, nat) {
    if rolls == [] then (0, 0) else Look(Best(rolls[..|rolls| - 1]), rolls[|rolls| - 1])
  }

  function Occurs(v: nat): nat -> int { (roll: nat) => if roll == v then 1 else 0 }

  /** The scan finds the highest roll and how often it occurs. */
  lemma {:induction false} BestIsTheMaximum(rolls: seq<nat>)
    ensures forall i :: 0 <= i < |rolls| ==> rolls[i] <= Best(rolls).0
    ensures Best(rolls).0 == 0 || Best(rolls).0 in rolls
    ensures Best(rolls).1 == SumBy(Occurs(Best(rolls).0), rolls)
  {
    if rolls != [] {
      var before := rolls[..|rolls| - 1];
      BestIsTheMaximum(before);
      SumLast(Occurs(Best(rolls).0), rolls);
      if Best(rolls).0 != Best(before).0 {
        SumConst(Occurs(Best(rolls).0), before, 0);
      }
    }
  }

  /** The loop of the elected player. */
  method ScanRolls(rolls: array<nat>) returns (max: nat, count: nat)
    ensures (max, count) == Best(rolls[..])
  {
    max, count := 0, 0;
    var i := 0;
    while i < rolls.Length
      invariant i <= rolls.Length && (max, count) == Best(rolls[..i])
    {
      assert rolls[..i + 1][..i] == rolls[..i];
      if rolls[i] > max {
        max := rolls[i];
        count := 1;
      } else if rolls[i] == max {
        count := count + 1;
      }
      i := i + 1;
    }
    assert rolls[..rolls.Length] == rolls[..];
  }

  // ---------------------------------------------------------------------------
  // The invariant
  // ---------------------------------------------------------------------------

  /** The part of the round a player is in; players that are done stay in the first. */
  function Phase(pc: Pc): nat {
    match pc
    case AtLoop => 1
    case Rolling => 1
    case Resetting => 2
    case Scanning(_) => 2
    case Judging => 3
    case Decrementing => 3
    case Removing => 3
    case AtBarrier(k) => k
    case InBarrier(k) => k
    case Done => 1
  }

  /** Has taken itself off n. */
  predicate Out(p: Player) { p.loser || p.pc.Removing? }

  function IsOut(): Player -> int { (p: Player) => if Out(p) then 1 else 0 }

  /** Still counted in n, with the highest roll. */
  predicate Holds(max: nat, p: Player) { !Out(p) && p.roll == max }

  function IsHolder(max: nat): Player -> int { (p: Player) => if Holds(max, p) then 1 else 0 }

  predicate PlayerOk(m: Memory, size: nat, i: nat, p: Player) {
    && (p.loser ==> p.roll == 0 && !p.pc.Rolling? && !p.pc.Decrementing? && !p.pc.Removing?)
    && (!p.loser && !p.pc.AtLoop? && !p.pc.Rolling? && !p.pc.Done? ==> p.roll >= 1)
    && 1 <= Phase(p.pc) <= 4
    && (p.pc.Scanning? ==> p.pc.k <= size)
    && (p.pc.Resetting? || p.pc.Scanning? ==> i == m.scanner)
    && (p.pc.Done? ==> m.n <= 1)
    && (Phase(p.pc) <= 2 && !p.pc.AtLoop? && !p.pc.Done? ==> m.n > 1)
    && (p.pc.Decrementing? ==> p.roll == m.max)
  }

  /** All players are in part f of the round, and not all wait in the barrier. */
  ghost predicate InPhase(s: State, f: nat) {
    && (forall i :: 0 <= i < |s.players| ==> Phase(s.players[i].pc) == f)
    && (exists i :: 0 <= i < |s.players| && !s.players[i].pc.InBarrier?)
  }

  predicate Counted(s: State) {
    s.mem.n == |s.players| - SumBy(IsOut(), s.players)
  }

  /** The elected player has looked at the first k rolls. */
  predicate Scanned(s: State, k: nat) {
    k <= |s.players| && (s.mem.max, s.mem.count) == Best(Rolls(s.players)[..k])
  }

  predicate ScanOk(s: State) {
    && s.mem.scanner < |s.players|
    && s.mem.base == s.mem.n
    && (match s.players[s.mem.scanner].pc
        case Resetting => true
        case Scanning(k) => Scanned(s, k)
        case _ => Scanned(s, |s.players|))
  }

  /** A holder that has passed the third part without leaving saw n equal to the number of holders. */
  predicate RaceOk(m: Memory, p: Player) {
    && (p.pc.Decrementing? || p.pc.Removing? ==> m.count < m.base)
    && (Holds(m.max, p) && !p.pc.Judging? && !p.pc.Decrementing? ==> m.n <= m.count)
  }

  predicate EliminationOk(s: State) {
    && 1 <= s.mem.count <= s.mem.base
    && s.mem.max >= 1
    && s.mem.base > 1
    && SumBy(IsHolder(s.mem.max), s.players) + (s.mem.base - s.mem.n) == s.mem.count
    && s.mem.n <= s.mem.base
    && (s.mem.count == s.mem.base ==> s.mem.n == s.mem.base)
    && forall i :: 0 <= i < |s.players| ==> RaceOk(s.mem, s.players[i])
  }

  function Min(a: int, b: int): int { if a < b then a else b }

  /** How many players a round with count holders of the maximum among base survivors may remove. */
  predicate Outcome(m: Memory) {
    if m.count == m.base then m.n == m.base
    else 1 <= m.count < m.base && Min(m.count, m.base - m.count) <= m.base - m.n <= m.count
  }

  /** Every round that is not a tie has removed at least one player. */
  predicate DecisiveOk(s: State, f: nat) {
    var m := s.mem;
    if f == 3 then m.decisive <= |s.players| - m.base + if m.count == m.base then 0 else 1
    else m.decisive <= |s.players| - m.n
  }

  ghost predicate PhaseInv(s: State, f: nat) {
    && InPhase(s, f)
    && DecisiveOk(s, f)
    && (f == 2 ==> ScanOk(s))
    && (f == 3 ==> EliminationOk(s))
    && (f == 4 ==> Outcome(s.mem))
    && (f == 1 || f == 2 || f == 4 ==> s.mem.n >= 1)
  }

  ghost predicate Inv(s: State) {
    && Counted(s)
    && (forall i :: 0 <= i < |s.players| ==> PlayerOk(s.mem, |s.players|, i, s.players[i]))
    && exists f :: PhaseInv(s, f)
  }
}
