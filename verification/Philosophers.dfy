/** Dining philosophers, where the last one takes its chopsticks in the opposite order. */
module Philosophers {
  import opened Runs
  import opened Sums

  /** size is NUM_PHILOSOPHER, meals is EAT_ITERATIONS. */
  datatype ConfigData = ConfigData(size: nat, meals: nat)

  type Config = c: ConfigData | c.size >= 2
    witness ConfigData(2, 0)

  /** Where a philosopher is in dine. */
  datatype Pc = AtLoop | TakeFirst | TakeSecond | Eating | DropRight | Done

  datatype Philosopher = Philosopher(pc: Pc, meals: nat)

  /** sticks[k] is the philosopher that has locked chopstick k. */
  datatype State = State(phils: seq<Philosopher>, sticks: seq<Option<nat>>)

  function Right(c: Config, p: nat): nat { p }

  function Left(c: Config, p: nat): nat { if p + 1 == c.size then 0 else p + 1 }

  lemma LeftIsModulo(c: Config, p: nat)
    requires p < c.size
    ensures Left(c, p) == (p + 1) % c.size
  {
  }

  function First(c: Config, p: nat): nat { if p != c.size - 1 then Right(c, p) else Left(c, p) }

  function Second(c: Config, p: nat): nat { if p != c.size - 1 then Left(c, p) else Right(c, p) }

  /** Everybody takes the chopsticks p and (p + 1) % size, the one with the lower number first. */
  lemma LowerNumberFirst(c: Config, p: nat)
    requires p < c.size
    ensures First(c, p) < Second(c, p) < c.size
    ensures {First(c, p), Second(c, p)} == {p, (p + 1) % c.size}
  {
    LeftIsModulo(c, p);
  }

  function Init(c: Config): State {
    State(seq(c.size, _ => Philosopher(AtLoop, 0)), seq(c.size, _ => None))
  }

  predicate WellSized(c: Config, s: State) { |s.phils| == |s.sticks| == c.size }

  /** The next operation of philosopher p; None while the mutex it needs is locked. */
  function Step(c: Config, s: State, p: nat): Option<State> {
    if !WellSized(c, s) || p >= c.size then None
    else
      var me := s.phils[p];
      match me.pc
      case AtLoop =>
        Some(s.(phils := s.phils[p := me.(pc := if me.meals < c.meals then TakeFirst else Done)]))
      case TakeFirst =>
        if s.sticks[First(c, p)].Some? then None
        else Some(State(s.phils[p := me.(pc := TakeSecond)], s.sticks[First(c, p) := Some(p)]))
      case TakeSecond =>
        if s.sticks[Second(c, p)].Some? then None
        else Some(State(s.phils[p := me.(pc := Eating)], s.sticks[Second(c, p) := Some(p)]))
      case Eating => Some(State(s.phils[p := me.(pc := DropRight)], s.sticks[Left(c, p) := None]))
      case DropRight =>
        Some(State(s.phils[p := Philosopher(AtLoop, me.meals + 1)], s.sticks[Right(c, p) := None]))
      case Done => None
  }

  function Stepper(c: Config): (State, nat) -> Option<State> {
    (s: State, p: nat) => Step(c, s, p)
  }

  ghost predicate Reachable(c: Config, s: State) {
    Leads(Stepper(c), Init(c), s)
  }

  // ---------------------------------------------------------------------------
  // The invariant
  // ---------------------------------------------------------------------------

  /** Philosopher p, being at pc, has chopstick k. */
  predicate Has(c: Config, pc: Pc, p: nat, k: nat) {
    match pc
    case TakeSecond => k == First(c, p)
    case Eating => k == First(c, p) || k == Second(c, p)
    case DropRight => k == Right(c, p)
    case _ => false
  }

  predicate MealsOk(c: Config, x: Philosopher) {
    && x.meals <= c.meals
    && (x.pc.Done? ==> x.meals == c.meals)
    && (!x.pc.AtLoop? && !x.pc.Done? ==> x.meals < c.meals)
  }

  predicate Inv(c: Config, s: State) {
    && WellSized(c, s)
    && (forall p :: 0 <= p < c.size ==> MealsOk(c, s.phils[p]))
    && (forall p, k :: 0 <= p < c.size && 0 <= k < c.size ==> (s.sticks[k] == Some(p) <==> Has(c, s.phils[p].pc, p, k)))
    && (forall k :: 0 <= k < c.size && s.sticks[k].Some? ==> s.sticks[k].value < c.size)
  }

  lemma MealsKept(c: Config, s: State, p: nat)
    requires Step(c, s, p).Some? && MealsOk(c, s.phils[p])
    ensures MealsOk(c, Step(c, s, p).value.phils[p])
  {
  }

  lemma StepKeepsInv(c: Config, s: State, p: nat)
    requires Inv(c, s) && Step(c, s, p).Some?
    ensures Inv(c, Step(c, s, p).value)
  {
    var t := Step(c, s, p).value;
    var pc := s.phils[p].pc;
    MealsKept(c, s, p);
    hide MealsOk;
    forall q, k | 0 <= q < c.size && 0 <= k < c.size
      ensures t.sticks[k] == Some(q) <==> Has(c, t.phils[q].pc, q, k)
    {
      assert s.sticks[k] == Some(q) <==> Has(c, s.phils[q].pc, q, k);
      assert s.sticks[k] == Some(p) <==> Has(c, pc, p, k);
    }
  }

  lemma ReachableInv(c: Config, s: State)
    requires Reachable(c, s)
    ensures Inv(c, s)
  {
    var acts :| Exec(Stepper(c), Init(c), acts) == Some(s);
    assert Inv(c, Init(c));
    hide Step, Inv, Init;
    forall t, p | Inv(c, t) && Stepper(c)(t, p).Some? ensures Inv(c, Stepper(c)(t, p).value) {
      StepKeepsInv(c, t, p);
    }
    KeepsInvariant(Stepper(c), t => Inv(c, t), Init(c), acts);
  }

  // ---------------------------------------------------------------------------
  // Results
  // ---------------------------------------------------------------------------

  /** What philosopher p holds at each place of dine: both while eating, then only the right one. */
  lemma ChopsticksHeld(c: Config, s: State, p: nat)
    requires Reachable(c, s) && WellSized(c, s) && p < c.size
    ensures var (right, left) := (p, (p + 1) % c.size);
            var lower := if right < left then right else left;
            match s.phils[p].pc
            case TakeSecond => forall k :: 0 <= k < c.size ==> (s.sticks[k] == Some(p) <==> k == lower)
            case Eating => forall k :: 0 <= k < c.size ==> (s.sticks[k] == Some(p) <==> k == right || k == left)
            case DropRight => forall k :: 0 <= k < c.size ==> (s.sticks[k] == Some(p) <==> k == right)
            case _ => forall k :: 0 <= k < c.size ==> s.sticks[k] != Some(p)
  {
    ReachableInv(c, s);
    LeftIsModulo(c, p);
    forall k | 0 <= k < c.size ensures s.sticks[k] == Some(p) <==> Has(c, s.phils[p].pc, p, k) {
    }
  }

  /** Neighbours share a chopstick, so they never eat at the same time. */
  lemma NeighboursNeverEatTogether(c: Config, s: State, p: nat)
    requires Reachable(c, s) && p < c.size && WellSized(c, s)
    ensures Left(c, p) < c.size
    ensures !(s.phils[p].pc.Eating? && s.phils[Left(c, p)].pc.Eating?)
  {
    ReachableInv(c, s);
    var q := Left(c, p);
    assert s.sticks[q] == Some(p) <==> Has(c, s.phils[p].pc, p, q);
    assert s.sticks[q] == Some(q) <==> Has(c, s.phils[q].pc, q, q);
  }

  /** Whoever holds a chopstick can go on, or waits for a higher one: somebody can go on. */
  lemma {:induction false} HolderOfHighest(c: Config, s: State, k: nat) returns (p: nat)
    requires Inv(c, s) && k < c.size && s.sticks[k].Some?
    ensures Step(c, s, p).Some?
    decreases c.size - k
  {
    p := s.sticks[k].value;
    assert Has(c, s.phils[p].pc, p, k);
    if s.phils[p].pc.TakeSecond? && s.sticks[Second(c, p)].Some? {
      assert First(c, p) < Second(c, p);
      p := HolderOfHighest(c, s, Second(c, p));
    }
  }

  /** As long as a philosopher is not done, somebody can take a step. */
  lemma NeverStuck(c: Config, s: State, hungry: nat) returns (p: nat)
    requires Reachable(c, s) && WellSized(c, s) && hungry < c.size && !s.phils[hungry].pc.Done?
    ensures Step(c, s, p).Some?
  {
    ReachableInv(c, s);
    p := hungry;
    if Step(c, s, hungry).None? {
      p := HolderOfHighest(c, s, if s.phils[hungry].pc.TakeFirst? then First(c, hungry) else Second(c, hungry));
    }
  }

  function Remaining(c: Config): Philosopher -> int {
    (x: Philosopher) => 5 * (c.meals - x.meals) + match x.pc
      case AtLoop => 1
      case TakeFirst => 0
      case TakeSecond => -1
      case Eating => -2
      case DropRight => -3
      case Done => 0
  }

  lemma {:induction false} StepsTaken(c: Config, s: State, acts: seq<nat>)
    requires WellSized(c, s) && Exec(Stepper(c), s, acts).Some?
    ensures WellSized(c, Exec(Stepper(c), s, acts).value)
    ensures SumBy(Remaining(c), Exec(Stepper(c), s, acts).value.phils) + |acts| == SumBy(Remaining(c), s.phils)
    decreases |acts|
  {
    if acts != [] {
      var p := acts[0];
      var t := Step(c, s, p).value;
      SumUpdate(Remaining(c), s.phils, p, t.phils[p]);
      StepsTaken(c, t, acts[1..]);
    }
  }

  /** Every run takes at most size * (5 * meals + 1) steps, and a run of that length is one in which all are done. */
  lemma RunLength(c: Config, acts: seq<nat>)
    requires Exec(Stepper(c), Init(c), acts).Some?
    ensures var s := Exec(Stepper(c), Init(c), acts).value;
            && WellSized(c, s)
            && |acts| <= c.size * (5 * c.meals + 1)
            && (|acts| == c.size * (5 * c.meals + 1) <==> forall p :: 0 <= p < c.size ==> s.phils[p].pc.Done?)
  {
    var s := Exec(Stepper(c), Init(c), acts).value;
    ReachableInv(c, s);
    StepsTaken(c, Init(c), acts);
    SumConst(Remaining(c), Init(c).phils, 5 * c.meals + 1);
    hide Step, Init, MealsOk, Has, Remaining, SumBy;
    assert (5 * c.meals + 1) * c.size == c.size * (5 * c.meals + 1);
    RemainingAtEnd(c, s);
  }

  lemma RemainingAtEnd(c: Config, s: State)
    requires Inv(c, s)
    ensures 0 <= SumBy(Remaining(c), s.phils)
    ensures SumBy(Remaining(c), s.phils) == 0 <==> forall p :: 0 <= p < c.size ==> s.phils[p].pc.Done?
  {
    forall p | 0 <= p < c.size
      ensures 0 <= Remaining(c)(s.phils[p]) && (Remaining(c)(s.phils[p]) == 0 <==> s.phils[p].pc.Done?)
    {
      assert MealsOk(c, s.phils[p]);
    }
    hide Remaining, MealsOk, Has;
    SumNonNeg(Remaining(c), s.phils);
    if forall p :: 0 <= p < c.size ==> s.phils[p].pc.Done? {
      SumConst(Remaining(c), s.phils, 0);
    }
  }

  /** Everybody who is done has eaten exactly as often as intended. */
  lemma MealsAreExact(c: Config, s: State, p: nat)
    requires Reachable(c, s) && WellSized(c, s) && p < c.size
    ensures s.phils[p].meals <= c.meals
    ensures s.phils[p].pc.Done? ==> s.phils[p].meals == c.meals
  {
    ReachableInv(c, s);
    assert MealsOk(c, s.phils[p]);
  }

  // ---------------------------------------------------------------------------
  // The program on its mutexes
  // ---------------------------------------------------------------------------

  class Table {
    const c: Config
    const phils: array<Philosopher>
    const sticks: array<Option<nat>>

    ghost predicate Valid()
      reads this
    {
      phils.Length == sticks.Length == c.size
    }

    ghost function Abs(): State
      reads this, phils, sticks
    {
      State(phils[..], sticks[..])
    }

    constructor (c: Config)
      ensures Valid() && this.c == c && Abs() == Init(c) && fresh(phils) && fresh(sticks)
    {
      this.c := c;
      phils := new Philosopher[c.size](_ => Philosopher(AtLoop, 0));
      sticks := new Option<nat>[c.size](_ => None);
    }

    /** Philosopher p executes its next operation, unless the mutex it wants is locked or it is done. */
    method Dine(p: nat) returns (moved: bool)
      requires Valid()
      modifies phils, sticks
      ensures moved <==> Step(c, old(Abs()), p).Some?
      ensures Abs() == if moved then Step(c, old(Abs()), p).value else old(Abs())
    {
      if p >= c.size { return false; }
      var meals := phils[p].meals;
      LeftIsModulo(c, p);
      var (right, left) := (p, (p + 1) % c.size);
      match phils[p].pc {
        case AtLoop =>
          phils[p] := Philosopher(if meals < c.meals then TakeFirst else Done, meals);
        case TakeFirst =>
          var stick := if p != c.size - 1 then right else left;
          if sticks[stick].Some? { return false; }
          sticks[stick] := Some(p);
          phils[p] := Philosopher(TakeSecond, meals);
        case TakeSecond =>
          var stick := if p != c.size - 1 then left else right;
          if sticks[stick].Some? { return false; }
          sticks[stick] := Some(p);
          phils[p] := Philosopher(Eating, meals);
        case Eating =>
          sticks[left] := None;
          phils[p] := Philosopher(DropRight, meals);
        case DropRight =>
          sticks[right] := None;
          phils[p] := Philosopher(AtLoop, meals + 1);
        case Done => return false;
      }
      return true;
    }
  }

  /**
   The dinner under an arbitrary schedule, in which blocked philosophers skip their turns: everybody's meals, and
   how many turns had an effect.
   */
  method Dinner(c: Config, schedule: seq<nat>) returns (meals: seq<nat>, steps: nat)
    ensures var s := Driven(Stepper(c), Init(c), schedule);
            && |meals| == |s.phils| == c.size
            && (forall p :: 0 <= p < c.size ==> meals[p] == s.phils[p].meals <= c.meals)
            && steps == Moves(Stepper(c), Init(c), schedule)
            && (steps == c.size * (5 * c.meals + 1) <==> forall p :: 0 <= p < c.size ==> s.phils[p].pc.Done?)
    ensures steps <= c.size * (5 * c.meals + 1)
    ensures steps == c.size * (5 * c.meals + 1) ==> forall p :: 0 <= p < c.size ==> meals[p] == c.meals
  {
    var table := new Table(c);
    hide Step, Init, Inv;
    steps := 0;
    for k := 0 to |schedule|
      invariant fresh(table) && fresh(table.phils) && fresh(table.sticks) && table.c == c && table.Valid()
      invariant table.Abs() == Driven(Stepper(c), Init(c), schedule[..k])
      invariant steps == Moves(Stepper(c), Init(c), schedule[..k])
    {
      DrivenNext(Stepper(c), Init(c), schedule, k);
      var moved := table.Dine(schedule[k]);
      if moved { steps := steps + 1; }
    }
    assert schedule[..|schedule|] == schedule;
    meals := seq(c.size, p requires 0 <= p < c.size reads table, table.phils requires table.phils.Length == c.size => table.phils[p].meals);
    ghost var acts := DrivenRun(Stepper(c), Init(c), schedule);
    RunLength(c, acts);
    forall p | 0 <= p < c.size
      ensures meals[p] == table.Abs().phils[p].meals <= c.meals
      ensures table.Abs().phils[p].pc.Done? ==> meals[p] == c.meals
    {
      MealsAreExact(c, table.Abs(), p);
    }
  }
}
