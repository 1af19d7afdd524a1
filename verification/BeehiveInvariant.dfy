/** Every operation of every bee, and of main, keeps the invariant of the beehive. */
module BeehiveInvariant {
  import opened Arithmetic
  import opened FlowerField
  import opened Runs
  import opened Sums
  import opened Beehive

  // ---------------------------------------------------------------------------
  // What one operation of one bee does
  // ---------------------------------------------------------------------------

  lemma LocalShape(c: Config, m: Memory, i: nat, b: Bee, attack: bool)
    requires i < c.bees && MemoryOk(c, m) && BeeOk(c, m, i, b) && Local(c, m, i, b, attack).Some?
    ensures MemoryOk(c, Local(c, m, i, b, attack).value.0)
    ensures BeeOk(c, Local(c, m, i, b, attack).value.0, i, Local(c, m, i, b, attack).value.1)
  {
    hide Positions;
  }

  /** Bee i does not disturb what bee j relies on. */
  lemma LocalStable(c: Config, m: Memory, i: nat, b: Bee, attack: bool, j: nat, d: Bee)
    requires i != j && BeeOk(c, m, i, b) && BeeOk(c, m, j, d) && Local(c, m, i, b, attack).Some?
    ensures BeeOk(c, Local(c, m, i, b, attack).value.0, j, d)
  {
    hide Positions;
  }

  /** A flower in the queue or carried stays so until its nectar is gone. */
  lemma LocalCovered(c: Config, m: Memory, i: nat, b: Bee, attack: bool, q: nat)
    requires Local(c, m, i, b, attack).Some? && (q in m.queue || Carries(b, q))
    requires NectarAt(Local(c, m, i, b, attack).value.0.nectar, q)
    ensures q in Local(c, m, i, b, attack).value.0.queue || Carries(Local(c, m, i, b, attack).value.1, q)
  {
    hide Positions;
  }

  /** An announced flower stays announced until it is pushed. */
  lemma LocalAnnounced(c: Config, m: Memory, i: nat, b: Bee, attack: bool, p: nat, q: nat)
    requires Local(c, m, i, b, attack).Some? && Announces(c, b, p, q) && q in Positions(c.field, p)
    requires NectarAt(Local(c, m, i, b, attack).value.0.nectar, q)
    ensures q in Local(c, m, i, b, attack).value.0.queue || Announces(c, Local(c, m, i, b, attack).value.1, p, q)
  {
    hide Positions;
  }

  /** The frontier grows only around the flower just harvested, which the bee then announces. */
  lemma LocalFrontier(c: Config, m: Memory, i: nat, b: Bee, attack: bool, p: nat, q: nat)
    requires Local(c, m, i, b, attack).Some? && AtFrontier(c, Local(c, m, i, b, attack).value.0.nectar, p, q)
    ensures AtFrontier(c, m.nectar, p, q) || Announces(c, Local(c, m, i, b, attack).value.1, p, q)
  {
    hide Positions;
  }

  lemma LocalCount(c: Config, m: Memory, i: nat, b: Bee, attack: bool)
    requires Local(c, m, i, b, attack).Some?
    ensures var (m', b') := Local(c, m, i, b, attack).value;
            m'.collected + IsCounting(b') - SumBy(Harvested, m'.nectar) == m.collected + IsCounting(b) - SumBy(Harvested, m.nectar)
  {
    hide Positions;
    if b.InField? && NectarAt(m.nectar, b.pos) {
      SumUpdate(Harvested, m.nectar, b.pos, false);
    }
  }

  /** The bee in the field pays its debt of pushes, or takes on that of the flower it harvests. */
  lemma LocalWork(c: Config, m: Memory, i: nat, b: Bee, attack: bool)
    requires MemoryOk(c, m) && BeeOk(c, m, i, b) && Local(c, m, i, b, attack).Some?
    ensures var (m', b') := Local(c, m, i, b, attack).value;
            && |m'.nectar| == |m.nectar|
            && m'.pushes - m'.pops - |m'.queue| == m.pushes - m.pops - |m.queue|
            && m'.pushes + Owed(c, m'.nectar, b') - Touched(c.field, m'.nectar, |m.nectar|)
               == m.pushes + Owed(c, m.nectar, b) - Touched(c.field, m.nectar, |m.nectar|)
            && (!HoldsField(b) ==> m'.pushes == m.pushes && m'.nectar == m.nectar && Owed(c, m'.nectar, b') == 0)
            && (m'.fieldOwner == m.fieldOwner || (m.fieldOwner == None && m'.fieldOwner == Some(i))
                || (m.fieldOwner == Some(i) && m'.fieldOwner == None && Owed(c, m'.nectar, b') == 0))
  {
    hide Positions, Touched;
    if b.InField? && NectarAt(m.nectar, b.pos) {
      HarvestTouches(c.field, m.nectar, b.pos);
    }
  }

  lemma LocalPhase(c: Config, m: Memory, i: nat, b: Bee, attack: bool)
    requires Local(c, m, i, b, attack).Some?
    ensures var (m', b') := Local(c, m, i, b, attack).value;
            && SecondHalf(b') == SecondHalf(b)
            && !InBarrier(b')
            && (Complete(m) ==> Complete(m'))
            && m'.pops >= m.pops
            && (Served(b') ==> Served(b) || m'.pops == m.pops + 1 || (m'.queue == m.queue == [] && m'.nectar == m.nectar))
  {
    hide Positions;
  }

  lemma LocalFlags(c: Config, m: Memory, i: nat, b: Bee, attack: bool)
    requires Local(c, m, i, b, attack).Some? && FlagsSeen(m, b)
    requires m.bear ==> m.terminate
    requires m.destroyed ==> m.bear
    ensures var (m', b') := Local(c, m, i, b, attack).value;
            && FlagsSeen(m', b')
            && (m'.bear ==> m'.terminate)
            && (m'.destroyed ==> m'.bear)
            && (m'.terminate && !m'.bear ==> m.terminate && !m.bear)
            && (m.terminate ==> m'.terminate)
            && (m.destroyed ==> m'.destroyed)
            && (m.bear ==> m'.bear)
            && (m'.bear ==> m.bear || SecondHalf(b))
            && (Complete(m) ==> Complete(m'))
            && !b.Gone?
  {
    hide Positions;
  }

  // ---------------------------------------------------------------------------
  // What one step of the whole hive does
  // ---------------------------------------------------------------------------

  /** The three kinds of steps: one bee alone, the opening of a full barrier or an arrival at it, and main. */
  predicate Alone(s: State, a: Action) {
    a.BeeAct? && a.i < |s.bees| && !s.bees[a.i].AtBarrier1? && !s.bees[a.i].AtBarrier2?
  }

  predicate Arrival(s: State, a: Action) {
    a.BeeAct? && a.i < |s.bees| && (s.bees[a.i].AtBarrier1? || s.bees[a.i].AtBarrier2?)
  }

  function WaitingOf(b: Bee): Bee { if b.AtBarrier1? then InBarrier1 else InBarrier2 }

  /** At the barrier nobody holds a lock or a task, before or after. */
  predicate Idle(b: Bee) {
    SecondHalf(b) || b.AtBarrier1? || b.InBarrier1? || b.AtLoop?
  }

  /** Bee i is the last to arrive: all others already wait where it is going to wait. */
  predicate Opens(s: State, i: nat) {
    i < |s.bees| && forall k :: 0 <= k < |s.bees| && k != i ==> s.bees[k] == WaitingOf(s.bees[i])
  }

  /** Bees in one half of a round fill the barrier together, so it opens either its first or its second door. */
  lemma ArrivalOutcome(c: Config, s: State, a: Action)
    requires PhaseOk(s) && Arrival(s, a) && Step(c, s, a).Some?
    ensures var t := Step(c, s, a).value;
            && |t.bees| == |s.bees|
            && (!Opens(s, a.i) ==> t == s.(bees := s.bees[a.i := WaitingOf(s.bees[a.i])]))
            && (Opens(s, a.i) && s.bees[a.i].AtBarrier1? ==>
                  t.rounds == s.rounds && forall k :: 0 <= k < |t.bees| ==> t.bees[k].Bear? || t.bees[k].AtBarrier2?)
            && (Opens(s, a.i) && s.bees[a.i].AtBarrier2? ==>
                  t.rounds == s.rounds + 1 && forall k :: 0 <= k < |t.bees| ==> t.bees[k].AtLoop?)
  {
    var arrived := s.bees[a.i := WaitingOf(s.bees[a.i])];
    if forall k :: 0 <= k < |arrived| ==> InBarrier(arrived[k]) {
      forall k | 0 <= k < |s.bees| && k != a.i ensures s.bees[k] == WaitingOf(s.bees[a.i]) {
        assert arrived[k] == s.bees[k];
      }
    }
  }

  lemma ArrivalMoves(c: Config, s: State, a: Action)
    requires Arrival(s, a) && Step(c, s, a).Some?
    ensures var t := Step(c, s, a).value;
            && t.mem == s.mem && t.main == s.main && |t.bees| == |s.bees|
            && forall k :: 0 <= k < |s.bees| ==> t.bees[k] == s.bees[k] || (Idle(s.bees[k]) && Idle(t.bees[k]))
  {
  }

  lemma ShapeKept(c: Config, s: State, a: Action)
    requires Shape(c, s) && Step(c, s, a).Some?
    ensures Shape(c, Step(c, s, a).value)
  {
    hide Local, TaskOk;
    if Alone(s, a) {
      LocalShape(c, s.mem, a.i, s.bees[a.i], a.attack);
      forall j | 0 <= j < |s.bees| && j != a.i
        ensures BeeOk(c, Local(c, s.mem, a.i, s.bees[a.i], a.attack).value.0, j, s.bees[j])
      {
        LocalStable(c, s.mem, a.i, s.bees[a.i], a.attack, j, s.bees[j]);
      }
    } else {
      if Arrival(s, a) { ArrivalMoves(c, s, a); }
      var t := Step(c, s, a).value;
      forall j | 0 <= j < |s.bees| ensures BeeOk(c, t.mem, j, t.bees[j]) {
        IdleOk(c, s.mem, t.mem, j, s.bees[j], t.bees[j]);
      }
    }
  }

  lemma IdleOk(c: Config, m: Memory, m': Memory, j: nat, b: Bee, b': Bee)
    requires BeeOk(c, m, j, b) && (b == b' || (Idle(b) && Idle(b'))) && m' == m.(terminate := m'.terminate)
    ensures BeeOk(c, m', j, b')
  {
  }

  lemma CoveredKept(c: Config, s: State, a: Action, q: nat)
    requires Step(c, s, a).Some? && Covered(s, q) && NectarAt(Step(c, s, a).value.mem.nectar, q)
    ensures Covered(Step(c, s, a).value, q)
  {
    var t := Step(c, s, a).value;
    if q in s.mem.queue {
      if Alone(s, a) {
        LocalCovered(c, s.mem, a.i, s.bees[a.i], a.attack, q);
        if q !in t.mem.queue { assert Carries(t.bees[a.i], q); }
      }
    } else {
      var j :| 0 <= j < |s.bees| && Carries(s.bees[j], q);
      if Alone(s, a) && a.i == j {
        LocalCovered(c, s.mem, a.i, s.bees[a.i], a.attack, q);
        if q !in t.mem.queue { assert Carries(t.bees[a.i], q); }
      } else {
        if Arrival(s, a) { ArrivalMoves(c, s, a); }
        assert Carries(t.bees[j], q);
      }
    }
  }

  lemma AnnouncedKept(c: Config, s: State, a: Action, p: nat, q: nat)
    requires Step(c, s, a).Some? && Announced(c, s, p, q) && AtFrontier(c, Step(c, s, a).value.mem.nectar, p, q)
    ensures Covered(Step(c, s, a).value, q) || Announced(c, Step(c, s, a).value, p, q)
  {
    hide Positions;
    var t := Step(c, s, a).value;
    var j :| 0 <= j < |s.bees| && Announces(c, s.bees[j], p, q);
    if Alone(s, a) && a.i == j {
      LocalAnnounced(c, s.mem, a.i, s.bees[a.i], a.attack, p, q);
      if q !in t.mem.queue { assert Announces(c, t.bees[j], p, q); }
    } else {
      if Arrival(s, a) { ArrivalMoves(c, s, a); }
      assert Announces(c, t.bees[j], p, q);
    }
  }

  lemma FrontierKept(c: Config, s: State, a: Action)
    requires Frontier(c, s) && Step(c, s, a).Some?
    ensures Frontier(c, Step(c, s, a).value)
  {
    hide Positions;
    var t := Step(c, s, a).value;
    forall p, q | AtFrontier(c, t.mem.nectar, p, q) ensures Covered(t, q) || Announced(c, t, p, q) {
      if AtFrontier(c, s.mem.nectar, p, q) {
        if Covered(s, q) { CoveredKept(c, s, a, q); } else { AnnouncedKept(c, s, a, p, q); }
      } else {
        if Arrival(s, a) { ArrivalMoves(c, s, a); }
        LocalFrontier(c, s.mem, a.i, s.bees[a.i], a.attack, p, q);
        assert Announces(c, t.bees[a.i], p, q);
      }
    }
  }

  lemma NectarOnlyGoes(c: Config, s: State, a: Action, q: nat)
    requires Step(c, s, a).Some? && NectarAt(Step(c, s, a).value.mem.nectar, q)
    ensures NectarAt(s.mem.nectar, q)
  {
    hide Positions;
    if Arrival(s, a) { ArrivalMoves(c, s, a); }
  }

  lemma StartedKept(c: Config, s: State, a: Action)
    requires Started(c, s) && Step(c, s, a).Some?
    ensures Started(c, Step(c, s, a).value)
  {
    if NectarAt(Step(c, s, a).value.mem.nectar, Start(c.field)) {
      NectarOnlyGoes(c, s, a, Start(c.field));
      CoveredKept(c, s, a, Start(c.field));
    }
  }

  lemma CountKept(c: Config, s: State, a: Action)
    requires CountOk(s) && Step(c, s, a).Some?
    ensures CountOk(Step(c, s, a).value)
  {
    hide Local;
    var t := Step(c, s, a).value;
    if Alone(s, a) {
      LocalCount(c, s.mem, a.i, s.bees[a.i], a.attack);
      SumUpdate(IsCounting, s.bees, a.i, t.bees[a.i]);
    } else if Arrival(s, a) {
      ArrivalMoves(c, s, a);
      SumEq(IsCounting, s.bees, IsCounting, t.bees);
    }
  }

  lemma WorkKept(c: Config, s: State, a: Action)
    requires Shape(c, s) && WorkOk(c, s) && Step(c, s, a).Some?
    ensures WorkOk(c, Step(c, s, a).value)
  {
    hide Local, Touched, Owed;
    var t := Step(c, s, a).value;
    if Alone(s, a) {
      LocalWork(c, s.mem, a.i, s.bees[a.i], a.attack);
      if s.mem.fieldOwner == None { OwesNothing(c, s.mem, a.i, s.bees[a.i]); }
    } else if Arrival(s, a) {
      ArrivalMoves(c, s, a);
    }
  }

  lemma OwesNothing(c: Config, m: Memory, i: nat, b: Bee)
    requires !HoldsField(b)
    ensures Owed(c, m.nectar, b) == 0
  {
  }

  lemma PhaseKept(c: Config, s: State, a: Action)
    requires PhaseOk(s) && Step(c, s, a).Some?
    ensures PhaseOk(Step(c, s, a).value)
  {
    hide Local;
    var t := Step(c, s, a).value;
    if Alone(s, a) {
      LocalPhase(c, s.mem, a.i, s.bees[a.i], a.attack);
      assert !InBarrier(t.bees[a.i]);
    } else if Arrival(s, a) {
      ArrivalOutcome(c, s, a);
      if Opens(s, a.i) {
        assert !InBarrier(t.bees[a.i]);
      } else {
        var k :| 0 <= k < |s.bees| && k != a.i && s.bees[k] != WaitingOf(s.bees[a.i]);
        assert !InBarrier(t.bees[k]);
      }
    } else {
      var i :| 0 <= i < |s.bees| && !InBarrier(s.bees[i]);
      assert !InBarrier(t.bees[i]);
    }
  }

  /** The bee flies to a flower, or is in the field and has not finished reporting. */
  predicate UnderWay(b: Bee) {
    (b.AtQueueUnlock? && b.task.Some?) || b.Flying? || b.InField? || b.Counting? || b.Reporting?
  }

  /** An empty queue and no bee under way or reporting: the whole field is harvested. */
  lemma NothingLeft(c: Config, s: State)
    requires Shape(c, s) && Frontier(c, s) && Started(c, s)
    requires s.mem.queue == []
    requires forall i :: 0 <= i < |s.bees| ==> !UnderWay(s.bees[i])
    ensures Complete(s.mem)
  {
    hide Positions;
    MultipleIsFar(c.field.width, c.field.height);
    var nectar := s.mem.nectar;
    assert !NectarAt(nectar, Start(c.field));
    forall p, q | 0 <= p < |nectar| && !nectar[p] && 0 <= q < |nectar| && q in Positions(c.field, p) ensures !nectar[q] {
      assert !AtFrontier(c, nectar, p, q);
    }
    NoFrontierMeansAll(c.field, nectar, Start(c.field));
  }

  lemma RoundsKept(c: Config, s: State, a: Action)
    requires Shape(c, s) && Frontier(c, s) && Started(c, s) && PhaseOk(s) && RoundsOk(s) && Step(c, s, a).Some?
    ensures RoundsOk(Step(c, s, a).value)
  {
    hide Local;
    var t := Step(c, s, a).value;
    if Alone(s, a) {
      LocalPhase(c, s.mem, a.i, s.bees[a.i], a.attack);
      if !Complete(t.mem) && SomeServed(t) && t.mem.pops == s.mem.pops && !SomeServed(s) {
        var i :| 0 <= i < |t.bees| && Served(t.bees[i]);
        assert i == a.i;
        NothingLeft(c, s);
      }
    } else if Arrival(s, a) {
      assert Served(s.bees[a.i]);
      ArrivalOutcome(c, s, a);
    }
  }

  /** The counter reaches the number of flowers only when no flower has nectar left. */
  lemma FullCount(c: Config, s: State)
    requires Shape(c, s) && CountOk(s) && s.mem.collected >= c.field.Size()
    ensures Complete(s.mem)
  {
    SumNonNeg(IsCounting, s.bees);
    if p :| 0 <= p < |s.mem.nectar| && s.mem.nectar[p] {
      SumUpdate(Harvested, s.mem.nectar, p, false);
      var one := (b: bool) => 1;
      SumLeq(Harvested, s.mem.nectar[p := false], one, s.mem.nectar);
      SumConst(one, s.mem.nectar, 1);
      assert false;
    }
  }

  lemma AloneEnding(c: Config, s: State, a: Action)
    requires PhaseOk(s) && EndingOk(s) && Alone(s, a) && Step(c, s, a).Some?
    ensures EndingOk(Step(c, s, a).value)
  {
    hide Local, Complete;
    LocalFlags(c, s.mem, a.i, s.bees[a.i], a.attack);
  }

  lemma EndingKept(c: Config, s: State, a: Action)
    requires Shape(c, s) && CountOk(s) && PhaseOk(s) && EndingOk(s) && Step(c, s, a).Some?
    ensures EndingOk(Step(c, s, a).value)
  {
    hide Local, CountOk, Shape;
    if Alone(s, a) {
      AloneEnding(c, s, a);
    } else if Arrival(s, a) {
      ArrivalMoves(c, s, a);
    } else if s.main.ReadCount? && s.mem.collected >= c.field.Size() {
      FullCount(c, s);
    }
  }

  lemma StepKeepsInv(c: Config, s: State, a: Action)
    requires Inv(c, s) && Step(c, s, a).Some?
    ensures Inv(c, Step(c, s, a).value)
  {
    hide Step, Shape, Frontier, Started, CountOk, WorkOk, PhaseOk, RoundsOk, EndingOk;
    ShapeKept(c, s, a);
    FrontierKept(c, s, a);
    StartedKept(c, s, a);
    CountKept(c, s, a);
    WorkKept(c, s, a);
    PhaseKept(c, s, a);
    RoundsKept(c, s, a);
    EndingKept(c, s, a);
  }

  lemma InitInv(c: Config)
    ensures Inv(c, Init(c))
  {
    var s := Init(c);
    hide Positions;
    SumConst(Harvested, s.mem.nectar, 0);
    SumConst(IsCounting, s.bees, 0);
    TouchedBounds(c.field, s.mem.nectar, |s.mem.nectar|);
    assert s.mem.queue[0] == Start(c.field);
    assert s.bees[0] == AtLoop;
    MultipleIsFar(c.field.width, c.field.height);
  }

  lemma ReachableInv(c: Config, s: State)
    requires Reachable(c, s)
    ensures Inv(c, s)
  {
    var acts :| Exec(Stepper(c), Init(c), acts) == Some(s);
    InitInv(c);
    hide Step, Init, Inv;
    forall t, a | Inv(c, t) && Stepper(c)(t, a).Some? ensures Inv(c, Stepper(c)(t, a).value) {
      StepKeepsInv(c, t, a);
    }
    KeepsInvariant(Stepper(c), t => Inv(c, t), Init(c), acts);
  }
}
