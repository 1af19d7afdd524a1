/**
 The termination flag is stored while bees test it, so the bees can part: a concrete schedule after which
 one bee has left and the other waits for it in the barrier for ever.
 */
module BeehiveStranding {
  import opened FlowerField
  import opened Runs
  import opened Beehive
  import opened BeehiveResults

  /** One flower, two bees. */
  const TINY: Config := ConfigData(Geometry(1, 1), 2)

  lemma Go(c: Config, s: State, a: Action) returns (t: State)
    requires Reachable(c, s) && Step(c, s, a).Some?
    ensures t == Step(c, s, a).value && Reachable(c, t)
  {
    LeadsOneOn(Stepper(c), Init(c), s, a);
    t := Step(c, s, a).value;
  }

  function After(queue: seq<nat>, collected: nat, nectar: bool, pops: nat, terminate: bool,
                 queueOwner: Option<nat>, fieldOwner: Option<nat>, bees: seq<Bee>, main: Main, rounds: nat): State {
    State(Memory([nectar], queue, collected, terminate, false, queueOwner, fieldOwner, 1, pops, false), bees, main, rounds)
  }

  /** Bee 0 takes the only entry out of the queue. */
  lemma TakesOff() returns (s: State)
    ensures s == After([], 0, true, 1, false, None, None, [Flying(0), AtLoop], ReadCount, 0)
    ensures Reachable(TINY, s)
  {
    s := Init(TINY);
    assert Exec(Stepper(TINY), s, []) == Some(s);
    assert s == After([0], 0, true, 0, false, None, None, [AtLoop, AtLoop], ReadCount, 0);
    s := Go(TINY, s, BeeAct(0, 0, false));
    assert s.bees == [AtQueueLock, AtLoop];
    s := Go(TINY, s, BeeAct(0, 0, false));
    assert s.bees == [InQueue, AtLoop];
    s := Go(TINY, s, BeeAct(0, 0, false));
    assert s.bees == [AtPop, AtLoop];
    s := Go(TINY, s, BeeAct(0, 0, false));
    assert s.bees == [AtQueueUnlock(Some(0)), AtLoop];
    s := Go(TINY, s, BeeAct(0, 0, false));
    assert s.bees == [Flying(0), AtLoop];
  }

  /** It harvests and counts the flower, */
  lemma Harvests() returns (s: State)
    ensures s == After([], 1, false, 1, false, None, Some(0), [Reporting(0, 0), AtLoop], ReadCount, 0)
    ensures Reachable(TINY, s)
  {
    s := TakesOff();
    s := Go(TINY, s, BeeAct(0, 0, false));
    assert s.bees == [InField(0), AtLoop];
    s := Go(TINY, s, BeeAct(0, 0, false));
    assert s.bees == [Counting(0), AtLoop];
    s := Go(TINY, s, BeeAct(0, 0, false));
    assert s.bees == [Reporting(0, 0), AtLoop];
  }

  /** has no neighbour to report, */
  lemma ReportsNothing() returns (s: State)
    ensures s == After([], 1, false, 1, false, None, Some(0), [Reporting(0, 4), AtLoop], ReadCount, 0)
    ensures Reachable(TINY, s)
  {
    s := Harvests();
    assert forall k :: 0 <= k < 4 ==> Positions(TINY.field, 0)[k] == NO_POSITION;
    s := Go(TINY, s, BeeAct(0, 0, false));
    assert s.bees == [Reporting(0, 1), AtLoop];
    s := Go(TINY, s, BeeAct(0, 0, false));
    assert s.bees == [Reporting(0, 2), AtLoop];
    s := Go(TINY, s, BeeAct(0, 0, false));
    assert s.bees == [Reporting(0, 3), AtLoop];
    s := Go(TINY, s, BeeAct(0, 0, false));
    assert s.bees == [Reporting(0, 4), AtLoop];
  }

  /** and waits at the first barrier. */
  lemma WaitsForOther() returns (s: State)
    ensures s == After([], 1, false, 1, false, None, None, [InBarrier1, AtLoop], ReadCount, 0)
    ensures Reachable(TINY, s)
  {
    s := ReportsNothing();
    s := Go(TINY, s, BeeAct(0, 0, false));
    assert s.bees == [AtFieldUnlock, AtLoop];
    s := Go(TINY, s, BeeAct(0, 0, false));
    assert s.bees == [AtBarrier1, AtLoop];
    assert !InBarrier(s.bees[0 := InBarrier1][1]);
    s := Go(TINY, s, BeeAct(0, 0, false));
    assert s.bees == [InBarrier1, AtLoop];
  }

  /** Bee 1 finds no task and opens the first barrier, */
  lemma FirstBarrierOpens() returns (s: State)
    ensures s == After([], 1, false, 1, false, None, None, [Bear, AtBarrier2], ReadCount, 0)
    ensures Reachable(TINY, s)
  {
    s := WaitsForOther();
    s := Go(TINY, s, BeeAct(1, 0, false));
    assert s.bees == [InBarrier1, AtQueueLock];
    s := Go(TINY, s, BeeAct(1, 0, false));
    assert s.bees == [InBarrier1, InQueue];
    s := Go(TINY, s, BeeAct(1, 0, false));
    assert s.bees == [InBarrier1, AtQueueUnlock(None)];
    s := Go(TINY, s, BeeAct(1, 0, false));
    assert s.bees == [InBarrier1, AtBarrier1];
    s := Go(TINY, s, BeeAct(1, 0, false));
    assert s.bees == [Bear, AtBarrier2];
  }

  /** no bear appears, and the round ends. */
  lemma RoundEnds() returns (s: State)
    ensures s == After([], 1, false, 1, false, None, None, [AtLoop, AtLoop], ReadCount, 1)
    ensures Reachable(TINY, s)
  {
    s := FirstBarrierOpens();
    s := Go(TINY, s, BeeAct(0, 0, false));
    assert s.bees == [AtBarrier2, AtBarrier2];
    assert !InBarrier(s.bees[0 := InBarrier2][1]);
    s := Go(TINY, s, BeeAct(0, 0, false));
    assert s.bees == [InBarrier2, AtBarrier2];
    s := Go(TINY, s, BeeAct(1, 0, false));
    assert s.bees == [AtLoop, AtLoop];
  }

  /** Bee 1 starts another round, main stores must_terminate, bee 0 leaves. */
  lemma BeesPart() returns (s: State)
    ensures s == After([], 1, false, 1, true, None, None, [Gone, AtQueueLock], Joining(0), 1)
    ensures Reachable(TINY, s)
  {
    s := RoundEnds();
    s := Go(TINY, s, BeeAct(1, 0, false));
    assert s.bees == [AtLoop, AtQueueLock];
    s := Go(TINY, s, MainAct);
    s := Go(TINY, s, MainAct);
    s := Go(TINY, s, BeeAct(0, 0, false));
    assert s.bees == [Gone, AtQueueLock];
  }

  /** Bee 1 arrives at the barrier alone. */
  lemma WaitsForever() returns (s: State)
    ensures s == After([], 1, false, 1, true, None, None, [Gone, InBarrier1], Joining(0), 1)
    ensures Reachable(TINY, s)
  {
    s := BeesPart();
    s := Go(TINY, s, BeeAct(1, 0, false));
    assert s.bees == [Gone, InQueue];
    s := Go(TINY, s, BeeAct(1, 0, false));
    assert s.bees == [Gone, AtQueueUnlock(None)];
    s := Go(TINY, s, BeeAct(1, 0, false));
    assert s.bees == [Gone, AtBarrier1];
    assert !InBarrier(s.bees[1 := InBarrier1][0]);
    s := Go(TINY, s, BeeAct(1, 0, false));
    assert s.bees == [Gone, InBarrier1];
  }

  /** A reachable dead end: not every schedule ends with all bees gone. */
  lemma StrandingIsReachable() returns (s: State)
    ensures Reachable(TINY, s) && Stuck(TINY, s) && Stranded(s) && !s.mem.destroyed
  {
    s := WaitsForever();
    assert s.bees[0].Gone? && s.bees[1].InBarrier1?;
    StuckExactlyWhenStranded(TINY, s);
  }
}
