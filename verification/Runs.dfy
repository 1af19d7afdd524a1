/**
 Finite runs of a system of threads. A system is a step function: given a state and an action of one
 thread, it yields the next state, or None when that thread is blocked (or has no such action) there.
 A schedule is a sequence of actions, so "for every schedule" is "under every interleaving".
 */
module Runs {

  datatype Option<+T> = None | Some(value: T)

  /** The state a schedule leads to, or None when some action of it is not enabled when its turn comes. */
  function Exec<S, A>(step: (S, A) -> Option<S>, s: S, acts: seq<A>): Option<S>
  {
    if acts == [] then Some(s)
    else match step(s, acts[0])
      case None => None
      case Some(t) => Exec(step, t, acts[1..])
  }

  lemma {:induction false} ExecAppend<S, A>(step: (S, A) -> Option<S>, s: S, xs: seq<A>, ys: seq<A>)
    requires Exec(step, s, xs).Some?
    ensures Exec(step, s, xs + ys) == Exec(step, Exec(step, s, xs).value, ys)
  {
    if xs == [] {
      assert xs + ys == ys;
    } else {
      assert (xs + ys)[1..] == xs[1..] + ys;
      ExecAppend(step, step(s, xs[0]).value, xs[1..], ys);
    }
  }

  lemma ExecOne<S, A>(step: (S, A) -> Option<S>, s: S, a: A)
    ensures Exec(step, s, [a]) == step(s, a)
  {
    assert [a][1..] == [];
  }

  /** Some interleaving leads from s to t. */
  ghost predicate Leads<S(!new), A(!new)>(step: (S, A) -> Option<S>, s: S, t: S) {
    exists acts :: Exec(step, s, acts) == Some(t)
  }

  lemma LeadsOn<S(!new), A(!new)>(step: (S, A) -> Option<S>, s: S, t: S, acts: seq<A>)
    requires Leads(step, s, t) && Exec(step, t, acts).Some?
    ensures Leads(step, s, Exec(step, t, acts).value)
  {
    var before :| Exec(step, s, before) == Some(t);
    ExecAppend(step, s, before, acts);
    assert Exec(step, s, before + acts) == Exec(step, t, acts);
  }

  lemma LeadsOneOn<S(!new), A(!new)>(step: (S, A) -> Option<S>, s: S, t: S, a: A)
    requires Leads(step, s, t) && step(t, a).Some?
    ensures Leads(step, s, step(t, a).value)
  {
    ExecOne(step, t, a);
    LeadsOn(step, s, t, [a]);
  }

  /** The thread that action a belongs to gets a turn, which has no effect while it is blocked. */
  function Turn<S, A>(step: (S, A) -> Option<S>, s: S, a: A): S {
    match step(s, a)
    case None => s
    case Some(t) => t
  }

  /** The state after every action of a schedule has had its turn. */
  function Driven<S, A>(step: (S, A) -> Option<S>, s: S, schedule: seq<A>): S {
    if schedule == [] then s
    else Turn(step, Driven(step, s, schedule[..|schedule| - 1]), schedule[|schedule| - 1])
  }

  /** How many of the turns had an effect. */
  function Moves<S, A>(step: (S, A) -> Option<S>, s: S, schedule: seq<A>): nat {
    if schedule == [] then 0
    else
      var before := schedule[..|schedule| - 1];
      Moves(step, s, before) + if step(Driven(step, s, before), schedule[|schedule| - 1]).Some? then 1 else 0
  }

  lemma DrivenNext<S, A>(step: (S, A) -> Option<S>, s: S, schedule: seq<A>, k: nat)
    requires k < |schedule|
    ensures Driven(step, s, schedule[..k + 1]) == Turn(step, Driven(step, s, schedule[..k]), schedule[k])
    ensures Moves(step, s, schedule[..k + 1]) == Moves(step, s, schedule[..k]) +
            if step(Driven(step, s, schedule[..k]), schedule[k]).Some? then 1 else 0
  {
    assert schedule[..k + 1][..k] == schedule[..k];
  }

  /** The turns that had an effect are a run. */
  lemma {:induction false} DrivenRun<S, A>(step: (S, A) -> Option<S>, s: S, schedule: seq<A>) returns (acts: seq<A>)
    ensures Exec(step, s, acts) == Some(Driven(step, s, schedule)) && |acts| == Moves(step, s, schedule)
  {
    if schedule == [] {
      acts := [];
    } else {
      var (before, a) := (schedule[..|schedule| - 1], schedule[|schedule| - 1]);
      acts := DrivenRun(step, s, before);
      if step(Driven(step, s, before), a).Some? {
        ExecAppend(step, s, acts, [a]);
        ExecOne(step, Driven(step, s, before), a);
        acts := acts + [a];
      }
    }
  }

  lemma DrivenLeads<S(!new), A(!new)>(step: (S, A) -> Option<S>, s: S, schedule: seq<A>)
    ensures Leads(step, s, Driven(step, s, schedule))
  {
    var acts := DrivenRun(step, s, schedule);
  }

  /** And every run is the drive of a schedule: the run itself. */
  lemma {:induction false} RunIsDriven<S, A>(step: (S, A) -> Option<S>, s: S, acts: seq<A>)
    requires Exec(step, s, acts).Some?
    ensures Driven(step, s, acts) == Exec(step, s, acts).value && Moves(step, s, acts) == |acts|
  {
    if acts != [] {
      var (before, a) := (acts[..|acts| - 1], acts[|acts| - 1]);
      assert acts == before + [a];
      ExecPrefix(step, s, before, [a]);
      ExecAppend(step, s, before, [a]);
      ExecOne(step, Exec(step, s, before).value, a);
      RunIsDriven(step, s, before);
    }
  }

  lemma {:induction false} ExecPrefix<S, A>(step: (S, A) -> Option<S>, s: S, xs: seq<A>, ys: seq<A>)
    requires Exec(step, s, xs + ys).Some?
    ensures Exec(step, s, xs).Some?
  {
    if xs != [] {
      assert (xs + ys)[1..] == xs[1..] + ys;
      ExecPrefix(step, step(s, xs[0]).value, xs[1..], ys);
    }
  }

  lemma {:induction false} KeepsInvariant<S(!new), A(!new)>(step: (S, A) -> Option<S>, inv: S -> bool, s: S, acts: seq<A>)
    requires inv(s)
    requires forall t, a :: inv(t) && step(t, a).Some? ==> inv(step(t, a).value)
    ensures Exec(step, s, acts).Some? ==> inv(Exec(step, s, acts).value)
  {
    if acts != [] && step(s, acts[0]).Some? {
      KeepsInvariant(step, inv, step(s, acts[0]).value, acts[1..]);
    }
  }

  /** What a schedule earns in all, when action a taken in state t earns gain(t, a). */
  function Gained<S, A>(step: (S, A) -> Option<S>, gain: (S, A) -> int, s: S, acts: seq<A>): int
  {
    if acts == [] then 0
    else match step(s, acts[0])
      case None => 0
      case Some(t) => gain(s, acts[0]) + Gained(step, gain, t, acts[1..])
  }

  /** A potential to which every step adds at least its gain bounds the gain of every schedule from above. */
  lemma {:induction false} GainBounded<S(!new), A(!new)>(
    step: (S, A) -> Option<S>, inv: S -> bool, potential: S -> int, gain: (S, A) -> int, s: S, acts: seq<A>)
    requires inv(s)
    requires forall t, a :: inv(t) && step(t, a).Some? ==> inv(step(t, a).value)
    requires forall t, a :: inv(t) && step(t, a).Some? ==> potential(t) + gain(t, a) <= potential(step(t, a).value)
    ensures Exec(step, s, acts).Some? ==>
              potential(s) + Gained(step, gain, s, acts) <= potential(Exec(step, s, acts).value)
  {
    if acts != [] && step(s, acts[0]).Some? {
      GainBounded(step, inv, potential, gain, step(s, acts[0]).value, acts[1..]);
    }
  }

  /** Action a is allowed, keeps the invariant, and brings the system closer to some end. */
  ghost predicate Advances<S(!new), A(!new)>(
    step: (S, A) -> Option<S>, keep: S -> bool, allowed: A -> bool, distance: S -> int, s: S, a: A)
  {
    allowed(a) && step(s, a).Some? && keep(step(s, a).value) && 0 <= distance(step(s, a).value) < distance(s)
  }

  ghost predicate CanAdvance<S(!new), A(!new)>(
    step: (S, A) -> Option<S>, keep: S -> bool, allowed: A -> bool, distance: S -> int, s: S)
  {
    exists a :: Advances(step, keep, allowed, distance, s, a)
  }

  /** When some allowed action advances wherever a system may not stop, some allowed run leads to where it may. */
  lemma {:induction false} CanReach<S(!new), A(!new)>(
    step: (S, A) -> Option<S>, keep: S -> bool, stop: S -> bool, allowed: A -> bool, distance: S -> int, s: S)
    returns (acts: seq<A>)
    requires keep(s)
    requires forall t :: keep(t) && !stop(t) ==> CanAdvance(step, keep, allowed, distance, t)
    ensures Exec(step, s, acts).Some? && keep(Exec(step, s, acts).value) && stop(Exec(step, s, acts).value)
    ensures forall i :: 0 <= i < |acts| ==> allowed(acts[i])
    decreases distance(s)
  {
    if stop(s) {
      acts := [];
    } else {
      var a :| Advances(step, keep, allowed, distance, s, a);
      var rest := CanReach(step, keep, stop, allowed, distance, step(s, a).value);
      acts := [a] + rest;
      assert acts[1..] == rest;
    }
  }

  /** The actions of a schedule that a coarser system sees. */
  function Visible<A, B>(seen: A -> Option<B>, acts: seq<A>): seq<B> {
    if acts == [] then []
    else (if seen(acts[0]).Some? then [seen(acts[0]).value] else []) + Visible(seen, acts[1..])
  }

  /** A system whose steps are steps of a coarser one, or invisible to it, has only runs of the coarser one. */
  lemma {:induction false} ProjectedRun<S(!new), T(!new), A(!new), B(!new)>(
    step: (S, A) -> Option<S>, coarse: (T, B) -> Option<T>, view: S -> T, seen: A -> Option<B>, s: S, acts: seq<A>)
    requires forall t, a :: step(t, a).Some? ==>
               if seen(a).Some? then coarse(view(t), seen(a).value) == Some(view(step(t, a).value))
               else view(step(t, a).value) == view(t)
    requires Exec(step, s, acts).Some?
    ensures Exec(coarse, view(s), Visible(seen, acts)) == Some(view(Exec(step, s, acts).value))
  {
    if acts != [] {
      ProjectedRun(step, coarse, view, seen, step(s, acts[0]).value, acts[1..]);
      var rest := Visible(seen, acts[1..]);
      if seen(acts[0]).Some? {
        assert Visible(seen, acts)[1..] == rest;
      } else {
        assert Visible(seen, acts) == rest;
      }
    }
  }
}
