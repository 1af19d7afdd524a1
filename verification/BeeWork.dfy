/** The parts of thread_func that a bee executes under the field mutex, on the field and the queue in place. */
module BeeWork {
  import opened FlowerField
  import opened Runs
  import opened Beehive
  import MyQueue

  /** The neighbours of pos from entry i on that have nectar, in the order in which they are reported. */
  function Reports(g: Geometry, nectar: seq<bool>, pos: nat, i: nat): seq<nat>
    requires g.Valid() && i <= 4
    decreases 4 - i
  {
    if i == 4 then []
    else (if NectarAt(nectar, Positions(g, pos)[i]) then [Positions(g, pos)[i]] else []) + Reports(g, nectar, pos, i + 1)
  }

  lemma UnfoldReports(g: Geometry, nectar: seq<bool>, pos: nat, i: nat, before: seq<int>, q: nat)
    requires g.Valid() && i < 4 && q == Positions(g, pos)[i]
    ensures before + Reports(g, nectar, pos, i)
            == (if NectarAt(nectar, q) then before + [q] else before) + Reports(g, nectar, pos, i + 1)
    ensures |Reports(g, nectar, pos, i)| == Bit(NectarAt(nectar, q)) + |Reports(g, nectar, pos, i + 1)|
  {
    var rest := Reports(g, nectar, pos, i + 1);
    var found := if NectarAt(nectar, q) then [q] else [];
    assert Reports(g, nectar, pos, i) == found + rest;
    hide Reports, Positions, NectarAt;
    assert before + (found + rest) == (before + found) + rest;
    assert before + [] == before;
  }

  /** A neighbour, if it has nectar. */
  function IfRipe(nectar: seq<bool>, q: nat): seq<nat> { if NectarAt(nectar, q) then [q] else [] }

  /** The reports in order: above, below, to the left and to the right, where there is a flower with nectar. */
  lemma ReportsInOrder(g: Geometry, nectar: seq<bool>, pos: nat)
    requires g.Valid() && |nectar| == g.Size() && pos < g.Size()
    ensures var (x, y) := (pos % g.width, pos / g.width);
            Reports(g, nectar, pos, 0) ==
            IfRipe(nectar, FlowerAt(g, x, y - 1)) + IfRipe(nectar, FlowerAt(g, x, y + 1))
            + IfRipe(nectar, FlowerAt(g, x - 1, y)) + IfRipe(nectar, FlowerAt(g, x + 1, y))
  {
    EntriesInCoordinates(g, pos);
    hide FlowerAt, Positions, IfRipe;
    FourReports(g, nectar, pos);
  }

  lemma FourReports(g: Geometry, nectar: seq<bool>, pos: nat)
    requires g.Valid()
    ensures var ps := Positions(g, pos);
            Reports(g, nectar, pos, 0) ==
            IfRipe(nectar, ps[0]) + IfRipe(nectar, ps[1]) + IfRipe(nectar, ps[2]) + IfRipe(nectar, ps[3])
  {
    var ps := Positions(g, pos);
    assert Reports(g, nectar, pos, 4) == [];
    assert Reports(g, nectar, pos, 3) == IfRipe(nectar, ps[3]);
    assert Reports(g, nectar, pos, 2) == IfRipe(nectar, ps[2]) + IfRipe(nectar, ps[3]);
    assert Reports(g, nectar, pos, 1) == IfRipe(nectar, ps[1]) + IfRipe(nectar, ps[2]) + IfRipe(nectar, ps[3]);
    hide IfRipe, Positions;
  }

  lemma ReportedInside(g: Geometry, nectar: seq<bool>, pos: nat, i: nat)
    requires g.Valid() && |nectar| == g.Size() && pos < g.Size() && i < 4
    ensures Positions(g, pos)[i] == NO_POSITION || Positions(g, pos)[i] < |nectar|
    ensures Positions(g, pos)[i] == NO_POSITION ==> !NectarAt(nectar, Positions(g, pos)[i])
  {
    if Positions(g, pos)[i] != NO_POSITION { PositionsAreMutual(g, pos, i); }
  }

  /** n operations of bee i in a row. */
  function LocalRun(c: Config, m: Memory, i: nat, b: Bee, n: nat): Option<(Memory, Bee)>
    decreases n
  {
    if n == 0 then Some((m, b))
    else match Local(c, m, i, b, false)
      case None => None
      case Some((m', b')) => LocalRun(c, m', i, b', n - 1)
  }

  lemma RunStep(c: Config, m: Memory, i: nat, b: Bee, n: nat)
    requires n >= 1 && Local(c, m, i, b, false).Some?
    ensures var (m', b') := Local(c, m, i, b, false).value;
            LocalRun(c, m, i, b, n) == LocalRun(c, m', i, b', n - 1)
  {
  }

  lemma {:induction false} ReportingRun(c: Config, m: Memory, i: nat, pos: nat, k: nat)
    requires k <= 4
    ensures var found := Reports(c.field, m.nectar, pos, k);
            LocalRun(c, m, i, Reporting(pos, k), 5 - k)
            == Some((m.(queue := m.queue + found, pushes := m.pushes + |found|), AtFieldUnlock))
    decreases 4 - k
  {
    RunStep(c, m, i, Reporting(pos, k), 5 - k);
    if k == 4 {
      assert m.queue + [] == m.queue;
    } else {
      var q := Positions(c.field, pos)[k];
      UnfoldReports(c.field, m.nectar, pos, k, m.queue, q);
      hide Positions, Reports, NectarAt, LocalRun;
      ReportingRun(c, Reported(m, q), i, pos, k + 1);
    }
  }

  /** The method Visit below does to the memory what the bee's operations in the field do one by one. */
  lemma VisitIsTheFieldSection(c: Config, m: Memory, i: nat, pos: nat)
    requires NectarAt(m.nectar, pos)
    ensures var left := m.nectar[pos := false];
            var found := Reports(c.field, left, pos, 0);
            LocalRun(c, m, i, InField(pos), 7) ==
            Some((m.(nectar := left, collected := m.collected + 1, queue := m.queue + found, pushes := m.pushes + |found|),
                  AtFieldUnlock))
  {
    var left := m.nectar[pos := false];
    ReportingRun(c, m.(nectar := left, collected := m.collected + 1), i, pos, 0);
    assert LocalRun(c, m.(nectar := left), i, Counting(pos), 6)
        == LocalRun(c, m.(nectar := left, collected := m.collected + 1), i, Reporting(pos, 0), 5);
  }

  class Hive {
    const g: Geometry
    const field: array<bool>
    const queue: MyQueue.Queue<nat>
    var collected: nat

    ghost predicate Valid()
      reads this, queue, queue.spine, field
    {
      && g.Valid()
      && field.Length == g.Size()
      && queue.Valid()
    }

    /** All flowers have nectar, and the middle of the field is in the queue. */
    constructor (g: Geometry)
      requires g.Valid()
      ensures Valid() && this.g == g
      ensures field[..] == seq(g.Size(), _ => true) && queue.Contents() == [g.width * g.height / 2] && collected == 0
      ensures fresh(field) && fresh(queue) && fresh(queue.Entries())
    {
      this.g := g;
      field := new bool[g.Size()](_ => true);
      var q := new MyQueue.Queue<nat>();
      q.Push(g.width * g.height / 2);
      queue := q;
      collected := 0;
    }

    /** One turn of the loop below: report the flower at q if there is one and it has nectar. */
    method ReportOne(q: nat)
      requires Valid() && (q == NO_POSITION || q < g.Size())
      modifies queue, queue.Entries()
      ensures Valid() && fresh(queue.Entries() - old(queue.Entries()))
      ensures queue.Contents() == if NectarAt(field[..], q) then old(queue.Contents()) + [q] else old(queue.Contents())
    {
      if q != NO_POSITION {
        if field[q] {
          queue.Push(q);
        }
      }
    }

    /** The same, as a step of the list of all reports. */
    method ReportNeighbour(pos: nat, i: nat, q: nat)
      requires Valid() && pos < g.Size() && i < 4 && q == Positions(g, pos)[i]
      modifies queue, queue.Entries()
      ensures Valid() && fresh(queue.Entries() - old(queue.Entries())) && field[..] == old(field[..])
      ensures queue.Contents() + Reports(g, field[..], pos, i + 1) == old(queue.Contents()) + Reports(g, field[..], pos, i)
    {
      UnfoldReports(g, field[..], pos, i, queue.Contents(), q);
      ReportedInside(g, field[..], pos, i);
      hide Reports, Positions, NectarAt;
      ReportOne(q);
    }

    method CheckNearbyFlowers(pos: nat)
      requires Valid() && pos < g.Size()
      modifies queue, queue.Entries()
      ensures Valid() && fresh(queue.Entries() - old(queue.Entries()))
      ensures field[..] == old(field[..])
      ensures queue.Contents() == old(queue.Contents()) + Reports(g, field[..], pos, 0)
      ensures var (x, y) := (pos % g.width, pos / g.width);
              queue.Contents() == old(queue.Contents())
              + IfRipe(field[..], FlowerAt(g, x, y - 1)) + IfRipe(field[..], FlowerAt(g, x, y + 1))
              + IfRipe(field[..], FlowerAt(g, x - 1, y)) + IfRipe(field[..], FlowerAt(g, x + 1, y))
    {
      hide FlowerAt, IfRipe, Reports, Geometry.Size;
      ghost var nectar := field[..];
      ghost var listed := queue.Contents();
      ReportsInOrder(g, nectar, pos);
      ReportNeighbours(pos);
      assert queue.Contents() == listed + Reports(g, nectar, pos, 0);
    }

    /** The loop. */
    method ReportNeighbours(pos: nat)
      requires Valid() && pos < g.Size()
      modifies queue, queue.Entries()
      ensures Valid() && fresh(queue.Entries() - old(queue.Entries()))
      ensures field[..] == old(field[..])
      ensures queue.Contents() == old(queue.Contents()) + Reports(g, field[..], pos, 0)
    {
      var positions := new nat[4];
      CalculatePositions(pos, g, positions);
      assert queue.Contents() + [] == queue.Contents();
      hide Positions;
      var i := 0;
      while i < 4
        invariant i <= 4 && Valid() && positions[..] == Positions(g, pos) && field[..] == old(field[..])
        invariant fresh(queue.Entries() - old(queue.Entries()))
        invariant queue.Contents() + Reports(g, field[..], pos, i) == old(queue.Contents()) + Reports(g, field[..], pos, 0)
      {
        ReportNeighbour(pos, i, positions[i]);
        i := i + 1;
      }
    }

    /** What a bee does at a flower, between locking and unlocking field_mutex. */
    method Visit(pos: nat)
      requires Valid() && pos < g.Size()
      modifies this, field, queue, queue.Entries()
      ensures Valid() && fresh(queue.Entries() - old(queue.Entries()))
      ensures field[..] == old(field[..])[pos := false]
      ensures collected == old(collected) + Bit(old(field[pos]))
      ensures queue.Contents() == old(queue.Contents()) + if old(field[pos]) then Reports(g, field[..], pos, 0) else []
    {
      hide Reports, Geometry.Size;
      if field[pos] {
        field[pos] := false;
        collected := collected + 1;
        CheckNearbyFlowers(pos);
      }
    }
  }
}
