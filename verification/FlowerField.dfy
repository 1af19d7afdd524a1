/** The flower grid of the beehive simulation: neighbour positions, connectivity and the number of edges. */
module FlowerField {
  import opened Arithmetic

  const INT_MAX: nat := 0x7FFF_FFFF
  /** (size_t)-1, the mark for "no flower on that side". */
  const NO_POSITION: nat := 0xFFFF_FFFF_FFFF_FFFF

  /** A grid whose number of flowers fits an int, because the work queue stores positions as int. */
  datatype Geometry = Geometry(width: nat, height: nat) {
    function Size(): nat { width * height }

    predicate Valid() {
      width >= 1 && height >= 1 && Size() <= INT_MAX
    }
  }

  /** The flower main puts into the queue first. */
  function Start(g: Geometry): nat { g.Size() / 2 }

  /** pos % w and pos / w, counted off row by row; see ColumnAndRow. */
  function Column(w: nat, pos: nat): (x: nat)
    requires w >= 1
    ensures x < w
  {
    if pos < w then pos else Column(w, pos - w)
  }

  function Row(w: nat, pos: nat): nat
    requires w >= 1
  {
    if pos < w then 0 else Row(w, pos - w) + 1
  }

  lemma {:induction false} ColumnAndRow(w: nat, pos: nat)
    requires w >= 1
    ensures pos == Row(w, pos) * w + Column(w, pos)
    ensures Column(w, pos) == pos % w && Row(w, pos) == pos / w
    decreases pos
  {
    if pos >= w { ColumnAndRow(w, pos - w); }
    DivModUnique(w, Column(w, pos), Row(w, pos));
  }

  function Top(g: Geometry, pos: nat): nat {
    if pos >= g.width then pos - g.width else NO_POSITION
  }

  function Bottom(g: Geometry, pos: nat): nat {
    if pos + g.width < g.Size() then pos + g.width else NO_POSITION
  }

  function Left(g: Geometry, pos: nat): nat
    requires g.Valid()
  {
    if Column(g.width, pos) > 0 then pos - 1 else NO_POSITION
  }

  function Right(g: Geometry, pos: nat): nat
    requires g.Valid()
  {
    if Column(g.width, pos) < g.width - 1 then pos + 1 else NO_POSITION
  }

  function Positions(g: Geometry, pos: nat): (ps: seq<nat>)
    requires g.Valid()
    ensures |ps| == 4
  {
    [Top(g, pos), Bottom(g, pos), Left(g, pos), Right(g, pos)]
  }

  /** The flower in column x from the left and row y from the top. */
  function FlowerAt(g: Geometry, x: int, y: int): nat {
    if 0 <= x < g.width && 0 <= y < g.height then (y as nat) * g.width + x else NO_POSITION
  }

  lemma FlowerIsThere(g: Geometry, x: int, y: int)
    requires g.Valid() && 0 <= x < g.width && 0 <= y < g.height
    ensures var q := FlowerAt(g, x, y); q < g.Size() && q % g.width == x && q / g.width == y
  {
    DivModUnique(g.width, x, y);
    MultipleIsFar(g.width, g.height - y);
    MultipleIsFar(g.width, y);
    assert g.width * g.height - y * g.width == (g.height - y) * g.width;
  }

  method CalculatePositions(pos: nat, g: Geometry, result: array<nat>)
    requires g.Valid() && pos < g.Size() && result.Length == 4
    modifies result
    ensures result[..] == Positions(g, pos)
    ensures var (x, y) := (pos % g.width, pos / g.width);
            result[..] == [FlowerAt(g, x, y - 1), FlowerAt(g, x, y + 1), FlowerAt(g, x - 1, y), FlowerAt(g, x + 1, y)]
  {
    ColumnAndRow(g.width, pos);
    EntriesInCoordinates(g, pos);
    var top := if pos >= g.width then pos - g.width else NO_POSITION;
    var bottom := if pos + g.width < g.width * g.height then pos + g.width else NO_POSITION;
    var left := if pos % g.width > 0 then pos - 1 else NO_POSITION;
    var right := if pos % g.width < g.width - 1 then pos + 1 else NO_POSITION;
    result[0] := top;
    result[1] := bottom;
    result[2] := left;
    result[3] := right;
  }

  // ---------------------------------------------------------------------------
  // Positions computes exactly the 4-neighbours in the plane
  // ---------------------------------------------------------------------------

  /** Two flowers of the grid whose coordinates (pos mod width, pos div width) differ by one step. */
  predicate Adjacent(g: Geometry, p: nat, q: nat)
    requires g.Valid()
  {
    && p < g.Size()
    && q < g.Size()
    && var (dx, dy) := (q % g.width - p % g.width, q / g.width - p / g.width);
       (dx == 0 && (dy == 1 || dy == -1)) || (dy == 0 && (dx == 1 || dx == -1))
  }

  lemma {:induction false} StepRight(w: nat, p: nat)
    requires w >= 1
    ensures Column(w, p) < w - 1 ==> Column(w, p + 1) == Column(w, p) + 1 && Row(w, p + 1) == Row(w, p)
    ensures Column(w, p) == w - 1 ==> Column(w, p + 1) == 0 && Row(w, p + 1) == Row(w, p) + 1
    decreases p
  {
    if p >= w { StepRight(w, p - w); }
  }

  lemma {:induction false} RowStart(w: nat, h: nat)
    requires w >= 1
    ensures Column(w, h * w) == 0 && Row(w, h * w) == h
  {
    if h > 0 {
      assert h * w == (h - 1) * w + w;
      RowStart(w, h - 1);
    }
  }

  lemma RightStaysInside(g: Geometry, p: nat)
    requires g.Valid() && p < g.Size() && Column(g.width, p) < g.width - 1
    ensures p + 1 < g.Size()
  {
    StepRight(g.width, p);
    RowStart(g.width, g.height);
  }

  lemma SamePlace(w: nat, p: nat, q: nat)
    requires w >= 1
    ensures Column(w, p) == Column(w, q) && Row(w, p) == Row(w, q) ==> p == q
  {
    ColumnAndRow(w, p);
    ColumnAndRow(w, q);
  }

  /** The same relation in counted-off coordinates. */
  predicate OneStep(w: nat, p: nat, q: nat)
    requires w >= 1
  {
    || (Column(w, q) == Column(w, p) && (Row(w, q) == Row(w, p) + 1 || Row(w, p) == Row(w, q) + 1))
    || (Row(w, q) == Row(w, p) && (Column(w, q) == Column(w, p) + 1 || Column(w, p) == Column(w, q) + 1))
  }

  lemma ListedIsOneStep(g: Geometry, p: nat, q: nat)
    requires g.Valid() && p < g.Size() && q != NO_POSITION && q in Positions(g, p)
    ensures q < g.Size() && OneStep(g.width, p, q)
  {
    StepRight(g.width, p);
    if p >= 1 { StepRight(g.width, p - 1); }
    if Column(g.width, p) < g.width - 1 { RightStaysInside(g, p); }
  }

  lemma OneStepIsListed(g: Geometry, p: nat, q: nat)
    requires g.Valid() && p < g.Size() && q < g.Size() && OneStep(g.width, p, q)
    ensures q in Positions(g, p)
  {
    var w := g.width;
    StepRight(w, p);
    if p >= 1 { StepRight(w, p - 1); }
    SamePlace(w, q, p + 1);
    SamePlace(w, q, p + w);
    if p >= w { SamePlace(w, q, p - w); }
    if p >= 1 { SamePlace(w, q, p - 1); }
    var ps := Positions(g, p);
    assert ps[0] == q || ps[1] == q || ps[2] == q || ps[3] == q;
  }

  /** Entries that are not NO_POSITION are the in-grid 4-neighbours, all of them and nothing else. */
  lemma PositionsAreTheNeighbours(g: Geometry, p: nat, q: nat)
    requires g.Valid() && p < g.Size()
    ensures q != NO_POSITION && q in Positions(g, p) <==> Adjacent(g, p, q)
  {
    ColumnAndRow(g.width, p);
    ColumnAndRow(g.width, q);
    if q != NO_POSITION && q in Positions(g, p) { ListedIsOneStep(g, p, q); }
    if q < g.Size() && OneStep(g.width, p, q) { OneStepIsListed(g, p, q); }
  }

  /** Which entry is which: above, below, to the left and to the right. */
  lemma EntriesInCoordinates(g: Geometry, p: nat)
    requires g.Valid() && p < g.Size()
    ensures var (x, y) := (p % g.width, p / g.width);
            Positions(g, p) == [FlowerAt(g, x, y - 1), FlowerAt(g, x, y + 1), FlowerAt(g, x - 1, y), FlowerAt(g, x + 1, y)]
  {
    var w: int, x: int, y: int := g.width, Column(g.width, p), Row(g.width, p);
    ColumnAndRow(w, p);
    RowsAbove(g, p);
    hide Geometry.Size;
    assert (y - 1) * w + x == p - w && (y + 1) * w + x == p + w;
    assert y * w + (x - 1) == p - 1 && y * w + (x + 1) == p + 1;
  }

  /** The first row has nothing above it, the last row nothing below. */
  lemma RowsAbove(g: Geometry, p: nat)
    requires g.Valid() && p < g.Size()
    ensures p >= g.width <==> Row(g.width, p) > 0
    ensures p + g.width < g.Size() <==> Row(g.width, p) < g.height - 1
    ensures Row(g.width, p) < g.height
  {
    var (w, h) := (g.width, g.height);
    ColumnAndRow(w, p);
    BelowRow(w, 1, Column(w, p), Row(w, p));
    BelowRow(w, h, Column(w, p), Row(w, p));
    BelowRow(w, h - 1, Column(w, p), Row(w, p));
    assert (h - 1) * w == w * h - w;
  }

  /** The positions above row h are those before the first one of row h. */
  lemma BelowRow(w: nat, h: int, x: nat, y: nat)
    requires x < w
    ensures y * w + x < h * w <==> y < h
  {
    MultipleIsFar(w, h - y);
    assert (h - y) * w == h * w - y * w;
  }

  /** Top and bottom, left and right undo each other. */
  lemma PositionsAreMutual(g: Geometry, p: nat, i: nat)
    requires g.Valid() && p < g.Size() && i < 4 && Positions(g, p)[i] != NO_POSITION
    ensures Positions(g, p)[i] < g.Size() && Positions(g, p)[i] != p
    ensures Positions(g, Positions(g, p)[i])[if i % 2 == 0 then i + 1 else i - 1] == p
  {
    ListedIsOneStep(g, p, Positions(g, p)[i]);
    if i == 2 { StepRight(g.width, p - 1); }
    if i == 3 { StepRight(g.width, p); }
  }

  /** No neighbour is listed twice. */
  lemma PositionsAreDistinct(g: Geometry, p: nat, i: nat, j: nat)
    requires g.Valid() && p < g.Size() && i < j < 4 && Positions(g, p)[i] != NO_POSITION
    ensures Positions(g, p)[i] != Positions(g, p)[j]
  {
  }

  lemma AdjacentSymmetric(g: Geometry, p: nat, q: nat)
    requires g.Valid() && p < g.Size() && q < g.Size() && q in Positions(g, p)
    ensures p in Positions(g, q)
  {
    var i :| 0 <= i < 4 && Positions(g, p)[i] == q;
    PositionsAreMutual(g, p, i);
    assert Positions(g, q)[if i % 2 == 0 then i + 1 else i - 1] == p;
  }

  // ---------------------------------------------------------------------------
  // Connectivity
  // ---------------------------------------------------------------------------

  /** Harvesting never stops at a border inside the field: neighbours of harvested flowers are harvested. */
  ghost predicate ClosedUnderNeighbours(g: Geometry, nectar: seq<bool>)
    requires g.Valid() && |nectar| == g.Size()
  {
    forall p, q :: 0 <= p < |nectar| && !nectar[p] && 0 <= q < |nectar| && q in Positions(g, p) ==> !nectar[q]
  }

  lemma {:induction false} ReachesOrigin(g: Geometry, nectar: seq<bool>, p: nat)
    requires g.Valid() && |nectar| == g.Size() && ClosedUnderNeighbours(g, nectar)
    requires p < |nectar| && !nectar[p]
    ensures !nectar[0]
    decreases p
  {
    if p >= g.width {
      assert p - g.width in Positions(g, p) by { assert Positions(g, p)[0] == p - g.width; }
      ReachesOrigin(g, nectar, p - g.width);
    } else if p > 0 {
      assert p - 1 in Positions(g, p) by { assert Positions(g, p)[2] == p - 1; }
      ReachesOrigin(g, nectar, p - 1);
    }
  }

  lemma {:induction false} ReachedFromOrigin(g: Geometry, nectar: seq<bool>, q: nat)
    requires g.Valid() && |nectar| == g.Size() && ClosedUnderNeighbours(g, nectar)
    requires q < |nectar| && !nectar[0]
    ensures !nectar[q]
    decreases q
  {
    if q >= g.width {
      ReachedFromOrigin(g, nectar, q - g.width);
      assert q in Positions(g, q - g.width) by { assert Positions(g, q - g.width)[1] == q; }
    } else if q > 0 {
      ReachedFromOrigin(g, nectar, q - 1);
      assert q in Positions(g, q - 1) by { assert Positions(g, q - 1)[3] == q; }
    }
  }

  /** The grid is connected: a non-empty harvested region without a frontier is the whole field. */
  lemma NoFrontierMeansAll(g: Geometry, nectar: seq<bool>, p: nat)
    requires g.Valid() && |nectar| == g.Size() && ClosedUnderNeighbours(g, nectar)
    requires p < |nectar| && !nectar[p]
    ensures forall q :: 0 <= q < |nectar| ==> !nectar[q]
  {
    ReachesOrigin(g, nectar, p);
    forall q | 0 <= q < |nectar| ensures !nectar[q] {
      ReachedFromOrigin(g, nectar, q);
    }
  }

  // ---------------------------------------------------------------------------
  // Counting edges
  // ---------------------------------------------------------------------------

  function Bit(b: bool): nat { if b then 1 else 0 }

  /** Edges that leave one of the first k flowers to the right or downwards. */
  function Edges(g: Geometry, k: nat): nat
    requires g.Valid()
  {
    if k == 0 then 0
    else Edges(g, k - 1) + Bit(Right(g, k - 1) != NO_POSITION) + Bit(Bottom(g, k - 1) != NO_POSITION)
  }

  lemma {:induction false} EdgesClosedForm(g: Geometry, k: nat)
    requires g.Valid() && k <= g.Size() && g.width <= g.Size()
    ensures Edges(g, k) == k - Row(g.width, k) + (if k <= g.Size() - g.width then k else g.Size() - g.width)
  {
    if k > 0 {
      EdgesClosedForm(g, k - 1);
      StepRight(g.width, k - 1);
    }
  }

  /** A W x H grid has W(H-1) vertical and H(W-1) horizontal edges. */
  lemma EdgesOfTheGrid(g: Geometry)
    requires g.Valid()
    ensures Edges(g, g.Size()) == g.width * (g.height - 1) + g.height * (g.width - 1)
  {
    MultipleIsFar(g.width, g.height);
    EdgesClosedForm(g, g.Size());
    RowStart(g.width, g.height);
  }

  /** Of those edges, the ones with at least one harvested end. */
  function Touched(g: Geometry, nectar: seq<bool>, k: nat): nat
    requires g.Valid() && |nectar| == g.Size() && k <= |nectar|
  {
    if k == 0 then 0
    else
      Touched(g, nectar, k - 1)
      + Bit(HasEdge(nectar, k - 1, Right(g, k - 1)))
      + Bit(HasEdge(nectar, k - 1, Bottom(g, k - 1)))
  }

  /** There is an edge from p to q, and p or q has been harvested. */
  predicate HasEdge(nectar: seq<bool>, p: nat, q: nat)
    requires p < |nectar|
  {
    q < |nectar| && (!nectar[p] || !nectar[q])
  }

  lemma {:induction false} TouchedBounds(g: Geometry, nectar: seq<bool>, k: nat)
    requires g.Valid() && |nectar| == g.Size() && k <= |nectar|
    ensures Touched(g, nectar, k) <= Edges(g, k)
    ensures (forall p :: 0 <= p < |nectar| ==> nectar[p]) ==> Touched(g, nectar, k) == 0
    ensures (forall p :: 0 <= p < |nectar| ==> !nectar[p]) ==> Touched(g, nectar, k) == Edges(g, k)
  {
    if k > 0 {
      TouchedBounds(g, nectar, k - 1);
      if Column(g.width, k - 1) < g.width - 1 { RightStaysInside(g, k - 1); }
    }
  }

  predicate NectarAt(nectar: seq<bool>, q: nat) {
    q < |nectar| && nectar[q]
  }

  /** How many of the entries Positions(pos)[i..] lie in the field and still have nectar. */
  function Ripe(g: Geometry, nectar: seq<bool>, pos: nat, i: nat): nat
    requires g.Valid() && i <= 4
    decreases 4 - i
  {
    if i == 4 then 0 else Bit(NectarAt(nectar, Positions(g, pos)[i])) + Ripe(g, nectar, pos, i + 1)
  }

  lemma RightEdgeChange(g: Geometry, nectar: seq<bool>, p: nat, c: nat)
    requires g.Valid() && |nectar| == g.Size() && p < |nectar| && nectar[p] && c < |nectar|
    ensures Bit(HasEdge(nectar[p := false], c, Right(g, c))) ==
            Bit(HasEdge(nectar, c, Right(g, c)))
            + Bit(c == p && NectarAt(nectar, Right(g, p))) + Bit(c == Left(g, p) && NectarAt(nectar, c))
  {
    StepRight(g.width, c);
    if p > 0 { StepRight(g.width, p - 1); }
  }

  lemma BottomEdgeChange(g: Geometry, nectar: seq<bool>, p: nat, c: nat)
    requires g.Valid() && |nectar| == g.Size() && p < |nectar| && nectar[p] && c < |nectar|
    ensures Bit(HasEdge(nectar[p := false], c, Bottom(g, c))) ==
            Bit(HasEdge(nectar, c, Bottom(g, c)))
            + Bit(c == p && NectarAt(nectar, Bottom(g, p))) + Bit(c == Top(g, p) && NectarAt(nectar, c))
  {
  }

  lemma {:induction false} TouchedByHarvest(g: Geometry, nectar: seq<bool>, p: nat, k: nat)
    requires g.Valid() && |nectar| == g.Size() && p < |nectar| && nectar[p] && k <= |nectar|
    ensures Touched(g, nectar[p := false], k) == Touched(g, nectar, k)
              + Bit(p < k && NectarAt(nectar, Right(g, p))) + Bit(p < k && NectarAt(nectar, Bottom(g, p)))
              + Bit(Left(g, p) < k && NectarAt(nectar, Left(g, p))) + Bit(Top(g, p) < k && NectarAt(nectar, Top(g, p)))
  {
    if k > 0 {
      RightEdgeChange(g, nectar, p, k - 1);
      BottomEdgeChange(g, nectar, p, k - 1);
      hide HasEdge, Left, Right, Top, Bottom, Geometry.Size;
      TouchedByHarvest(g, nectar, p, k - 1);
    }
  }

  /** Harvesting p touches exactly as many new edges as it has neighbours with nectar. */
  lemma HarvestTouches(g: Geometry, nectar: seq<bool>, p: nat)
    requires g.Valid() && |nectar| == g.Size() && p < |nectar| && nectar[p]
    ensures Touched(g, nectar[p := false], |nectar|) == Touched(g, nectar, |nectar|) + Ripe(g, nectar, p, 0)
    ensures Ripe(g, nectar[p := false], p, 0) == Ripe(g, nectar, p, 0)
  {
    TouchedByHarvest(g, nectar, p, |nectar|);
    var after := nectar[p := false];
    forall i | 0 <= i < 4 ensures NectarAt(after, Positions(g, p)[i]) == NectarAt(nectar, Positions(g, p)[i]) {
      if Positions(g, p)[i] < |nectar| { PositionsAreMutual(g, p, i); }
    }
    UnfoldRipe(g, nectar, p);
    UnfoldRipe(g, after, p);
  }

  lemma UnfoldRipe(g: Geometry, nectar: seq<bool>, p: nat)
    requires g.Valid()
    ensures Ripe(g, nectar, p, 0) == Bit(NectarAt(nectar, Top(g, p))) + Bit(NectarAt(nectar, Bottom(g, p)))
                                     + Bit(NectarAt(nectar, Left(g, p))) + Bit(NectarAt(nectar, Right(g, p)))
  {
    assert Ripe(g, nectar, p, 4) == 0;
    assert Ripe(g, nectar, p, 2) == Bit(NectarAt(nectar, Left(g, p))) + Ripe(g, nectar, p, 3);
  }
}
