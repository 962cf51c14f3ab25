/** The row-major walk over a search rectangle (AreaIterator) and its cutting
    into checkpoint-sized batches (SubAreaIterator). The walk is specified by
    an index formula, `GridPoint`, and the iterator classes are proved to
    produce exactly that sequence. */
module AreaIteration {
  import opened Wrappers
  import opened Domain
  import ProcessFactory

  /** Number of grid latitudes (points per column). */
  function LatitudeCount(area: AreaCoordinate, step: real): int
    requires step > 0.0
  {
    ProcessFactory.AxisPointCount(area.leftBottom.latitude, area.rightUpper.latitude, step)
  }

  /** Number of grid longitudes (columns). */
  function LongitudeCount(area: AreaCoordinate, step: real): int
    requires step > 0.0
  {
    ProcessFactory.AxisPointCount(area.leftBottom.longitude, area.rightUpper.longitude, step)
  }

  /** Number of points of the walk; it is the declared total of a process
      created for the same rectangle and step. */
  function GridSize(area: AreaCoordinate, step: real): (r: nat)
    requires IsOrdered(area) && step > 0.0
    ensures r >= 1
  {
    ProcessFactory.TotalPoints(area, step)
  }

  /** The k-th point of the walk: latitude advances fastest, so point k sits
      on latitude row k % n and longitude column k / n. */
  function GridPoint(area: AreaCoordinate, step: real, k: nat): Coordinate
    requires IsOrdered(area) && step > 0.0
  {
    var n := LatitudeCount(area, step);
    Coordinate(area.leftBottom.latitude + (k % n) as real * step,
               area.leftBottom.longitude + (k / n) as real * step)
  }

  /** The whole walk. */
  function Grid(area: AreaCoordinate, step: real): (g: seq<Coordinate>)
    requires IsOrdered(area) && step > 0.0
    ensures |g| == GridSize(area, step)
  {
    seq(GridSize(area, step), k requires 0 <= k < GridSize(area, step) => GridPoint(area, step, k))
  }

  /** The k-th point of the walk is the k-th grid point. */
  lemma {:induction false} GridAt(area: AreaCoordinate, step: real, k: int)
    requires IsOrdered(area) && step > 0.0 && 0 <= k < GridSize(area, step)
    ensures Grid(area, step)[k] == GridPoint(area, step, k)
  {
  }

  /** `p` lies inside the rectangle, edges included. */
  predicate Inside(area: AreaCoordinate, p: Coordinate) {
    && area.leftBottom.latitude <= p.latitude <= area.rightUpper.latitude
    && area.leftBottom.longitude <= p.longitude <= area.rightUpper.longitude
  }

  /** The walk starts at the lower-left corner. */
  lemma {:induction false} GridStart(area: AreaCoordinate, step: real)
    requires IsOrdered(area) && step > 0.0
    ensures GridPoint(area, step, 0) == area.leftBottom
  {
    var n := LatitudeCount(area, step);
    DivModUnique(0, n, 0, 0);
  }

  /** Every point of the walk lies in the rectangle. */
  lemma {:induction false} GridInsideArea(area: AreaCoordinate, step: real, k: nat)
    requires IsOrdered(area) && step > 0.0 && k < GridSize(area, step)
    ensures Inside(area, GridPoint(area, step, k))
  {
    var n, m := LatitudeCount(area, step), LongitudeCount(area, step);
    assert GridPoint(area, step, k) == Coordinate(area.leftBottom.latitude + (k % n) as real * step,
                                                  area.leftBottom.longitude + (k / n) as real * step);
    assert k < n * m;
    IndexInside(area, step, n, m, k);
  }

  /** Point k < n * m of an n-by-m walk lies in the rectangle. */
  lemma {:induction false} IndexInside(area: AreaCoordinate, step: real, n: int, m: int, k: nat)
    requires step > 0.0 && n >= 1 && k < n * m
    requires (n - 1) as real * step <= area.rightUpper.latitude - area.leftBottom.latitude
    requires (m - 1) as real * step <= area.rightUpper.longitude - area.leftBottom.longitude
    ensures Inside(area, Coordinate(area.leftBottom.latitude + (k % n) as real * step,
                                    area.leftBottom.longitude + (k / n) as real * step))
  {
    GridIndex(k, n, m);
    CellInside(area, step, n, m, k % n, k / n,
               Coordinate(area.leftBottom.latitude + (k % n) as real * step,
                          area.leftBottom.longitude + (k / n) as real * step));
  }

  /** The point on row i < n of column j < m lies in the rectangle. */
  lemma {:induction false} CellInside(area: AreaCoordinate, step: real, n: int, m: int, i: int, j: int, p: Coordinate)
    requires step > 0.0 && 0 <= i < n && 0 <= j < m
    requires (n - 1) as real * step <= area.rightUpper.latitude - area.leftBottom.latitude
    requires (m - 1) as real * step <= area.rightUpper.longitude - area.leftBottom.longitude
    requires p == Coordinate(area.leftBottom.latitude + i as real * step, area.leftBottom.longitude + j as real * step)
    ensures Inside(area, p)
  {
    AxisWithin(area.leftBottom.latitude, area.rightUpper.latitude, step, n, i);
    AxisWithin(area.leftBottom.longitude, area.rightUpper.longitude, step, m, j);
  }

  /** Point k of an n-by-m walk sits on row k % n < n of column k / n < m. */
  lemma {:induction false} GridIndex(k: int, n: int, m: int)
    requires n >= 1 && 0 <= k < n * m
    ensures 0 <= k % n < n && 0 <= k / n < m
  {
    DivMod(k, n);
    ColumnBound(k, n, m);
  }

  /** The i-th of n axis points lies between the axis bounds. */
  lemma {:induction false} AxisWithin(low: real, high: real, step: real, n: int, i: int)
    requires step > 0.0 && 0 <= i < n
    requires (n - 1) as real * step <= high - low
    ensures low <= low + i as real * step <= high
  {
    assert i as real * step <= (n - 1) as real * step;
  }

  /** From the i-th of n axis points, one more step stays within the upper
      bound exactly when i + 1 < n. */
  lemma {:induction false} AxisAdvance(low: real, high: real, step: real, n: int, i: int)
    requires step > 0.0
    requires (n - 1) as real * step <= high - low < n as real * step
    ensures (low + i as real * step) + step <= high <==> i + 1 < n
  {
    assert (low + i as real * step) + step == low + (i + 1) as real * step;
    StepsWithin(i + 1, n, step, high - low);
  }

  /** No point of the walk is visited twice. */
  lemma {:induction false} GridPointsDistinct(area: AreaCoordinate, step: real, k: nat, l: nat)
    requires IsOrdered(area) && step > 0.0 && k < l
    ensures GridPoint(area, step, k) != GridPoint(area, step, l)
  {
    var n := LatitudeCount(area, step);
    assert n >= 1;
    CellsDistinct(area.leftBottom.latitude, area.leftBottom.longitude, step, n, k, l);
  }

  /** Distinct indices of a walk with n rows give distinct points. */
  lemma {:induction false} CellsDistinct(lat: real, lon: real, step: real, n: int, k: nat, l: nat)
    requires step > 0.0 && n >= 1 && k < l
    ensures Coordinate(lat + (k % n) as real * step, lon + (k / n) as real * step)
            != Coordinate(lat + (l % n) as real * step, lon + (l / n) as real * step)
  {
    DivMod(k, n);
    DivMod(l, n);
    if k % n == l % n && k / n == l / n {
      assert false;
    }
    if k % n != l % n {
      DistinctSteps(k % n, l % n, step);
    } else {
      DistinctSteps(k / n, l / n, step);
    }
  }

  lemma {:induction false} DistinctSteps(a: int, b: int, step: real)
    requires a != b && step > 0.0
    ensures a as real * step != b as real * step
  {
    if a < b {
      assert (b - a) as real * step > 0.0;
    } else {
      assert (a - b) as real * step > 0.0;
    }
  }

  lemma {:induction false} NonNegativeSteps(a: nat, step: real)
    requires step > 0.0
    ensures a as real * step >= 0.0
  {
  }

  /** a steps fit in an extent that holds n points exactly when a < n. */
  lemma {:induction false} StepsWithin(a: int, n: int, step: real, extent: real)
    requires step > 0.0
    requires (n - 1) as real * step <= extent < n as real * step
    ensures a as real * step <= extent <==> a < n
  {
    if a < n {
      assert (a as real) * step <= (n - 1) as real * step;
    } else {
      assert (a as real) * step >= n as real * step;
    }
  }

  lemma {:induction false} DivMod(k: int, n: int)
    requires n >= 1 && k >= 0
    ensures k == (k / n) * n + k % n && 0 <= k % n < n && k / n >= 0
  {
  }

  /** Euclidean division is unique. */
  lemma {:induction false} DivModUnique(k: int, n: int, i: int, j: int)
    requires n >= 1 && 0 <= i < n && k == j * n + i
    ensures k / n == j && k % n == i
  {
    var q, r := k / n, k % n;
    assert k == q * n + r && 0 <= r < n;
    if q < j {
      ProcessFactory.MultiplyIntMonotone(q + 1, j, n);
      assert false;
    }
    if q > j {
      ProcessFactory.MultiplyIntMonotone(j + 1, q, n);
      assert false;
    }
  }

  lemma {:induction false} ColumnBound(k: int, n: int, m: int)
    requires n >= 1 && 0 <= k < n * m
    ensures k / n < m
  {
    DivMod(k, n);
    if k / n >= m {
      ProcessFactory.MultiplyIntMonotone(m, k / n, n);
      assert false;
    }
  }

  /** Point k + 1 exists exactly when point k can move one row up or one
      column right. */
  lemma {:induction false} SuccessorExists(k: int, n: int, m: int)
    requires n >= 1 && m >= 1 && 0 <= k < n * m
    ensures k + 1 < n * m <==> (k % n + 1 < n || k / n + 1 < m)
  {
    DivMod(k, n);
    ColumnBound(k, n, m);
    var i, j := k % n, k / n;
    if i + 1 < n {
      ProcessFactory.MultiplyIntMonotone(j + 1, m, n);
    } else if j + 1 < m {
      ProcessFactory.MultiplyIntMonotone(j + 2, m, n);
    } else {
      assert k + 1 == m * n;
    }
  }

  /** The point after k is one row up in the same column, or the bottom of
      the next column. */
  lemma {:induction false} Successor(area: AreaCoordinate, step: real, k: nat)
    requires IsOrdered(area) && step > 0.0
    ensures var n, p, q := LatitudeCount(area, step), GridPoint(area, step, k), GridPoint(area, step, k + 1);
            if k % n + 1 < n
            then q == Coordinate(p.latitude + step, p.longitude)
            else q == Coordinate(area.leftBottom.latitude, p.longitude + step)
  {
    var n := LatitudeCount(area, step);
    NextIndex(k, n);
    var i, j := k % n, k / n;
    if i + 1 < n {
      OneMoreStep(i, step);
    } else {
      OneMoreStep(j, step);
    }
  }

  /** Row and column of index k + 1 from those of k. */
  lemma {:induction false} NextIndex(k: int, n: int)
    requires n >= 1 && k >= 0
    ensures k % n + 1 < n ==> (k + 1) % n == k % n + 1 && (k + 1) / n == k / n
    ensures k % n + 1 >= n ==> (k + 1) % n == 0 && (k + 1) / n == k / n + 1
  {
    DivMod(k, n);
    if k % n + 1 < n {
      DivModUnique(k + 1, n, k % n + 1, k / n);
    } else {
      DivModUnique(k + 1, n, 0, k / n + 1);
    }
  }

  lemma {:induction false} OneMoreStep(i: int, step: real)
    ensures (i + 1) as real * step == i as real * step + step
  {
  }

  /** From row i of column j of an n-by-m walk, the latitude can advance
      exactly when i is not the top row, and the longitude exactly when j is
      not the last column. */
  lemma {:induction false} WalkAdvance(low: Coordinate, high: Coordinate, step: real, n: int, m: int, i: int, j: int, current: Coordinate)
    requires step > 0.0
    requires (n - 1) as real * step <= high.latitude - low.latitude < n as real * step
    requires (m - 1) as real * step <= high.longitude - low.longitude < m as real * step
    requires current == Coordinate(low.latitude + i as real * step, low.longitude + j as real * step)
    ensures current.latitude + step <= high.latitude <==> i + 1 < n
    ensures current.longitude + step <= high.longitude <==> j + 1 < m
  {
    AxisAdvance(low.latitude, high.latitude, step, n, i);
    AxisAdvance(low.longitude, high.longitude, step, m, j);
  }

  /** From point k, the latitude can advance exactly when k is not on the
      top row, and some axis can advance exactly when k is not the last
      point of the walk. */
  lemma {:induction false} AdvanceAt(area: AreaCoordinate, step: real, k: nat)
    requires IsOrdered(area) && step > 0.0 && k < GridSize(area, step)
    ensures var n, p := LatitudeCount(area, step), GridPoint(area, step, k);
            && (p.latitude + step <= area.rightUpper.latitude <==> k % n + 1 < n)
            && (p.latitude + step <= area.rightUpper.latitude || p.longitude + step <= area.rightUpper.longitude
                <==> k + 1 < GridSize(area, step))
  {
    var n, m := LatitudeCount(area, step), LongitudeCount(area, step);
    var i, j := k % n, k / n;
    var p := GridPoint(area, step, k);
    assert (p.latitude + step <= area.rightUpper.latitude <==> i + 1 < n)
           && (p.longitude + step <= area.rightUpper.longitude <==> j + 1 < m) by {
      assert p == Coordinate(area.leftBottom.latitude + i as real * step, area.leftBottom.longitude + j as real * step);
      WalkAdvance(area.leftBottom, area.rightUpper, step, n, m, i, j, p);
    }
    assert k + 1 < n * m <==> i + 1 < n || j + 1 < m by {
      GridIndex(k, n, m);
      SuccessorExists(k, n, m);
    }
  }

  /** Thrown by next() when the walk is exhausted. */
  datatype IterationError = NoSuchElement

  /** Walks the rectangle: starting one step below the lower-left latitude,
      next() moves up by one step while that stays at or below the upper
      latitude, and otherwise returns to the lower latitude one step to the
      right. */
  class AreaIterator {
    const areaCoordinate: AreaCoordinate
    const searchStep: real
    var current: Coordinate
    /** How many coordinates next() has returned so far. */
    ghost var produced: nat

    ghost predicate Valid()
      reads this
    {
      && IsOrdered(areaCoordinate) && searchStep > 0.0
      && produced <= GridSize(areaCoordinate, searchStep)
      && current == if produced == 0 then BeforeStart() else GridPoint(areaCoordinate, searchStep, produced - 1)
    }

    ghost function BeforeStart(): Coordinate
      reads this
    {
      Coordinate(areaCoordinate.leftBottom.latitude - searchStep, areaCoordinate.leftBottom.longitude)
    }

    constructor (areaCoordinate: AreaCoordinate, searchStep: real)
      requires IsOrdered(areaCoordinate) && searchStep > 0.0
      ensures Valid() && produced == 0
      ensures this.areaCoordinate == areaCoordinate && this.searchStep == searchStep
    {
      this.areaCoordinate := areaCoordinate;
      this.searchStep := searchStep;
      this.current := Coordinate(areaCoordinate.leftBottom.latitude - searchStep,
                                 areaCoordinate.leftBottom.longitude);
      this.produced := 0;
    }

    predicate HasNextLatitude()
      reads this
    {
      current.latitude + searchStep <= areaCoordinate.rightUpper.latitude
    }

    predicate HasNextLongitude()
      reads this
    {
      current.longitude + searchStep <= areaCoordinate.rightUpper.longitude
    }

    /** Some axis can still advance: exactly when points of the walk remain. */
    predicate HasNext()
      requires Valid()
      reads this
      ensures HasNext() <==> produced < GridSize(areaCoordinate, searchStep)
    {
      HasNextState();
      HasNextLatitude() || HasNextLongitude()
    }

    lemma {:induction false} HasNextState()
      requires Valid()
      ensures HasNextLatitude() || HasNextLongitude() <==> produced < GridSize(areaCoordinate, searchStep)
      ensures produced == 0 ==> HasNextLatitude()
      ensures produced > 0 ==>
        (HasNextLatitude() <==> (produced - 1) % LatitudeCount(areaCoordinate, searchStep) + 1
                                < LatitudeCount(areaCoordinate, searchStep))
    {
      var area, step := areaCoordinate, searchStep;
      var n, m := LatitudeCount(area, step), LongitudeCount(area, step);
      assert GridSize(area, step) == n * m;
      if produced > 0 {
        AdvanceAt(area, step, produced - 1);
      }
    }

    /** The next point of the walk, or NoSuchElementException when there is
        none (the state is then unchanged). */
    method Next() returns (r: Result<Coordinate, IterationError>)
      requires Valid()
      modifies this
      ensures Valid()
      ensures old(produced) < GridSize(areaCoordinate, searchStep) ==>
        && r == Ok(GridPoint(areaCoordinate, searchStep, old(produced)))
        && produced == old(produced) + 1
      ensures old(produced) >= GridSize(areaCoordinate, searchStep) ==>
        r == Err(NoSuchElement) && produced == old(produced) && current == old(current)
    {
      HasNextState();
      ghost var k := produced;
      if produced > 0 {
        Successor(areaCoordinate, searchStep, k - 1);
      } else {
        var n := LatitudeCount(areaCoordinate, searchStep);
        DivModUnique(0, n, 0, 0);
      }
      if HasNextLatitude() {
        current := Coordinate(current.latitude + searchStep, current.longitude);
        produced := produced + 1;
        r := Ok(current);
      } else if HasNextLongitude() {
        current := Coordinate(areaCoordinate.leftBottom.latitude, current.longitude + searchStep);
        produced := produced + 1;
        r := Ok(current);
      } else {
        r := Err(NoSuchElement);
      }
    }
  }

  /** A view of at most `amountHandledPointsToSaveState` further points of a
      shared walk. */
  class SubAreaIterator {
    const areaIterator: AreaIterator
    const amountHandledPointsToSaveState: int
    var amountOfPassedPoints: int

    constructor (areaIterator: AreaIterator, amountHandledPointsToSaveState: int)
      ensures this.areaIterator == areaIterator
      ensures this.amountHandledPointsToSaveState == amountHandledPointsToSaveState
      ensures amountOfPassedPoints == 0
    {
      this.areaIterator := areaIterator;
      this.amountHandledPointsToSaveState := amountHandledPointsToSaveState;
      this.amountOfPassedPoints := 0;
    }

    /** Points remain in this batch: it is not full and the walk goes on. */
    predicate HasNext()
      requires areaIterator.Valid()
      reads this, areaIterator
      ensures HasNext() <==>
        && amountOfPassedPoints < amountHandledPointsToSaveState
        && areaIterator.produced < GridSize(areaIterator.areaCoordinate, areaIterator.searchStep)
    {
      amountOfPassedPoints < amountHandledPointsToSaveState && areaIterator.HasNext()
    }

    /** Counts the point and takes it from the shared walk. */
    method Next() returns (r: Result<Coordinate, IterationError>)
      requires areaIterator.Valid()
      modifies this, areaIterator
      ensures areaIterator.Valid()
      ensures amountOfPassedPoints == old(amountOfPassedPoints) + 1
      ensures old(areaIterator.produced) < GridSize(areaIterator.areaCoordinate, areaIterator.searchStep) ==>
        && r == Ok(GridPoint(areaIterator.areaCoordinate, areaIterator.searchStep, old(areaIterator.produced)))
        && areaIterator.produced == old(areaIterator.produced) + 1
      ensures old(areaIterator.produced) >= GridSize(areaIterator.areaCoordinate, areaIterator.searchStep) ==>
        r == Err(NoSuchElement) && areaIterator.produced == old(areaIterator.produced)
    {
      amountOfPassedPoints := amountOfPassedPoints + 1;
      r := areaIterator.Next();
    }
  }

  /** Drains a fresh batch into a list, as the run does with each batch: the
      next min(batch size, remaining) points of the walk, in order. */
  method CollectBatch(batch: SubAreaIterator) returns (coordinates: seq<Coordinate>)
    requires batch.areaIterator.Valid() && batch.amountOfPassedPoints == 0
    modifies batch, batch.areaIterator
    ensures batch.areaIterator.Valid()
    ensures var it := batch.areaIterator;
            var from := old(it.produced);
            var to := Min(from + Max(batch.amountHandledPointsToSaveState, 0), GridSize(it.areaCoordinate, it.searchStep));
            && it.produced == to
            && coordinates == Grid(it.areaCoordinate, it.searchStep)[from..to]
  {
    var it := batch.areaIterator;
    ghost var from := it.produced;
    ghost var size := GridSize(it.areaCoordinate, it.searchStep);
    ghost var grid := Grid(it.areaCoordinate, it.searchStep);
    coordinates := [];
    while batch.HasNext()
      invariant it.Valid() && size == GridSize(it.areaCoordinate, it.searchStep)
      invariant grid == Grid(it.areaCoordinate, it.searchStep)
      invariant batch.areaIterator == it
      invariant 0 <= batch.amountOfPassedPoints
      invariant it.produced == from + batch.amountOfPassedPoints <= size
      invariant batch.amountOfPassedPoints <= Max(batch.amountHandledPointsToSaveState, 0)
      invariant coordinates == grid[from..it.produced]
      decreases batch.amountHandledPointsToSaveState - batch.amountOfPassedPoints
    {
      ghost var k := it.produced;
      var next := batch.Next();
      GridAt(it.areaCoordinate, it.searchStep, k);
      coordinates := coordinates + [next.value];
    }
  }
}
