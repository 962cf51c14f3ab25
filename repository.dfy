/** The two stored tables the core reads and writes: discovery processes
    and cities. Rows are kept in storage order; every stored row has an id
    and no two rows share one. */
module Repository {
  import opened Wrappers
  import opened Domain

  /** Row `id` of the rows, with `update` applied to it; an absent id (the
      SQL comparison with null) matches no row. */
  function UpdateWhereId(rows: seq<SearchingCitiesProcess>, id: Option<nat>,
                         update: SearchingCitiesProcess -> SearchingCitiesProcess)
    : (r: seq<SearchingCitiesProcess>)
    ensures |r| == |rows|
    ensures forall i {:trigger r[i]} :: 0 <= i < |rows| ==>
      r[i] == if id.Some? && rows[i].id == id then update(rows[i]) else rows[i]
  {
    seq(|rows|, i requires 0 <= i < |rows| => if id.Some? && rows[i].id == id then update(rows[i]) else rows[i])
  }

  /** The rows after updateStatus. */
  function WithStatus(rows: seq<SearchingCitiesProcess>, id: Option<nat>, newStatus: Status)
    : seq<SearchingCitiesProcess>
  {
    UpdateWhereId(rows, id, (p: SearchingCitiesProcess) => p.(status := newStatus))
  }

  /** The rows after increaseHandledPoints. */
  function WithHandledIncreased(rows: seq<SearchingCitiesProcess>, id: Option<nat>, delta: int)
    : seq<SearchingCitiesProcess>
  {
    UpdateWhereId(rows, id, (p: SearchingCitiesProcess) => p.(handledPoints := p.handledPoints + delta))
  }

  /** updateStatus touches only the status, and only of the row with the
      id, where it becomes the new status. */
  lemma {:induction false} StatusSetOnlyOnRow(rows: seq<SearchingCitiesProcess>, id: Option<nat>, newStatus: Status, i: int)
    requires 0 <= i < |rows|
    ensures |WithStatus(rows, id, newStatus)| == |rows|
    ensures WithStatus(rows, id, newStatus)[i] == rows[i].(status := WithStatus(rows, id, newStatus)[i].status)
    ensures WithStatus(rows, id, newStatus)[i].status == if id.Some? && rows[i].id == id then newStatus else rows[i].status
  {
  }

  /** increaseHandledPoints touches only the handled count, and only of the
      row with the id, which it raises by `delta`. */
  lemma {:induction false} HandledIncreasedOnlyOnRow(rows: seq<SearchingCitiesProcess>, id: Option<nat>, delta: int, i: int)
    requires 0 <= i < |rows|
    ensures |WithHandledIncreased(rows, id, delta)| == |rows|
    ensures WithHandledIncreased(rows, id, delta)[i]
            == rows[i].(handledPoints := WithHandledIncreased(rows, id, delta)[i].handledPoints)
    ensures WithHandledIncreased(rows, id, delta)[i].handledPoints
            == rows[i].handledPoints + if id.Some? && rows[i].id == id then delta else 0
  {
  }

  /** The rows with the given status, in storage order. */
  function WhereStatus(rows: seq<SearchingCitiesProcess>, status: Status): (r: seq<SearchingCitiesProcess>)
    ensures |r| <= |rows|
    ensures forall p :: p in r ==> p in rows && p.status == status
    ensures forall p :: p in rows && p.status == status ==> p in r
  {
    if rows == [] then []
    else if rows[0].status == status then [rows[0]] + WhereStatus(rows[1..], status)
    else WhereStatus(rows[1..], status)
  }

  /** Ids are present, below the next id to hand out, and distinct. */
  ghost predicate WellKeyed(rows: seq<SearchingCitiesProcess>, nextId: nat) {
    && (forall i :: 0 <= i < |rows| ==> rows[i].id.Some? && rows[i].id.value < nextId)
    && (forall i, j :: 0 <= i < j < |rows| ==> rows[i].id != rows[j].id)
  }

  /** Changing the handled count twice is changing it once by the sum. */
  lemma {:induction false} IncreaseComposes(rows: seq<SearchingCitiesProcess>, id: Option<nat>, a: int, b: int)
    ensures WithHandledIncreased(WithHandledIncreased(rows, id, a), id, b) == WithHandledIncreased(rows, id, a + b)
  {
    var once := WithHandledIncreased(rows, id, a);
    var twice := WithHandledIncreased(once, id, b);
    var whole := WithHandledIncreased(rows, id, a + b);
    forall i | 0 <= i < |rows| ensures twice[i] == whole[i] {
    }
  }

  /** An update by id keeps ids, and so keeps the table well keyed. */
  lemma {:induction false} UpdateKeepsKeys(rows: seq<SearchingCitiesProcess>, nextId: nat, id: Option<nat>,
                        update: SearchingCitiesProcess -> SearchingCitiesProcess)
    requires WellKeyed(rows, nextId)
    requires forall p :: update(p).id == p.id
    ensures WellKeyed(UpdateWhereId(rows, id, update), nextId)
  {
  }

  /** After its status is set, the stored process is listed under that
      status, and the update changes no other row. */
  lemma {:induction false} StatusUpdateListed(rows: seq<SearchingCitiesProcess>, nextId: nat, k: int, newStatus: Status)
    requires WellKeyed(rows, nextId) && 0 <= k < |rows|
    ensures var updated := WithStatus(rows, rows[k].id, newStatus);
            && updated[k] == rows[k].(status := newStatus)
            && updated[k] in WhereStatus(updated, newStatus)
            && forall i :: 0 <= i < |rows| && i != k ==> updated[i] == rows[i]
  {
    var updated := WithStatus(rows, rows[k].id, newStatus);
    assert updated[k] in updated;
  }

  /** The page of a listing: page `pageNumber` of size `pageSize`, which the
      page request refuses when the number is negative or the size below
      one. */
  function Page<T>(items: seq<T>, pageNumber: int, pageSize: int): (r: Result<seq<T>, string>)
    ensures r.Ok? <==> pageNumber >= 0 && pageSize >= 1
    ensures r.Ok? ==> |r.value| <= pageSize
    ensures r.Ok? ==> forall k :: 0 <= k < |r.value| ==>
      pageNumber * pageSize + k < |items| && r.value[k] == items[pageNumber * pageSize + k]
  {
    if pageNumber < 0 then Err("Page index must not be less than zero")
    else if pageSize < 1 then Err("Page size must not be less than one")
    else
      var from := Min(pageNumber * pageSize, |items|);
      var to := Min(from + pageSize, |items|);
      Ok(items[from..to])
  }

  /** Every item is on exactly the page its position names, at the offset
      its position names. */
  lemma {:induction false} EveryItemOnItsPage<T>(items: seq<T>, pageSize: int, i: int)
    requires pageSize >= 1 && 0 <= i < |items|
    ensures var page := Page(items, i / pageSize, pageSize);
            page.Ok? && i % pageSize < |page.value| && page.value[i % pageSize] == items[i]
  {
    var n := i / pageSize;
    assert n * pageSize + i % pageSize == i;
    assert n * pageSize <= i;
  }

  /** The stored discovery processes. */
  class ProcessTable {
    var rows: seq<SearchingCitiesProcess>
    var nextId: nat

    ghost predicate Valid()
      reads this
    {
      WellKeyed(rows, nextId)
    }

    constructor ()
      ensures Valid() && rows == []
    {
      rows := [];
      nextId := 0;
    }

    /** Stores a new process under a fresh id and returns the stored copy. */
    method Save(process: SearchingCitiesProcess) returns (saved: SearchingCitiesProcess)
      requires Valid()
      modifies this
      ensures Valid()
      ensures saved == process.(id := Some(old(nextId)))
      ensures rows == old(rows) + [saved] && nextId == old(nextId) + 1
    {
      saved := process.(id := Some(nextId));
      rows := rows + [saved];
      nextId := nextId + 1;
    }

    /** Sets the status of the row with the process's id. */
    method UpdateStatus(process: SearchingCitiesProcess, newStatus: Status)
      requires Valid()
      modifies this
      ensures Valid() && nextId == old(nextId)
      ensures rows == WithStatus(old(rows), process.id, newStatus)
    {
      UpdateKeepsKeys(rows, nextId, process.id, (p: SearchingCitiesProcess) => p.(status := newStatus));
      rows := WithStatus(rows, process.id, newStatus);
    }

    /** Adds `delta` to the handled count of the row with the process's id. */
    method IncreaseHandledPoints(process: SearchingCitiesProcess, delta: int)
      requires Valid()
      modifies this
      ensures Valid() && nextId == old(nextId)
      ensures rows == WithHandledIncreased(old(rows), process.id, delta)
    {
      UpdateKeepsKeys(rows, nextId, process.id, (p: SearchingCitiesProcess) => p.(handledPoints := p.handledPoints + delta));
      rows := WithHandledIncreased(rows, process.id, delta);
    }

    /** One page of the processes with the given status. */
    function FindByStatus(status: Status, pageNumber: int, pageSize: int): (r: Result<seq<SearchingCitiesProcess>, string>)
      reads this
      ensures r.Ok? <==> pageNumber >= 0 && pageSize >= 1
      ensures r.Ok? ==> |r.value| <= pageSize
      ensures r.Ok? ==> forall p :: p in r.value ==> p in rows && p.status == status
    {
      Page(WhereStatus(rows, status), pageNumber, pageSize)
    }
  }

  /** The stored cities, with the database's spatial relations. */
  class CityTable {
    var rows: seq<City>
    var nextId: nat
    const topology: Topology

    ghost predicate Valid()
      reads this
    {
      && (forall i :: 0 <= i < |rows| ==> rows[i].id.Some? && rows[i].id.value < nextId)
      && (forall i, j :: 0 <= i < j < |rows| ==> rows[i].id != rows[j].id)
    }

    constructor (topology: Topology)
      ensures Valid() && rows == [] && this.topology == topology
    {
      rows := [];
      nextId := 0;
      this.topology := topology;
    }

    /** Some stored city's outline is spatially equal to `geometry`. */
    predicate IsExistByGeometry(geometry: Geometry): (r: bool)
      reads this
      ensures r <==> exists c :: c in rows && topology.equals(c.geometry, geometry)
    {
      exists i :: 0 <= i < |rows| && topology.equals(rows[i].geometry, geometry)
    }

    /** Stores the cities in order under consecutive fresh ids and returns
        the stored copies. */
    method SaveAll(cities: seq<City>) returns (saved: seq<City>)
      requires Valid()
      modifies this
      ensures Valid()
      ensures saved == WithIds(cities, old(nextId))
      ensures rows == old(rows) + saved && nextId == old(nextId) + |cities|
    {
      saved := [];
      var i := 0;
      while i < |cities|
        invariant 0 <= i <= |cities| && nextId == old(nextId) + i
        invariant saved == WithIds(cities[..i], old(nextId))
        invariant rows == old(rows) + saved
        invariant Valid()
      {
        var city := cities[i].(id := Some(nextId));
        assert cities[..i + 1] == cities[..i] + [cities[i]];
        WithIdsSnoc(cities[..i], cities[i], old(nextId));
        saved := saved + [city];
        rows := rows + [city];
        nextId := nextId + 1;
        i := i + 1;
      }
      assert cities[..i] == cities;
    }

    /** Each stored city's outline with its bounding box, in storage order. */
    function FindBoundingBoxesWithGeometries(): (r: seq<(Geometry, Geometry)>)
      reads this
      ensures |r| == |rows|
      ensures forall i :: 0 <= i < |r| ==> r[i] == (rows[i].boundingBox, rows[i].geometry)
    {
      BoxesAndOutlines(rows)
    }

    /** The outlines of the cities whose bounding box the line crosses. */
    function FindGeometriesWhoseBoundingBoxIntersected(line: Geometry): (r: seq<Geometry>)
      reads this
      ensures |r| <= |rows|
      ensures forall g :: g in r <==> exists c :: c in rows && topology.intersects(c.boundingBox, line) && c.geometry == g
    {
      OutlinesCrossedBy(rows, topology, line)
    }
  }

  /** Each city's bounding box with its outline, in order. */
  function BoxesAndOutlines(rows: seq<City>): (r: seq<(Geometry, Geometry)>)
    ensures |r| == |rows|
    ensures forall i {:trigger r[i]} :: 0 <= i < |r| ==> r[i] == (rows[i].boundingBox, rows[i].geometry)
  {
    seq(|rows|, i requires 0 <= i < |rows| => (rows[i].boundingBox, rows[i].geometry))
  }

  /** The outlines of the cities, among `rows`, whose bounding box the line
      crosses, in order. */
  function OutlinesCrossedBy(rows: seq<City>, topology: Topology, line: Geometry): (r: seq<Geometry>)
    ensures |r| <= |rows|
    ensures forall g :: g in r <==> exists c :: c in rows && topology.intersects(c.boundingBox, line) && c.geometry == g
  {
    if rows == [] then []
    else
      var rest := OutlinesCrossedBy(rows[1..], topology, line);
      assert forall c :: c in rows <==> c == rows[0] || c in rows[1..];
      if topology.intersects(rows[0].boundingBox, line) then [rows[0].geometry] + rest else rest
  }

  /** The cities with consecutive ids from `first`. */
  function WithIds(cities: seq<City>, first: nat): (r: seq<City>)
    ensures |r| == |cities|
    ensures forall i :: 0 <= i < |r| ==> r[i] == cities[i].(id := Some(first + i))
  {
    seq(|cities|, i requires 0 <= i < |cities| => cities[i].(id := Some(first + i)))
  }

  lemma {:induction false} WithIdsSnoc(cities: seq<City>, city: City, first: nat)
    ensures WithIds(cities + [city], first) == WithIds(cities, first) + [city.(id := Some(first + |cities|))]
  {
  }
}
