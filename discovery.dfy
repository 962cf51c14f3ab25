/** A discovery run: the rectangle's grid is walked in checkpoint-sized
    batches, each batch is searched for cities, progress is recorded after
    each batch, and at the end the cities, one per name, are stored. */
module Discovery {
  import opened Wrappers
  import opened Domain
  import ProcessFactory
  import opened AreaIteration
  import opened ReverseMapping
  import opened SearchCity
  import opened Repository
  import opened EventHandling

  /** The names of the cities. */
  function Names(cities: seq<City>): set<string> {
    set c | c in cities :: c.name
  }

  /** The cities, in order, whose name is not in `seen` and not carried by an
      earlier city: the first city of each new name. */
  function DedupFrom(cities: seq<City>, seen: set<string>): (r: seq<City>)
    ensures |r| <= |cities|
  {
    if cities == [] then []
    else if cities[0].name in seen then DedupFrom(cities[1..], seen)
    else [cities[0]] + DedupFrom(cities[1..], seen + {cities[0].name})
  }

  lemma {:induction false} NamesConcat(xs: seq<City>, ys: seq<City>)
    ensures Names(xs + ys) == Names(xs) + Names(ys)
  {
    assert forall c :: c in xs + ys <==> c in xs || c in ys;
  }

  lemma {:induction false} NamesCons(cities: seq<City>)
    requires cities != []
    ensures Names(cities) == {cities[0].name} + Names(cities[1..])
  {
    assert forall c :: c in cities <==> c == cities[0] || c in cities[1..];
  }

  /** Filtering a concatenation is filtering the first part, then the second
      part against the names seen so far. */
  lemma {:induction false} DedupConcat(xs: seq<City>, ys: seq<City>, seen: set<string>)
    ensures DedupFrom(xs + ys, seen) == DedupFrom(xs, seen) + DedupFrom(ys, seen + Names(xs))
    decreases |xs|
  {
    if xs == [] {
      assert xs + ys == ys;
      assert Names(xs) == {};
      assert seen + Names(xs) == seen;
    } else {
      var c, tail := xs[0], xs[1..];
      assert (xs + ys)[0] == c;
      assert (xs + ys)[1..] == tail + ys;
      NamesCons(xs);
      if c.name in seen {
        DedupConcat(tail, ys, seen);
        assert seen + Names(tail) == seen + Names(xs);
      } else {
        DedupConcat(tail, ys, seen + {c.name});
        assert seen + {c.name} + Names(tail) == seen + Names(xs);
        calc {
          DedupFrom(xs + ys, seen);
          [c] + DedupFrom(tail + ys, seen + {c.name});
          [c] + (DedupFrom(tail, seen + {c.name}) + DedupFrom(ys, seen + Names(xs)));
          ([c] + DedupFrom(tail, seen + {c.name})) + DedupFrom(ys, seen + Names(xs));
        }
      }
    }
  }

  /** The kept cities come from the input and carry no name seen before. */
  lemma {:induction false} DedupFromInput(cities: seq<City>, seen: set<string>, c: City)
    requires c in DedupFrom(cities, seen)
    ensures c in cities && c.name !in seen
    decreases |cities|
  {
    var tail := cities[1..];
    if cities[0].name in seen {
      DedupFromInput(tail, seen, c);
    } else if c != cities[0] {
      DedupFromInput(tail, seen + {cities[0].name}, c);
    }
  }

  /** No two kept cities carry the same name. */
  lemma {:induction false} DedupDistinctNames(cities: seq<City>, seen: set<string>, i: int, j: int)
    requires 0 <= i < j < |DedupFrom(cities, seen)|
    ensures DedupFrom(cities, seen)[i].name != DedupFrom(cities, seen)[j].name
    decreases |cities|
  {
    var tail := cities[1..];
    if cities[0].name in seen {
      DedupDistinctNames(tail, seen, i, j);
    } else {
      var rest := DedupFrom(tail, seen + {cities[0].name});
      if i == 0 {
        DedupFromInput(tail, seen + {cities[0].name}, rest[j - 1]);
      } else {
        DedupDistinctNames(tail, seen + {cities[0].name}, i - 1, j - 1);
      }
    }
  }

  /** The kept cities carry every name of the input that was not seen. */
  lemma {:induction false} DedupNames(cities: seq<City>, seen: set<string>)
    ensures Names(DedupFrom(cities, seen)) == Names(cities) - seen
    decreases |cities|
  {
    if cities == [] {
      assert Names(cities) == {};
    } else {
      var c, tail := cities[0], cities[1..];
      NamesCons(cities);
      if c.name in seen {
        DedupNames(tail, seen);
      } else {
        var rest := DedupFrom(tail, seen + {c.name});
        DedupNames(tail, seen + {c.name});
        NamesCons([c] + rest);
        assert ([c] + rest)[1..] == rest;
      }
    }
  }

  /** The first city of every name is kept. */
  lemma {:induction false} DedupKeepsFirst(cities: seq<City>, seen: set<string>, i: int)
    requires 0 <= i < |cities| && cities[i].name !in seen
    requires forall j :: 0 <= j < i ==> cities[j].name != cities[i].name
    ensures cities[i] in DedupFrom(cities, seen)
    decreases |cities|
  {
    if i > 0 {
      var tail := cities[1..];
      assert tail[i - 1] == cities[i];
      if cities[0].name in seen {
        DedupKeepsFirst(tail, seen, i - 1);
      } else {
        DedupKeepsFirst(tail, seen + {cities[0].name}, i - 1);
      }
    }
  }

  /** One step of the filter, from position i of the input. */
  lemma {:induction false} DedupAt(cities: seq<City>, i: int, seen: set<string>)
    requires 0 <= i < |cities|
    ensures DedupFrom(cities[i..], seen)
            == if cities[i].name in seen then DedupFrom(cities[i + 1..], seen)
               else [cities[i]] + DedupFrom(cities[i + 1..], seen + {cities[i].name})
  {
    assert cities[i..][0] == cities[i];
    assert cities[i..][1..] == cities[i + 1..];
  }

  /** Adding the name of city i keeps a city exactly when its name was new. */
  lemma {:induction false} FilterStep(cities: seq<City>, i: int, seen: set<string>, kept: seq<City>, names: set<string>)
    requires 0 <= i < |cities|
    requires names == seen + Names(cities[..i])
    requires DedupFrom(cities, seen) == kept + DedupFrom(cities[i..], names)
    ensures var c := cities[i];
            var kept' := if c.name in names then kept else kept + [c];
            && names + {c.name} == seen + Names(cities[..i + 1])
            && DedupFrom(cities, seen) == kept' + DedupFrom(cities[i + 1..], names + {c.name})
  {
    var c := cities[i];
    DedupAt(cities, i, names);
    NamesSnoc(cities, i);
    if c.name in names {
      assert names + {c.name} == names;
    } else {
      assert kept + ([c] + DedupFrom(cities[i + 1..], names + {c.name}))
             == kept + [c] + DedupFrom(cities[i + 1..], names + {c.name});
    }
  }

  lemma {:induction false} NamesSnoc(cities: seq<City>, i: int)
    requires 0 <= i < |cities|
    ensures Names(cities[..i + 1]) == Names(cities[..i]) + {cities[i].name}
  {
    assert cities[..i + 1] == cities[..i] + [cities[i]];
    NamesConcat(cities[..i], [cities[i]]);
    assert Names([cities[i]]) == {cities[i].name};
  }

  /** Keeps each city whose name the set does not hold yet, adding that
      name to the set: a city is kept exactly when it is the first of its
      name. */
  method KeepFirstByName(cities: seq<City>, namesAlreadyFound: set<string>)
    returns (kept: seq<City>, names: set<string>)
    ensures kept == DedupFrom(cities, namesAlreadyFound)
    ensures names == namesAlreadyFound + Names(cities)
  {
    kept := [];
    names := namesAlreadyFound;
    var i := 0;
    while i < |cities|
      invariant 0 <= i <= |cities|
      invariant names == namesAlreadyFound + Names(cities[..i])
      invariant DedupFrom(cities, namesAlreadyFound) == kept + DedupFrom(cities[i..], names)
    {
      FilterStep(cities, i, namesAlreadyFound, kept, names);
      var added := cities[i].name !in names;
      names := names + {cities[i].name};
      if added {
        kept := kept + [cities[i]];
      }
      i := i + 1;
    }
    assert cities[..i] == cities;
  }

  /** ceil(totalPoints / batchSize): how many batches the run walks. */
  function AmountOfSubAreas(totalPoints: int, batchSize: int): (r: int)
    requires batchSize >= 1
    ensures totalPoints > 0 ==> r >= 1 && (r - 1) * batchSize < totalPoints <= r * batchSize
    ensures totalPoints <= 0 ==> r <= 0
  {
    (totalPoints + batchSize - 1) / batchSize
  }

  /** Where the batch holding point `k` of the walk starts: the points
      handled before a failure at `k` are the whole batches before it. */
  function BatchStart(k: nat, batchSize: int): (r: nat)
    requires batchSize >= 1
    ensures r <= k
    decreases k
  {
    if k < batchSize then 0 else batchSize + BatchStart(k - batchSize, batchSize)
  }

  /** A point at offset `f` inside batch `i` belongs to the batch starting at
      `i * batchSize`. */
  lemma {:induction false} BatchStartOf(i: int, batchSize: int, f: int)
    requires 0 <= i && batchSize >= 1 && 0 <= f < batchSize
    ensures i * batchSize + f >= 0 && BatchStart(i * batchSize + f, batchSize) == i * batchSize
    decreases i
  {
    if i > 0 {
      assert i * batchSize + f - batchSize == (i - 1) * batchSize + f;
      BatchStartOf(i - 1, batchSize, f);
    }
  }

  /** The batch start is the point rounded down to a multiple of the batch
      size. */
  lemma {:induction false} BatchStartRoundsDown(k: nat, batchSize: int)
    requires batchSize >= 1
    ensures BatchStart(k, batchSize) == k / batchSize * batchSize
  {
    DivModUnique(k, batchSize, k % batchSize, k / batchSize);
    BatchStartOf(k / batchSize, batchSize, k % batchSize);
  }

  /** How many grid points a run asks about: whole batches, as many as
      `AmountOfSubAreas` says, cut off where the grid ends. */
  function PointsWalked(totalPoints: int, batchSize: int, gridSize: nat): (r: nat)
    requires batchSize >= 1
    ensures r <= gridSize
  {
    Min(Max(AmountOfSubAreas(totalPoints, batchSize), 0) * batchSize, gridSize)
  }

  /** When the declared total is at least the grid's size (as for a process
      created for that rectangle and step, or with the over-counting total),
      the run asks about every grid point. */
  lemma {:induction false} WholeGridWalked(totalPoints: int, batchSize: int, gridSize: nat)
    requires batchSize >= 1 && totalPoints >= gridSize
    ensures PointsWalked(totalPoints, batchSize, gridSize) == gridSize
  {
    var nb := AmountOfSubAreas(totalPoints, batchSize);
    if totalPoints > 0 {
      assert nb * batchSize >= totalPoints;
    }
  }

  lemma {:induction false} CreatedProcessWalksWholeGrid(area: AreaCoordinate, step: real, batchSize: int)
    requires IsOrdered(area) && step > 0.0 && batchSize >= 1
    ensures var total := ProcessFactory.Create(area, step).totalPoints;
            PointsWalked(total, batchSize, GridSize(area, step)) == GridSize(area, step)
  {
    WholeGridWalked(ProcessFactory.Create(area, step).totalPoints, batchSize, GridSize(area, step));
  }

  /** The grid points a run of a process with this declared total asks
      about, in walking order. */
  function WalkedPoints(area: AreaCoordinate, step: real, totalPoints: int, batchSize: int): seq<Coordinate>
    requires IsOrdered(area) && step > 0.0 && batchSize >= 1
  {
    Grid(area, step)[..PointsWalked(totalPoints, batchSize, GridSize(area, step))]
  }

  /** The discovery service: starts processes and runs them against the
      geocoder. `requestsSent` counts the geocoder calls made so far; call
      number n gets the geocoder's n-th answer. */
  class StartingSearchingCitiesProcessService {
    const events: EventHandlingSearchCityProcessService
    const geocoder: Geocoder
    const reader: GeoJsonReader
    const amountHandledPointsToSaveState: int
    var requestsSent: nat

    ghost predicate Valid()
      reads this, events, events.processes, events.cities
    {
      events.Valid() && amountHandledPointsToSaveState >= 1
    }

    constructor (events: EventHandlingSearchCityProcessService, geocoder: Geocoder, reader: GeoJsonReader,
                 amountHandledPointsToSaveState: int)
      requires amountHandledPointsToSaveState >= 1
      ensures this.events == events && this.geocoder == geocoder && this.reader == reader
      ensures this.amountHandledPointsToSaveState == amountHandledPointsToSaveState
      ensures requestsSent == 0
    {
      this.events := events;
      this.geocoder := geocoder;
      this.reader := reader;
      this.amountHandledPointsToSaveState := amountHandledPointsToSaveState;
      this.requestsSent := 0;
    }

    /** Stores a new process for the rectangle and step, runs it to the end,
        and returns the process as first stored. Afterwards the process's
        row is settled: SUCCESS with every declared point handled, or ERROR;
        no other row changes. */
    method Start(areaCoordinate: AreaCoordinate, searchStep: real) returns (process: SearchingCitiesProcess)
      requires Valid() && IsOrdered(areaCoordinate) && searchStep > 0.0
      modifies this, events.processes, events.cities
      ensures Valid()
      ensures process == ProcessFactory.Create(areaCoordinate, searchStep).(id := Some(old(events.processes.nextId)))
      ensures |events.processes.rows| == |old(events.processes.rows)| + 1
      ensures events.processes.rows[..|old(events.processes.rows)|] == old(events.processes.rows)
      ensures var settled := events.processes.rows[|old(events.processes.rows)|];
              && settled == process.(handledPoints := settled.handledPoints, status := settled.status)
              && (settled.status == Success || settled.status == Error)
              && (settled.status == Success ==> settled.handledPoints == settled.totalPoints)
    {
      ghost var stored := events.processes.rows;
      ghost var n := events.processes.nextId;
      process := events.OnStartSearchCities(areaCoordinate, searchStep);
      ghost var sent := requestsSent;
      Run(areaCoordinate, searchStep, process);
      CreatedProcessWalksWholeGrid(areaCoordinate, searchStep, amountHandledPointsToSaveState);
      ghost var walked := Grid(areaCoordinate, searchStep);
      assert walked[..|walked|] == walked;
      ghost var search := FindByCoordinates(geocoder, reader, sent, walked);
      if search.Ok? {
        SettledRow(stored, n, process, |walked|, Success);
      } else {
        var failedAt := FirstUnanswered(geocoder, reader, sent, walked);
        var b := amountHandledPointsToSaveState;
        SettledRow(stored, n, process, BatchStart(failedAt, b), Error);
      }
    }

    /** The task of one process: the unique cities are collected and, on
        success, handed to the final event, which stores the new ones and
        marks the process SUCCESS; on failure the process is marked ERROR
        and nothing is stored. */
    method Run(areaCoordinate: AreaCoordinate, searchStep: real, process: SearchingCitiesProcess)
      requires Valid() && IsOrdered(areaCoordinate) && searchStep > 0.0
      modifies this, events.processes, events.cities
      ensures Valid()
      ensures requestsSent == old(requestsSent)
        + RequestsMade(geocoder, reader, old(requestsSent), WalkedPoints(areaCoordinate, searchStep, process.totalPoints, amountHandledPointsToSaveState))
      ensures var walked := WalkedPoints(areaCoordinate, searchStep, process.totalPoints, amountHandledPointsToSaveState);
              var search := FindByCoordinates(geocoder, reader, old(requestsSent), walked);
              search.Ok? ==>
                && events.cities.rows == old(events.cities.rows)
                     + WithIds(NotYetStored(DedupFrom(search.value, {}), old(events.cities.rows), events.cities.topology),
                               old(events.cities.nextId))
                && events.cities.nextId
                     == old(events.cities.nextId) + |NotYetStored(DedupFrom(search.value, {}), old(events.cities.rows), events.cities.topology)|
                && events.processes.rows
                     == WithStatus(WithHandledIncreased(old(events.processes.rows), process.id, |walked|), process.id, Success)
      ensures var walked := WalkedPoints(areaCoordinate, searchStep, process.totalPoints, amountHandledPointsToSaveState);
              var search := FindByCoordinates(geocoder, reader, old(requestsSent), walked);
              var failedAt := FirstUnanswered(geocoder, reader, old(requestsSent), walked);
              var b := amountHandledPointsToSaveState;
              search.Err? ==>
                && events.cities.rows == old(events.cities.rows)
                && events.cities.nextId == old(events.cities.nextId)
                && events.processes.rows
                     == WithStatus(WithHandledIncreased(old(events.processes.rows), process.id, BatchStart(failedAt, b)), process.id, Error)
    {
      var found := FindUniqueCities(areaCoordinate, searchStep, process);
      if found.Ok? {
        events.OnSuccessFindAllCities(process, found.value);
      } else {
        events.OnFailedFindAllCities(process, found.error);
      }
    }

    /** The pipeline of the task: the rounds search the walk batch by
        batch, and the found cities are filtered so that only the first
        city of each name is kept. A failing batch ends the pipeline with
        its error. */
    method FindUniqueCities(areaCoordinate: AreaCoordinate, searchStep: real, process: SearchingCitiesProcess)
      returns (found: Result<seq<City>, string>)
      requires Valid() && IsOrdered(areaCoordinate) && searchStep > 0.0
      modifies this, events.processes
      ensures Valid() && unchanged(events.cities)
      ensures events.processes.nextId == old(events.processes.nextId)
      ensures requestsSent == old(requestsSent)
        + RequestsMade(geocoder, reader, old(requestsSent), WalkedPoints(areaCoordinate, searchStep, process.totalPoints, amountHandledPointsToSaveState))
      ensures var walked := WalkedPoints(areaCoordinate, searchStep, process.totalPoints, amountHandledPointsToSaveState);
              var search := FindByCoordinates(geocoder, reader, old(requestsSent), walked);
              var failedAt := FirstUnanswered(geocoder, reader, old(requestsSent), walked);
              var b := amountHandledPointsToSaveState;
              && found.Ok? == search.Ok?
              && (search.Ok? ==> found.value == DedupFrom(search.value, {}))
              && events.processes.rows
                 == WithHandledIncreased(old(events.processes.rows), process.id,
                                         if search.Ok? then |walked| else BatchStart(failedAt, b))
    {
      var searched := SearchRounds(areaCoordinate, searchStep, process);
      if searched.Err? {
        return Err(searched.error);
      }
      var foundUniqueCities, _ := KeepFirstByName(searched.value, {});
      assert {} + Names(searched.value) == Names(searched.value);
      found := Ok(foundUniqueCities);
    }

    /** The rounds of the task: the walk is cut into batches of at most
        `amountHandledPointsToSaveState` points, and each batch is searched
        and, on success, its size is added to the process's handled count.
        The cities of all rounds are the search of the walked points; a
        failing batch ends the rounds with its error. */
    method SearchRounds(areaCoordinate: AreaCoordinate, searchStep: real, process: SearchingCitiesProcess)
      returns (found: Result<seq<City>, string>)
      requires Valid() && IsOrdered(areaCoordinate) && searchStep > 0.0
      modifies this, events.processes
      ensures Valid() && unchanged(events.cities)
      ensures events.processes.nextId == old(events.processes.nextId)
      ensures requestsSent == old(requestsSent)
        + RequestsMade(geocoder, reader, old(requestsSent), WalkedPoints(areaCoordinate, searchStep, process.totalPoints, amountHandledPointsToSaveState))
      ensures var walked := WalkedPoints(areaCoordinate, searchStep, process.totalPoints, amountHandledPointsToSaveState);
              var search := FindByCoordinates(geocoder, reader, old(requestsSent), walked);
              var failedAt := FirstUnanswered(geocoder, reader, old(requestsSent), walked);
              var b := amountHandledPointsToSaveState;
              && found.Ok? == search.Ok?
              && (search.Ok? ==> found.value == search.value)
              && events.processes.rows
                 == WithHandledIncreased(old(events.processes.rows), process.id,
                                         if search.Ok? then |walked| else BatchStart(failedAt, b))
    {
      var b := amountHandledPointsToSaveState;
      ghost var size := GridSize(areaCoordinate, searchStep);
      ghost var grid := Grid(areaCoordinate, searchStep);
      ghost var first := requestsSent;
      ghost var walkedCount := PointsWalked(process.totalPoints, b, size);
      assert WalkedPoints(areaCoordinate, searchStep, process.totalPoints, b) == grid[..walkedCount];
      var foundCities: seq<City> := [];
      var areaIterator := new AreaIterator(areaCoordinate, searchStep);
      var amountOfSubAreas := AmountOfSubAreas(process.totalPoints, b);
      var i := 0;
      IncreaseByNothing(events.processes.rows, process.id);
      while i < amountOfSubAreas
        invariant 0 <= i <= Max(amountOfSubAreas, 0)
        invariant events.Valid() && areaIterator.Valid() && unchanged(events.cities)
        invariant events.processes.nextId == old(events.processes.nextId)
        invariant areaIterator.areaCoordinate == areaCoordinate && areaIterator.searchStep == searchStep
        invariant areaIterator.produced == Min(i * b, size) <= walkedCount
        invariant FindByCoordinates(geocoder, reader, first, grid[..areaIterator.produced]) == Ok(foundCities)
        invariant requestsSent == first + areaIterator.produced
        invariant events.processes.rows == WithHandledIncreased(old(events.processes.rows), process.id, areaIterator.produced)
      {
        ghost var from := areaIterator.produced;
        BatchBounds(i, b, size, walkedCount, Max(amountOfSubAreas, 0), from, Min(from + b, size));
        var subtask := SearchRound(areaIterator, process, first, old(events.processes.rows), walkedCount, foundCities);
        if subtask.Err? {
          BatchStartOf(i, b, FirstUnanswered(geocoder, reader, first, grid[..walkedCount]) - from);
          return Err(subtask.error);
        }
        foundCities := foundCities + subtask.value;
        i := i + 1;
      }
      assert areaIterator.produced == walkedCount;
      RequestsWhenAnswered(first, grid[..walkedCount]);
      found := Ok(foundCities);
    }

    /** One round of the pipeline: the next batch of the walk is drained
        into a list and searched. Given that the walk so far was answered,
        a successful round extends that answer, the request count and the
        handled count by the batch; a failed one fails the whole walk inside
        this batch and records nothing. */
    method SearchRound(areaIterator: AreaIterator, process: SearchingCitiesProcess, ghost first: nat,
                       ghost base: seq<SearchingCitiesProcess>, ghost walkedCount: nat, foundCities: seq<City>)
      returns (subtask: Result<seq<City>, string>)
      requires Valid() && areaIterator.Valid()
      requires var grid := Grid(areaIterator.areaCoordinate, areaIterator.searchStep);
               var from := areaIterator.produced;
               && Min(from + amountHandledPointsToSaveState, |grid|) <= walkedCount <= |grid|
               && FindByCoordinates(geocoder, reader, first, grid[..from]) == Ok(foundCities)
               && requestsSent == first + from
               && events.processes.rows == WithHandledIncreased(base, process.id, from)
      modifies this, events.processes, areaIterator
      ensures Valid() && areaIterator.Valid() && unchanged(events.cities)
      ensures events.processes.nextId == old(events.processes.nextId)
      ensures var grid := Grid(areaIterator.areaCoordinate, areaIterator.searchStep);
              var from := old(areaIterator.produced);
              var to := Min(from + amountHandledPointsToSaveState, |grid|);
              && areaIterator.produced == to
              && (subtask.Ok? ==>
                    && FindByCoordinates(geocoder, reader, first, grid[..to]) == Ok(foundCities + subtask.value)
                    && requestsSent == first + to
                    && events.processes.rows == WithHandledIncreased(base, process.id, to))
              && (subtask.Err? ==>
                    var walked := grid[..walkedCount];
                    var failedAt := FirstUnanswered(geocoder, reader, first, walked);
                    && FindByCoordinates(geocoder, reader, first, walked).Err?
                    && from <= failedAt < to
                    && requestsSent == first + RequestsMade(geocoder, reader, first, walked)
                    && events.processes.rows == WithHandledIncreased(base, process.id, from))
    {
      ghost var grid := Grid(areaIterator.areaCoordinate, areaIterator.searchStep);
      ghost var from := areaIterator.produced;
      var subArea := new SubAreaIterator(areaIterator, amountHandledPointsToSaveState);
      var coordinates := CollectBatch(subArea);
      ghost var to := areaIterator.produced;
      assert to == Min(from + amountHandledPointsToSaveState, |grid|) && coordinates == grid[from..to];
      subtask := SearchBatch(process, coordinates, first, base, grid, from, to, walkedCount, foundCities);
    }

    /** The batch of points from..to of the walk is searched, given that the
        walk before it was answered with `foundCities`. */
    method SearchBatch(process: SearchingCitiesProcess, coordinates: seq<Coordinate>, ghost first: nat,
                       ghost base: seq<SearchingCitiesProcess>, ghost grid: seq<Coordinate>,
                       ghost from: nat, ghost to: nat, ghost walkedCount: nat, ghost foundCities: seq<City>)
      returns (subtask: Result<seq<City>, string>)
      requires Valid()
      requires from <= to <= walkedCount <= |grid| && coordinates == grid[from..to]
      requires FindByCoordinates(geocoder, reader, first, grid[..from]) == Ok(foundCities)
      requires requestsSent == first + from
      requires events.processes.rows == WithHandledIncreased(base, process.id, from)
      modifies this, events.processes
      ensures Valid() && unchanged(events.cities)
      ensures events.processes.nextId == old(events.processes.nextId)
      ensures subtask.Ok? ==>
                && FindByCoordinates(geocoder, reader, first, grid[..to]) == Ok(foundCities + subtask.value)
                && requestsSent == first + to
                && events.processes.rows == WithHandledIncreased(base, process.id, to)
      ensures subtask.Err? ==>
                var walked := grid[..walkedCount];
                && FindByCoordinates(geocoder, reader, first, walked).Err?
                && from <= FirstUnanswered(geocoder, reader, first, walked) < to
                && requestsSent == first + RequestsMade(geocoder, reader, first, walked)
                && events.processes.rows == WithHandledIncreased(base, process.id, from)
    {
      RoundOutcome(first, grid, from, to, walkedCount, foundCities);
      subtask := Execute(process, coordinates);
      if subtask.Ok? {
        IncreaseTo(base, process.id, from, |coordinates|, to, old(events.processes.rows), events.processes.rows);
      }
    }

    /** One batch: its points are searched; on success the process's
        handled count grows by the batch's size, on failure the failure is
        logged and nothing is recorded. */
    method Execute(process: SearchingCitiesProcess, coordinates: seq<Coordinate>)
      returns (r: Result<seq<City>, string>)
      requires Valid()
      modifies this, events.processes
      ensures Valid() && unchanged(events.cities)
      ensures r == FindByCoordinates(geocoder, reader, old(requestsSent), coordinates)
      ensures requestsSent == old(requestsSent) + RequestsMade(geocoder, reader, old(requestsSent), coordinates)
      ensures events.processes.nextId == old(events.processes.nextId)
      ensures events.processes.rows
              == if r.Ok? then WithHandledIncreased(old(events.processes.rows), process.id, |coordinates|)
                 else old(events.processes.rows)
    {
      r := FindByCoordinates(geocoder, reader, requestsSent, coordinates);
      requestsSent := requestsSent + RequestsMade(geocoder, reader, requestsSent, coordinates);
      if r.Ok? {
        events.OnSuccessFindCitiesBySubtask(process, |coordinates|);
      } else {
        events.OnFailedFindCitiesBySubtask(r.error);
      }
    }

    /** What one round amounts to, whatever its batch's search returns: on
        success the walk so far is searched in full and every point of the
        batch cost one request; on failure the whole walk fails at a point
        of the batch and has cost the requests made before the batch and in
        it. */
    lemma {:induction false} RoundOutcome(first: nat, grid: seq<Coordinate>, from: nat, to: nat, walkedCount: nat, foundCities: seq<City>)
      requires from <= to <= walkedCount <= |grid|
      requires FindByCoordinates(geocoder, reader, first, grid[..from]) == Ok(foundCities)
      ensures var r := FindByCoordinates(geocoder, reader, first + from, grid[from..to]);
              var walked := grid[..walkedCount];
              && (r.Ok? ==>
                    && FindByCoordinates(geocoder, reader, first, grid[..to]) == Ok(foundCities + r.value)
                    && RequestsMade(geocoder, reader, first + from, grid[from..to]) == to - from)
              && (r.Err? ==>
                    && FindByCoordinates(geocoder, reader, first, walked).Err?
                    && from <= FirstUnanswered(geocoder, reader, first, walked) < to
                    && RequestsMade(geocoder, reader, first, walked)
                       == from + RequestsMade(geocoder, reader, first + from, grid[from..to]))
    {
      var batch := grid[from..to];
      if FindByCoordinates(geocoder, reader, first + from, batch).Ok? {
        BatchAnsweredInFull(geocoder, reader, first + from, batch, to - from);
        BatchSucceeded(geocoder, reader, first, grid, from, to, foundCities,
                       FindByCoordinates(geocoder, reader, first + from, batch).value);
      } else {
        FailureInBatch(first, grid, from, batch, walkedCount);
      }
    }

    /** A successful prefix asks about every coordinate of it. */
    lemma {:induction false} RequestsWhenAnswered(first: nat, coordinates: seq<Coordinate>)
      requires FindByCoordinates(geocoder, reader, first, coordinates).Ok?
      ensures RequestsMade(geocoder, reader, first, coordinates) == |coordinates|
    {
      RequestsMadeMeaning(geocoder, reader, first, coordinates);
    }

    /** A failure in batch i (points from..from+|batch| of the walk) is a
        failure of the whole walk, at the first unanswered point of the
        batch, and everything before the batch is whole batches. */
    lemma {:induction false} FailureInBatch(first: nat, grid: seq<Coordinate>, from: nat, batch: seq<Coordinate>, walkedCount: nat)
      requires from + |batch| <= walkedCount <= |grid|
      requires grid[from..from + |batch|] == batch
      requires FindByCoordinates(geocoder, reader, first, grid[..from]).Ok?
      requires FindByCoordinates(geocoder, reader, first + from, batch).Err?
      ensures var walked := grid[..walkedCount];
              var failedAt := FirstUnanswered(geocoder, reader, first, walked);
              && FindByCoordinates(geocoder, reader, first, walked).Err?
              && from <= failedAt < from + |batch|
              && RequestsMade(geocoder, reader, first, walked)
                 == from + RequestsMade(geocoder, reader, first + from, batch)
    {
      var walked := grid[..walkedCount];
      var f := FirstUnanswered(geocoder, reader, first + from, batch);
      assert f < |batch| by {
        SearchFailsAtFirstUnanswered(geocoder, reader, first + from, batch);
      }
      assert FirstUnanswered(geocoder, reader, first, walked) == from + f by {
        var prefix, rest := grid[..from], grid[from + |batch|..walkedCount];
        assert |prefix| == from;
        assert walked == prefix + batch + rest;
        assert FirstUnanswered(geocoder, reader, first, prefix) == from by {
          SearchFailsAtFirstUnanswered(geocoder, reader, first, prefix);
        }
        FirstUnansweredAfterPrefix(geocoder, reader, first, prefix, batch, rest);
      }
      assert FindByCoordinates(geocoder, reader, first, walked).Err? by {
        SearchFailsAtFirstUnanswered(geocoder, reader, first, walked);
      }
      RequestsMadeMeaning(geocoder, reader, first, walked);
      RequestsMadeMeaning(geocoder, reader, first + from, batch);
    }
  }

  /** A batch that succeeds costs one request per point. */
  lemma {:induction false} BatchAnsweredInFull(geocoder: Geocoder, reader: GeoJsonReader, sent: nat, coordinates: seq<Coordinate>, count: int)
    requires FindByCoordinates(geocoder, reader, sent, coordinates).Ok? && |coordinates| == count
    ensures RequestsMade(geocoder, reader, sent, coordinates) == count
  {
    RequestsMadeMeaning(geocoder, reader, sent, coordinates);
  }

  /** A batch that succeeds extends the search of the walk so far. */
  lemma {:induction false} BatchSucceeded(geocoder: Geocoder, reader: GeoJsonReader, first: nat, grid: seq<Coordinate>,
                       from: nat, to: nat, done: seq<City>, cities: seq<City>)
    requires from <= to <= |grid|
    requires FindByCoordinates(geocoder, reader, first, grid[..from]) == Ok(done)
    requires FindByCoordinates(geocoder, reader, first + from, grid[from..to]) == Ok(cities)
    ensures FindByCoordinates(geocoder, reader, first, grid[..to]) == Ok(done + cities)
  {
    assert grid[..to] == grid[..from] + grid[from..to];
    FindByConcatenation(geocoder, reader, first, grid[..from], grid[from..to]);
  }

  /** The handled count raised to `from` and then by a batch ending at `to`
      is the count raised to `to`. */
  lemma {:induction false} IncreaseTo(base: seq<SearchingCitiesProcess>, id: Option<nat>, from: int, delta: int, to: int,
                   before: seq<SearchingCitiesProcess>, after: seq<SearchingCitiesProcess>)
    requires from + delta == to
    requires before == WithHandledIncreased(base, id, from)
    requires after == WithHandledIncreased(before, id, delta)
    ensures after == WithHandledIncreased(base, id, to)
  {
    IncreaseComposes(base, id, from, delta);
  }

  lemma {:induction false} IncreaseByNothing(rows: seq<SearchingCitiesProcess>, id: Option<nat>)
    ensures WithHandledIncreased(rows, id, 0) == rows
  {
  }

  /** Batch i starts at i * b and ends where the next one starts, inside the
      walked prefix. */
  lemma {:induction false} BatchBounds(i: int, b: int, size: nat, walkedCount: nat, batches: int, from: nat, to: nat)
    requires b >= 1 && 0 <= i < batches
    requires walkedCount == Min(batches * b, size)
    requires from == Min(i * b, size) && to == Min(from + b, size)
    ensures to == Min((i + 1) * b, size) <= walkedCount
    ensures from < to ==> from == i * b
  {
    assert (i + 1) * b == i * b + b;
    ProcessFactory.MultiplyIntMonotone(i + 1, batches, b);
  }

  /** Updating the last stored process by id changes only its row. */
  lemma {:induction false} SettledRow(stored: seq<SearchingCitiesProcess>, nextId: nat, process: SearchingCitiesProcess,
                   delta: int, newStatus: Status)
    requires WellKeyed(stored, nextId) && process.id == Some(nextId)
    ensures WithStatus(WithHandledIncreased(stored + [process], process.id, delta), process.id, newStatus)
      == stored + [process.(handledPoints := process.handledPoints + delta, status := newStatus)]
  {
    var after := WithStatus(WithHandledIncreased(stored + [process], process.id, delta), process.id, newStatus);
    forall i | 0 <= i < |stored| ensures after[i] == stored[i] {
      assert (stored + [process])[i] == stored[i];
    }
  }
}
