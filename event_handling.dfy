/** What happens to the stored tables at each event of a discovery run. */
module EventHandling {
  import opened Wrappers
  import opened Domain
  import ProcessFactory
  import opened Repository

  /** The found cities, in order, whose outline is spatially equal to no
      stored city's outline. */
  function NotYetStored(found: seq<City>, stored: seq<City>, topology: Topology): (r: seq<City>)
    ensures |r| <= |found|
  {
    if found == [] then []
    else if StoredShape(stored, topology, found[0].geometry) then NotYetStored(found[1..], stored, topology)
    else [found[0]] + NotYetStored(found[1..], stored, topology)
  }

  /** Exactly the found cities with an unstored outline are kept. */
  lemma {:induction false} NotYetStoredMembers(found: seq<City>, stored: seq<City>, topology: Topology, c: City)
    ensures c in NotYetStored(found, stored, topology) <==> c in found && !StoredShape(stored, topology, c.geometry)
    decreases |found|
  {
    if found != [] {
      NotYetStoredMembers(found[1..], stored, topology, c);
      assert c in found <==> c == found[0] || c in found[1..];
    }
  }

  predicate StoredShape(stored: seq<City>, topology: Topology, geometry: Geometry) {
    exists i :: 0 <= i < |stored| && topology.equals(stored[i].geometry, geometry)
  }

  lemma {:induction false} NotYetStoredSnoc(found: seq<City>, city: City, stored: seq<City>, topology: Topology)
    ensures NotYetStored(found + [city], stored, topology)
      == NotYetStored(found, stored, topology) + (if StoredShape(stored, topology, city.geometry) then [] else [city])
    decreases |found|
  {
    if found != [] {
      assert (found + [city])[1..] == found[1..] + [city];
      NotYetStoredSnoc(found[1..], city, stored, topology);
    } else {
      assert found + [city] == [city];
    }
  }

  /** The event handlers of a discovery run, over the two tables. */
  class EventHandlingSearchCityProcessService {
    const processes: ProcessTable
    const cities: CityTable

    ghost predicate Valid()
      reads this, processes, cities
    {
      processes.Valid() && cities.Valid()
    }

    constructor (processes: ProcessTable, cities: CityTable)
      ensures this.processes == processes && this.cities == cities
    {
      this.processes := processes;
      this.cities := cities;
    }

    /** Creates the process for the rectangle and step, stores it and
        returns the stored copy. */
    method OnStartSearchCities(areaCoordinate: AreaCoordinate, searchStep: real)
      returns (saved: SearchingCitiesProcess)
      requires Valid() && searchStep > 0.0
      modifies processes
      ensures Valid()
      ensures saved == ProcessFactory.Create(areaCoordinate, searchStep).(id := Some(old(processes.nextId)))
      ensures processes.rows == old(processes.rows) + [saved]
      ensures processes.nextId == old(processes.nextId) + 1
    {
      var processToBeSaved := ProcessFactory.Create(areaCoordinate, searchStep);
      saved := processes.Save(processToBeSaved);
    }

    /** A batch succeeded: its points count as handled. */
    method OnSuccessFindCitiesBySubtask(process: SearchingCitiesProcess, amountHandledPoints: int)
      requires Valid()
      modifies processes
      ensures Valid() && processes.nextId == old(processes.nextId)
      ensures processes.rows == WithHandledIncreased(old(processes.rows), process.id, amountHandledPoints)
    {
      processes.IncreaseHandledPoints(process, amountHandledPoints);
    }

    /** A batch failed: the failure is only logged. */
    method OnFailedFindCitiesBySubtask(message: string)
      ensures unchanged(processes, cities)
    {
    }

    /** The run finished: the found cities whose outline is not stored yet
        (checked against the table as it was before this event) are stored,
        and the process is marked SUCCESS. */
    method OnSuccessFindAllCities(process: SearchingCitiesProcess, foundCities: seq<City>)
      requires Valid()
      modifies processes, cities
      ensures Valid() && processes.nextId == old(processes.nextId)
      ensures cities.rows == old(cities.rows)
        + WithIds(NotYetStored(foundCities, old(cities.rows), cities.topology), old(cities.nextId))
      ensures cities.nextId == old(cities.nextId) + |NotYetStored(foundCities, old(cities.rows), cities.topology)|
      ensures processes.rows == WithStatus(old(processes.rows), process.id, Success)
    {
      var cityWithNotExistsGeometry: seq<City> := [];
      var i := 0;
      while i < |foundCities|
        invariant 0 <= i <= |foundCities|
        invariant cityWithNotExistsGeometry == NotYetStored(foundCities[..i], cities.rows, cities.topology)
        modifies {}
      {
        assert foundCities[..i + 1] == foundCities[..i] + [foundCities[i]];
        NotYetStoredSnoc(foundCities[..i], foundCities[i], cities.rows, cities.topology);
        if !cities.IsExistByGeometry(foundCities[i].geometry) {
          cityWithNotExistsGeometry := cityWithNotExistsGeometry + [foundCities[i]];
        }
        i := i + 1;
      }
      assert foundCities[..i] == foundCities;
      var _ := cities.SaveAll(cityWithNotExistsGeometry);
      processes.UpdateStatus(process, Success);
    }

    /** The run failed: the process is marked ERROR. */
    method OnFailedFindAllCities(process: SearchingCitiesProcess, message: string)
      requires Valid()
      modifies processes
      ensures Valid() && processes.nextId == old(processes.nextId)
      ensures processes.rows == WithStatus(old(processes.rows), process.id, Error)
    {
      processes.UpdateStatus(process, Error);
    }
  }

  /** With a reflexive spatial equality, every city found by a successful
      run has its outline stored afterwards: either it was stored before or
      it was just saved. */
  lemma {:induction false} FoundCitiesStored(found: seq<City>, stored: seq<City>, topology: Topology, first: nat, c: City)
    requires forall g :: topology.equals(g, g)
    requires c in found
    ensures StoredShape(stored + WithIds(NotYetStored(found, stored, topology), first), topology, c.geometry)
  {
    var after := stored + WithIds(NotYetStored(found, stored, topology), first);
    if !StoredShape(stored, topology, c.geometry) {
      var kept := NotYetStored(found, stored, topology);
      NotYetStoredMembers(found, stored, topology, c);
      var k :| 0 <= k < |kept| && kept[k] == c;
      assert after[|stored| + k].geometry == c.geometry;
      assert topology.equals(after[|stored| + k].geometry, c.geometry);
    } else {
      var i :| 0 <= i < |stored| && topology.equals(stored[i].geometry, c.geometry);
      assert after[i] == stored[i];
    }
  }
}
