/**
 * The REST handlers for ships. Each handler runs its guard checks in
 * order, returns early on the first that fails, and otherwise makes at
 * most one change to the store through the service.
 */
module ShipControllers {
  import opened Wrappers
  import opened ShipModel
  import opened ShipQuery
  import opened ShipService

  /** A handler's outcome: 200 with a body, 400 or 404 without one. */
  datatype Response<T> = Ok(body: T) | BadRequest | NotFound

  class ShipController {
    const service: ShipServiceImpl

    constructor (service: ShipServiceImpl)
      ensures this.service == service
    {
      this.service := service;
    }

    /** GET /rest/ships: one page of the ships matching the query parameters. */
    method FindShips(
      name: Option<string>, planet: Option<string>, shipType: Option<ShipType>,
      after: Option<int>, before: Option<int>, isUsed: Option<bool>,
      minSpeed: Option<real>, maxSpeed: Option<real>,
      minCrewSize: Option<int>, maxCrewSize: Option<int>,
      minRating: Option<real>, maxRating: Option<real>,
      pageNumber: Option<int>, pageSize: Option<int>, order: Option<ShipOrder>)
      returns (r: Response<seq<Ship>>)
      requires service.Valid()
      requires pageNumber.Some? ==> pageNumber.value >= 0
      requires pageSize.Some? ==> pageSize.value >= 0
      ensures r.Ok?
      ensures var dto := ShipDTO(name, planet, shipType, after, before, isUsed,
                                 minSpeed, maxSpeed, minCrewSize, maxCrewSize, minRating, maxRating,
                                 pageNumber, pageSize, order);
              PageArgsOk(dto) && r.body == Search(service.Rows(), dto)
    {
      var dto := ShipDTO(name, planet, shipType, after, before, isUsed, minSpeed, maxSpeed,
                         minCrewSize, maxCrewSize, minRating, maxRating, pageNumber, pageSize, order);
      var result := service.GetShips(dto);
      r := Ok(result);
    }

    /** GET /rest/ships/{id}: 400 for an id below 1, 404 for an unknown id, else the ship. */
    method FindShipById(id: int) returns (r: Response<Ship>)
      requires service.Valid()
      ensures id < 1 ==> r == BadRequest
      ensures id >= 1 && id !in service.ships ==> r == NotFound
      ensures id >= 1 && id in service.ships ==> r == Ok(service.ships[id])
      ensures r.Ok? ==> r.body.id == id
    {
      if id < 1 {
        return BadRequest;
      }
      var found := service.FindById(id);
      if found.None? {
        return NotFound;
      }
      r := Ok(found.value);
    }

    /** GET /rest/ships/count: how many ships match the query parameters. */
    method GetCount(
      name: Option<string>, planet: Option<string>, shipType: Option<ShipType>,
      after: Option<int>, before: Option<int>, isUsed: Option<bool>,
      minSpeed: Option<real>, maxSpeed: Option<real>,
      minCrewSize: Option<int>, maxCrewSize: Option<int>,
      minRating: Option<real>, maxRating: Option<real>,
      pageNumber: Option<int>, pageSize: Option<int>, order: Option<ShipOrder>)
      returns (r: Response<int>)
      requires service.Valid()
      ensures r.Ok?
      ensures r.body == Count(service.Rows(), ShipDTO(name, planet, shipType, after, before, isUsed,
                                minSpeed, maxSpeed, minCrewSize, maxCrewSize, minRating, maxRating,
                                pageNumber, pageSize, order))
    {
      var dto := ShipDTO(name, planet, shipType, after, before, isUsed, minSpeed, maxSpeed,
                         minCrewSize, maxCrewSize, minRating, maxRating, pageNumber, pageSize, order);
      var n := service.GetCount(dto);
      r := Ok(n);
    }

    /**
     * POST /rest/ships: 400 without a write when `validate` rejects the
     * ship; otherwise 200 with the ship the service stored under `newId`,
     * the id the storage layer assigns.
     */
    method Save(ship: Ship, validate: Ship -> bool, newId: int) returns (r: Response<Option<Ship>>)
      requires service.Valid()
      requires newId >= 1 && newId !in service.ships
      modifies service
      ensures service.Valid()
      ensures !validate(ship) ==> r == BadRequest && unchanged(service)
      ensures validate(ship) ==> && r == Ok(Some(ship.(id := newId)))
                                 && service.ships == old(service.ships)[newId := ship.(id := newId)]
                                 && service.order == old(service.order) + [newId]
    {
      if validate(ship) {
        var saved := service.Save(ship, validate, newId);
        return Ok(saved);
      }
      return BadRequest;
    }

    /** DELETE /rest/ships/{id}: 400 for an id below 1, 404 for an unknown id, else removes it. */
    method DeleteById(id: int) returns (r: Response<()>)
      requires service.Valid()
      modifies service
      ensures service.Valid()
      ensures id < 1 ==> r == BadRequest && unchanged(service)
      ensures id >= 1 && id !in old(service.ships) ==> r == NotFound && unchanged(service)
      ensures id >= 1 && id in old(service.ships) ==>
                && r == Ok(())
                && service.ships == old(service.ships) - {id}
                && service.order == Without(old(service.order), id)
    {
      if id < 1 {
        return BadRequest;
      }
      var found := service.FindById(id);
      if found.None? {
        return NotFound;
      }
      service.DeleteById(id);
      r := Ok(());
    }

    /**
     * POST /rest/ships/{id}: 400 for an id below 1 or a payload that
     * `isValidForUpdate` rejects, both before any lookup; 404 for an unknown
     * id; else the stored ship becomes `update(stored, payload)` under the
     * same id and is returned. `update` stands for the entity's own overlay
     * of the payload's present fields, which never changes the id.
     */
    method Update(id: int, payload: Ship, isValidForUpdate: Ship -> bool, update: (Ship, Ship) -> Ship)
      returns (r: Response<Ship>)
      requires service.Valid()
      requires forall stored, patch :: update(stored, patch).id == stored.id
      modifies service
      ensures service.Valid()
      ensures id < 1 || !isValidForUpdate(payload) ==> r == BadRequest && unchanged(service)
      ensures id >= 1 && isValidForUpdate(payload) && id !in old(service.ships) ==>
                r == NotFound && unchanged(service)
      ensures id >= 1 && isValidForUpdate(payload) && id in old(service.ships) ==>
                var updated := update(old(service.ships)[id], payload);
                && r == Ok(updated)
                && service.ships == old(service.ships)[id := updated]
                && service.order == old(service.order)
    {
      if id < 1 {
        return BadRequest;
      }
      if !isValidForUpdate(payload) {
        return BadRequest;
      }
      var found := service.FindById(id);
      if found.Some? {
        var foundShip := update(found.value, payload);
        var saved := service.Update(foundShip);
        return Ok(saved);
      }
      return NotFound;
    }
  }

  /**
   * The list and count endpoints build the same request from the same
   * parameters, so the count is the length of the list whose one page is
   * large enough to hold every stored ship.
   */
  method CountIsListLength(
    c: ShipController,
    name: Option<string>, planet: Option<string>, shipType: Option<ShipType>,
    after: Option<int>, before: Option<int>, isUsed: Option<bool>,
    minSpeed: Option<real>, maxSpeed: Option<real>,
    minCrewSize: Option<int>, maxCrewSize: Option<int>,
    minRating: Option<real>, maxRating: Option<real>, order: Option<ShipOrder>)
    returns (count: int, list: seq<Ship>)
    requires c.service.Valid()
    ensures count == |list|
    ensures forall s :: s in list ==> Matches(ShipDTO(name, planet, shipType, after, before, isUsed,
                                          minSpeed, maxSpeed, minCrewSize, maxCrewSize,
                                          minRating, maxRating, None, None, order), s)
  {
    var all := |c.service.Rows()|;
    var counted := c.GetCount(name, planet, shipType, after, before, isUsed, minSpeed, maxSpeed,
                              minCrewSize, maxCrewSize, minRating, maxRating, None, None, order);
    var listed := c.FindShips(name, planet, shipType, after, before, isUsed, minSpeed, maxSpeed,
                              minCrewSize, maxCrewSize, minRating, maxRating, Some(0), Some(all), order);
    count, list := counted.body, listed.body;
    var dto := ShipDTO(name, planet, shipType, after, before, isUsed, minSpeed, maxSpeed,
                       minCrewSize, maxCrewSize, minRating, maxRating, None, None, order);
    var unpaged := dto.(pageNumber := Some(0), pageSize := Some(all));
    CountIsUnpagedSearchLength(c.service.Rows(), dto);
    SameFiltersSameRows(c.service.Rows(), dto, unpaged);
    SearchMembers(c.service.Rows(), unpaged);
    forall s | s in list ensures Matches(dto, s) {
      QueryMeaning(dto, s);
      QueryMeaning(unpaged, s);
    }
  }

  /** Once a ship is deleted, looking its id up gives 404. */
  method DeletedShipIsNotFound(c: ShipController, id: int) returns (deleted: Response<()>, found: Response<Ship>)
    requires c.service.Valid()
    requires id >= 1 && id in c.service.ships
    modifies c.service
    ensures deleted == Ok(()) && found == NotFound
  {
    deleted := c.DeleteById(id);
    found := c.FindShipById(id);
  }
}
