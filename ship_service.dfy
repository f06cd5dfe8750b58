/**
 * The ship service: search and count over the stored ships, and the
 * create, delete and update operations that change the store. The store is
 * a map from id to ship plus the order in which the rows sit in the table,
 * which is the order an unsorted search returns them in.
 */
module ShipService {
  import opened Wrappers
  import opened ShipModel
  import opened ShipQuery

  predicate NoDuplicates(ids: seq<int>) {
    forall i, j :: 0 <= i < j < |ids| ==> ids[i] != ids[j]
  }

  /** `ids` with every occurrence of `id` taken out, the rest in order. */
  function Without(ids: seq<int>, id: int): (r: seq<int>)
    ensures forall k :: k in r <==> k in ids && k != id
    ensures NoDuplicates(ids) ==> NoDuplicates(r)
  {
    if ids == [] then []
    else if ids[0] == id then Without(ids[1..], id)
    else
      var rest := Without(ids[1..], id);
      assert NoDuplicates(ids) ==> ids[0] !in ids[1..];
      [ids[0]] + rest
  }

  /**
   * Removing an id works id by id: from a concatenation it removes the id
   * from each part, so the remaining ids keep their relative order.
   */
  lemma {:induction false} WithoutConcat(a: seq<int>, b: seq<int>, id: int)
    ensures Without(a + b, id) == Without(a, id) + Without(b, id)
    decreases |a|
  {
    if a == [] {
      assert a + b == b;
    } else {
      assert (a + b)[0] == a[0];
      assert (a + b)[1..] == a[1..] + b;
      WithoutConcat(a[1..], b, id);
    }
  }

  /** The stored ships of `ids`, in that order. */
  function RowsOf(ships: map<int, Ship>, ids: seq<int>): (r: seq<Ship>)
    requires forall i :: 0 <= i < |ids| ==> ids[i] in ships
  {
    seq(|ids|, i requires 0 <= i < |ids| => ships[ids[i]])
  }

  /** When the ids list every stored id, their rows are exactly the stored ships. */
  lemma RowsOfCoversStore(ships: map<int, Ship>, ids: seq<int>)
    requires forall i :: 0 <= i < |ids| ==> ids[i] in ships
    requires forall k :: k in ships ==> k in ids
    ensures forall s :: s in RowsOf(ships, ids) <==> s in ships.Values
  {
    var r := RowsOf(ships, ids);
    forall s | s in r ensures s in ships.Values {
      var i :| 0 <= i < |r| && r[i] == s;
      assert ids[i] in ships;
    }
    forall k | k in ships ensures ships[k] in r {
      var i :| 0 <= i < |ids| && ids[i] == k;
      assert r[i] == ships[k];
    }
  }

  class ShipServiceImpl {
    /** The stored ships by id. */
    var ships: map<int, Ship>
    /** The ids of the stored ships in the table's natural row order. */
    var order: seq<int>

    /**
     * Every stored ship sits under its own id, ids are positive, and the
     * row order lists each stored id exactly once.
     */
    ghost predicate Valid()
      reads this
    {
      && (forall k :: k in ships ==> k >= 1 && ships[k].id == k)
      && (forall i :: 0 <= i < |order| ==> order[i] in ships)
      && (forall k :: k in ships ==> k in order)
      && NoDuplicates(order)
    }

    /** The stored ships in natural row order. */
    function Rows(): (r: seq<Ship>)
      reads this
      requires Valid()
      ensures forall s :: s in r <==> s in ships.Values
    {
      RowsOfCoversStore(ships, order);
      RowsOf(ships, order)
    }

    constructor ()
      ensures Valid() && ships == map[] && order == []
    {
      ships := map[];
      order := [];
    }

    /** The stored ship with this id, if any. */
    method FindById(id: int) returns (r: Option<Ship>)
      requires Valid()
      ensures r.Some? <==> id in ships
      ensures r.Some? ==> r.value == ships[id] && r.value.id == id
    {
      if id in ships {
        r := Some(ships[id]);
      } else {
        r := None;
      }
    }

    /**
     * One page of the search: the paging defaults are filled in (size 3,
     * page 0) and the window is cut from the filtered, ordered rows.
     */
    method GetShips(dto: ShipDTO) returns (r: seq<Ship>)
      requires Valid()
      requires PageArgsOk(dto)
      ensures r == Search(Rows(), dto)
      ensures forall s :: s in r ==> s in ships.Values && Matches(dto, s)
    {
      var q := PrepareQuery(dto);
      var pageSize: int;
      if dto.pageSize.None? {
        pageSize := 3;
      } else {
        pageSize := dto.pageSize.value;
      }
      var pageNumber: int;
      if dto.pageNumber.None? {
        pageNumber := 0;
      } else {
        pageNumber := dto.pageNumber.value;
      }
      assert pageNumber * pageSize == Offset(dto);
      r := Page(Order(Filter(Rows(), q.where), q.orderBy), pageNumber * pageSize, pageSize);
      assert r == Search(Rows(), dto);
      SearchMembers(Rows(), dto);
    }

    /** The number of stored ships that pass the request's filters. */
    method GetCount(dto: ShipDTO) returns (n: int)
      requires Valid()
      ensures n == Count(Rows(), dto)
    {
      var q := PrepareQuery(dto);
      n := |Filter(Rows(), q.where)|;
    }

    /**
     * Stores the ship under a newly assigned id when `validate` accepts
     * it; otherwise stores nothing and returns `None`.
     */
    method Save(ship: Ship, validate: Ship -> bool, newId: int) returns (r: Option<Ship>)
      requires Valid()
      requires newId >= 1 && newId !in ships
      modifies this
      ensures Valid()
      ensures !validate(ship) ==> r == None && ships == old(ships) && order == old(order)
      ensures validate(ship) ==> && r == Some(ship.(id := newId))
                                 && ships == old(ships)[newId := ship.(id := newId)]
                                 && order == old(order) + [newId]
    {
      if !validate(ship) {
        return None;
      }
      var stored := ship.(id := newId);
      ships := ships[newId := stored];
      order := order + [newId];
      r := Some(stored);
    }

    /** Removes the ship with this id; a missing id leaves the store as it is. */
    method DeleteById(id: int)
      requires Valid()
      modifies this
      ensures Valid()
      ensures ships == old(ships) - {id}
      ensures order == Without(old(order), id)
    {
      ships := ships - {id};
      order := Without(order, id);
      assert forall i :: 0 <= i < |order| ==> order[i] in order;
    }

    /** Writes the ship back under its own (already stored) id. */
    method Update(ship: Ship) returns (r: Ship)
      requires Valid()
      requires ship.id in ships
      modifies this
      ensures Valid()
      ensures r == ship
      ensures ships == old(ships)[ship.id := ship]
      ensures order == old(order)
    {
      ships := ships[ship.id := ship];
      r := ship;
    }
  }
}
