/**
 * The shapes of the catalog's entity (`Ship`), its category enumeration
 * (`ShipType`) and the sortable keys of a search (`ShipOrder`).
 */
module ShipModel {

  /** The closed set of ship categories; stored and compared by name only. */
  datatype ShipType = Transport | Military | Merchant

  /**
   * A stored ship. `prodDate` is a timestamp in epoch milliseconds;
   * `speed` and `rating` are only ever compared, so `real` is exact for them.
   */
  datatype Ship = Ship(
    id: int,
    name: string,
    planet: string,
    shipType: ShipType,
    prodDate: int,
    isUsed: bool,
    speed: real,
    crewSize: int,
    rating: real)

  /** A search's sort key: one column, always ascending. */
  datatype ShipOrder = ById | BySpeed | ByProdDate | ByCrewSize | ByRating

  /**
   * The value of the column `o` names (what `getFieldName` selects), on one
   * common numeric scale so that every key sorts with `<=` on `real`.
   */
  function Key(s: Ship, o: ShipOrder): real {
    match o
    case ById => s.id as real
    case BySpeed => s.speed
    case ByProdDate => s.prodDate as real
    case ByCrewSize => s.crewSize as real
    case ByRating => s.rating
  }
}
