/**
 * The search side of the ship service: a request's optional parameters become
 * a conjunction of constraints and an optional sort key; the rows that satisfy
 * the constraints are ordered and then cut to one page. Counting uses the
 * same constraints and ignores ordering and paging.
 */
module ShipQuery {
  import opened Wrappers
  import opened ShipModel

  /** A search request: every parameter may be absent. */
  datatype ShipDTO = ShipDTO(
    name: Option<string>,
    planet: Option<string>,
    shipType: Option<ShipType>,
    after: Option<int>,
    before: Option<int>,
    isUsed: Option<bool>,
    minSpeed: Option<real>,
    maxSpeed: Option<real>,
    minCrewSize: Option<int>,
    maxCrewSize: Option<int>,
    minRating: Option<real>,
    maxRating: Option<real>,
    pageNumber: Option<int>,
    pageSize: Option<int>,
    orderBy: Option<ShipOrder>)

  /** A string parameter takes part in the search only if present and non-empty. */
  predicate IsValidString(s: Option<string>) {
    s.Some? && |s.value| > 0
  }

  /** `part` occurs in `text` starting at index `i`. */
  predicate OccursAt(text: string, part: string, i: int) {
    0 <= i && i + |part| <= |text| && text[i..i + |part|] == part
  }

  /** `part` occurs in `text` as a contiguous run of characters (case-sensitive). */
  predicate Contains(text: string, part: string) {
    exists i :: 0 <= i <= |text| - |part| && OccursAt(text, part, i)
  }

  /** One constraint of the running search predicate. */
  datatype Constraint =
    | NameLike(part: string)
    | PlanetLike(part: string)
    | ShipTypeIs(shipType: ShipType)
    | ProdDateAtLeast(millis: int)
    | ProdDateAtMost(millis: int)
    | UsedIs(used: bool)
    | SpeedAtLeast(speed: real)
    | SpeedAtMost(speed: real)
    | CrewSizeAtLeast(crew: int)
    | CrewSizeAtMost(crew: int)
    | RatingAtLeast(rating: real)
    | RatingAtMost(rating: real)

  predicate Holds(c: Constraint, s: Ship) {
    match c
    case NameLike(part) => Contains(s.name, part)
    case PlanetLike(part) => Contains(s.planet, part)
    case ShipTypeIs(t) => s.shipType == t
    case ProdDateAtLeast(m) => s.prodDate >= m
    case ProdDateAtMost(m) => s.prodDate <= m
    case UsedIs(u) => s.isUsed == u
    case SpeedAtLeast(v) => s.speed >= v
    case SpeedAtMost(v) => s.speed <= v
    case CrewSizeAtLeast(n) => s.crewSize >= n
    case CrewSizeAtMost(n) => s.crewSize <= n
    case RatingAtLeast(v) => s.rating >= v
    case RatingAtMost(v) => s.rating <= v
  }

  /**
   * The meaning of a running predicate: every constraint holds. The empty
   * list is the initial conjunction, true of every ship.
   */
  predicate Conj(p: seq<Constraint>, s: Ship) {
    forall i :: 0 <= i < |p| ==> Holds(p[i], s)
  }

  /** A prepared search: the `where` predicate and the optional ascending sort key. */
  datatype Query = Query(where: seq<Constraint>, orderBy: Option<ShipOrder>)

  /**
   * The reference meaning of a request's filters, parameter by parameter:
   * substring tests for name and planet (only for non-empty strings),
   * equality for type and used-flag, inclusive bounds for the rest.
   */
  predicate Matches(dto: ShipDTO, s: Ship) {
    TextFiltersMatch(dto, s) && ExactFiltersMatch(dto, s) && RangeFiltersMatch(dto, s)
  }

  /** Name and planet: substring tests, only for present, non-empty strings. */
  predicate TextFiltersMatch(dto: ShipDTO, s: Ship) {
    && (IsValidString(dto.name) ==> Contains(s.name, dto.name.value))
    && (IsValidString(dto.planet) ==> Contains(s.planet, dto.planet.value))
  }

  /** Ship type and used-flag: equality. */
  predicate ExactFiltersMatch(dto: ShipDTO, s: Ship) {
    && (dto.shipType.Some? ==> s.shipType == dto.shipType.value)
    && (dto.isUsed.Some? ==> s.isUsed == dto.isUsed.value)
  }

  /** Production date, speed, crew size and rating: inclusive bounds, each one-sided on its own. */
  predicate RangeFiltersMatch(dto: ShipDTO, s: Ship) {
    ProdDateInRange(dto, s) && SpeedInRange(dto, s) && CrewSizeInRange(dto, s) && RatingInRange(dto, s)
  }

  predicate ProdDateInRange(dto: ShipDTO, s: Ship) {
    && (dto.after.Some? ==> dto.after.value <= s.prodDate)
    && (dto.before.Some? ==> s.prodDate <= dto.before.value)
  }

  predicate SpeedInRange(dto: ShipDTO, s: Ship) {
    && (dto.minSpeed.Some? ==> dto.minSpeed.value <= s.speed)
    && (dto.maxSpeed.Some? ==> s.speed <= dto.maxSpeed.value)
  }

  predicate CrewSizeInRange(dto: ShipDTO, s: Ship) {
    && (dto.minCrewSize.Some? ==> dto.minCrewSize.value <= s.crewSize)
    && (dto.maxCrewSize.Some? ==> s.crewSize <= dto.maxCrewSize.value)
  }

  predicate RatingInRange(dto: ShipDTO, s: Ship) {
    && (dto.minRating.Some? ==> dto.minRating.value <= s.rating)
    && (dto.maxRating.Some? ==> s.rating <= dto.maxRating.value)
  }

  /** The twelve filter parameters of a request, in the order they are conjoined. */
  datatype FilterParam =
    | NameParam | PlanetParam | ShipTypeParam | AfterParam | BeforeParam | IsUsedParam
    | MinSpeedParam | MaxSpeedParam | MinCrewSizeParam | MaxCrewSizeParam | MinRatingParam | MaxRatingParam

  const FilterParams: seq<FilterParam> := [
    NameParam, PlanetParam, ShipTypeParam, AfterParam, BeforeParam, IsUsedParam,
    MinSpeedParam, MaxSpeedParam, MinCrewSizeParam, MaxCrewSizeParam, MinRatingParam, MaxRatingParam]

  /** The constraint one parameter contributes; `None` when it contributes none. */
  function ConstraintFor(dto: ShipDTO, f: FilterParam): Option<Constraint> {
    match f
    case NameParam => if IsValidString(dto.name) then Some(NameLike(dto.name.value)) else None
    case PlanetParam => if IsValidString(dto.planet) then Some(PlanetLike(dto.planet.value)) else None
    case ShipTypeParam => if dto.shipType.Some? then Some(ShipTypeIs(dto.shipType.value)) else None
    case AfterParam => if dto.after.Some? then Some(ProdDateAtLeast(dto.after.value)) else None
    case BeforeParam => if dto.before.Some? then Some(ProdDateAtMost(dto.before.value)) else None
    case IsUsedParam => if dto.isUsed.Some? then Some(UsedIs(dto.isUsed.value)) else None
    case MinSpeedParam => if dto.minSpeed.Some? then Some(SpeedAtLeast(dto.minSpeed.value)) else None
    case MaxSpeedParam => if dto.maxSpeed.Some? then Some(SpeedAtMost(dto.maxSpeed.value)) else None
    case MinCrewSizeParam => if dto.minCrewSize.Some? then Some(CrewSizeAtLeast(dto.minCrewSize.value)) else None
    case MaxCrewSizeParam => if dto.maxCrewSize.Some? then Some(CrewSizeAtMost(dto.maxCrewSize.value)) else None
    case MinRatingParam => if dto.minRating.Some? then Some(RatingAtLeast(dto.minRating.value)) else None
    case MaxRatingParam => if dto.maxRating.Some? then Some(RatingAtMost(dto.maxRating.value)) else None
  }

  /** An absent constraint holds trivially; a present one must hold of `s`. */
  predicate HoldsIfPresent(c: Option<Constraint>, s: Ship) {
    c.Some? ==> Holds(c.value, s)
  }

  /** The constraint of every parameter in `fs` that is present in `dto` holds of `s`. */
  predicate AllPresentHold(dto: ShipDTO, fs: seq<FilterParam>, s: Ship) {
    forall f :: f in fs ==> HoldsIfPresent(ConstraintFor(dto, f), s)
  }

  /**
   * Walks the parameters `fs` in order and conjoins the constraint of each
   * present one onto the running predicate `p`; absent ones leave it as is.
   */
  function AndPresent(p: seq<Constraint>, dto: ShipDTO, fs: seq<FilterParam>): (r: seq<Constraint>)
    ensures |p| <= |r| <= |p| + |fs|
    ensures r[..|p|] == p
    decreases |fs|
  {
    if fs == [] then p
    else
      var c := ConstraintFor(dto, fs[0]);
      AndPresent(if c.Some? then p + [c.value] else p, dto, fs[1..])
  }

  /** Conjoining keeps what `p` demanded and adds exactly the present constraints of `fs`. */
  lemma {:induction false} AndPresentMeaning(p: seq<Constraint>, dto: ShipDTO, fs: seq<FilterParam>, s: Ship)
    ensures Conj(AndPresent(p, dto, fs), s) <==> Conj(p, s) && AllPresentHold(dto, fs, s)
    decreases |fs|
  {
    if fs != [] {
      var c := ConstraintFor(dto, fs[0]);
      var next := if c.Some? then p + [c.value] else p;
      AndPresentMeaning(next, dto, fs[1..], s);
      if c.Some? {
        assert forall i :: 0 <= i < |p| ==> next[i] == p[i];
        assert next[|p|] == c.value;
      }
      assert Conj(next, s) <==> Conj(p, s) && HoldsIfPresent(c, s);
      assert forall f :: f in fs <==> f == fs[0] || f in fs[1..] by {
        assert fs == [fs[0]] + fs[1..];
      }
    }
  }

  /** A ship that passes the reference filters passes every parameter's constraint. */
  lemma MatchesAllParams(dto: ShipDTO, s: Ship)
    requires Matches(dto, s)
    ensures AllPresentHold(dto, FilterParams, s)
  {
    forall f | f in FilterParams ensures HoldsIfPresent(ConstraintFor(dto, f), s) {
      MatchesParam(dto, s, f);
    }
  }

  /** One parameter at a time: a ship that passes the reference filters passes its constraint. */
  lemma MatchesParam(dto: ShipDTO, s: Ship, f: FilterParam)
    requires Matches(dto, s)
    ensures HoldsIfPresent(ConstraintFor(dto, f), s)
  {
    match f
    case NameParam | PlanetParam => assert TextFiltersMatch(dto, s);
    case ShipTypeParam | IsUsedParam => assert ExactFiltersMatch(dto, s);
    case _ => assert RangeFiltersMatch(dto, s);
  }
  /** What `AllPresentHold` says about one listed parameter. */
  lemma ParamHolds(dto: ShipDTO, s: Ship, f: FilterParam)
    requires AllPresentHold(dto, FilterParams, s)
    requires f in FilterParams
    ensures HoldsIfPresent(ConstraintFor(dto, f), s)
  {
  }

  /** The constraints of the name and planet parameters give the text filters. */
  lemma AllParamsMatchText(dto: ShipDTO, s: Ship)
    requires AllPresentHold(dto, FilterParams, s)
    ensures TextFiltersMatch(dto, s)
  {
    assert IsValidString(dto.name) ==> Contains(s.name, dto.name.value) by {
      ParamHolds(dto, s, NameParam);
    }
    assert IsValidString(dto.planet) ==> Contains(s.planet, dto.planet.value) by {
      ParamHolds(dto, s, PlanetParam);
    }
  }

  /** The constraints of the type and used-flag parameters give the equality filters. */
  lemma AllParamsMatchExact(dto: ShipDTO, s: Ship)
    requires AllPresentHold(dto, FilterParams, s)
    ensures ExactFiltersMatch(dto, s)
  {
    assert dto.shipType.Some? ==> s.shipType == dto.shipType.value by {
      ParamHolds(dto, s, ShipTypeParam);
    }
    assert dto.isUsed.Some? ==> s.isUsed == dto.isUsed.value by {
      ParamHolds(dto, s, IsUsedParam);
    }
  }

  /** The constraints of the bound parameters give the range filters. */
  lemma AllParamsMatchRange(dto: ShipDTO, s: Ship)
    requires AllPresentHold(dto, FilterParams, s)
    ensures RangeFiltersMatch(dto, s)
  {
    AllParamsMatchProdDate(dto, s);
    AllParamsMatchSpeed(dto, s);
    AllParamsMatchCrewSize(dto, s);
    AllParamsMatchRating(dto, s);
  }

  lemma AllParamsMatchProdDate(dto: ShipDTO, s: Ship)
    requires AllPresentHold(dto, FilterParams, s)
    ensures ProdDateInRange(dto, s)
  {
    ParamHolds(dto, s, AfterParam);
    ParamHolds(dto, s, BeforeParam);
  }

  lemma AllParamsMatchSpeed(dto: ShipDTO, s: Ship)
    requires AllPresentHold(dto, FilterParams, s)
    ensures SpeedInRange(dto, s)
  {
    ParamHolds(dto, s, MinSpeedParam);
    ParamHolds(dto, s, MaxSpeedParam);
  }

  lemma AllParamsMatchCrewSize(dto: ShipDTO, s: Ship)
    requires AllPresentHold(dto, FilterParams, s)
    ensures CrewSizeInRange(dto, s)
  {
    ParamHolds(dto, s, MinCrewSizeParam);
    ParamHolds(dto, s, MaxCrewSizeParam);
  }

  lemma AllParamsMatchRating(dto: ShipDTO, s: Ship)
    requires AllPresentHold(dto, FilterParams, s)
    ensures RatingInRange(dto, s)
  {
    ParamHolds(dto, s, MinRatingParam);
    ParamHolds(dto, s, MaxRatingParam);
  }

  /**
   * Builds the search predicate by conjoining one constraint per present
   * filter parameter onto the initial (empty) conjunction, and carries the
   * sort key.
   */
  function PrepareQuery(dto: ShipDTO): (q: Query)
    ensures q.orderBy == dto.orderBy
    ensures |q.where| <= |FilterParams|
  {
    Query(AndPresent([], dto, FilterParams), dto.orderBy)
  }

  /**
   * A ship satisfies the prepared predicate exactly when it passes every
   * filter whose parameter is present; absent parameters constrain nothing.
   */
  lemma QueryMeaning(dto: ShipDTO, s: Ship)
    ensures Conj(PrepareQuery(dto).where, s) <==> Matches(dto, s)
  {
    AndPresentMeaning([], dto, FilterParams, s);
    if Matches(dto, s) {
      MatchesAllParams(dto, s);
    }
    if AllPresentHold(dto, FilterParams, s) {
      AllParamsMatchText(dto, s);
      AllParamsMatchExact(dto, s);
      AllParamsMatchRange(dto, s);
    }
  }

  /** Requests whose filters agree on a ship agree on it after preparation too. */
  lemma SameMatchSameConj(d1: ShipDTO, d2: ShipDTO, s: Ship)
    requires Matches(d1, s) == Matches(d2, s)
    ensures Conj(PrepareQuery(d1).where, s) == Conj(PrepareQuery(d2).where, s)
  {
    QueryMeaning(d1, s);
    QueryMeaning(d2, s);
  }

  /** A request that accepts a ship only if another does, after preparation too. */
  lemma NarrowerMatchNarrowerConj(wide: ShipDTO, narrow: ShipDTO, s: Ship)
    requires Matches(narrow, s) ==> Matches(wide, s)
    ensures Conj(PrepareQuery(narrow).where, s) ==> Conj(PrepareQuery(wide).where, s)
  {
    QueryMeaning(wide, s);
    QueryMeaning(narrow, s);
  }

  /** The rows that satisfy `p`, in their original order. */
  function Filter(rows: seq<Ship>, p: seq<Constraint>): (r: seq<Ship>)
    ensures |r| <= |rows|
    ensures multiset(r) <= multiset(rows)
    ensures forall s :: s in r <==> s in rows && Conj(p, s)
  {
    if rows == [] then []
    else
      assert rows == [rows[0]] + rows[1..];
      if Conj(p, rows[0]) then [rows[0]] + Filter(rows[1..], p)
      else Filter(rows[1..], p)
  }

  /**
   * Filtering works row by row: the selection from a concatenation is the
   * selection from the first part followed by that from the second, so the
   * selected rows keep their relative order.
   */
  lemma {:induction false} FilterConcat(a: seq<Ship>, b: seq<Ship>, p: seq<Constraint>)
    ensures Filter(a + b, p) == Filter(a, p) + Filter(b, p)
    decreases |a|
  {
    if a == [] {
      assert a + b == b;
    } else {
      assert (a + b)[0] == a[0];
      assert (a + b)[1..] == a[1..] + b;
      FilterConcat(a[1..], b, p);
    }
  }

  /** Ascending by the key `o` names. */
  predicate SortedBy(rows: seq<Ship>, o: ShipOrder) {
    forall i, j :: 0 <= i < j < |rows| ==> Key(rows[i], o) <= Key(rows[j], o)
  }

  /** A row whose key is at most every key of a sorted sequence may precede it. */
  lemma SortedCons(x: Ship, rows: seq<Ship>, o: ShipOrder)
    requires SortedBy(rows, o)
    requires forall y :: y in rows ==> Key(x, o) <= Key(y, o)
    ensures SortedBy([x] + rows, o)
  {
    var r := [x] + rows;
    forall i, j | 0 <= i < j < |r| ensures Key(r[i], o) <= Key(r[j], o) {
      assert r[j] == rows[j - 1];
      if i > 0 { assert r[i] == rows[i - 1]; }
    }
  }

  /** The head of a sorted sequence bounds its tail with a larger-keyed row added. */
  lemma HeadBoundsInsert(x: Ship, rows: seq<Ship>, rest: seq<Ship>, o: ShipOrder)
    requires rows != [] && SortedBy(rows, o)
    requires Key(rows[0], o) < Key(x, o)
    requires multiset(rest) == multiset(rows[1..]) + multiset{x}
    ensures forall y :: y in rest ==> Key(rows[0], o) <= Key(y, o)
  {
    forall y | y in rest ensures Key(rows[0], o) <= Key(y, o) {
      assert y in multiset(rest);
      if y != x {
        assert y in multiset(rows[1..]);
        var j :| 0 <= j < |rows[1..]| && rows[1..][j] == y;
        assert rows[j + 1] == y;
      }
    }
  }

  /** Places `x` into the sorted `rows` after every row with a smaller key. */
  function Insert(x: Ship, rows: seq<Ship>, o: ShipOrder): (r: seq<Ship>)
    requires SortedBy(rows, o)
    ensures |r| == |rows| + 1
    ensures multiset(r) == multiset(rows) + multiset{x}
    ensures SortedBy(r, o)
  {
    if rows == [] then [x]
    else if Key(x, o) <= Key(rows[0], o) then
      SortedCons(x, rows, o);
      [x] + rows
    else
      assert rows == [rows[0]] + rows[1..];
      var rest := Insert(x, rows[1..], o);
      HeadBoundsInsert(x, rows, rest, o);
      SortedCons(rows[0], rest, o);
      [rows[0]] + rest
  }

  /** The rows ascending by `o`; rows with equal keys in no promised order. */
  function SortBy(rows: seq<Ship>, o: ShipOrder): (r: seq<Ship>)
    ensures |r| == |rows|
    ensures multiset(r) == multiset(rows)
    ensures SortedBy(r, o)
  {
    if rows == [] then []
    else
      assert rows == [rows[0]] + rows[1..];
      Insert(rows[0], SortBy(rows[1..], o), o)
  }

  /** Applies the optional sort key; without one the rows keep their natural order. */
  function Order(rows: seq<Ship>, orderBy: Option<ShipOrder>): (r: seq<Ship>)
    ensures multiset(r) == multiset(rows) && |r| == |rows|
    ensures orderBy.None? ==> r == rows
    ensures orderBy.Some? ==> SortedBy(r, orderBy.value)
  {
    if orderBy.None? then rows else SortBy(rows, orderBy.value)
  }

  function Min(a: int, b: int): int { if a <= b then a else b }
  function Max(a: int, b: int): int { if a <= b then b else a }

  /** The page window: skip `offset` rows, then take at most `pageSize`. */
  function Page(rows: seq<Ship>, offset: nat, pageSize: nat): (r: seq<Ship>)
    ensures |r| == Min(pageSize, Max(0, |rows| - offset))
    ensures forall i :: 0 <= i < |r| ==> r[i] == rows[offset + i]
  {
    if offset >= |rows| then [] else rows[offset..Min(offset + pageSize, |rows|)]
  }

  /** A page is the contiguous slice of the rows that the window covers. */
  lemma PageIsSlice(rows: seq<Ship>, offset: nat, pageSize: nat)
    ensures Page(rows, offset, pageSize) == rows[Min(offset, |rows|)..Min(offset + pageSize, |rows|)]
  {
  }

  /** Paging arguments the model accepts: non-negative when given. */
  predicate PageArgsOk(dto: ShipDTO) {
    && (dto.pageNumber.Some? ==> dto.pageNumber.value >= 0)
    && (dto.pageSize.Some? ==> dto.pageSize.value >= 0)
  }

  /** The page size, 3 when the request gives none. */
  function PageSizeOf(dto: ShipDTO): nat
    requires PageArgsOk(dto)
  {
    if dto.pageSize.None? then 3 else dto.pageSize.value
  }

  /** The 0-based page number, 0 when the request gives none. */
  function PageNumberOf(dto: ShipDTO): nat
    requires PageArgsOk(dto)
  {
    if dto.pageNumber.None? then 0 else dto.pageNumber.value
  }

  /** The first row of the requested page: `pageNumber * pageSize`. */
  function Offset(dto: ShipDTO): nat
    requires PageArgsOk(dto)
  {
    PageNumberOf(dto) * PageSizeOf(dto)
  }

  /** All matching rows, ordered but not paged. */
  function Matching(rows: seq<Ship>, dto: ShipDTO): seq<Ship> {
    var q := PrepareQuery(dto);
    Order(Filter(rows, q.where), q.orderBy)
  }

  /** The search result: filter, then order, then page. */
  function Search(rows: seq<Ship>, dto: ShipDTO): seq<Ship>
    requires PageArgsOk(dto)
  {
    Page(Matching(rows, dto), Offset(dto), PageSizeOf(dto))
  }

  /** The number of matching rows; ordering and paging play no part. */
  function Count(rows: seq<Ship>, dto: ShipDTO): nat {
    |Filter(rows, PrepareQuery(dto).where)|
  }

  /* ---------------------------------------------------------------------
   * Properties of the search pipeline
   * --------------------------------------------------------------------- */

  /** Two predicates that accept the same ships select the same rows. */
  lemma {:induction false} FilterSameMeaning(rows: seq<Ship>, p1: seq<Constraint>, p2: seq<Constraint>)
    requires forall s :: Conj(p1, s) <==> Conj(p2, s)
    ensures Filter(rows, p1) == Filter(rows, p2)
  {
    if rows != [] {
      FilterSameMeaning(rows[1..], p1, p2);
    }
  }

  /** A predicate that accepts fewer ships selects a sub-multiset of the rows. */
  lemma {:induction false} FilterNarrows(rows: seq<Ship>, wide: seq<Constraint>, narrow: seq<Constraint>)
    requires forall s :: Conj(narrow, s) ==> Conj(wide, s)
    ensures multiset(Filter(rows, narrow)) <= multiset(Filter(rows, wide))
    ensures |Filter(rows, narrow)| <= |Filter(rows, wide)|
  {
    if rows != [] {
      FilterNarrows(rows[1..], wide, narrow);
    }
  }

  /**
   * `narrow` is `wide` with zero or more further filter parameters made
   * present: every filter `wide` gives is given by `narrow` unchanged.
   */
  predicate Extends(narrow: ShipDTO, wide: ShipDTO) {
    && (wide.name.None? || narrow.name == wide.name)
    && (wide.planet.None? || narrow.planet == wide.planet)
    && (wide.shipType.None? || narrow.shipType == wide.shipType)
    && (wide.after.None? || narrow.after == wide.after)
    && (wide.before.None? || narrow.before == wide.before)
    && (wide.isUsed.None? || narrow.isUsed == wide.isUsed)
    && (wide.minSpeed.None? || narrow.minSpeed == wide.minSpeed)
    && (wide.maxSpeed.None? || narrow.maxSpeed == wide.maxSpeed)
    && (wide.minCrewSize.None? || narrow.minCrewSize == wide.minCrewSize)
    && (wide.maxCrewSize.None? || narrow.maxCrewSize == wide.maxCrewSize)
    && (wide.minRating.None? || narrow.minRating == wide.minRating)
    && (wide.maxRating.None? || narrow.maxRating == wide.maxRating)
  }

  /**
   * Making more parameters present never enlarges the match set: filters
   * are only ever conjoined onto the running predicate.
   */
  lemma AddingFiltersNarrows(rows: seq<Ship>, wide: ShipDTO, narrow: ShipDTO)
    requires Extends(narrow, wide)
    ensures multiset(Filter(rows, PrepareQuery(narrow).where)) <= multiset(Filter(rows, PrepareQuery(wide).where))
    ensures Count(rows, narrow) <= Count(rows, wide)
  {
    var pw, pn := PrepareQuery(wide).where, PrepareQuery(narrow).where;
    forall s ensures Conj(pn, s) ==> Conj(pw, s) {
      NarrowerMatchNarrowerConj(wide, narrow, s);
    }
    FilterNarrows(rows, pw, pn);
    assert |multiset(Filter(rows, pn))| <= |multiset(Filter(rows, pw))|;
  }

  /** The filter fields of a request: everything but paging and ordering. */
  function FiltersOf(dto: ShipDTO): ShipDTO {
    dto.(pageNumber := None, pageSize := None, orderBy := None)
  }

  /** Two requests whose filters accept the same ships select the same rows. */
  lemma SameMatchesSameRows(rows: seq<Ship>, d1: ShipDTO, d2: ShipDTO)
    requires forall s :: Matches(d1, s) == Matches(d2, s)
    ensures Filter(rows, PrepareQuery(d1).where) == Filter(rows, PrepareQuery(d2).where)
  {
    forall s ensures Conj(PrepareQuery(d1).where, s) == Conj(PrepareQuery(d2).where, s) {
      SameMatchSameConj(d1, d2, s);
    }
    FilterSameMeaning(rows, PrepareQuery(d1).where, PrepareQuery(d2).where);
  }

  /** Two requests with the same filter parameters select the same rows. */
  lemma SameFiltersSameRows(rows: seq<Ship>, d1: ShipDTO, d2: ShipDTO)
    requires FiltersOf(d1) == FiltersOf(d2)
    ensures Filter(rows, PrepareQuery(d1).where) == Filter(rows, PrepareQuery(d2).where)
  {
    assert FiltersOf(d1).name == d1.name && FiltersOf(d2).name == d2.name;
    forall s ensures Matches(d1, s) == Matches(d2, s) {
    }
    SameMatchesSameRows(rows, d1, d2);
  }

  /** The count depends on the filters only, never on page number, page size or sort key. */
  lemma CountIgnoresPagingAndOrder(rows: seq<Ship>, d1: ShipDTO, d2: ShipDTO)
    requires FiltersOf(d1) == FiltersOf(d2)
    ensures Count(rows, d1) == Count(rows, d2)
  {
    SameFiltersSameRows(rows, d1, d2);
  }

  /** An empty name is ignored exactly like an absent one: both select the same rows. */
  lemma EmptyNameIsNoFilter(rows: seq<Ship>, empty: ShipDTO, absent: ShipDTO)
    requires empty.name == Some("") && absent == empty.(name := None)
    ensures Filter(rows, PrepareQuery(empty).where) == Filter(rows, PrepareQuery(absent).where)
  {
    forall s ensures Matches(empty, s) == Matches(absent, s) {
      assert !IsValidString(empty.name) && !IsValidString(absent.name);
      assert ExactFiltersMatch(empty, s) == ExactFiltersMatch(absent, s);
      assert RangeFiltersMatch(empty, s) == RangeFiltersMatch(absent, s);
    }
    SameMatchesSameRows(rows, empty, absent);
  }

  /** An empty planet is ignored exactly like an absent one: both select the same rows. */
  lemma EmptyPlanetIsNoFilter(rows: seq<Ship>, empty: ShipDTO, absent: ShipDTO)
    requires empty.planet == Some("") && absent == empty.(planet := None)
    ensures Filter(rows, PrepareQuery(empty).where) == Filter(rows, PrepareQuery(absent).where)
  {
    forall s ensures Matches(empty, s) == Matches(absent, s) {
      assert !IsValidString(empty.planet) && !IsValidString(absent.planet);
      assert ExactFiltersMatch(empty, s) == ExactFiltersMatch(absent, s);
      assert RangeFiltersMatch(empty, s) == RangeFiltersMatch(absent, s);
    }
    SameMatchesSameRows(rows, empty, absent);
  }

  /** A slice of rows sorted by `o` is sorted by `o`. */
  lemma SortedSlice(rows: seq<Ship>, o: ShipOrder, lo: int, hi: int)
    requires SortedBy(rows, o) && 0 <= lo <= hi <= |rows|
    ensures SortedBy(rows[lo..hi], o)
  {
    var r := rows[lo..hi];
    forall i, j | 0 <= i < j < |r| ensures Key(r[i], o) <= Key(r[j], o) {
      assert r[i] == rows[lo + i] && r[j] == rows[lo + j];
    }
  }

  /**
   * A search returns a contiguous run of the ordered matches: its `i`-th
   * ship is match number `pageNumber * pageSize + i`.
   */
  lemma SearchWindow(rows: seq<Ship>, dto: ShipDTO)
    requires PageArgsOk(dto)
    ensures forall i :: 0 <= i < |Search(rows, dto)| ==> Search(rows, dto)[i] == Matching(rows, dto)[Offset(dto) + i]
  {
    assert Search(rows, dto) == Page(Matching(rows, dto), Offset(dto), PageSizeOf(dto));
  }

  /**
   * A search returns `min(pageSize, max(0, count - pageNumber * pageSize))`
   * ships: the ordering keeps every match.
   */
  lemma SearchLength(rows: seq<Ship>, dto: ShipDTO)
    requires PageArgsOk(dto)
    ensures |Matching(rows, dto)| == Count(rows, dto)
    ensures |Search(rows, dto)| == Min(PageSizeOf(dto), Max(0, Count(rows, dto) - Offset(dto)))
  {
    MatchingLength(rows, dto);
    PageOfMatchingLength(rows, dto);
  }

  /** Ordering keeps every filtered row. */
  lemma MatchingLength(rows: seq<Ship>, dto: ShipDTO)
    ensures |Matching(rows, dto)| == Count(rows, dto)
  {
  }

  /** The page cut from the ordered matches. */
  lemma PageOfMatchingLength(rows: seq<Ship>, dto: ShipDTO)
    requires PageArgsOk(dto)
    ensures |Search(rows, dto)| == Min(PageSizeOf(dto), Max(0, |Matching(rows, dto)| - Offset(dto)))
  {
  }

  /** Every ship a search returns is a stored row that passes every present filter. */
  lemma SearchMembers(rows: seq<Ship>, dto: ShipDTO)
    requires PageArgsOk(dto)
    ensures forall s :: s in Search(rows, dto) ==> s in rows && Matches(dto, s)
  {
    var all, page := Matching(rows, dto), Search(rows, dto);
    SearchWindow(rows, dto);
    forall s | s in page ensures s in rows && Matches(dto, s) {
      assert s in all;
      assert s in multiset(all);
      QueryMeaning(dto, s);
    }
  }

  /**
   * With a sort key the page is ascending by it; without one the matches
   * keep the rows' natural order.
   */
  lemma SearchOrder(rows: seq<Ship>, dto: ShipDTO)
    requires PageArgsOk(dto)
    ensures dto.orderBy.None? ==> Matching(rows, dto) == Filter(rows, PrepareQuery(dto).where)
    ensures dto.orderBy.Some? ==> SortedBy(Search(rows, dto), dto.orderBy.value)
  {
    if dto.orderBy.Some? {
      var all, page := Matching(rows, dto), Search(rows, dto);
      var lo := Min(Offset(dto), |all|);
      var hi := Min(Offset(dto) + PageSizeOf(dto), |all|);
      PageIsSlice(all, Offset(dto), PageSizeOf(dto));
      SortedSlice(all, dto.orderBy.value, lo, hi);
    }
  }

  /**
   * Without a sort key the matches keep the rows' natural order: the
   * matches among earlier rows come before those among later rows.
   */
  lemma UnsortedKeepsRowOrder(a: seq<Ship>, b: seq<Ship>, dto: ShipDTO)
    requires dto.orderBy.None?
    ensures Matching(a + b, dto) == Matching(a, dto) + Matching(b, dto)
  {
    FilterConcat(a, b, PrepareQuery(dto).where);
  }

  /** Absent paging arguments behave exactly like page 0 of size 3. */
  lemma AbsentPagingIsFirstPageOfThree(rows: seq<Ship>, dto: ShipDTO, explicit: ShipDTO)
    requires dto.pageNumber.None? && dto.pageSize.None?
    requires explicit == dto.(pageNumber := Some(0), pageSize := Some(3))
    ensures Search(rows, dto) == Search(rows, explicit)
  {
    SameFiltersSameRows(rows, dto, explicit);
    assert PrepareQuery(dto).orderBy == PrepareQuery(explicit).orderBy;
    assert Matching(rows, dto) == Matching(rows, explicit);
    assert Offset(dto) == 0 == Offset(explicit);
    assert PageSizeOf(dto) == 3 == PageSizeOf(explicit);
  }

  /** Without paging arguments a search returns the first three matches, or all if fewer. */
  lemma DefaultPageIsFirstThree(rows: seq<Ship>, dto: ShipDTO)
    requires dto.pageNumber.None? && dto.pageSize.None?
    ensures Search(rows, dto) == Matching(rows, dto)[..Min(3, Count(rows, dto))]
  {
    var all := Matching(rows, dto);
    assert Offset(dto) == 0 && PageSizeOf(dto) == 3 by {
      assert PageNumberOf(dto) == 0;
    }
    assert Search(rows, dto) == Page(all, 0, 3);
    SearchLength(rows, dto);
    PageIsSlice(all, 0, 3);
  }

  /** Page 1 of size 3 holds the 4th to 6th matches. */
  lemma SecondPageOfThree(rows: seq<Ship>, dto: ShipDTO)
    requires dto.pageNumber == Some(1) && dto.pageSize == Some(3)
    requires Count(rows, dto) >= 6
    ensures Search(rows, dto) == Matching(rows, dto)[3..6]
  {
    var all := Matching(rows, dto);
    assert Offset(dto) == 3 && PageSizeOf(dto) == 3 by {
      assert PageNumberOf(dto) == 1;
    }
    assert Search(rows, dto) == Page(all, 3, 3);
    SearchLength(rows, dto);
    PageIsSlice(all, 3, 3);
  }

  /**
   * The count equals the length of the same search with the first page
   * made large enough to hold every row.
   */
  lemma CountIsUnpagedSearchLength(rows: seq<Ship>, dto: ShipDTO)
    ensures Count(rows, dto) == |Search(rows, dto.(pageNumber := Some(0), pageSize := Some(|rows|)))|
  {
    var unpaged := dto.(pageNumber := Some(0), pageSize := Some(|rows|));
    assert Offset(unpaged) == 0 && PageSizeOf(unpaged) == |rows| by {
      assert PageNumberOf(unpaged) == 0;
    }
    SameFiltersSameRows(rows, dto, unpaged);
    assert Count(rows, dto) == Count(rows, unpaged) <= |rows|;
    SearchLength(rows, unpaged);
  }
}
