# Space-ship catalog: search and CRUD logic in Dafny

This project models the core of a small REST catalog of space ships.

- The **service** keeps the ships in a store. It answers searches that filter, sort and page the ships, and it counts matches.
- The **controller** turns HTTP requests into service calls and answers 200, 400 or 404.

The store is a class over `map<int, Ship>` plus the ids in natural row order. A search goes through a pure pipeline over `seq<Ship>`:

1. Prepare: each present request parameter conjoins one constraint onto a running predicate, which starts as the empty conjunction.
2. Filter: keep the rows that satisfy every constraint.
3. Order: sort ascending when a sort key is given.
4. Page: skip `pageNumber * pageSize` rows and take at most `pageSize`. The defaults are page 0 and size 3.

The count uses the same predicate and ignores ordering and paging.

Files:

- `wrappers.dfy`: `Option`, which stands for Java's nullable references and `Optional`.
- `ship_model.dfy`: `Ship`, `ShipType`, `ShipOrder`, and the sort key of a ship.
- `ship_query.dfy`: the request (`ShipDTO`, fifteen optional parameters), the constraints, the prepared query, and the filter/order/page pipeline. It also holds `Matches`, a flat parameter-by-parameter reference definition of the filters, which the prepared query is proved equivalent to.
- `ship_service.dfy`: the store (`ShipServiceImpl`) and its search, count, save, delete and update operations.
- `ship_controller.dfy`: the handlers (`ShipController`) and their `Ok` / `BadRequest` / `NotFound` outcomes.

Collaborators that are not modelled are passed in as parameters:

- **Entity validation.** `validate` and `isValidForUpdate` are predicates on a `Ship`.
- **Partial-update overlay.** `update` is a function of the stored ship and the payload.
- **Id generator.** `newId` is a fresh positive id.

## Model

| member | source | states |
|---|---|---|
| ShipQuery.AndPresent | src/main/java/com/space/service/ShipServiceImpl.java:63-112 | conjoining keeps the running predicate as a prefix and adds at most `|fs|` constraints in all |
| ShipQuery.AndPresentMeaning | src/main/java/com/space/service/ShipServiceImpl.java:63-112 | a ship satisfies the conjoined predicate iff it satisfies the predicate it started from and the constraint of every present parameter |
| ShipQuery.MatchesParam | src/main/java/com/space/service/ShipServiceImpl.java:66-112 | `ConstraintFor`: a ship accepted by the reference filters satisfies the constraint each single parameter contributes; the `AllParamsMatch` lemmas give the converse |
| ShipQuery.MatchesAllParams | src/main/java/com/space/service/ShipServiceImpl.java:66-112 | a ship accepted by the reference filters satisfies every present parameter's constraint |
| ShipQuery.AllParamsMatchText | src/main/java/com/space/service/ShipServiceImpl.java:66-72 | the name and planet constraints give substring containment, applied only for non-empty strings |
| ShipQuery.AllParamsMatchExact | src/main/java/com/space/service/ShipServiceImpl.java:74-88 | the ship-type and used-flag constraints give exact equality |
| ShipQuery.AllParamsMatchProdDate | src/main/java/com/space/service/ShipServiceImpl.java:78-84 | `after` and `before` are inclusive bounds on the production date, each applied on its own |
| ShipQuery.AllParamsMatchSpeed | src/main/java/com/space/service/ShipServiceImpl.java:90-96 | min/max speed are inclusive bounds, each applied on its own |
| ShipQuery.AllParamsMatchCrewSize | src/main/java/com/space/service/ShipServiceImpl.java:98-104 | min/max crew size are inclusive bounds, each applied on its own |
| ShipQuery.AllParamsMatchRating | src/main/java/com/space/service/ShipServiceImpl.java:106-112 | min/max rating are inclusive bounds, each applied on its own |
| ShipQuery.AllParamsMatchRange | src/main/java/com/space/service/ShipServiceImpl.java:78-112 | the bound constraints together give all the range filters |
| ShipQuery.PrepareQuery | src/main/java/com/space/service/ShipServiceImpl.java:59-122 | the prepared query carries the request's sort key unchanged and at most twelve constraints in all |
| ShipQuery.QueryMeaning | src/main/java/com/space/service/ShipServiceImpl.java:63-114 | a ship satisfies the prepared predicate iff it passes every filter whose parameter is present; absent parameters impose nothing |
| ShipQuery.SameMatchSameConj | src/main/java/com/space/service/ShipServiceImpl.java:63-114 | requests that agree on a ship under the reference filters agree on it after preparation |
| ShipQuery.NarrowerMatchNarrowerConj | src/main/java/com/space/service/ShipServiceImpl.java:63-114 | a request that accepts a ship only when another does keeps that relation after preparation |
| ShipQuery.Filter | src/main/java/com/space/service/ShipServiceImpl.java:114 | the selected rows are a sub-multiset of the rows, and a ship is selected iff it is a row that satisfies the predicate |
| ShipQuery.FilterConcat | src/main/java/com/space/service/ShipServiceImpl.java:114 | filtering a concatenation gives the filtered first part followed by the filtered second part, so the selected rows keep their relative order |
| ShipQuery.FilterSameMeaning | src/main/java/com/space/service/ShipServiceImpl.java:114 | predicates that accept the same ships select the same rows in the same order |
| ShipQuery.FilterNarrows | src/main/java/com/space/service/ShipServiceImpl.java:114 | a predicate that implies another selects a sub-multiset of that one's rows |
| ShipQuery.SortedCons | src/main/java/com/space/service/ShipServiceImpl.java:116-118 | a row whose key is at most every key of a sorted sequence may be put in front and keep it sorted |
| ShipQuery.HeadBoundsInsert | src/main/java/com/space/service/ShipServiceImpl.java:116-118 | the head of a sorted sequence bounds every row of its tail after a larger-keyed row is added |
| ShipQuery.Insert | src/main/java/com/space/service/ShipServiceImpl.java:116-118 | inserting into a sorted sequence keeps it sorted and adds exactly that ship |
| ShipQuery.SortBy | src/main/java/com/space/service/ShipServiceImpl.java:116-118 | the result is ascending by the key and a permutation of the rows |
| ShipQuery.Order | src/main/java/com/space/service/ShipServiceImpl.java:116-118 | with a key the rows come out as an ascending permutation; without one they are returned unchanged |
| ShipQuery.Page | src/main/java/com/space/service/ShipServiceImpl.java:135-137 | the page holds `min(pageSize, max(0, n - offset))` rows, the `i`-th being row `offset + i` |
| ShipQuery.PageIsSlice | src/main/java/com/space/service/ShipServiceImpl.java:135-137 | a page is the contiguous slice of the rows that the window covers |
| ShipQuery.AddingFiltersNarrows | src/main/java/com/space/service/ShipServiceImpl.java:63-112 | making more filter parameters present never adds a row to the matches or raises the count |
| ShipQuery.SameMatchesSameRows | src/main/java/com/space/service/ShipServiceImpl.java:59-114 | requests whose filters accept the same ships select the same rows |
| ShipQuery.SameFiltersSameRows | src/main/java/com/space/service/ShipServiceImpl.java:59-114 | requests that differ only in paging and sort key select the same rows |
| ShipQuery.CountIgnoresPagingAndOrder | src/main/java/com/space/service/ShipServiceImpl.java:37-41 | the count does not depend on page number, page size or sort key |
| ShipQuery.EmptyNameIsNoFilter | src/main/java/com/space/service/ShipServiceImpl.java:142-144 | `IsValidString`: a present but empty name counts as absent (:66-68), so it selects exactly the rows an absent name does |
| ShipQuery.EmptyPlanetIsNoFilter | src/main/java/com/space/service/ShipServiceImpl.java:70-72 | an empty planet selects exactly the rows an absent planet does |
| ShipQuery.SortedSlice | src/main/java/com/space/service/ShipServiceImpl.java:135-137 | a window cut from sorted rows is sorted |
| ShipQuery.SearchWindow | src/main/java/com/space/service/ShipServiceImpl.java:135-137 | `Offset`: the `i`-th ship of a page is match number `pageNumber * pageSize + i` |
| ShipQuery.MatchingLength | src/main/java/com/space/service/ShipServiceImpl.java:37-41 | `Count`: ordering keeps every filtered row, so the count is the number of ordered matches |
| ShipQuery.PageOfMatchingLength | src/main/java/com/space/service/ShipServiceImpl.java:127-137 | the page length is `min(pageSize, max(0, matches - offset))` under the defaulted paging arguments |
| ShipQuery.SearchLength | src/main/java/com/space/service/ShipServiceImpl.java:124-140 | `Search`: there are as many ordered matches as the count, and a search returns `min(pageSize, max(0, count - pageNumber * pageSize))` of them |
| ShipQuery.SearchMembers | src/main/java/com/space/service/ShipServiceImpl.java:124-140 | every ship a search returns is a stored row that passes every present filter |
| ShipQuery.SearchOrder | src/main/java/com/space/service/ShipServiceImpl.java:116-118 | `Key`: with a sort key the page is ascending by the column it names; without one the matches are exactly the filtered rows, unsorted |
| ShipQuery.UnsortedKeepsRowOrder | src/main/java/com/space/service/ShipServiceImpl.java:116-118 | without a sort key the matches among earlier rows come before those among later rows: the natural row order is kept |
| ShipQuery.AbsentPagingIsFirstPageOfThree | src/main/java/com/space/service/ShipServiceImpl.java:127-133 | `PageSizeOf` / `PageNumberOf`: a request without paging arguments returns exactly what page 0 of size 3 returns |
| ShipQuery.DefaultPageIsFirstThree | src/main/java/com/space/service/ShipServiceImpl.java:127-133 | with no paging arguments a search returns the first three matches, or all of them if fewer |
| ShipQuery.SecondPageOfThree | src/main/java/com/space/service/ShipServiceImpl.java:135-137 | page 1 of size 3 holds matches 3 to 5 (0-based) |
| ShipQuery.CountIsUnpagedSearchLength | src/main/java/com/space/service/ShipServiceImpl.java:37-41 | the count equals the length of the same search with one page large enough for every row |
| ShipService.Without | src/main/java/com/space/service/ShipServiceImpl.java:50-52 | removing an id from the row order keeps every other id and no duplicates |
| ShipService.WithoutConcat | src/main/java/com/space/service/ShipServiceImpl.java:50-52 | removing an id from a concatenation removes it from each part, so the remaining ids keep their row order |
| ShipService.RowsOfCoversStore | src/main/java/com/space/service/ShipServiceImpl.java:135 | when the row order lists every stored id, the rows it yields are exactly the stored ships |
| ShipService.ShipServiceImpl.Rows | src/main/java/com/space/service/ShipServiceImpl.java:135 | the table a query runs over holds exactly the stored ships |
| ShipService.ShipServiceImpl.FindById | src/main/java/com/space/service/ShipServiceImpl.java:32-35 | a ship is found iff its id is stored, and the result is the stored ship carrying that id |
| ShipService.ShipServiceImpl.GetShips | src/main/java/com/space/service/ShipServiceImpl.java:124-140 | after filling in the paging defaults, the result is the search over the stored rows, and every ship returned is a stored ship that passes every present filter |
| ShipService.ShipServiceImpl.GetCount | src/main/java/com/space/service/ShipServiceImpl.java:37-41 | the result is the number of stored rows that pass the prepared predicate |
| ShipService.ShipServiceImpl.Save | src/main/java/com/space/service/ShipServiceImpl.java:43-48 | an invalid ship gives `None` and no write; a valid one is stored under the new id, added at the end of the row order and returned, and the store invariant is kept |
| ShipService.ShipServiceImpl.DeleteById | src/main/java/com/space/service/ShipServiceImpl.java:50-52 | exactly that id leaves the store and the row order; the invariant is kept |
| ShipService.ShipServiceImpl.Update | src/main/java/com/space/service/ShipServiceImpl.java:54-57 | the ship overwrites the entry under its own id; row order and every other entry are unchanged |
| ShipControllers.ShipController.FindShips | src/main/java/com/space/controller/ShipController.java:19-31 | always 200, with the search result for the request built from the fifteen parameters |
| ShipControllers.ShipController.FindShipById | src/main/java/com/space/controller/ShipController.java:34-48 | 400 for an id below 1, 404 for an unknown id, else 200 with exactly the stored ship |
| ShipControllers.ShipController.GetCount | src/main/java/com/space/controller/ShipController.java:50-59 | always 200, with the count for the request built from the fifteen parameters |
| ShipControllers.ShipController.Save | src/main/java/com/space/controller/ShipController.java:62-68 | 400 and no write when validation fails, else 200 with the ship the service stored |
| ShipControllers.ShipController.DeleteById | src/main/java/com/space/controller/ShipController.java:70-79 | 400 for an id below 1 and 404 for an unknown id, both with the store unchanged; else 200 and only that id is removed |
| ShipControllers.ShipController.Update | src/main/java/com/space/controller/ShipController.java:81-98 | 400 for an id below 1 or an invalid payload, both before any lookup and with no write; 404 for an unknown id with no write; else the entry becomes the overlay of the payload onto the stored ship, under the same id, with every other entry unchanged |
| ShipControllers.CountIsListLength | src/main/java/com/space/controller/ShipController.java:56-57 | list and count build the same request, so the count equals the length of the list whose single page holds every ship, and every listed ship matches the filters |
| ShipControllers.DeletedShipIsNotFound | src/main/java/com/space/controller/ShipController.java:72-78 | after a successful delete the same id is answered with 404 |

## Left out

- Persistence machinery: the entity manager, criteria builder, repository, Spring annotations and `ResponseEntity`. They are modelled by what they mean: a filter over a sequence, and a three-way response datatype.
- `ShipService.java` holds interface signatures only. The model uses the implementation class directly.
- ShipQuery.QueryMeaning: name and planet are matched as plain substrings. The source builds an SQL `LIKE` pattern `%name%`, in which a `%` or `_` inside the user's string would also act as a wildcard. Whether `LIKE` ignores case is left to the database's collation, and a `\` may act as an escape character there; the model always matches case-sensitively and treats every character literally.
- ShipQuery.Order: the database's order among rows with equal sort keys is not modelled. Only "ascending and a permutation of the matches" is promised. Rows without a sort key come out in the store's row order, standing for the table's natural order.
- ShipService.ShipServiceImpl.GetShips: requires non-negative page number and page size. A negative page size, or a negative page number with a positive page size, makes the source's query call throw, and that error path is not modelled. A negative page number with page size 0 gives offset 0 in the source, which accepts it and returns an empty page; the model excludes that input too. The Java `int` overflow of `pageNumber * pageSize` is not modelled either; the offset is the unbounded product.
- ShipControllers.ShipController.FindShips: requires non-negative paging arguments, for the same reason as `GetShips`.
- ShipService.ShipServiceImpl.Save: the generated id is a parameter `newId`, assumed positive and unused. The storage layer's merge of a payload that already carries a stored id is not modelled: every valid ship is stored as a new row under `newId`.
- ShipService.ShipServiceImpl.DeleteById: deleting a missing id leaves the store unchanged, whereas the repository may raise an error there. The controller only deletes ids it has just found.
- ShipService.ShipServiceImpl.Update: requires the ship's id to be stored already, since the controller only writes back a ship it found. Flush semantics are not modelled.
- ShipControllers.ShipController.Update: requires the overlay `update` to keep the stored ship's id.
  - The source mutates the found entity in place and then saves it. The model computes the updated value and writes it back, so aliasing between the found entity and the stored one is not captured.
- Entity validation (`validate`, `isValidForUpdate`), the partial-update overlay and the rating formula are not part of this model. Their bodies are not in `Ship.java`, so they appear as predicate and function parameters. The request body of an update is a complete `Ship`, so a field the client left out (null in the source) cannot be represented. An update whose fields are all absent, which leaves the stored ship as it is, cannot be expressed either.
- `ShipType` and `ShipOrder` are defined outside the modelled files. They are modelled as the enumeration `Transport | Military | Merchant` and as the sort keys id, speed, production date, crew size and rating.
- Dates are epoch milliseconds (`int`) compared directly; the `java.sql.Date` conversion is not modelled. Speeds and ratings are `real`: they are only compared, never computed.
- Transactions, concurrency between requests and I/O are not modelled.
