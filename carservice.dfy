/** CarServiceImpl: adding (with merging of identical cars), reading,
    updating and deleting cars. */
module CarService {
  import opened Wrappers
  import opened Strings
  import opened JavaInts
  import opened TypeNames
  import opened Entities
  import opened Queries
  import opened Repositories

  /** The key `findByModelAndBrandAndTypeAndDailyPrice` matches on. */
  predicate SameOffer(car: Car, model: string, brand: string, carType: TypeName, dailyPrice: real) {
    car.model == model && car.brand == brand && car.carType == carType && car.dailyPrice == dailyPrice
  }

  /** `findByModelAndBrandAndTypeAndDailyPrice`: the live cars that match. */
  function MatchingCars(cars: seq<Car>, deleted: set<int>, model: string, brand: string,
                        carType: TypeName, dailyPrice: real): (out: seq<Car>)
    ensures forall c :: c in out <==> c in cars && c.id !in deleted && SameOffer(c, model, brand, carType, dailyPrice)
  {
    var keep := (c: Car) => c.id !in deleted && SameOffer(c, model, brand, carType, dailyPrice);
    FilterMembers(cars, keep);
    Filter(cars, keep)
  }

  /** CarMapper's `mapType`: `TypeName.fromString`, then the type's row must
      exist; either failure is an IllegalArgumentException. */
  function MapType(catalog: Catalog, name: string): (r: Result<TypeName>)
    ensures r.Ok? <==> FromString(name).Ok? && FromString(name).value in catalog.carTypes
    ensures r.Ok? ==> r.value == FromString(name).value
    ensures r.Err? ==> r.error == IllegalArgument
  {
    match FromString(name)
    case Ok(t) => if t in catalog.carTypes then Ok(t) else Err(IllegalArgument)
    case Err(e) => Err(e)
  }

  /** The outcome of `addNewCar` once the request's type is resolved to
      `carType`, relating the table before (`cars`, `deleted`, `nextId`) to
      the table after (`cars'`, `nextId'`). A single live car with the same
      model, brand, type and price takes the new units (Java `int`
      addition); with none, one new car is stored; two or more make the
      Optional-returning query fail and nothing changes. */
  ghost predicate OfferStored(cars: seq<Car>, deleted: set<int>, nextId: int, req: CarRequest,
                              carType: TypeName, cars': seq<Car>, nextId': int, r: Result<Car>) {
    var matches := MatchingCars(cars, deleted, req.model, req.brand, carType, req.dailyPrice);
    && (|matches| > 1 ==> r == Err(IncorrectResultSize) && cars' == cars && nextId' == nextId)
    && (|matches| == 1 ==>
          && IndexOfCar(cars, matches[0].id).Some?
          && r == Ok(matches[0].(availableCars := Wrap32(matches[0].availableCars + req.availableCars)))
          && cars' == cars[IndexOfCar(cars, matches[0].id).value := r.value]
          && nextId' == nextId)
    && (matches == [] ==>
          && r == Ok(Car(nextId, req.model, req.brand, carType, req.availableCars, req.dailyPrice))
          && cars' == cars + [r.value]
          && nextId' == nextId + 1)
  }

  /** The save step of `addNewCar`: merge into the one matching car, or
      store a new one. */
  method StoreOffer(repo: CarRepository, req: CarRequest, carType: TypeName) returns (r: Result<Car>)
    requires repo.Valid()
    modifies repo
    ensures repo.Valid() && repo.deleted == old(repo.deleted) && |repo.cars| >= |old(repo.cars)|
    ensures forall k :: 0 <= k < |old(repo.cars)| ==> repo.cars[k].id == old(repo.cars)[k].id
    ensures OfferStored(old(repo.cars), old(repo.deleted), old(repo.nextId), req, carType,
                        repo.cars, repo.nextId, r)
  {
    ghost var cars, nextId := repo.cars, repo.nextId;
    var matches := MatchingCars(repo.cars, repo.deleted, req.model, req.brand, carType, req.dailyPrice);
    if |matches| > 1 {
      r := Err(IncorrectResultSize);
      assert OfferStored(cars, repo.deleted, nextId, req, carType, repo.cars, repo.nextId, r);
      return;
    }
    if |matches| == 1 {
      var existing := matches[0];
      assert existing in repo.cars;
      var k := IndexOfCar(repo.cars, existing.id).value;
      var merged := existing.(availableCars := Wrap32(existing.availableCars + req.availableCars));
      SameIdsKeepOrder(repo.cars, repo.cars[k := merged], repo.nextId);
      repo.cars := repo.cars[k := merged];
      r := Ok(merged);
      assert OfferStored(cars, repo.deleted, nextId, req, carType, repo.cars, repo.nextId, r);
      return;
    }
    var car := Car(repo.nextId, req.model, req.brand, carType, req.availableCars, req.dailyPrice);
    AppendKeepsOrder(repo.cars, car);
    repo.cars := repo.cars + [car];
    repo.nextId := repo.nextId + 1;
    r := Ok(car);
    assert OfferStored(cars, repo.deleted, nextId, req, carType, repo.cars, repo.nextId, r);
  }

  /** `addNewCar`: CarMapper resolves the type (IllegalArgumentException when
      it cannot), then the offer is merged or stored. */
  method AddNewCar(repo: CarRepository, catalog: Catalog, req: CarRequest) returns (r: Result<Car>)
    requires repo.Valid() && ValidCarRequest(req)
    modifies repo
    ensures repo.Valid() && repo.deleted == old(repo.deleted) && |repo.cars| >= |old(repo.cars)|
    ensures forall k :: 0 <= k < |old(repo.cars)| ==> repo.cars[k].id == old(repo.cars)[k].id
    ensures MapType(catalog, req.carType).Err? ==> (r == Err(IllegalArgument) && unchanged(repo))
    ensures MapType(catalog, req.carType).Ok? ==>
              OfferStored(old(repo.cars), old(repo.deleted), old(repo.nextId), req,
                          MapType(catalog, req.carType).value, repo.cars, repo.nextId, r)
  {
    var mapped := MapType(catalog, req.carType);
    if mapped.Err? {
      return Err(mapped.error);
    }
    r := StoreOffer(repo, req, mapped.value);
  }

  /** Rewriting rows without touching their ids keeps the table's id order. */
  lemma SameIdsKeepOrder(cars: seq<Car>, cars': seq<Car>, nextId: int)
    requires CarIdsIncrease(cars) && (forall c :: c in cars ==> c.id < nextId)
    requires |cars'| == |cars| && forall k :: 0 <= k < |cars| ==> cars'[k].id == cars[k].id
    ensures CarIdsIncrease(cars') && (forall c :: c in cars' ==> c.id < nextId)
  {
    forall c | c in cars' ensures c.id < nextId {
      var k :| 0 <= k < |cars'| && cars'[k] == c;
      assert cars[k] in cars;
    }
  }

  /** Appending a row whose id exceeds every stored id keeps the id order. */
  lemma AppendKeepsOrder(cars: seq<Car>, car: Car)
    requires CarIdsIncrease(cars) && (forall c :: c in cars ==> c.id < car.id)
    ensures CarIdsIncrease(cars + [car]) && (forall c :: c in cars + [car] ==> c.id <= car.id)
  {
    forall i, j | 0 <= i < j < |cars + [car]| ensures (cars + [car])[i].id < (cars + [car])[j].id {
      if j == |cars| {
        assert (cars + [car])[i] in cars;
      }
    }
  }

  /** After a car with a new offer is stored, that offer matches exactly the
      stored car, so adding it again merges instead of storing a second car. */
  lemma {:induction false} StoredOfferMatchesOnce(cars: seq<Car>, deleted: set<int>, car: Car)
    requires car.id !in deleted
    requires MatchingCars(cars, deleted, car.model, car.brand, car.carType, car.dailyPrice) == []
    ensures MatchingCars(cars + [car], deleted, car.model, car.brand, car.carType, car.dailyPrice) == [car]
  {
    var keep := (c: Car) => c.id !in deleted && SameOffer(c, car.model, car.brand, car.carType, car.dailyPrice);
    FilterAppend(cars, car, keep);
  }

  /** Merging units into a car whose count plus the request's passes
      `IntMax` stores a negative `availableCars`: the Java `int` sum wraps. */
  lemma {:induction false} OverflowingMergeStoresNegative(cars: seq<Car>, deleted: set<int>, nextId: int,
                                                          req: CarRequest, carType: TypeName,
                                                          cars': seq<Car>, nextId': int, r: Result<Car>)
    requires ValidCarRequest(req)
    requires OfferStored(cars, deleted, nextId, req, carType, cars', nextId', r)
    requires var matches := MatchingCars(cars, deleted, req.model, req.brand, carType, req.dailyPrice);
             |matches| == 1 && 0 < matches[0].availableCars <= IntMax
             && matches[0].availableCars + req.availableCars > IntMax
    ensures r.Ok? && r.value.availableCars < 0 && r.value in cars'
  {
    var matches := MatchingCars(cars, deleted, req.model, req.brand, carType, req.dailyPrice);
    PositiveOverflowGoesNegative(matches[0].availableCars, req.availableCars);
    assert cars'[IndexOfCar(cars, matches[0].id).value] == r.value;
  }

  /** `updateCarById` may give live car `j` the offer of another live car
      `i`: from then on the two match together, so adding that offer again
      is the "more than one result" failure and stores nothing. */
  lemma {:induction false} UpdatedDuplicateBlocksAdd(cars: seq<Car>, deleted: set<int>, i: nat, j: nat,
                                                     car: Car, nextId: int, req: CarRequest, carType: TypeName,
                                                     cars': seq<Car>, nextId': int, r: Result<Car>)
    requires CarIdsIncrease(cars) && i < |cars| && j < |cars| && i != j
    requires cars[i].id !in deleted && cars[j].id !in deleted && car.id == cars[j].id
    requires SameOffer(cars[i], req.model, req.brand, carType, req.dailyPrice)
    requires SameOffer(car, req.model, req.brand, carType, req.dailyPrice)
    requires OfferStored(cars[j := car], deleted, nextId, req, carType, cars', nextId', r)
    ensures r == Err(IncorrectResultSize) && cars' == cars[j := car] && nextId' == nextId
  {
    var updated := cars[j := car];
    var matches := MatchingCars(updated, deleted, req.model, req.brand, carType, req.dailyPrice);
    assert updated[i] in updated && updated[j] in updated;
    assert updated[i] in matches && car in matches;
    assert updated[i].id != car.id by {
      if i < j { assert cars[i].id < cars[j].id; } else { assert cars[j].id < cars[i].id; }
    }
  }

  /** A table of one car of another model has no match for an offer. */
  lemma OtherModelMatchesNothing(car: Car, deleted: set<int>, model: string, brand: string,
                                 carType: TypeName, dailyPrice: real)
    requires car.model != model
    ensures MatchingCars([car], deleted, model, brand, carType, dailyPrice) == []
  {
    var keep := (c: Car) => c.id !in deleted && SameOffer(c, model, brand, carType, dailyPrice);
    FilterAppend([], car, keep);
    assert [] + [car] == [car];
  }

  /** The request checks do not look at the model. */
  lemma RenameKeepsValid(req: CarRequest, model: string)
    requires ValidCarRequest(req)
    ensures ValidCarRequest(req.(model := model))
  {
  }

  /** The first two steps of `UpdateThenAddHitsDuplicate`: on an empty
      table, `offer` and then the same offer under another `model` are two
      new cars. */
  method AddTwoModels(catalog: Catalog, offer: CarRequest, model: string)
    returns (repo: CarRepository, first: Car, second: Car)
    requires ValidCarRequest(offer) && model != offer.model && MapType(catalog, offer.carType).Ok?
    ensures fresh(repo) && repo.Valid() && repo.deleted == {}
    ensures repo.cars == [first, second] && first.id < second.id
    ensures SameOffer(first, offer.model, offer.brand, MapType(catalog, offer.carType).value, offer.dailyPrice)
  {
    repo := new CarRepository();
    var a := AddNewCar(repo, catalog, offer);
    assert repo.cars == [a.value] && repo.deleted == {};
    var other := offer.(model := model);
    assert other.carType == offer.carType;
    OtherModelMatchesNothing(a.value, repo.deleted, other.model, other.brand,
                             MapType(catalog, other.carType).value, other.dailyPrice);
    RenameKeepsValid(offer, model);
    var b := AddNewCar(repo, catalog, other);
    first, second := a.value, b.value;
  }

  /** The duplicate branch reached through the service alone: on an empty
      table, `offer` and the same offer under another `model` are added, the
      second car is updated to `offer`, and adding `offer` again then fails.
      The type name must resolve to the same catalogued type under both the
      lenient `fromString` and the strict `valueOf` ("SUV" does). */
  method UpdateThenAddHitsDuplicate(catalog: Catalog, offer: CarRequest, model: string) returns (r: Result<Car>)
    requires ValidCarRequest(offer) && model != offer.model
    requires MapType(catalog, offer.carType).Ok? && ValueOf(offer.carType) == MapType(catalog, offer.carType)
    ensures r == Err(IncorrectResultSize)
  {
    var repo, first, second := AddTwoModels(catalog, offer, model);
    ghost var before, carType := repo.cars, MapType(catalog, offer.carType).value;
    var u := UpdateCarById(repo, catalog, second.id, offer);
    assert u.Ok? && repo.cars == before[1 := u.value];
    ghost var nextId := repo.nextId;
    r := AddNewCar(repo, catalog, offer);
    UpdatedDuplicateBlocksAdd(before, repo.deleted, 0, 1, u.value, nextId, offer, carType,
                              repo.cars, repo.nextId, r);
  }

  /** `getSingleCarInfo`. */
  method GetSingleCarInfo(repo: CarRepository, id: int) returns (r: Result<Car>)
    requires repo.Valid()
    ensures r.Ok? <==> id !in repo.deleted && exists c :: c in repo.cars && c.id == id
    ensures r.Ok? ==> r.value in repo.cars && r.value.id == id
    ensures r.Err? ==> r.error == EntityNotFound
  {
    var k := repo.FindLive(id);
    if k.None? {
      return Err(EntityNotFound);
    }
    return Ok(repo.cars[k.value]);
  }

  /** `updateCarById`: the type is resolved with the case-sensitive
      `TypeName.valueOf`, and all five fields are overwritten (the unit count
      is set, not added); the id stays. */
  method UpdateCarById(repo: CarRepository, catalog: Catalog, id: int, req: CarRequest) returns (r: Result<Car>)
    requires repo.Valid() && ValidCarRequest(req)
    modifies repo
    ensures repo.Valid() && repo.deleted == old(repo.deleted) && repo.nextId == old(repo.nextId)
    ensures old(repo.FindLive(id)).None? ==> r == Err(EntityNotFound) && unchanged(repo)
    ensures old(repo.FindLive(id)).Some? && ValueOf(req.carType).Err? ==> r == Err(IllegalArgument) && unchanged(repo)
    ensures (old(repo.FindLive(id)).Some? && ValueOf(req.carType).Ok?
             && ValueOf(req.carType).value !in catalog.carTypes) ==> r == Err(EntityNotFound) && unchanged(repo)
    ensures r.Ok? <==> old(repo.FindLive(id)).Some? && ValueOf(req.carType).Ok?
                       && ValueOf(req.carType).value in catalog.carTypes
    ensures r.Ok? ==> r.value == Car(id, req.model, req.brand, ValueOf(req.carType).value,
                                     req.availableCars, req.dailyPrice)
                      && repo.cars == old(repo.cars)[old(repo.FindLive(id)).value := r.value]
  {
    var k := repo.FindLive(id);
    if k.None? {
      return Err(EntityNotFound);
    }
    var byName := ValueOf(req.carType);
    if byName.Err? {
      return Err(IllegalArgument);
    }
    if byName.value !in catalog.carTypes {
      return Err(EntityNotFound);
    }
    var car := repo.cars[k.value].(model := req.model, brand := req.brand, carType := byName.value,
                                   availableCars := req.availableCars, dailyPrice := req.dailyPrice);
    repo.cars := repo.cars[k.value := car];
    return Ok(car);
  }

  /** The reply of `deleteCarById`, sent whether or not a live car had the id. */
  function DeletedMessage(id: int): string {
    "Car with id: " + IntToString(id) + " was deleted"
  }

  /** `deleteCarById`: a soft delete of a live car; an unknown id is ignored.
      The reply is the same either way. */
  method DeleteCarById(repo: CarRepository, id: int) returns (msg: string)
    requires repo.Valid()
    modifies repo
    ensures repo.Valid() && repo.cars == old(repo.cars) && repo.nextId == old(repo.nextId)
    ensures repo.deleted == if old(repo.FindLive(id)).Some? then old(repo.deleted) + {id} else old(repo.deleted)
    ensures repo.FindLive(id).None?
    ensures msg == "Car with id: " + IntToString(id) + " was deleted"
  {
    if repo.FindLive(id).Some? {
      repo.deleted := repo.deleted + {id};
    }
    msg := DeletedMessage(id);
  }
}
