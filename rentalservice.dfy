/** RentalServiceImpl: booking, return, ownership and the rental listings. */
module RentalService {
  import opened Wrappers
  import opened Strings
  import opened DateTimes
  import opened JavaInts
  import opened Entities
  import opened Queries
  import opened Repositories
  import opened RentalMapping

  /** Some payment in the list still has the PENDING status. */
  predicate HasPendingPayment(ps: seq<Payment>) {
    exists p :: p in ps && p.status == Pending
  }

  /** The units of a car left over in a requested period: `availableCars`
      minus the overlapping active rentals, in Java int arithmetic. */
  function AvailableInPeriod(car: Car, rs: seq<Rental>, req: RentalRequest): (n: int)
    ensures IsInt(n)
    ensures var active := |ActiveRentalsForCar(rs, car.id, req.returnDate, req.rentalDate)|;
            IsInt(car.availableCars - active) ==> n == car.availableCars - active
  {
    Wrap32(car.availableCars - |ActiveRentalsForCar(rs, car.id, req.returnDate, req.rentalDate)|)
  }

  /** The lines of the Telegram text announcing a new rental; `formatDate`
      is `LocalDateTime.toString`. */
  function NewRentalLines(car: Car, rental: Rental, email: string, formatDate: DateTime -> string): seq<string> {
    ["New rental:", "Car: " + car.brand, "Model: " + car.model, "Date: " + formatDate(rental.rentalDate),
     "Return date: " + formatDate(rental.returnDate), "User: " + email]
  }

  function NewRentalMessage(car: Car, rental: Rental, email: string, formatDate: DateTime -> string): (m: string)
    ensures Contains(m, "Car: " + car.brand) && Contains(m, "Model: " + car.model)
    ensures Contains(m, "Date: " + formatDate(rental.rentalDate))
    ensures Contains(m, "Return date: " + formatDate(rental.returnDate))
    ensures Contains(m, "User: " + email)
    ensures |m| > 12 && m[..12] == "New rental:\n"
  {
    var lines := NewRentalLines(car, rental, email, formatDate);
    JoinLinesContains(lines, 1);
    JoinLinesContains(lines, 2);
    JoinLinesContains(lines, 3);
    JoinLinesContains(lines, 4);
    JoinLinesContains(lines, 5);
    JoinLinesStartsWithFirst(lines);
    JoinLines(lines)
  }

  /** The pending-payment loop of `addNewRental`: the first PENDING payment
      found rejects the booking. */
  method RejectIfPending(ps: seq<Payment>) returns (r: Result<()>)
    ensures r.Err? <==> HasPendingPayment(ps)
    ensures r.Err? ==> r.error == PaymentRejected
  {
    var i := 0;
    while i < |ps|
      invariant 0 <= i <= |ps|
      invariant forall j :: 0 <= j < i ==> ps[j].status != Pending
    {
      if ps[i].status == Pending {
        return Err(PaymentRejected);
      }
      i := i + 1;
    }
    return Ok(());
  }

  /** The transactional tail of `addNewRental`: save the rental, then send
      the message. When the Telegram call throws, the transaction rolls the
      save back and the call fails with `Notification`. */
  method SaveAndNotify(rentals: RentalRepository, log: NotificationLog, rental: Rental,
                       message: string, delivers: string -> bool) returns (r: Result<()>)
    requires rentals.Valid() && rental.id == rentals.nextId
    modifies rentals, log
    ensures rentals.Valid()
    ensures r.Ok? <==> delivers(message)
    ensures !delivers(message) ==> (r == Err(Notification) && unchanged(rentals, log))
    ensures delivers(message) ==>
              && rentals.rentals == old(rentals.rentals) + [rental]
              && rentals.nextId == old(rentals.nextId) + 1
              && log.messages == old(log.messages) + [message]
  {
    var saved, savedNextId := rentals.rentals, rentals.nextId;
    rentals.rentals := rentals.rentals + [rental];
    rentals.nextId := rentals.nextId + 1;
    r := log.Send(message, delivers);
    if r.Err? {
      rentals.rentals, rentals.nextId := saved, savedNextId;
    }
  }

  /** `addNewRental` for the authenticated `current` user. Errors, in order:
      no PENDING status row, a pending payment of the user, no live car with
      the id, no unit left in the period, and the Telegram call failing after
      the save (which rolls the save back). On success exactly one rental is
      appended, one notification is sent, and the car's `availableCars` is
      left as it was. */
  method AddNewRental(cars: CarRepository, rentals: RentalRepository, payments: PaymentRepository,
                      log: NotificationLog, catalog: Catalog, current: User, req: RentalRequest,
                      formatDate: DateTime -> string, delivers: string -> bool)
    returns (r: Result<RentalResponse>)
    requires cars.Valid() && rentals.Valid()
    modifies rentals, log
    ensures rentals.Valid()
    ensures Pending !in catalog.statuses ==> (r == Err(EntityNotFound) && unchanged(rentals, log))
    ensures (Pending in catalog.statuses
             && HasPendingPayment(PaymentsOfUser(payments.payments, old(rentals.rentals), current.id)))
              ==> (r == Err(PaymentRejected) && unchanged(rentals, log))
    ensures (Pending in catalog.statuses
             && !HasPendingPayment(PaymentsOfUser(payments.payments, old(rentals.rentals), current.id))
             && cars.FindLive(req.carId).None?)
              ==> (r == Err(EntityNotFound) && unchanged(rentals, log))
    ensures (Pending in catalog.statuses
             && !HasPendingPayment(PaymentsOfUser(payments.payments, old(rentals.rentals), current.id))
             && cars.FindLive(req.carId).Some?
             && AvailableInPeriod(cars.cars[cars.FindLive(req.carId).value], old(rentals.rentals), req) <= 0)
              ==> (r == Err(NoAvailableCars) && unchanged(rentals, log))
    ensures (Pending in catalog.statuses
             && !HasPendingPayment(PaymentsOfUser(payments.payments, old(rentals.rentals), current.id))
             && cars.FindLive(req.carId).Some?
             && AvailableInPeriod(cars.cars[cars.FindLive(req.carId).value], old(rentals.rentals), req) > 0)
              ==> var car := cars.cars[cars.FindLive(req.carId).value];
                  var rental := Rental(old(rentals.nextId), req.rentalDate, req.returnDate, None, car.id, current.id);
                  var message := NewRentalMessage(car, rental, current.email, formatDate);
                  && (!delivers(message) ==> (r == Err(Notification) && unchanged(rentals, log)))
                  && (delivers(message) ==>
                        && r == Ok(ToDto(rental, car, current))
                        && rentals.rentals == old(rentals.rentals) + [rental]
                        && rentals.nextId == old(rentals.nextId) + 1
                        && log.messages == old(log.messages) + [message])
  {
    var own := PaymentsOfUser(payments.payments, rentals.rentals, current.id);
    if Pending !in catalog.statuses {
      return Err(EntityNotFound);
    }
    var pending := RejectIfPending(own);
    if pending.Err? {
      return Err(pending.error);
    }
    var k := cars.FindLive(req.carId);
    if k.None? {
      return Err(EntityNotFound);
    }
    var car := cars.cars[k.value];
    var availableInPeriod := AvailableInPeriod(car, rentals.rentals, req);
    if availableInPeriod <= 0 {
      return Err(NoAvailableCars);
    }
    var rental := Rental(rentals.nextId, req.rentalDate, req.returnDate, None, car.id, current.id);
    var saved := SaveAndNotify(rentals, log, rental, NewRentalMessage(car, rental, current.email, formatDate), delivers);
    if saved.Err? {
      return Err(saved.error);
    }
    return Ok(ToDto(rental, car, current));
  }

  /** `isOwner(rentalId, username)`: the rental exists and belongs to the
      user with that email; a missing rental is never owned. */
  function IsOwner(rs: seq<Rental>, users: map<int, User>, rentalId: int, username: string): (owns: bool)
    ensures FindRental(rs, rentalId).None? ==> !owns
    ensures owns ==> exists r :: r in rs && r.id == rentalId && r.userId in users
                                 && users[r.userId].email == username
  {
    match FindRental(rs, rentalId)
    case None => false
    case Some(r) => r.userId in users && users[r.userId].email == username
  }

  /** With rental ids unique, being the owner means exactly that the rental
      with that id is stored and its user's email is the username. */
  lemma {:induction false} IsOwnerExactly(rs: seq<Rental>, users: map<int, User>, rentalId: int, username: string)
    requires RentalIdsIncrease(rs)
    ensures IsOwner(rs, users, rentalId, username) <==>
              exists r :: r in rs && r.id == rentalId && r.userId in users && users[r.userId].email == username
  {
    if r :| r in rs && r.id == rentalId && r.userId in users && users[r.userId].email == username {
      var found := FindRental(rs, rentalId).value;
      var i :| 0 <= i < |rs| && rs[i] == r;
      var j :| 0 <= j < |rs| && rs[j] == found;
      RentalIdUnique(rs, i, j);
    }
  }

  /** The PreAuthorize rule of `returnRentalByRentalId`: a manager, or the
      owner of the rental named by the principal's username (the email). */
  predicate MayReturn(rs: seq<Rental>, users: map<int, User>, principal: User, rentalId: int) {
    IsManager(principal) || IsOwner(rs, users, rentalId, principal.email)
  }

  /** A customer asking to return a rental id that does not exist is refused
      by the authorisation rule before the lookup could report it missing. */
  lemma MissingRentalDeniedToCustomer(rs: seq<Rental>, users: map<int, User>, principal: User, rentalId: int)
    requires !IsManager(principal) && FindRental(rs, rentalId).None?
    ensures !MayReturn(rs, users, principal, rentalId)
  {
  }

  /** `returnRentalByRentalId` behind its PreAuthorize guard. The return
      time `now` overwrites `actualReturnDate` whether or not the rental was
      returned before; cars are not touched, so no unit is given back. */
  method ReturnRentalByRentalId(cars: CarRepository, rentals: RentalRepository, users: UserRepository,
                                principal: User, id: int, now: DateTime) returns (r: Result<RentalResponse>)
    requires rentals.Valid() && users.Valid() && Linked(cars.cars, users.users, rentals.rentals)
    modifies rentals
    ensures rentals.Valid() && rentals.nextId == old(rentals.nextId)
    ensures Linked(cars.cars, users.users, rentals.rentals)
    ensures !MayReturn(old(rentals.rentals), users.users, principal, id) ==> (r == Err(AccessDenied) && unchanged(rentals))
    ensures (MayReturn(old(rentals.rentals), users.users, principal, id) && IndexOfRental(old(rentals.rentals), id).None?)
              ==> (r == Err(EntityNotFound) && unchanged(rentals))
    ensures r.Ok? <==> MayReturn(old(rentals.rentals), users.users, principal, id)
                       && IndexOfRental(old(rentals.rentals), id).Some?
    ensures r.Ok? ==>
              var k := IndexOfRental(old(rentals.rentals), id).value;
              var returned := old(rentals.rentals)[k].(actualReturnDate := Some(now));
              && rentals.rentals == old(rentals.rentals)[k := returned]
              && r.value == ToDto(returned, cars.cars[IndexOfCar(cars.cars, returned.carId).value],
                                  users.users[returned.userId])
              && r.value.isActive == "FINISHED"
  {
    if !MayReturn(rentals.rentals, users.users, principal, id) {
      return Err(AccessDenied);
    }
    var k := IndexOfRental(rentals.rentals, id);
    if k.None? {
      return Err(EntityNotFound);
    }
    var rental := rentals.rentals[k.value];
    assert rental in rentals.rentals;
    var returned := rental.(actualReturnDate := Some(now));
    ghost var before := rentals.rentals;
    rentals.rentals := rentals.rentals[k.value := returned];
    assert forall x :: x in rentals.rentals ==> x in before || x == returned;
    assert RentalIdsIncrease(rentals.rentals) by {
      assert forall i :: 0 <= i < |before| ==> rentals.rentals[i].id == before[i].id;
    }
    var car := cars.cars[IndexOfCar(cars.cars, returned.carId).value];
    return Ok(ToDto(returned, car, users.users[returned.userId]));
  }

  /** The rental rows `getRentalsByUserIdAndIsActive` pages over: the user's
      rentals; with `isActive` given, only the unreturned (true) or the
      returned (false) ones. */
  function RentalsByUserIdAndIsActive(rs: seq<Rental>, userId: int, isActive: Option<bool>): (out: seq<Rental>)
    ensures forall r :: r in out <==>
              && r in rs && r.userId == userId
              && (isActive.Some? ==> (r.actualReturnDate.None? <==> isActive.value))
  {
    match isActive
    case None => RentalsOfUser(rs, userId)
    case Some(active) => RentalsOfUserByState(rs, userId, active)
  }

  /** The rental rows `getRentalByCurrentUser` pages over. */
  function RentalsOfCurrentUser(rs: seq<Rental>, current: User): (out: seq<Rental>)
    ensures forall r :: r in out <==> r in rs && r.userId == current.id
  {
    RentalsOfUser(rs, current.id)
  }

  /** The two filtered listings split the unfiltered one: every rental it
      holds is in exactly one of them. */
  lemma {:induction false} ActivityListingsSplitUserListing(rs: seq<Rental>, userId: int, r: Rental)
    ensures r in RentalsByUserIdAndIsActive(rs, userId, None) <==>
              r in RentalsByUserIdAndIsActive(rs, userId, Some(true))
              || r in RentalsByUserIdAndIsActive(rs, userId, Some(false))
    ensures !(r in RentalsByUserIdAndIsActive(rs, userId, Some(true))
              && r in RentalsByUserIdAndIsActive(rs, userId, Some(false)))
  {
  }
}
