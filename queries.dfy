/** RentalRepository's queries, PaymentRepository's per-user query (which
    joins a payment to its rental's user) and the `findById` lookups, as
    functions over the rows in storage order. */
module Queries {
  import opened Wrappers
  import opened DateTimes
  import opened Entities

  /** The rows of `rs` that satisfy `keep`, in their order in `rs`. */
  function Filter<T>(rs: seq<T>, keep: T -> bool): (out: seq<T>)
    ensures |out| <= |rs|
    decreases |rs|
  {
    if rs == [] then []
    else if keep(rs[|rs| - 1]) then Filter(rs[..|rs| - 1], keep) + [rs[|rs| - 1]]
    else Filter(rs[..|rs| - 1], keep)
  }

  /** A row is returned exactly when it is stored and satisfies the predicate. */
  lemma {:induction false} FilterMembers<T>(rs: seq<T>, keep: T -> bool)
    ensures forall x :: x in Filter(rs, keep) <==> x in rs && keep(x)
    decreases |rs|
  {
    if rs != [] {
      var init := rs[..|rs| - 1];
      FilterMembers(init, keep);
      assert rs == init + [rs[|rs| - 1]];
    }
  }

  /** Storing one more row extends the answer by that row when it qualifies,
      and leaves the answer unchanged when it does not. */
  lemma {:induction false} FilterAppend<T>(rs: seq<T>, x: T, keep: T -> bool)
    ensures Filter(rs + [x], keep) == Filter(rs, keep) + (if keep(x) then [x] else [])
  {
    assert (rs + [x])[..|rs + [x]| - 1] == rs;
  }

  /** The WHERE clause of `findActiveRentalsForCar(car, requestReturnDate, requestRentalDate)`. */
  predicate BlocksCar(r: Rental, carId: int, requestReturnDate: DateTime, requestRentalDate: DateTime) {
    && r.carId == carId
    && r.actualReturnDate.None?
    && Before(r.rentalDate, requestReturnDate)
    && Before(requestRentalDate, r.returnDate)
  }

  /** `findActiveRentalsForCar`: note the parameter order, return date first. */
  function ActiveRentalsForCar(rs: seq<Rental>, carId: int, requestReturnDate: DateTime,
                               requestRentalDate: DateTime): (out: seq<Rental>)
    ensures forall r :: r in out <==> r in rs && BlocksCar(r, carId, requestReturnDate, requestRentalDate)
  {
    var keep := (r: Rental) => BlocksCar(r, carId, requestReturnDate, requestRentalDate);
    FilterMembers(rs, keep);
    Filter(rs, keep)
  }

  /** The WHERE clause of `findOverdueRentals(t)`: still out, and due at or before `t`. */
  predicate IsOverdueAt(r: Rental, t: DateTime) {
    r.actualReturnDate.None? && !Before(t, r.returnDate)
  }

  /** `findOverdueRentals`. */
  function OverdueRentals(rs: seq<Rental>, t: DateTime): (out: seq<Rental>)
    ensures forall r :: r in out <==> r in rs && IsOverdueAt(r, t)
  {
    var keep := (r: Rental) => IsOverdueAt(r, t);
    FilterMembers(rs, keep);
    Filter(rs, keep)
  }

  /** `findAllByUserId`. */
  function RentalsOfUser(rs: seq<Rental>, userId: int): (out: seq<Rental>)
    ensures forall r :: r in out <==> r in rs && r.userId == userId
  {
    var keep := (r: Rental) => r.userId == userId;
    FilterMembers(rs, keep);
    Filter(rs, keep)
  }

  /** `findAllByUserIdAndActualReturnDateIsNull` (`active`) and
      `findAllByUserIdAndActualReturnDateIsNotNull` (not `active`). */
  function RentalsOfUserByState(rs: seq<Rental>, userId: int, active: bool): (out: seq<Rental>)
    ensures forall r :: r in out <==> r in rs && r.userId == userId && r.actualReturnDate.None? == active
  {
    var keep := (r: Rental) => r.userId == userId && r.actualReturnDate.None? == active;
    FilterMembers(rs, keep);
    Filter(rs, keep)
  }

  /** Stored ids strictly increase, as the identity column hands them out. */
  ghost predicate RentalIdsIncrease(rs: seq<Rental>) {
    forall i, j :: 0 <= i < j < |rs| ==> rs[i].id < rs[j].id
  }

  ghost predicate PaymentIdsIncrease(ps: seq<Payment>) {
    forall i, j :: 0 <= i < j < |ps| ==> ps[i].id < ps[j].id
  }

  /** The position of the rental with that id. */
  function IndexOfRental(rs: seq<Rental>, id: int): (k: Option<nat>)
    ensures k.Some? ==> k.value < |rs| && rs[k.value].id == id
    ensures k.None? ==> forall r :: r in rs ==> r.id != id
  {
    if rs == [] then None
    else if rs[|rs| - 1].id == id then Some(|rs| - 1)
    else IndexOfRental(rs[..|rs| - 1], id)
  }

  /** The position of the payment with that id. */
  function IndexOfPayment(ps: seq<Payment>, id: int): (k: Option<nat>)
    ensures k.Some? ==> k.value < |ps| && ps[k.value].id == id
    ensures k.None? ==> forall p :: p in ps ==> p.id != id
  {
    if ps == [] then None
    else if ps[|ps| - 1].id == id then Some(|ps| - 1)
    else IndexOfPayment(ps[..|ps| - 1], id)
  }

  ghost predicate CarIdsIncrease(cs: seq<Car>) {
    forall i, j :: 0 <= i < j < |cs| ==> cs[i].id < cs[j].id
  }

  /** The position of the car row with that id. */
  function IndexOfCar(cs: seq<Car>, id: int): (k: Option<nat>)
    ensures k.Some? ==> k.value < |cs| && cs[k.value].id == id
    ensures k.None? ==> forall c :: c in cs ==> c.id != id
  {
    if cs == [] then None
    else if cs[|cs| - 1].id == id then Some(|cs| - 1)
    else IndexOfCar(cs[..|cs| - 1], id)
  }

  /** `findById` on the rentals. */
  function FindRental(rs: seq<Rental>, id: int): (r: Option<Rental>)
    ensures r.Some? <==> exists x :: x in rs && x.id == id
    ensures r.Some? ==> r.value in rs && r.value.id == id
  {
    match IndexOfRental(rs, id)
    case Some(k) => Some(rs[k])
    case None => None
  }

  /** With increasing ids, the row with a given id is unique. */
  lemma RentalIdUnique(rs: seq<Rental>, i: nat, j: nat)
    requires RentalIdsIncrease(rs) && i < |rs| && j < |rs| && rs[i].id == rs[j].id
    ensures i == j
  {
  }

  /** The user a payment belongs to: `p.rental.user.id`. */
  function PaymentOwner(rs: seq<Rental>, p: Payment): (owner: Option<int>)
    ensures owner.Some? <==> exists r :: r in rs && r.id == p.rentalId
  {
    match FindRental(rs, p.rentalId)
    case Some(r) => Some(r.userId)
    case None => None
  }

  /** PaymentRepository's `findAllByUserId`: the payments on rentals of that user. */
  function PaymentsOfUser(ps: seq<Payment>, rs: seq<Rental>, userId: int): (out: seq<Payment>)
    ensures forall p :: p in out <==> p in ps && PaymentOwner(rs, p) == Some(userId)
  {
    var keep := (p: Payment) => PaymentOwner(rs, p) == Some(userId);
    FilterMembers(ps, keep);
    Filter(ps, keep)
  }

  /** A rental whose scheduled end equals the requested start does not overlap:
      back-to-back bookings are allowed. */
  lemma BackToBackDoesNotBlock(r: Rental, requestReturnDate: DateTime, requestRentalDate: DateTime)
    requires r.returnDate == requestRentalDate
    ensures !BlocksCar(r, r.carId, requestReturnDate, requestRentalDate)
  {
  }

  /** A returned rental never counts against availability, whatever its dates. */
  lemma {:induction false} ReturnedRentalNeverBlocks(rs: seq<Rental>, r: Rental, carId: int,
                                                    requestReturnDate: DateTime, requestRentalDate: DateTime)
    requires r.actualReturnDate.Some?
    ensures ActiveRentalsForCar(rs + [r], carId, requestReturnDate, requestRentalDate)
            == ActiveRentalsForCar(rs, carId, requestReturnDate, requestRentalDate)
  {
    FilterAppend(rs, r, (x: Rental) => BlocksCar(x, carId, requestReturnDate, requestRentalDate));
  }

  /** An active rental of the car whose period strictly overlaps the requested
      one adds exactly one to the count that availability subtracts. */
  lemma {:induction false} OverlappingRentalBlocksOneUnit(rs: seq<Rental>, r: Rental,
                                                         requestReturnDate: DateTime, requestRentalDate: DateTime)
    requires r.actualReturnDate.None?
    requires Before(r.rentalDate, requestReturnDate) && Before(requestRentalDate, r.returnDate)
    ensures |ActiveRentalsForCar(rs + [r], r.carId, requestReturnDate, requestRentalDate)|
            == |ActiveRentalsForCar(rs, r.carId, requestReturnDate, requestRentalDate)| + 1
  {
    FilterAppend(rs, r, (x: Rental) => BlocksCar(x, r.carId, requestReturnDate, requestRentalDate));
  }

  /** The overdue bound is inclusive: a rental due exactly now is overdue. */
  lemma DueNowIsOverdue(r: Rental)
    requires r.actualReturnDate.None?
    ensures IsOverdueAt(r, r.returnDate)
  {
  }
}
