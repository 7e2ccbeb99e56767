/** PaymentServiceImpl: checkout-session creation, the payment listing and
    the demo success / cancel callbacks. */
module PaymentService {
  import opened Wrappers
  import opened Strings
  import opened DateTimes
  import opened JavaInts
  import opened Entities
  import opened Queries
  import opened Repositories
  import opened Pricing
  import opened RoleNames

  /** Every rental reaches its car's row (the rental's car is never dropped,
      even when the car is soft-deleted). */
  ghost predicate CarsLinked(cars: seq<Car>, rentals: seq<Rental>) {
    forall r :: r in rentals ==> IndexOfCar(cars, r.carId).Some?
  }

  /** The payment type of a returned rental: FINE exactly when it came back
      after the scheduled timestamp. */
  function TypeFor(returnDate: DateTime, actualReturnDate: DateTime): (t: PaymentTypeName)
    ensures t == Fine <==> IsAfter(actualReturnDate, returnDate)
    ensures t == Regular <==> !IsAfter(actualReturnDate, returnDate)
  {
    if IsOverdue(returnDate, actualReturnDate) then Fine else Regular
  }

  /** What a returned rental costs at its car's daily price. */
  function RentalAmount(rental: Rental, dailyPrice: real): (amount: real)
    requires rental.actualReturnDate.Some?
    ensures var t := TypeFor(rental.returnDate, rental.actualReturnDate.value);
            t == Regular ==> amount == BasicAmount(dailyPrice, rental.rentalDate, rental.returnDate)
    ensures var t := TypeFor(rental.returnDate, rental.actualReturnDate.value);
            t == Fine ==> amount == BasicAmount(dailyPrice, rental.rentalDate, rental.returnDate)
                                    + FineAmount(dailyPrice, rental.returnDate, rental.actualReturnDate.value)
  {
    var actual := rental.actualReturnDate.value;
    Amount(IsOverdue(rental.returnDate, actual), dailyPrice, rental.rentalDate, rental.returnDate, actual)
  }

  /** The ownership check of `createPaymentSessionByRentalId`: the rental's
      user is the caller (compared by id), or the caller is a manager. */
  predicate MayPay(rental: Rental, current: User) {
    rental.userId == current.id || IsManager(current)
  }

  /** `createPaymentSessionByRentalId`. `gateway(rentalId, amount)` is the
      Stripe checkout call, `None` when it throws. Failures, in order: no
      rental with the id; no MANAGER role row; the rental not returned yet;
      the caller neither owner nor manager; an amount that is not an exact
      `long`; the gateway failing; no PENDING status row; no row for the
      payment type. Only a call that passes all of them stores a payment, and
      it returns the session URL. */
  method CreatePaymentSessionByRentalId(cars: CarRepository, rentals: RentalRepository,
                                        payments: PaymentRepository, catalog: Catalog, current: User,
                                        id: int, gateway: (int, int) -> Option<Session>)
    returns (r: Result<string>)
    requires payments.Valid() && CarsLinked(cars.cars, rentals.rentals)
    modifies payments
    ensures payments.Valid()
    ensures r.Err? ==> unchanged(payments)
    ensures IndexOfRental(rentals.rentals, id).None? ==> r == Err(EntityNotFound)
    ensures IndexOfRental(rentals.rentals, id).Some? && Manager !in catalog.roles ==> r == Err(EntityNotFound)
    ensures IndexOfRental(rentals.rentals, id).Some? && Manager in catalog.roles ==>
              var rental := rentals.rentals[IndexOfRental(rentals.rentals, id).value];
              && (rental.actualReturnDate.None? ==> r == Err(PaymentRejected))
              && (rental.actualReturnDate.Some? && !MayPay(rental, current) ==> r == Err(AccessDenied))
              && (rental.actualReturnDate.Some? && MayPay(rental, current) ==>
                    var car := cars.cars[IndexOfCar(cars.cars, rental.carId).value];
                    var amount := RentalAmount(rental, car.dailyPrice);
                    var paymentType := TypeFor(rental.returnDate, rental.actualReturnDate.value);
                    && (LongValueExact(amount).Err? ==> r == Err(Arithmetic))
                    && (LongValueExact(amount).Ok? ==>
                          var session := gateway(id, LongValueExact(amount).value);
                          && (session.None? ==> r == Err(StripeSession))
                          && (session.Some? && Pending !in catalog.statuses ==> r == Err(EntityNotFound))
                          && ((session.Some? && Pending in catalog.statuses
                               && paymentType !in catalog.paymentTypes) ==> r == Err(EntityNotFound))
                          && ((session.Some? && Pending in catalog.statuses
                               && paymentType in catalog.paymentTypes) ==>
                                && r == Ok(session.value.url)
                                && payments.payments == old(payments.payments)
                                     + [Payment(old(payments.nextId), Pending, paymentType, id,
                                                session.value.url, session.value.id, amount)]
                                && payments.nextId == old(payments.nextId) + 1)))
  {
    var k := IndexOfRental(rentals.rentals, id);
    if k.None? {
      return Err(EntityNotFound);
    }
    var rental := rentals.rentals[k.value];
    if Manager !in catalog.roles {
      return Err(EntityNotFound);
    }
    if rental.actualReturnDate.None? {
      return Err(PaymentRejected);
    }
    if !MayPay(rental, current) {
      return Err(AccessDenied);
    }
    assert rental in rentals.rentals;
    var car := cars.cars[IndexOfCar(cars.cars, rental.carId).value];
    var actual := rental.actualReturnDate.value;
    var isOverdue := IsOverdue(rental.returnDate, actual);
    var amount := Amount(isOverdue, car.dailyPrice, rental.rentalDate, rental.returnDate, actual);
    var amountInCents := LongValueExact(amount);
    if amountInCents.Err? {
      return Err(amountInCents.error);
    }
    var session := gateway(rental.id, amountInCents.value);
    if session.None? {
      return Err(StripeSession);
    }
    if Pending !in catalog.statuses {
      return Err(EntityNotFound);
    }
    var paymentType := if isOverdue then Fine else Regular;
    if paymentType !in catalog.paymentTypes {
      return Err(EntityNotFound);
    }
    var payment := Payment(payments.nextId, Pending, paymentType, rental.id,
                           session.value.url, session.value.id, amount);
    payments.payments := payments.payments + [payment];
    payments.nextId := payments.nextId + 1;
    return Ok(payment.sessionUrl);
  }

  /** A late return on the due day itself creates a FINE payment that costs
      no more than the booked days. */
  lemma SameDayLateReturnIsFineWithoutSurcharge(rental: Rental, dailyPrice: real)
    requires rental.actualReturnDate.Some?
    requires rental.actualReturnDate.value.day == rental.returnDate.day
    requires rental.actualReturnDate.value.time > rental.returnDate.time
    ensures TypeFor(rental.returnDate, rental.actualReturnDate.value) == Fine
    ensures RentalAmount(rental, dailyPrice) == BasicAmount(dailyPrice, rental.rentalDate, rental.returnDate)
  {
  }

  /** `getPayments(userId)`: a customer always gets their own payments,
      whatever `userId` says; a manager gets all payments without a `userId`
      and that user's payments with one. The MANAGER role row must exist. */
  function GetPayments(ps: seq<Payment>, rs: seq<Rental>, catalog: Catalog, current: User,
                       userId: Option<int>): (r: Result<seq<Payment>>)
    ensures r.Err? <==> Manager !in catalog.roles
    ensures r.Err? ==> r.error == EntityNotFound
    ensures r.Ok? && !IsManager(current) ==>
              forall p :: p in r.value <==> p in ps && PaymentOwner(rs, p) == Some(current.id)
    ensures r.Ok? && IsManager(current) && userId.None? ==> r.value == ps
    ensures r.Ok? && IsManager(current) && userId.Some? ==>
              forall p :: p in r.value <==> p in ps && PaymentOwner(rs, p) == Some(userId.value)
  {
    if Manager !in catalog.roles then Err(EntityNotFound)
    else if !IsManager(current) then Ok(PaymentsOfUser(ps, rs, current.id))
    else if userId.None? then Ok(ps)
    else Ok(PaymentsOfUser(ps, rs, userId.value))
  }

  /** The `userId` a customer passes makes no difference to what they see. */
  lemma CustomerIgnoresUserId(ps: seq<Payment>, rs: seq<Rental>, catalog: Catalog, current: User,
                              a: Option<int>, b: Option<int>)
    requires !IsManager(current)
    ensures GetPayments(ps, rs, catalog, current, a) == GetPayments(ps, rs, catalog, current, b)
  {
  }

  /** A manager naming themselves sees exactly what a customer with the same
      id would see. */
  lemma {:induction false} ManagerNamingSelfSeesOwn(ps: seq<Payment>, rs: seq<Rental>, catalog: Catalog,
                                                    current: User)
    requires IsManager(current) && Manager in catalog.roles
    ensures GetPayments(ps, rs, catalog, current, Some(current.id))
            == GetPayments(ps, rs, catalog, current.(roles := current.roles - {Manager}), None)
  {
  }

  const DemoSuccessMessage: string := "Payment successful! (Demo mode)"
  const CancelledMessage: string := "Payment cancelled"

  /** The answer of `success(id)` once payment `id` is marked PAID. */
  function PaidMessage(id: int): (m: string)
    ensures Contains(m, IntToString(id))
    ensures |m| > 20 && m[..20] == DemoSuccessMessage[..20] && m != DemoSuccessMessage
  {
    var before := "Payment successful! Payment with id ";
    var after := " change on PAID status (Demo mode)";
    var digits := IntToString(id);
    var m := before + digits + after;
    assert m[..20] == before[..20];
    assert before[..20] == DemoSuccessMessage[..20];
    assert m[20] == before[20] == 'P';
    assert DemoSuccessMessage[20] == '(';
    m
  }

  /** `success(id)`: the payment becomes PAID whatever its status was; with
      no id nothing changes. */
  method Success(payments: PaymentRepository, catalog: Catalog, id: Option<int>) returns (r: Result<string>)
    requires payments.Valid()
    modifies payments
    ensures payments.Valid() && payments.nextId == old(payments.nextId)
    ensures id.None? ==> (r == Ok(DemoSuccessMessage) && unchanged(payments))
    ensures (id.Some? && IndexOfPayment(old(payments.payments), id.value).None?)
              ==> (r == Err(EntityNotFound) && unchanged(payments))
    ensures (id.Some? && IndexOfPayment(old(payments.payments), id.value).Some? && Paid !in catalog.statuses)
              ==> (r == Err(EntityNotFound) && unchanged(payments))
    ensures r.Ok? && id.Some? ==>
              var k := IndexOfPayment(old(payments.payments), id.value).value;
              && payments.payments == old(payments.payments)[k := old(payments.payments)[k].(status := Paid)]
              && r.value == PaidMessage(id.value)
    ensures r.Ok? <==> id.None? || (IndexOfPayment(old(payments.payments), id.value).Some? && Paid in catalog.statuses)
  {
    if id.None? {
      return Ok(DemoSuccessMessage);
    }
    var k := IndexOfPayment(payments.payments, id.value);
    if k.None? {
      return Err(EntityNotFound);
    }
    if Paid !in catalog.statuses {
      return Err(EntityNotFound);
    }
    ghost var before := payments.payments;
    var payment := payments.payments[k.value];
    payments.payments := payments.payments[k.value := payment.(status := Paid)];
    assert PaymentIdsIncrease(payments.payments) by {
      assert forall i :: 0 <= i < |before| ==> payments.payments[i].id == before[i].id;
    }
    assert forall p :: p in payments.payments ==> p in before || p.id == payment.id;
    return Ok(PaidMessage(id.value));
  }

  /** `cancelled()`: a reply no `success` call ever gives. */
  function Cancelled(): (m: string)
    ensures m != DemoSuccessMessage
    ensures forall id :: m != PaidMessage(id)
  {
    CancelledMessage
  }
}
