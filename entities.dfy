/** The persisted records (model/Car.java, model/Rental.java, model/Payment.java,
    model/User.java), the static reference rows, and the request bodies the
    services receive. Associations are held as the referenced row's id. */
module Entities {
  import opened Wrappers
  import opened DateTimes
  import opened RoleNames
  import opened TypeNames

  datatype PaymentStatusName = Pending | Paid

  /** `Regular` is the source's PAYMENT type, `Fine` its FINE type. */
  datatype PaymentTypeName = Regular | Fine

  /** `availableCars` is a Java `int`; `dailyPrice` an exact decimal. */
  datatype Car = Car(id: int, model: string, brand: string, carType: TypeName,
                     availableCars: int, dailyPrice: real)

  /** `actualReturnDate` is `None` while the rental is active. */
  datatype Rental = Rental(id: int, rentalDate: DateTime, returnDate: DateTime,
                           actualReturnDate: Option<DateTime>, carId: int, userId: int)

  datatype Payment = Payment(id: int, status: PaymentStatusName, paymentType: PaymentTypeName,
                             rentalId: int, sessionUrl: string, sessionId: string,
                             amountToPay: real)

  /** `password` holds the encoder's output, never the raw password. */
  datatype User = User(id: int, email: string, password: string, firstName: string,
                       lastName: string, roles: set<RoleName>)

  /** The rows of the static reference tables (roles, payment_status,
      payment_type, car types) that exist in the database. */
  datatype Catalog = Catalog(roles: set<RoleName>, statuses: set<PaymentStatusName>,
                             paymentTypes: set<PaymentTypeName>, carTypes: set<TypeName>)

  /** CarRequestDto. */
  datatype CarRequest = CarRequest(model: string, brand: string, carType: string,
                                   availableCars: int, dailyPrice: real)

  /** The validation on CarRequestDto's count and price: at least one unit, a
      price of at least 0.0 with at most ten integer and two fraction digits. */
  predicate ValidCarRequest(req: CarRequest) {
    && 1 <= req.availableCars <= 0x7fff_ffff
    && 0.0 <= req.dailyPrice < 10_000_000_000.0
    && (req.dailyPrice * 100.0).Floor as real == req.dailyPrice * 100.0
  }

  /** RentalRequestDto. */
  datatype RentalRequest = RentalRequest(rentalDate: DateTime, returnDate: DateTime, carId: int)

  /** UserRegistrationRequestDto. */
  datatype RegistrationRequest = RegistrationRequest(email: string, firstName: string, lastName: string,
                                                     password: string, repeatPassword: string)

  /** UserUpdateProfileInfoRequestDto. */
  datatype ProfileRequest = ProfileRequest(email: string, firstName: string, lastName: string)

  /** What the payment gateway's checkout session hands back. */
  datatype Session = Session(url: string, id: string)

  /** The Spring Security check `hasRole('MANAGER')` / `getRoles().contains(managerRole)`. */
  predicate IsManager(user: User) {
    Manager in user.roles
  }
}
