# Car-sharing service: a Dafny model of its domain rules

This project models the business rules of a Spring car-sharing service. Customers book cars, return them and pay for the booking through a checkout gateway. Managers maintain the car inventory and grant roles. A daily job reports overdue rentals to a Telegram channel.

The model is sequential, and each part of it takes one of two forms:

- **Repositories are in-memory tables.** `CarRepository`, `UserRepository`, `RentalRepository` and `PaymentRepository` are classes. Their rows are sequences in insertion order, or a map for the users, and each hands out ids from a counter as an identity column does.
  - A soft-deleted car keeps its row, and its id joins a `deleted` set. A rental can therefore still reach the price of its car.
  - The reference tables (roles, payment statuses, payment types, car types) are one immutable `Catalog` value. A missing reference row raises the same exception where the service looks it up.
- **Services are methods over those tables.**
  - Each service operation is a method that takes the tables it touches.
  - Each query is a function over the table's rows, in storage order.
  - Each enum parser, the rental mapper and the message builders are pure functions.
  - The Telegram sink is a `NotificationLog` of the messages delivered, oldest first.

Java exceptions become `Err(...)` values of a `Result`, with one constructor per kind of failure the core reports (module `Wrappers`).

Money is an exact Dafny `real`, as `BigDecimal` is exact decimal. A `LocalDateTime` is a (calendar day, nanosecond of day) pair:

- `toLocalDate()` is the day.
- `ChronoUnit.DAYS.between(a, b)` is `b.day - a.day`.
- `isAfter` and JPQL `<` compare the pairs lexicographically.

Java `int` arithmetic wraps modulo 2^32 (`JavaInts.Wrap32`). `longValueExact` fails outside the `long` range or on a fraction.

These are parameters of the methods that need them:

- the current time;
- the authenticated user;
- the password encoder;
- the checkout gateway, `(rentalId, amount) -> Option<Session>`, which is `None` when the call throws;
- the Telegram API, `delivers: string -> bool`, which is false for a message whose `postForObject` call throws;
- the `toString` renderings of dates and cars.

## Model

Source cells give paths from the repository root and the lines modelled.

| member | source | states |
|---|---|---|
| Strings.Trim | src/main/java/org/example/carsharingapp/model/RoleName.java:11 | `trim` yields the slice of the input after its leading blanks, neither starting nor ending with a char at or below U+0020 |
| Strings.TrimCutsOnlyTrimmed | src/main/java/org/example/carsharingapp/model/RoleName.java:11 | everything `trim` removes, before and after the kept slice, is a char at or below U+0020 |
| Strings.TrimIdempotent | src/main/java/org/example/carsharingapp/model/RoleName.java:11 | trimming twice is trimming once |
| Strings.Upper | src/main/java/org/example/carsharingapp/model/TypeName.java:12 | `toUpperCase` keeps the length and upper-cases each char in place |
| Strings.TrimUpperCommute | src/main/java/org/example/carsharingapp/service/UserServiceImpl.java:87 | `s.toUpperCase().trim()` equals `s.trim().toUpperCase()` |
| RoleNames.ValueOf | src/main/java/org/example/carsharingapp/model/RoleName.java:5-7 | `valueOf` succeeds exactly on "ROLE_MANAGER" and "ROLE_CUSTOMER", giving the constant of that name; anything else is an IllegalArgumentException |
| RoleNames.FromString | src/main/java/org/example/carsharingapp/model/RoleName.java:9-15 | `fromString(s)` succeeds iff upper(trim(s)) is MANAGER or CUSTOMER, and the constant is named "ROLE_" + upper(trim(s)); it never yields an empty Optional, failing with IllegalArgumentException instead |
| RoleNames.FromStringIgnoresPadding | src/main/java/org/example/carsharingapp/model/RoleName.java:11 | surrounding whitespace does not change the parse |
| RoleNames.FromStringIgnoresCase | src/main/java/org/example/carsharingapp/model/RoleName.java:11 | two inputs with the same upper-case form parse alike |
| RoleNames.FromStringShortName | src/main/java/org/example/carsharingapp/model/RoleName.java:6-11 | each role parses back from its name without the prefix |
| RoleNames.LowerCaseCustomer | src/main/java/org/example/carsharingapp/model/RoleName.java:11 | "customer" gives ROLE_CUSTOMER |
| RoleNames.PrefixedNameRejected | src/main/java/org/example/carsharingapp/model/RoleName.java:11-14 | "ROLE_MANAGER" is prefixed a second time and rejected with IllegalArgumentException |
| TypeNames.ValueOf | src/main/java/org/example/carsharingapp/model/TypeName.java:5-8 | the case-sensitive `valueOf` accepts exactly SEDAN, SUV and HATCHBACK and returns that constant; anything else is an IllegalArgumentException |
| TypeNames.FromString | src/main/java/org/example/carsharingapp/model/TypeName.java:10-16 | `fromString(s)` succeeds iff upper(trim(s)) names one of the three types, returns that type, and otherwise fails with IllegalArgumentException, never an empty Optional |
| TypeNames.FromStringName | src/main/java/org/example/carsharingapp/model/TypeName.java:6-12 | each type parses back from its own name |
| TypeNames.LenientAndStrictParsing | src/main/java/org/example/carsharingapp/model/TypeName.java:12 | " suv" parses to SUV through `fromString`, while `valueOf("suv")` fails |
| TypeNames.FromStringIgnoresPaddingAndCase | src/main/java/org/example/carsharingapp/model/TypeName.java:12 | inputs alike after trimming, after upper-casing, or after both, parse alike |
| Passwords.IsValid | src/main/java/org/example/carsharingapp/security/PasswordMatchesValidator.java:13-18 | valid iff both passwords are present and equal; a missing one always gives false |
| JavaInts.Wrap32 | src/main/java/org/example/carsharingapp/service/CarServiceImpl.java:39 | the result is a Java int congruent to the exact value modulo 2^32, and equal to it when no overflow happens |
| JavaInts.PositiveOverflowGoesNegative | src/main/java/org/example/carsharingapp/service/CarServiceImpl.java:39 | two positive ints whose exact sum passes Integer.MAX_VALUE add to that sum less 2^32, a negative int |
| Repositories.CarRepository.FindLive | src/main/java/org/example/carsharingapp/model/Car.java:16-17 | `findById` under the soft-delete filter finds the row with that id only when it is not deleted; no result means the id is deleted or unknown |
| Repositories.NotificationLog.Send | src/main/java/org/example/carsharingapp/service/TelegramNotificationService.java:24-37 | a message the Telegram API accepts is appended to the delivered messages; when `postForObject` throws, nothing is delivered and the send fails |
| Queries.ActiveRentalsForCar | src/main/java/org/example/carsharingapp/repository/RentalRepository.java:16-28 | exactly the stored rentals of the car that are not returned, start before the requested return date and end after the requested rental date (return date is the first parameter) |
| Queries.BackToBackDoesNotBlock | src/main/java/org/example/carsharingapp/repository/RentalRepository.java:21-22 | a rental ending exactly when the request starts does not overlap it |
| Queries.ReturnedRentalNeverBlocks | src/main/java/org/example/carsharingapp/repository/RentalRepository.java:20 | storing a returned rental never changes the overlap query's answer |
| Queries.OverlappingRentalBlocksOneUnit | src/main/java/org/example/carsharingapp/service/RentalServiceImpl.java:61-65 | an active, strictly overlapping rental of the car raises the count subtracted from availability by exactly one |
| Queries.OverdueRentals | src/main/java/org/example/carsharingapp/repository/RentalRepository.java:34-42 | exactly the stored rentals that are not returned and are due at or before the given time |
| Queries.DueNowIsOverdue | src/main/java/org/example/carsharingapp/repository/RentalRepository.java:38 | the overdue bound is inclusive: a rental due exactly now is overdue |
| Queries.RentalsOfUser | src/main/java/org/example/carsharingapp/repository/RentalRepository.java:44-45 | `findAllByUserId` returns exactly the stored rentals of that user |
| Queries.RentalsOfUserByState | src/main/java/org/example/carsharingapp/service/RentalServiceImpl.java:101-106 | the user's rentals whose actual return date is null (active) or non-null (not active) |
| Queries.FindRental | src/main/java/org/example/carsharingapp/service/RentalServiceImpl.java:124-126 | `findById` finds a stored rental with that id exactly when one exists |
| Queries.PaymentsOfUser | src/main/java/org/example/carsharingapp/repository/PaymentRepository.java:12-17 | exactly the payments whose rental belongs to that user |
| RentalMapping.StatusText | src/main/java/org/example/carsharingapp/mapper/RentalMapper.java:17-20 | "ACTIVE" iff there is no actual return date, "FINISHED" iff there is one |
| RentalMapping.ToDto | src/main/java/org/example/carsharingapp/mapper/RentalMapper.java:12-21 | the response copies the rental's id and dates, brand and model from its car, and email and names from its user; its status follows the actual return date |
| RentalMapping.FilterAgreesWithStatus | src/main/java/org/example/carsharingapp/service/RentalServiceImpl.java:101-109 | a rental listed under `isActive = true` shows "ACTIVE", one listed under `false` shows "FINISHED" |
| Pricing.Amount | src/main/java/org/example/carsharingapp/service/PaymentServiceImpl.java:203-228 | not overdue: daily price × booked calendar days; overdue: that plus daily price × late calendar days × 0.50 |
| Pricing.SameDayLateReturnHasZeroFine | src/main/java/org/example/carsharingapp/service/PaymentServiceImpl.java:210-221 | a return later on the due day is overdue, yet costs the same as an on-time one |
| Pricing.FineNonNegative | src/main/java/org/example/carsharingapp/service/PaymentServiceImpl.java:210-219 | a return after the due timestamp is late by a non-negative number of calendar days, so with a non-negative price its fine is non-negative |
| Pricing.AmountNonNegative | src/main/java/org/example/carsharingapp/service/PaymentServiceImpl.java:203-228 | with a non-negative price and an ordered booking the amount is non-negative, and an overdue amount is never below the on-time one |
| Pricing.WorkedExample | src/main/java/org/example/carsharingapp/service/PaymentServiceImpl.java:210-221 | 4 booked days at 10, returned 2 days late, cost 50 |
| Pricing.LongValueExact | src/main/java/org/example/carsharingapp/service/PaymentServiceImpl.java:89 | succeeds iff the amount is whole and within the `long` range, and then returns the amount itself; otherwise an ArithmeticException |
| Pricing.WholePriceConverts | src/main/java/org/example/carsharingapp/service/PaymentServiceImpl.java:89 | a whole daily price on an on-time booking converts to price × days |
| Pricing.FractionalAmountFails | src/main/java/org/example/carsharingapp/service/PaymentServiceImpl.java:89 | a one-day booking at 10.50 fails the conversion |
| CarService.MatchingCars | src/main/java/org/example/carsharingapp/repository/CarRepository.java:11-15 | exactly the live cars with that model, brand, type and daily price |
| CarService.MapType | src/main/java/org/example/carsharingapp/mapper/CarMapper.java:30-36 | succeeds iff `TypeName.fromString` parses the name and the type's row exists, returning the parsed type; both failures are IllegalArgumentException |
| CarService.StoreOffer | src/main/java/org/example/carsharingapp/service/CarServiceImpl.java:31-45 | one live match gets the requested units added (Java int addition) and no car is created; no match stores exactly one new car with the request's fields and the next id; several matches fail and change nothing |
| CarService.AddNewCar | src/main/java/org/example/carsharingapp/service/CarServiceImpl.java:29-46 | a type the mapper cannot resolve is an IllegalArgumentException with nothing changed; otherwise the offer is merged or stored as StoreOffer states |
| CarService.StoredOfferMatchesOnce | src/main/java/org/example/carsharingapp/service/CarServiceImpl.java:31-45 | after a new offer is stored it matches exactly that car, so adding it again merges |
| CarService.OverflowingMergeStoresNegative | src/main/java/org/example/carsharingapp/service/CarServiceImpl.java:37-41 | merging units into the one matching car past Integer.MAX_VALUE stores a negative `availableCars` |
| CarService.UpdatedDuplicateBlocksAdd | src/main/java/org/example/carsharingapp/service/CarServiceImpl.java:31-35 | once `updateCarById` gives one live car the offer of another, adding that offer fails with IncorrectResultSizeDataAccessException and changes nothing |
| CarService.UpdateThenAddHitsDuplicate | src/main/java/org/example/carsharingapp/service/CarServiceImpl.java:29-88 | on an empty table, adding an offer and the same offer under another model, updating the second car to the first offer and adding the first offer again ends in IncorrectResultSizeDataAccessException, for any offer whose type name both parsers resolve to the same catalogued type ("SUV", say) |
| CarService.GetSingleCarInfo | src/main/java/org/example/carsharingapp/service/CarServiceImpl.java:55-62 | the live car with that id, EntityNotFoundException iff there is none |
| CarService.UpdateCarById | src/main/java/org/example/carsharingapp/service/CarServiceImpl.java:65-88 | unknown id: EntityNotFoundException; bad type name: IllegalArgumentException; missing type row: EntityNotFoundException; in all three cases nothing changes; otherwise model, brand, type, unit count (set, not added) and price are replaced and the id is kept |
| CarService.DeleteCarById | src/main/java/org/example/carsharingapp/service/CarServiceImpl.java:91-94 | the car is no longer found, no row or id changes otherwise, and the reply is "Car with id: <id> was deleted" |
| UserService.Register | src/main/java/org/example/carsharingapp/service/UserServiceImpl.java:38-67 | two users with the email: IncorrectResultSizeDataAccessException from the Optional-returning lookup; one user with it: RegistrationException; no CUSTOMER row: EntityNotFoundException; storage rejecting the insert: RegistrationException; in all four cases nothing is stored; otherwise exactly one user with the encoded password and no roles is stored |
| UserService.NormalizingFirstChangesNothing | src/main/java/org/example/carsharingapp/service/UserServiceImpl.java:87-89 | the service's own upper-casing and trimming before `fromString` does not change the parsed role |
| UserService.Resolve | src/main/java/org/example/carsharingapp/service/UserServiceImpl.java:89-101 | one entry resolves iff it parses and its role row exists; a parse error passes through, and a missing row is EntityNotFoundException |
| UserService.ResolveAll | src/main/java/org/example/carsharingapp/service/UserServiceImpl.java:86-104 | the request resolves iff every entry does; then the set holds every entry's role, only those roles, and only roles with a row |
| UserService.ResolveAllErrors | src/main/java/org/example/carsharingapp/service/UserServiceImpl.java:89-101 | a failing request fails with IllegalArgumentException or EntityNotFoundException |
| UserService.PrefixFailureDecides | src/main/java/org/example/carsharingapp/service/UserServiceImpl.java:86-104 | once the first entries fail, the whole request fails with the same error |
| UserService.RepeatedNameChangesNothing | src/main/java/org/example/carsharingapp/service/UserServiceImpl.java:103 | naming a role a second time gives the same role set |
| UserService.ParseEntry | src/main/java/org/example/carsharingapp/service/UserServiceImpl.java:87-89 | one entry, upper-cased, trimmed and parsed, is `fromString` of the raw entry |
| UserService.ResolveRoles | src/main/java/org/example/carsharingapp/service/UserServiceImpl.java:86-104 | the loop returns exactly the resolution of the whole request |
| UserService.UpdateRoleById | src/main/java/org/example/carsharingapp/service/UserServiceImpl.java:77-110 | unknown user: EntityNotFoundException; a bad entry: that entry's error; in both cases the user is unchanged; otherwise the new role set is the old one united with the requested roles and nothing else changes |
| UserService.UpdateUserProfileInfo | src/main/java/org/example/carsharingapp/service/UserServiceImpl.java:119-128 | email, first and last name are overwritten, even to an email another user has; id, password and roles stay, and no other user changes |
| UserService.ProfileUpdateSharesEmail | src/main/java/org/example/carsharingapp/service/UserServiceImpl.java:119-128 | a profile update that takes another user's email leaves two users with that email |
| UserService.UpdateThenRegisterHitsDuplicate | src/main/java/org/example/carsharingapp/service/UserServiceImpl.java:38-128 | after two registrations and the second user taking the first one's email in their profile, registering that email again fails with IncorrectResultSizeDataAccessException |
| RentalService.AvailableInPeriod | src/main/java/org/example/carsharingapp/service/RentalServiceImpl.java:61-65 | a Java int, equal to the unit count minus the overlapping active rentals whenever that difference fits |
| RentalService.NewRentalMessage | src/main/java/org/example/carsharingapp/service/RentalServiceImpl.java:80-87 | starts with "New rental:" and a line break, and contains the car's brand and model, both dates and the user's email |
| RentalService.RejectIfPending | src/main/java/org/example/carsharingapp/service/RentalServiceImpl.java:52-56 | fails with PaymentException iff some payment is PENDING |
| RentalService.AddNewRental | src/main/java/org/example/carsharingapp/service/RentalServiceImpl.java:41-90 | in order: no PENDING row, EntityNotFoundException; a pending payment of the user, PaymentException; no live car, EntityNotFoundException; no unit left, NoAvailableCarsException; in all four cases nothing changes; otherwise, when the Telegram call accepts the new-rental message, exactly one unreturned rental of that car, user and dates is appended, exactly that message is sent, and `availableCars` is untouched; when it throws, the save is rolled back, nothing changes and the call fails |
| RentalService.SaveAndNotify | src/main/java/org/example/carsharingapp/service/RentalServiceImpl.java:76-87 | the rental is saved and the message is sent when the Telegram call accepts it; when the call throws, the transaction leaves both tables as they were and the call fails |
| RentalService.IsOwner | src/main/java/org/example/carsharingapp/service/RentalServiceImpl.java:134-138 | false for a missing rental; true only when a stored rental with that id belongs to the user with that email |
| RentalService.IsOwnerExactly | src/main/java/org/example/carsharingapp/service/RentalServiceImpl.java:134-138 | with unique rental ids, owner iff the rental exists and its user's email equals the username |
| RentalService.MissingRentalDeniedToCustomer | src/main/java/org/example/carsharingapp/service/RentalServiceImpl.java:121 | a non-manager asking about a missing rental is refused by the authorisation rule |
| RentalService.ReturnRentalByRentalId | src/main/java/org/example/carsharingapp/service/RentalServiceImpl.java:120-132 | neither manager nor owner: access denied; unknown id: EntityNotFoundException; otherwise only that rental's actual return date becomes `now`, previous value or not, and the response reads FINISHED |
| RentalService.RentalsByUserIdAndIsActive | src/main/java/org/example/carsharingapp/service/RentalServiceImpl.java:92-110 | the user's rentals: all for null, the unreturned ones for true, the returned ones for false |
| RentalService.RentalsOfCurrentUser | src/main/java/org/example/carsharingapp/service/RentalServiceImpl.java:112-118 | exactly the current user's rentals |
| RentalService.ActivityListingsSplitUserListing | src/main/java/org/example/carsharingapp/service/RentalServiceImpl.java:98-107 | the unfiltered listing is the union of the two filtered ones, and no rental is in both |
| PaymentService.TypeFor | src/main/java/org/example/carsharingapp/service/PaymentServiceImpl.java:106-110 | FINE iff the actual return is strictly after the due timestamp, PAYMENT otherwise |
| PaymentService.RentalAmount | src/main/java/org/example/carsharingapp/service/PaymentServiceImpl.java:78-86 | a PAYMENT-typed rental costs the booked days; a FINE-typed one costs the booked days plus the fine |
| PaymentService.CreatePaymentSessionByRentalId | src/main/java/org/example/carsharingapp/service/PaymentServiceImpl.java:54-120 | in order: unknown rental or no MANAGER row, EntityNotFoundException; not returned, PaymentException; neither owner (by id) nor manager, AccessDeniedException; fractional amount, ArithmeticException; gateway failure, StripeSessionException; missing status or type row, EntityNotFoundException; any failure saves nothing; otherwise exactly one PENDING payment with the computed amount, type and session is appended, and its URL is returned |
| PaymentService.SameDayLateReturnIsFineWithoutSurcharge | src/main/java/org/example/carsharingapp/service/PaymentServiceImpl.java:82-110 | a late return on the due day is typed FINE but costs only the booked days |
| PaymentService.GetPayments | src/main/java/org/example/carsharingapp/service/PaymentServiceImpl.java:124-144 | without a MANAGER row, EntityNotFoundException; a customer gets exactly their own payments; a manager gets all payments without a user id and exactly that user's payments with one |
| PaymentService.CustomerIgnoresUserId | src/main/java/org/example/carsharingapp/service/PaymentServiceImpl.java:128-131 | whatever user id a customer passes, the answer is the same |
| PaymentService.ManagerNamingSelfSeesOwn | src/main/java/org/example/carsharingapp/service/PaymentServiceImpl.java:137-143 | a manager naming their own id sees what they would see as a customer |
| PaymentService.PaidMessage | src/main/java/org/example/carsharingapp/service/PaymentServiceImpl.java:155-156 | holds the payment id and differs from the demo reply sent when no id is given |
| PaymentService.Success | src/main/java/org/example/carsharingapp/service/PaymentServiceImpl.java:148-160 | no id: the demo reply, nothing changes; unknown id or no PAID row: EntityNotFoundException, nothing changes; otherwise only that payment's status becomes PAID, whatever it was |
| PaymentService.Cancelled | src/main/java/org/example/carsharingapp/service/PaymentServiceImpl.java:163-166 | the "Payment cancelled" reply can never be mistaken for a success: it differs from the demo reply and from every `success(id)` reply |
| OverdueChecker.OverdueMessage | src/main/java/org/example/carsharingapp/service/OverdueRentalChecker.java:31-34 | starts with "Rentals overdue! " and a line break, and contains the user's email, the car and the due date |
| OverdueChecker.FirstUndelivered | src/main/java/org/example/carsharingapp/service/OverdueRentalChecker.java:30-37 | the number of reports that go out before the first one the Telegram call rejects: every report before it was accepted, the one at it was not |
| OverdueChecker.SendEach | src/main/java/org/example/carsharingapp/service/OverdueRentalChecker.java:30-37 | the messages go out in order; the run ends at the first one the Telegram call rejects, with the ones before it delivered and the call failing, and succeeds when every one is delivered |
| OverdueChecker.OverdueNotices | src/main/java/org/example/carsharingapp/service/OverdueRentalChecker.java:30-37 | one report per overdue rental, in query order |
| OverdueChecker.NoticesNeverSayNothingOverdue | src/main/java/org/example/carsharingapp/service/OverdueRentalChecker.java:27-38 | no report equals the "No rentals overdue today!" text |
| OverdueChecker.CheckOverdueRental | src/main/java/org/example/carsharingapp/service/OverdueRentalChecker.java:22-39 | for the rentals overdue at `now`: none, one "No rentals overdue today!" message, and success exactly when it is delivered; otherwise their reports in query order up to the first the Telegram call rejects, which ends the run with a failure; nothing else changes |

## Left out

- Controllers, request validation wiring, JWT authentication, AuthenticationService and DataInitializer (HTTP routing and framework configuration). From the security configuration, only the rule that a manager passes the manager checks (`hasRole('MANAGER')`, membership of the MANAGER role) is modelled, as `Entities.IsManager`.
- The Stripe and Telegram clients (outbound network calls). The checkout gateway is a function parameter whose `None` means the call threw. The Telegram call is the parameter `delivers`, false when it throws; the log holds the messages delivered.
- `Page`/`Pageable`: the listings return every matching row in storage order, and paging is not modelled.
- `@SQLDelete`/`@Where` are reduced to the car's `deleted` set. Rentals, payments and users are never deleted by the core, so their filters are not modelled.
- Lazy loading and `@Transactional`. A call that fails midway is modelled as changing nothing. This matches the rollback of `updateRoleById`, whose loop adds roles to the managed set before an invalid entry throws, and of `addNewRental`, whose saved rental is rolled back when the Telegram call throws (`RentalService.SaveAndNotify`). The rolled-back save also gives its id back to the counter, which a database sequence would not do.
- Concurrency: the check-then-act race between the availability query and the save in `addNewRental` cannot arise in a sequential model. In `register`, the database refusing the insert (the DataIntegrityViolationException the code catches) is the boolean parameter `storageRejects`.
- Email uniqueness: the `User` entity declares no unique constraint on `email` (`User.java:25-27`), so the model's user table allows two users with one email. Nothing enforces it: `updateUserProfileInfo` can create such a pair (`UserService.ProfileUpdateSharesEmail`), and a later `register` with that email then fails with `IncorrectResultSize` (`UserService.UpdateThenRegisterHitsDuplicate`). A schema outside the entity that adds the constraint is not part of this model.
- The `Long` comparisons with `!=` (`PaymentServiceImpl.java:69` and `:129`) compare object identity in Java. The model compares ids by value, as the code evidently means.
- `PaymentStatus.equals` (`RentalServiceImpl.java:53`) is modelled as equality of status names, which is what it amounts to within one persistence context.
- The principal's `username` in `@PreAuthorize` is the user's email.
- `String.toUpperCase` is modelled on ASCII letters only, with no locale-dependent or non-ASCII case mapping.
- `LocalDateTime.toString` and the default `Object.toString` of a car, used in the notification texts, are function parameters (`formatDate`, `carText`). The car entity has no `toString` of its own.
- The value handed to the gateway as `amountInCents` is the whole-unit amount, as the code passes it. No conversion to cents exists in the code, so none is modelled.
- `RentalServiceImpl` calls repository methods that the repositories do not declare:
  - `paymentRepository.findAllByUserId` with one argument, where only the pageable form is declared;
  - `rentalRepository.findAllByUserId` with a pageable;
  - `findAllByUserIdAndActualReturnDateIsNull` and `findAllByUserIdAndActualReturnDateIsNotNull`.

  `UserServiceImpl` calls `findByIdWithRoles`, which is also undeclared. Each is modelled by what its name states (`Queries.PaymentsOfUser`, `Queries.RentalsOfUser`, `Queries.RentalsOfUserByState`, a plain id lookup).
- The unresolved merge conflict in `RentalRepository.java:30-47` is taken as both sides: `findAllByUserId` and `findOverdueRentals` are both modelled.
- `CarService.java:18` declares `void deleteCarById`; the implementation's String reply is modelled.
- The bean-validation annotations are preconditions only. `CarRequestDto` requires at least one unit and a non-negative price with at most ten integer and two fraction digits (`Entities.ValidCarRequest`). `@PasswordMatches` is a precondition of `register`. `@NotBlank` is not modelled, because no branch of the core depends on it.
- `getAllCars` and `getUserProfileInfo` only page or map stored rows and are not part of this model. The mappers other than `RentalMapper` and `CarMapper.mapType` are not part of this model either.
- RentalService.IsOwner: its own contract gives only the "only if" direction, because the "if" direction needs unique rental ids. `RentalService.IsOwnerExactly` proves the equivalence under the tables' increasing-id invariant.
- Two or more live cars with the same offer make the Optional-returning query of `addNewCar` throw (`IncorrectResultSize` in `CarService.StoreOffer`). `addNewCar` never stores such a duplicate, but `updateCarById` does when it gives a car the offer of another live car (`CarService.UpdatedDuplicateBlocksAdd`, `CarService.UpdateThenAddHitsDuplicate`).
