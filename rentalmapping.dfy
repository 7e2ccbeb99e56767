/** RentalMapper's `toDto`: which fields of the rental, its car and its user
    the response carries. */
module RentalMapping {
  import opened Wrappers
  import opened DateTimes
  import opened Entities
  import opened Queries

  /** RentalResponseDto. */
  datatype RentalResponse = RentalResponse(id: int, rentalDate: DateTime, returnDate: DateTime,
                                           brand: string, model: string, email: string,
                                           firstName: string, lastName: string, isActive: string)

  /** The `isActive` expression: "ACTIVE" while there is no actual return date. */
  function StatusText(actualReturnDate: Option<DateTime>): (s: string)
    ensures s == "ACTIVE" <==> actualReturnDate.None?
    ensures s == "FINISHED" <==> actualReturnDate.Some?
  {
    if actualReturnDate.None? then "ACTIVE" else "FINISHED"
  }

  /** `toDto(rental)`, given the rental's car and user. */
  function ToDto(rental: Rental, car: Car, user: User): (dto: RentalResponse)
    requires car.id == rental.carId && user.id == rental.userId
    ensures dto.id == rental.id && dto.rentalDate == rental.rentalDate && dto.returnDate == rental.returnDate
    ensures dto.brand == car.brand && dto.model == car.model
    ensures dto.email == user.email && dto.firstName == user.firstName && dto.lastName == user.lastName
    ensures dto.isActive == "ACTIVE" <==> rental.actualReturnDate.None?
    ensures dto.isActive == "FINISHED" <==> rental.actualReturnDate.Some?
  {
    RentalResponse(rental.id, rental.rentalDate, rental.returnDate, car.brand, car.model,
                   user.email, user.firstName, user.lastName, StatusText(rental.actualReturnDate))
  }

  /** The activity filter and the status text agree: a rental listed with
      `isActive = true` is shown "ACTIVE", one listed with `false` "FINISHED". */
  lemma FilterAgreesWithStatus(rs: seq<Rental>, userId: int, active: bool, r: Rental)
    requires r in RentalsOfUserByState(rs, userId, active)
    ensures StatusText(r.actualReturnDate) == (if active then "ACTIVE" else "FINISHED")
  {
  }
}
