/** The repositories as in-memory tables, and the notification sink. Each
    table hands out ids from a counter, as an identity column does. */
module Repositories {
  import opened Wrappers
  import opened Entities
  import opened Queries

  /** CarRepository's rows, in insertion order. A soft-deleted car keeps its
      row (a rental still reaches its car) and its id joins `deleted`; the car
      queries see only the live rows. */
  class CarRepository {
    var cars: seq<Car>
    var deleted: set<int>
    var nextId: int

    ghost predicate Valid()
      reads this
    {
      && CarIdsIncrease(cars)
      && (forall c :: c in cars ==> c.id < nextId)
    }

    /** `findById` under the `is_deleted=false` filter: the position
        of the live car with that id. */
    function FindLive(id: int): (k: Option<nat>)
      reads this
      ensures k.Some? ==> k.value < |cars| && cars[k.value].id == id && id !in deleted
      ensures k.None? ==> id in deleted || forall c :: c in cars ==> c.id != id
    {
      if id in deleted then None else IndexOfCar(cars, id)
    }

    constructor ()
      ensures Valid() && cars == [] && deleted == {}
    {
      cars, deleted, nextId := [], {}, 1;
    }
  }

  /** UserRepository; users are never removed. */
  class UserRepository {
    var users: map<int, User>
    var nextId: int

    ghost predicate Valid()
      reads this
    {
      forall id :: id in users ==> users[id].id == id && id < nextId
    }

    constructor ()
      ensures Valid() && users == map[]
    {
      users, nextId := map[], 1;
    }
  }

  /** RentalRepository's rows, in insertion order. */
  class RentalRepository {
    var rentals: seq<Rental>
    var nextId: int

    ghost predicate Valid()
      reads this
    {
      && RentalIdsIncrease(rentals)
      && (forall r :: r in rentals ==> r.id < nextId)
    }

    constructor ()
      ensures Valid() && rentals == []
    {
      rentals, nextId := [], 1;
    }
  }

  /** PaymentRepository's rows, in insertion order. */
  class PaymentRepository {
    var payments: seq<Payment>
    var nextId: int

    ghost predicate Valid()
      reads this
    {
      && PaymentIdsIncrease(payments)
      && (forall p :: p in payments ==> p.id < nextId)
    }

    constructor ()
      ensures Valid() && payments == []
    {
      payments, nextId := [], 1;
    }
  }

  /** NotificationService: every message delivered, oldest first. */
  class NotificationLog {
    var messages: seq<string>

    constructor ()
      ensures messages == []
    {
      messages := [];
    }

    /** `sendNotification`: `delivers(message)` is false when the Telegram
        API call throws, and then nothing is delivered. */
    method Send(message: string, delivers: string -> bool) returns (r: Result<()>)
      modifies this
      ensures r.Ok? <==> delivers(message)
      ensures r.Err? ==> r.error == Notification
      ensures delivers(message) ==> messages == old(messages) + [message]
      ensures !delivers(message) ==> unchanged(this)
    {
      if !delivers(message) {
        return Err(Notification);
      }
      messages := messages + [message];
      return Ok(());
    }
  }

  /** Every rental points at a stored car row and a stored user. */
  ghost predicate Linked(cars: seq<Car>, users: map<int, User>, rentals: seq<Rental>) {
    forall r :: r in rentals ==> IndexOfCar(cars, r.carId).Some? && r.userId in users
  }
}
