/** Option and Result values, and the kinds of exception the services raise. */
module Wrappers {

  datatype Option<+T> = None | Some(value: T)

  /** One constructor per kind of failure the core reports. */
  datatype Failure =
    | EntityNotFound        // EntityNotFoundException
    | PaymentRejected       // PaymentException
    | AccessDenied          // AccessDeniedException (also Spring's PreAuthorize refusal)
    | StripeSession         // StripeSessionException
    | NoAvailableCars       // NoAvailableCarsException
    | Registration          // RegistrationException
    | IllegalArgument       // IllegalArgumentException (enum lookups)
    | Arithmetic            // ArithmeticException (BigDecimal.longValueExact)
    | IncorrectResultSize   // more than one row for a query declared to return Optional
    | Notification          // RestClientException from the Telegram API call

  datatype Result<+T> = Ok(value: T) | Err(error: Failure)
}
