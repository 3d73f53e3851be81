/** The booking request values: a customer and a schedule (a timestamp, a
    party size and the customer who booked). Both are immutable values. */
module Schedules {
  import opened Calendar

  datatype Option<+T> = None | Some(value: T)

  /** A customer; the email address is optional. */
  datatype Customer = Customer(name: string, phone: string, email: Option<string>)

  /** A party of one or more people. */
  type PartySize = n: int | n >= 1 witness 1

  /** A requested (or accepted) booking. */
  datatype Schedule = Schedule(time: DateTime, partySize: PartySize, customer: Customer)

  /** Whether the customer can be mailed: an address is present and not empty. */
  predicate HasEmail(c: Customer) {
    c.email.Some? && c.email.value != ""
  }
}
