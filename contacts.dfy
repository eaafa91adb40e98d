/** The records of the contact service: the stored `Contact`, the `ContactPayload` a caller
    sends, and the `Result` every operation returns. */
module Contacts {

  datatype Option<T> = None | Some(value: T)

  /** The kinds of error message the operations return. */
  datatype Error =
    | InvalidId        // the id argument is empty
    | MissingFields    // a payload field is empty
    | NotFound         // no record has the id, the name or the category
    | NotPermitted     // "User does not have the right to delete contact"
    | StorageFailure   // the store threw while inserting or removing

  datatype Result<T> = Ok(value: T) | Err(error: Error)

  /** Timestamps are `nat64` nanoseconds. */
  type Nat64 = x: int | 0 <= x < 0x1_0000_0000_0000_0000

  /** `ContactPayload`: the five caller-supplied text fields. */
  datatype Payload = Payload(name: string, phoneNumber: string, email: string, category: string, address: string)

  /** `Contact`; `owner` is the principal's text form, the only form the service compares. */
  datatype Contact = Contact(
    id: string,
    name: string,
    phoneNumber: string,
    email: string,
    category: string,
    address: string,
    owner: string,
    createdAt: Nat64,
    updatedAt: Option<Nat64>)

  /** The five text fields of a stored record. */
  function Fields(c: Contact): Payload {
    Payload(c.name, c.phoneNumber, c.email, c.category, c.address)
  }

  /** The payload check of create and update: an empty string is falsy in `!payload.name`. */
  predicate MissingField(p: Payload) {
    p.name == "" || p.phoneNumber == "" || p.email == "" || p.category == "" || p.address == ""
  }

  /** The record `createContact` builds from a valid payload. */
  function NewContact(id: string, p: Payload, now: Nat64, caller: string): Contact {
    Contact(id, p.name, p.phoneNumber, p.email, p.category, p.address, caller, now, None)
  }

  /** The record `updateContact` builds: the payload's fields over the existing identity. */
  function Replaced(existing: Contact, p: Payload, now: Nat64): Contact {
    Contact(existing.id, p.name, p.phoneNumber, p.email, p.category, p.address,
            existing.owner, existing.createdAt, Some(now))
  }

  /** The timestamps of a record are no later than `clock`, and an update is no earlier than
      the creation. */
  predicate Stamped(c: Contact, clock: Nat64) {
    c.createdAt <= clock &&
    (c.updatedAt.Some? ==> c.createdAt <= c.updatedAt.value <= clock)
  }
}
