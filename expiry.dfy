/** The expiry flag of the reservation listing: a reservation whose end lies
    at most five days after the report time is flagged as expiring soon.
    Times are whole seconds. */
module Expiry {

  const SecondsPerDay: int := 86400

  /** The warning window: five days. */
  const ExpiryWindow: int := 5 * SecondsPerDay

  /** The time left until `end`, seen at `now`, is at most five days (inclusive). */
  predicate Expiring(end: int, now: int): (flagged: bool)
    ensures flagged <==> end <= now + 5 * SecondsPerDay
    ensures end <= now ==> flagged
  {
    end - now <= ExpiryWindow
  }

  /** Four days and exactly five days left are flagged; one second more than
      five days, and six days, are not. */
  lemma ExpiryBoundary(now: int)
    ensures Expiring(now + 4 * SecondsPerDay, now)
    ensures Expiring(now + 5 * SecondsPerDay, now)
    ensures !Expiring(now + 5 * SecondsPerDay + 1, now)
    ensures !Expiring(now + 6 * SecondsPerDay, now)
  {
  }

  /** A reservation that ends earlier than a flagged one is flagged too, and
      so is one that has already ended. */
  lemma ExpiringEarlier(end: int, sooner: int, now: int)
    requires sooner <= end
    ensures Expiring(end, now) ==> Expiring(sooner, now)
    ensures sooner <= now ==> Expiring(sooner, now)
  {
  }
}
