/** The values that travel through the flash-sale order pipeline. */
module SeckillTypes {
  import opened Wrappers
  import Decimals

  type OrderId = int
  type VoucherId = int
  type UserId = int
  type Time = int

  predicate IsLong(n: int) {
    Decimals.LONG_MIN <= n <= Decimals.LONG_MAX
  }

  // An accepted purchase on its way into the outbox table.
  datatype Event = Event(
    eventId: string, orderId: OrderId, voucherId: VoucherId, userId: UserId, autoIssued: bool, at: Time)

  function PendingEvent(orderId: OrderId, voucherId: VoucherId, userId: UserId, autoIssued: bool, now: Time): Event {
    Event(Decimals.Render(orderId), orderId, voucherId, userId, autoIssued, now)
  }
}
