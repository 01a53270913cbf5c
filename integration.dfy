/** The boundary of the external custodial service (`WithdrawalService`): its identifiers and states. */
module Integration {
  import opened Domain

  /** Caller-generated idempotency key of a withdrawal. */
  datatype WithdrawalId = WithdrawalId(value: Uuid)

  /** Destination of a withdrawal; any string. */
  datatype Address = Address(value: string)

  /** The states `getRequestState` reports. */
  datatype WithdrawalState = Processing | Completed | Failed
}
