/** Error kinds and failure-carrying results shared by the trading engine. */
module Wrappers {

  /** The error conditions the engine reports as values. */
  datatype Error =
    | InsufficientFunds
    | NoPositionToSell
    | OverSell
    | UnsupportedOperation
    | MissingPricingData
    | SnapshotPeriodMismatch

  datatype Option<+T> = None | Some(value: T)

  datatype Result<+T> = Success(value: T) | Failure(error: Error)
}
