/** Legs, as far as the derived states of containers and orders look at them. */
module Legs {
  import opened Options

  type LegId = int
  type DriverId = int

  datatype LegStatus = LegPending | LegAssigned | LegInTransit | LegCompleted | LegFailed | LegDryRun

  datatype Leg = Leg(
    status: LegStatus, driver: Option<DriverId>, active: bool,
    acceptedAt: Option<int>, rejectedAt: Option<int>, rejectionReason: Option<string>)
}
