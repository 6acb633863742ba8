/** The colour of a room's occupancy bar on the admin dashboard. */
module Rooms {
  /** The bar's class: bg-destructive, bg-warning or bg-success. */
  datatype Bucket = Destructive | Warning | Success

  /** The nested conditional that picks the bar's class from a utilization percentage. */
  function UtilizationBucket(u: real): (b: Bucket)
    ensures b == Destructive <==> u > 85.0
    ensures b == Warning <==> 70.0 < u <= 85.0
    ensures b == Success <==> u <= 70.0
  {
    if u > 85.0 then Destructive else if u > 70.0 then Warning else Success
  }

  /** How alarming a bucket is. */
  function Severity(b: Bucket): nat
  {
    match b
    case Success => 0
    case Warning => 1
    case Destructive => 2
  }

  /** A fuller room never gets a calmer colour. */
  lemma BucketMonotone(u: real, v: real)
    requires u <= v
    ensures Severity(UtilizationBucket(u)) <= Severity(UtilizationBucket(v))
  {
  }
}
