/** The closing report of main: the unit ladder that picks how the measured
    duration, held in microseconds, is printed. */
module Reporting {

  datatype TimeUnit = Nanoseconds | Microseconds | Milliseconds | Seconds

  /** The unit for a duration of d microseconds: nanoseconds for a duration
      that is not positive, then microseconds up to 1000, milliseconds up to
      one million and seconds beyond. */
  function UnitFor(d: real): (u: TimeUnit)
    ensures u == Nanoseconds <==> d <= 0.0
    ensures u == Seconds <==> d > 1000000.0
  {
    if d <= 0.0 then Nanoseconds
    else if d <= 1000.0 then Microseconds
    else if d <= 1000000.0 then Milliseconds
    else Seconds
  }

  /** How many microseconds one of the unit is. */
  function MicrosPer(u: TimeUnit): (m: real)
    ensures m > 0.0
  {
    match u
    case Nanoseconds => 0.001
    case Microseconds => 1.0
    case Milliseconds => 1000.0
    case Seconds => 1000000.0
  }

  /** The number printed for a duration of d microseconds: read in the unit
      chosen for d it is d again, and outside the nanosecond case it lies in
      the range that makes the unit the largest one keeping it above one. */
  function Shown(d: real): (v: real)
    ensures v * MicrosPer(UnitFor(d)) == d
    ensures UnitFor(d) == Nanoseconds ==> v <= 0.0
    ensures UnitFor(d) == Microseconds ==> 0.0 < v <= 1000.0
    ensures UnitFor(d) == Milliseconds ==> 1.0 < v <= 1000.0
    ensures UnitFor(d) == Seconds ==> 1.0 < v
  {
    if d <= 0.0 then d * 1000.0
    else if d <= 1000.0 then d
    else if d <= 1000000.0 then d / 1000.0
    else d / 1000000.0
  }

  /** The units in increasing size. */
  function Rank(u: TimeUnit): nat {
    match u
    case Nanoseconds => 0
    case Microseconds => 1
    case Milliseconds => 2
    case Seconds => 3
  }

  /** A longer duration is never printed in a smaller unit. */
  lemma UnitMonotone(d: real, d': real)
    requires d <= d'
    ensures Rank(UnitFor(d)) <= Rank(UnitFor(d'))
  {
  }

  /** Each unit covers exactly its bracket of durations. */
  lemma UnitBrackets(d: real)
    ensures UnitFor(d) == Microseconds <==> 0.0 < d <= 1000.0
    ensures UnitFor(d) == Milliseconds <==> 1000.0 < d <= 1000000.0
  {
  }

  /** The boundaries belong to the smaller unit: 1000 microseconds is printed
      as 1000 microseconds and one million as 1000 milliseconds. */
  lemma ExampleBoundaries()
    ensures UnitFor(1000.0) == Microseconds && Shown(1000.0) == 1000.0
    ensures UnitFor(1000000.0) == Milliseconds && Shown(1000000.0) == 1000.0
    ensures UnitFor(1500000.0) == Seconds && Shown(1500000.0) == 1.5
    ensures UnitFor(0.0) == Nanoseconds && Shown(0.0) == 0.0
  {
  }
}
