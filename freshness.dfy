/**
 * The freshness classifier `getStatus`: how many whole days remain until the
 * expiry date, and the status that number falls into.
 */
module Freshness {
  import opened Items

  /** Milliseconds in a day, the divisor of the day-difference computation. */
  const MsPerDay: int := 1000 * 60 * 60 * 24

  /** The three statuses the dashboard shows. */
  datatype Status = Expired | ExpiringSoon | Fresh

  /** `Math.ceil(a / b)` for a positive divisor: the least `q` with `a <= q * b`. */
  function CeilDiv(a: int, b: int): (q: int)
    requires b > 0
    ensures (q - 1) * b < a <= q * b
  {
    var m := -a;
    assert m == b * (m / b) + m % b && 0 <= m % b < b;
    -(m / b)
  }

  /**
   * `diffDays`: the expiry instant (UTC midnight of `expiryDay`) minus the instant
   * `now` (milliseconds since the epoch), in days, rounded up.
   */
  function DiffDays(expiryDay: int, now: int): (d: int)
    ensures (d - 1) * MsPerDay < expiryDay * MsPerDay - now <= d * MsPerDay
  {
    CeilDiv(expiryDay * MsPerDay - now, MsPerDay)
  }

  /** The UTC calendar day that contains the instant `now`. */
  function Today(now: int): (t: int)
    ensures t * MsPerDay <= now < (t + 1) * MsPerDay
  {
    now / MsPerDay
  }

  /** The thresholds: below zero is expired, zero to three is expiring soon, the rest is fresh. */
  function Classify(diffDays: int): (s: Status)
    ensures s == Expired <==> diffDays < 0
    ensures s == ExpiringSoon <==> 0 <= diffDays <= 3
    ensures s == Fresh <==> diffDays > 3
  {
    if diffDays < 0 then Expired
    else if diffDays <= 3 then ExpiringSoon
    else Fresh
  }

  /** Rounding up makes `diffDays` the plain difference of calendar days, whatever the time of day. */
  lemma {:induction false} DiffDaysIsCalendarDifference(expiryDay: int, now: int)
    ensures DiffDays(expiryDay, now) == expiryDay - Today(now)
  {
    var t, r := now / MsPerDay, now % MsPerDay;
    assert now == t * MsPerDay + r && 0 <= r < MsPerDay;
    var a := expiryDay * MsPerDay - now;
    var e := expiryDay - t;
    assert a == e * MsPerDay - r;
    var q := DiffDays(expiryDay, now);
    assert (q - 1) * MsPerDay < a <= q * MsPerDay;
    assert (e - 1) * MsPerDay < a <= e * MsPerDay;
  }

  /**
   * `getStatus(expiry)` with the clock reading passed in as `now`. An unparsable
   * date makes `diffDays` NaN, which fails both comparisons, so the item is Fresh.
   * For a real date each status holds exactly on its range of calendar days
   * relative to today.
   */
  function GetStatus(expiry: Expiry, now: int): (s: Status)
    ensures expiry.InvalidDate? ==> s == Fresh
    ensures expiry.Day? ==> (s == Expired <==> expiry.day < Today(now))
    ensures expiry.Day? ==> (s == ExpiringSoon <==> Today(now) <= expiry.day <= Today(now) + 3)
    ensures expiry.Day? ==> (s == Fresh <==> expiry.day > Today(now) + 3)
  {
    match expiry
    case InvalidDate => Fresh
    case Day(d) =>
      DiffDaysIsCalendarDifference(d, now);
      Classify(DiffDays(d, now))
  }

  /** The boundary cases: yesterday is expired, today and three days on are expiring soon, four days on is fresh. */
  lemma {:induction false} StatusBoundaries(now: int)
    ensures GetStatus(Day(Today(now) - 1), now) == Expired
    ensures GetStatus(Day(Today(now)), now) == ExpiringSoon
    ensures GetStatus(Day(Today(now) + 3), now) == ExpiringSoon
    ensures GetStatus(Day(Today(now) + 4), now) == Fresh
  {
  }

  /**
   * The clock is read afresh by every call: an item due on day `d` is Expiring
   * Soon one millisecond before the next UTC midnight and Expired at it.
   */
  lemma {:induction false} StatusChangesAtMidnight(d: int)
    ensures GetStatus(Day(d), (d + 1) * MsPerDay - 1) == ExpiringSoon
    ensures GetStatus(Day(d), (d + 1) * MsPerDay) == Expired
  {
    assert Today((d + 1) * MsPerDay - 1) == d;
    assert Today((d + 1) * MsPerDay) == d + 1;
  }
}
