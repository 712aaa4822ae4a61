/**
 * How the presentation shells read an identity's age: -1 means no identity
 * file, an identity expires 24 hours after it was written, and from 23 hours
 * on it is close to expiry. The time left is shown as "HHhMMm".
 */
module Standing {
  import opened Base
  import opened Durations

  const Day: Duration := 24 * Hour
  /** The age past which an identity is close to expiry (and below which renewal is not required). */
  const NearAge: Duration := 23 * Hour

  datatype Standing = Missing | Expired | Close | Valid

  /** The order the shells test in: missing, then past 24h, then past 23h. */
  function Classify(age: Duration): (s: Standing)
    ensures s == Missing <==> age == -1
    ensures s == Expired <==> age > Day
    ensures s == Close <==> NearAge < age <= Day
    ensures s == Valid <==> age != -1 && age <= NearAge
  {
    if age == -1 then Missing
    else if age > Day then Expired
    else if age > NearAge then Close
    else Valid
  }

  /**
   * For an identity that exists and has not expired (its time left is
   * between 0 and 24 hours), the rendered time left reads back as whole
   * hours (at most 24) and minutes (0..59), together the time left rounded
   * down to the minute.
   */
  lemma TimeLeftShown(left: Duration)
    requires 0 <= left <= Day
    ensures ParseHoursMinutes(HoursMinutes(left)) == Some((WholeHours(left), MinuteOfHour(left)))
    ensures 0 <= WholeHours(left) <= 24 && 0 <= MinuteOfHour(left) < 60
    ensures WholeHours(left) * Hour + MinuteOfHour(left) * Minute <= left
    ensures left < WholeHours(left) * Hour + MinuteOfHour(left) * Minute + Minute
  {
    HoursMinutesRoundTrip(left);
    ClockFields(left);
    HoursWithinDay(left);
  }

  lemma HoursWithinDay(left: Duration)
    requires 0 <= left <= Day
    ensures WholeHours(left) <= 24
  {
    ClockFields(left);
  }
}
