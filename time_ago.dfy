// The "time ago" bucketing shared by the notification list and the activity
// log: elapsed milliseconds are turned into floored minutes, hours and days,
// and the first of minutes < 60, hours < 24, days < 7 that holds picks the unit.
// JavaScript's `Math.floor(diff / k)` for an integer diff and positive k is
// Dafny's `diff / k`.
module TimeAgo {

  const MsPerMinute: int := 60000
  const MsPerHour: int := 3600000
  const MsPerDay: int := 86400000

  datatype Ago = Minutes(n: int) | Hours(n: int) | Days(n: int) | Older

  /** The bucket for `diff = now - date`, in milliseconds. */
  function Bucket(diff: int): (a: Ago)
    ensures a.Minutes? <==> diff < 60 * MsPerMinute
    ensures a.Hours? <==> 60 * MsPerMinute <= diff < 24 * MsPerHour
    ensures a.Days? <==> 24 * MsPerHour <= diff < 7 * MsPerDay
    ensures a.Older? <==> 7 * MsPerDay <= diff
    ensures a.Minutes? ==> a.n * MsPerMinute <= diff < (a.n + 1) * MsPerMinute && a.n < 60
    ensures a.Hours? ==> a.n * MsPerHour <= diff < (a.n + 1) * MsPerHour && 1 <= a.n < 24
    ensures a.Days? ==> a.n * MsPerDay <= diff < (a.n + 1) * MsPerDay && 1 <= a.n < 7
  {
    var minutes := diff / MsPerMinute;
    var hours := diff / MsPerHour;
    var days := diff / MsPerDay;
    if minutes < 60 then Minutes(minutes)
    else if hours < 24 then Hours(hours)
    else if days < 7 then Days(days)
    else Older
  }
}
