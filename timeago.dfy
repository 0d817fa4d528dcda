/** The "time ago" label the page shows next to a last location. */
module TimeAgo {
  import opened Text
  import opened Registry

  /** `Math.floor((now - date) / 3600000)`: the whole hours elapsed, rounded
      down, so negative for a date in the future. */
  function HoursBetween(now: int, date: int): (h: int)
    ensures h * MsPerHour <= now - date < (h + 1) * MsPerHour
  {
    (now - date) / MsPerHour
  }

  /** Taking whole days of the whole hours is taking whole days of the
      elapsed milliseconds. */
  lemma DaysOfHours(diff: int)
    requires diff >= 0
    ensures (diff / MsPerHour) / 24 == diff / MsPerDay
  {
    var h := diff / MsPerHour;
    var d := h / 24;
    assert h * MsPerHour <= diff < (h + 1) * MsPerHour;
    assert d * 24 <= h < (d + 1) * 24;
    assert d * MsPerDay <= h * MsPerHour by {
      assert d * MsPerDay == (d * 24) * MsPerHour;
    }
    assert (h + 1) * MsPerHour <= (d + 1) * MsPerDay by {
      assert (d + 1) * MsPerDay == ((d + 1) * 24) * MsPerHour;
    }
    assert d * MsPerDay <= diff < (d + 1) * MsPerDay;
  }

  /** The label for a timestamp `date` read at clock `now`: under an hour
      (or in the future) "a few minutes ago", under a day the whole hours,
      otherwise the whole days. */
  function FormatTimeAgo(now: int, date: int): (r: string)
    ensures now - date < MsPerHour ==> r == "Há poucos minutos"
    ensures MsPerHour <= now - date < MsPerDay ==>
      1 <= HoursBetween(now, date) < 24 && r == "Há " + Decimal(HoursBetween(now, date)) + " horas"
    ensures MsPerDay <= now - date ==> r == "Há " + Decimal((now - date) / MsPerDay) + " dias"
  {
    var hours := HoursBetween(now, date);
    if hours < 1 then "Há poucos minutos"
    else if hours < 24 then "Há " + Decimal(hours) + " horas"
    else
      DaysOfHours(now - date);
      "Há " + Decimal(hours / 24) + " dias"
  }
}
