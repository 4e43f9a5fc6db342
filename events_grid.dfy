/** The home page's event grid: the release countdown shown on a card and the card's
    avatar stack. */
module EventsGrid {
  import opened Wrappers
  import opened Types

  const MsPerSecond := 1000
  const MsPerMinute := 60000
  const MsPerHour := 3600000
  const MsPerDay := 86400000

  /** The countdown state. */
  datatype TimeLeft = TimeLeft(days: int, hours: int, minutes: int, seconds: int, total: int)

  /** What the countdown's `useState` starts with, and what an elapsed release gives. */
  const Elapsed := TimeLeft(0, 0, 0, 0, 0)

  /** Milliseconds the four displayed fields stand for. */
  function Millis(t: TimeLeft): int {
    t.days * MsPerDay + t.hours * MsPerHour + t.minutes * MsPerMinute + t.seconds * MsPerSecond
  }

  /** `calculateTimeLeft` for a difference of `difference` milliseconds between the
      release time and now: all zero once the release time has passed, otherwise
      whole days and the hours, minutes and seconds left over. */
  function CalculateTimeLeft(difference: int): (t: TimeLeft)
    ensures difference <= 0 ==> t == Elapsed
    ensures difference > 0 ==>
              (t.total == difference && t.days >= 0
               && 0 <= t.hours < 24 && 0 <= t.minutes < 60 && 0 <= t.seconds < 60)
  {
    if difference <= 0 then Elapsed
    else
      TimeLeft(difference / MsPerDay,
               (difference / MsPerHour) % 24,
               (difference / MsPerSecond / 60) % 60,
               (difference / MsPerSecond) % 60,
               difference)
  }

  /** For a positive difference the fields lose less than one second: they add up to
      the difference rounded down to a whole second. */
  lemma CountdownAddsUp(difference: int)
    requires difference > 0
    ensures var t := CalculateTimeLeft(difference);
      Millis(t) <= difference < Millis(t) + 1000
  {
    var t := CalculateTimeLeft(difference);
    var s := difference / 1000;
    var m := s / 60;
    var h := m / 60;
    assert difference == 1000 * s + difference % 1000;
    assert s == 60 * m + s % 60;
    assert m == 60 * h + m % 60;
    assert h == 24 * (h / 24) + h % 24;
    assert h == difference / MsPerHour;
    assert h / 24 == difference / MsPerDay;
    assert Millis(t) == 1000 * s;
  }

  /** The card's countdown: the "Fotos disponíveis" label once `total` is not
      positive, otherwise the four fields. */
  datatype Countdown = PhotosAvailable | Remaining(days: int, hours: int, minutes: int, seconds: int)

  function CountdownView(t: TimeLeft): Countdown {
    if t.total <= 0 then PhotosAvailable else Remaining(t.days, t.hours, t.minutes, t.seconds)
  }

  /** The label shows exactly when the release time has been reached. */
  lemma AvailableIffElapsed(difference: int)
    ensures CountdownView(CalculateTimeLeft(difference)).PhotosAvailable? <==> difference <= 0
  {
  }

  /** A grid card shows up to five avatars and a "+n" badge for the rest. */
  function GridAvatars(e: EventInfo): (r: Option<AvatarStack>)
    ensures r.Some? ==> e.photographers.Some? && |r.value.shown| <= 5
                        && (r.value.badge.Some? ==> r.value.badge.value == |e.photographers.value| - 5)
  {
    Avatars(e.photographers, 5)
  }
}
