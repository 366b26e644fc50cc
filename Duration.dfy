/** `format_timedelta`: a duration, already truncated to whole seconds by
    `int(delta.total_seconds())`, shown as hours, minutes and seconds. */
module Duration {
  import opened Decimal

  /** Python's `//` and `%` by a positive divisor round towards minus infinity,
      which is what Dafny's `/` and `%` do for a positive divisor as well. */
  function Split(totalSeconds: int): (r: (int, nat, nat))
    ensures r.1 < 60 && r.2 < 60
    ensures r.0 * 3600 + r.1 * 60 + r.2 == totalSeconds
    ensures totalSeconds >= 0 ==> r.0 >= 0
  {
    (totalSeconds / 3600, (totalSeconds % 3600) / 60, totalSeconds % 60)
  }

  /** The text always ends in the seconds; hours are shown exactly when the
      hour part is positive, minutes exactly when the hour or the minute part
      is. */
  function FormatTimedelta(totalSeconds: int): (r: string)
    ensures var sec := NatToDecimal(Split(totalSeconds).2) + "с";
            |sec| <= |r| && r[|r| - |sec|..] == sec
    ensures 'ч' in r <==> Split(totalSeconds).0 > 0
    ensures 'м' in r <==> Split(totalSeconds).0 > 0 || Split(totalSeconds).1 > 0
  {
    var (hours, minutes, seconds) := Split(totalSeconds);
    if hours > 0 then
      NatToDecimal(hours) + "ч " + NatToDecimal(minutes) + "м " + NatToDecimal(seconds) + "с"
    else if minutes > 0 then
      NatToDecimal(minutes) + "м " + NatToDecimal(seconds) + "с"
    else
      NatToDecimal(seconds) + "с"
  }

  /** Hours are shown exactly from one hour on, minutes exactly from one
      minute on; each part is the quotient and remainder of the total. */
  lemma FormatTimedeltaParts(t: nat)
    ensures t < 60 ==> FormatTimedelta(t) == NatToDecimal(t) + "с"
    ensures 60 <= t < 3600 ==>
      FormatTimedelta(t) == NatToDecimal(t / 60) + "м " + NatToDecimal(t % 60) + "с"
    ensures 3600 <= t ==>
      FormatTimedelta(t) ==
        NatToDecimal(t / 3600) + "ч " + NatToDecimal(t % 3600 / 60) + "м " + NatToDecimal(t % 60) + "с"
  {
    if t < 60 {
      assert Split(t) == (0, 0, t);
    } else if t < 3600 {
      assert Split(t) == (0, t / 60, t % 60);
    } else {
      assert Split(t) == (t / 3600, t % 3600 / 60, t % 60) && t / 3600 > 0;
    }
  }

  /** A negative duration never shows hours: minus one second reads as
      59 minutes 59 seconds. */
  lemma NegativeDurationWraps()
    ensures FormatTimedelta(-1) == "59м 59с"
  {
    assert Split(-1) == (-1, 59, 59);
    assert NatToDecimal(59) == "59" by {
      assert NatToDecimal(5) == "5";
    }
  }
}
