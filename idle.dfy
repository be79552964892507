/** The idle-time tools: `get_idle_time` and the inclusive threshold check of `is_idle_for`. */
module Idle {
  import opened Text
  import opened Duration

  /**
   * The user counts as idle once the idle time has reached the threshold:
   * an idle time equal to the threshold counts, and a zero threshold is
   * always met.
   */
  function IsIdle(idleSeconds: nat, thresholdSeconds: nat): (idle: bool)
    ensures idleSeconds == thresholdSeconds ==> idle
    ensures thresholdSeconds == 0 ==> idle
  {
    idleSeconds >= thresholdSeconds
  }

  /** Idleness only grows with the idle time and only shrinks with the threshold. */
  lemma IdleMonotone(idle: nat, longer: nat, threshold: nat, lower: nat)
    requires idle <= longer && lower <= threshold
    ensures IsIdle(idle, threshold) ==> IsIdle(longer, threshold) && IsIdle(idle, lower)
  {
  }

  /**
   * The text of `get_idle_time`, for an idle time already read from the
   * platform: the raw seconds, which read back as the idle time, then the
   * formatted duration on the last line.
   */
  function IdleTimeReport(idleSeconds: nat): (r: string)
    ensures var raw := NatToDecimal(idleSeconds);
      && |r| > 33 + |raw|
      && r[..24] == "User Idle Time:\n\n  Raw: "
      && AllDigits(r[24..24 + |raw|]) && DecimalValue(r[24..24 + |raw|]) == idleSeconds
      && r[24 + |raw|..33 + |raw|] == " seconds\n"
    ensures EndsWith(r, "  Formatted: " + FormatDuration(idleSeconds) + "\n")
  {
    var head, raw := "User Idle Time:\n\n  Raw: ", NatToDecimal(idleSeconds);
    var tail := "  Formatted: " + FormatDuration(idleSeconds) + "\n";
    var r := head + raw + " seconds\n" + tail;
    DecimalRoundTrip(idleSeconds);
    Fields(head, raw, " seconds\n", tail);
    r
  }

  /** Where each of four concatenated texts sits in the whole. */
  lemma Fields(head: string, raw: string, mid: string, tail: string)
    ensures var r := head + raw + mid + tail;
      var a, b := |head|, |head| + |raw|;
      && r[..a] == head && r[a..b] == raw && r[b..b + |mid|] == mid && r[|r| - |tail|..] == tail
  {
  }

  /** Each of the two verdict lines ends the report only when it is the one appended. */
  lemma VerdictIsLastLine(body: string)
    ensures var yes := body + "  Is idle: YES\n";
      EndsWith(yes, "  Is idle: YES\n") && !EndsWith(yes, "  Is idle: NO\n")
    ensures var no := body + "  Is idle: NO\n";
      EndsWith(no, "  Is idle: NO\n") && !EndsWith(no, "  Is idle: YES\n")
  {
    var yes := body + "  Is idle: YES\n";
    var no := body + "  Is idle: NO\n";
    assert yes[|yes| - 15..] == "  Is idle: YES\n";
    assert no[|no| - 14..] == "  Is idle: NO\n";
    assert yes[|yes| - 14..][11] == 'E';
    if |no| >= 15 {
      assert no[|no| - 15..][13] == 'O';
    }
  }

  /**
   * The text of `is_idle_for`. Its last line gives the verdict, and the
   * verdict is YES exactly when the idle time is at least the threshold
   * (equality counts as idle).
   */
  function IdleCheckReport(idleSeconds: nat, thresholdSeconds: nat): (r: string)
    ensures EndsWith(r, "  Is idle: YES\n") <==> idleSeconds >= thresholdSeconds
    ensures EndsWith(r, "  Is idle: NO\n") <==> idleSeconds < thresholdSeconds
  {
    var body := IdleCheckHead(idleSeconds, thresholdSeconds);
    VerdictIsLastLine(body);
    if IsIdle(idleSeconds, thresholdSeconds) then body + "  Is idle: YES\n" else body + "  Is idle: NO\n"
  }

  /** The lines of `is_idle_for` above the verdict: both durations, raw and formatted. */
  function IdleCheckHead(idleSeconds: nat, thresholdSeconds: nat): string {
    "Idle Check:\n\n  Current idle: " + NatToDecimal(idleSeconds) + " (" + FormatDuration(idleSeconds) + ")\n"
    + "  Threshold: " + NatToDecimal(thresholdSeconds) + " (" + FormatDuration(thresholdSeconds) + ")\n"
  }
}
