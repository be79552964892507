/**
 * `format_bytes`: the unit is chosen by integer thresholds at powers of
 * 1024; below 1 KB the count is printed exactly, above it the quotient is
 * printed with one decimal (that floating-point text is not modelled).
 */
module Bytes {
  import opened Text

  const KB: nat := 1024
  const MB: nat := KB * 1024
  const GB: nat := MB * 1024

  datatype ByteUnit = B | KiB | MiB | GiB

  /** The number of bytes one unit stands for. */
  function Scale(u: ByteUnit): nat {
    match u
    case B => 1
    case KiB => KB
    case MiB => MB
    case GiB => GB
  }

  /** The next larger unit, if any. */
  function Larger(u: ByteUnit): ByteUnit
    requires u != GiB
  {
    match u
    case B => KiB
    case KiB => MiB
    case MiB => GiB
  }

  /** The unit `format_bytes` picks: the largest one whose scale does not exceed the count. */
  function UnitFor(bytes: nat): (u: ByteUnit)
    ensures Scale(u) <= bytes || u == B
    ensures u != GiB ==> bytes < Scale(Larger(u))
  {
    if bytes >= GB then GiB else if bytes >= MB then MiB else if bytes >= KB then KiB else B
  }

  /** The text `format_bytes` gives: exact below 1 KB, otherwise a scaled amount whose digits are left abstract. */
  datatype ByteText = Exact(text: string) | Scaled(bytes: nat, unit: ByteUnit)

  /**
   * `format_bytes`: the exact count below 1 KB, otherwise the count scaled to
   * the unit `UnitFor` picks, which is never smaller than one unit.
   */
  function FormatBytes(bytes: nat): (t: ByteText)
    ensures t.Exact? <==> bytes < KB
    ensures t.Scaled? ==> t.bytes == bytes && t.unit == UnitFor(bytes) && Scale(t.unit) <= bytes
  {
    var u := UnitFor(bytes);
    if u == B then Exact(NatToDecimal(bytes) + " B") else Scaled(bytes, u)
  }

  /** The unit grows with the count: a larger count never gets a smaller unit. */
  lemma UnitMonotone(a: nat, b: nat)
    requires a <= b
    ensures Scale(UnitFor(a)) <= Scale(UnitFor(b))
  {
  }

  /** Below 1 KB the exact count is shown, and the text reads back as the count. */
  lemma SmallCountsExact(bytes: nat)
    requires bytes < KB
    ensures FormatBytes(bytes).Exact?
    ensures var t := FormatBytes(bytes).text;
      |t| >= 3 && t[|t| - 2..] == " B" && AllDigits(t[..|t| - 2]) && DecimalValue(t[..|t| - 2]) == bytes
  {
    var t := FormatBytes(bytes).text;
    assert t[..|t| - 2] == NatToDecimal(bytes);
    DecimalRoundTrip(bytes);
  }
}
