/**
 * `format_duration`, which renders a number of seconds as `Ns`, `Nm`,
 * `Nm Ns`, `Nh` or `Nh Nm`, and a reader for that text used to state what
 * the rendering means.
 */
module Duration {
  import opened Base
  import opened Text

  /**
   * Seconds as text: below a minute in seconds, below an hour in minutes and
   * seconds, otherwise in hours and minutes. The text ends in the unit of its
   * last component: seconds only when the duration is under an hour and not
   * whole minutes, hours only when it is whole hours give or take the seconds.
   */
  function FormatDuration(seconds: nat): (r: string)
    ensures |r| >= 2 && IsUnit(r[|r| - 1])
    ensures r[|r| - 1] == 's' <==> seconds < 3600 && (seconds < 60 || seconds % 60 != 0)
    ensures r[|r| - 1] == 'h' <==> seconds >= 3600 && seconds % 3600 < 60
  {
    if seconds < 60 then
      NatToDecimal(seconds) + "s"
    else if seconds < 3600 then
      var mins := seconds / 60;
      var secs := seconds % 60;
      if secs == 0 then NatToDecimal(mins) + "m" else NatToDecimal(mins) + "m " + NatToDecimal(secs) + "s"
    else
      var hours := seconds / 3600;
      var mins := (seconds % 3600) / 60;
      if mins == 0 then NatToDecimal(hours) + "h" else NatToDecimal(hours) + "h " + NatToDecimal(mins) + "m"
  }

  /** One space-separated part of a duration, such as `5m`. */
  datatype Component = Component(amount: nat, unit: char)

  predicate IsUnit(c: char) {
    c == 'h' || c == 'm' || c == 's'
  }

  function UnitSeconds(unit: char): nat {
    if unit == 'h' then 3600 else if unit == 'm' then 60 else 1
  }

  /** Reads `<digits><unit>`. */
  function ParseComponent(word: string): Option<Component> {
    if |word| >= 2 && IsUnit(word[|word| - 1]) && AllDigits(word[..|word| - 1]) then
      Some(Component(DecimalValue(word[..|word| - 1]), word[|word| - 1]))
    else
      None
  }

  function ParseComponents(words: seq<string>): Option<seq<Component>> {
    if |words| == 0 then Some([])
    else
      var c := ParseComponent(words[0]);
      var cs := ParseComponents(words[1..]);
      if c.Some? && cs.Some? then Some([c.value] + cs.value) else None
  }

  /** Reads a duration text as its space-separated components. */
  function ParseDuration(text: string): Option<seq<Component>> {
    ParseComponents(Split(text, ' '))
  }

  /** The number of seconds a list of components stands for. */
  function TotalSeconds(cs: seq<Component>): nat {
    if |cs| == 0 then 0 else cs[0].amount * UnitSeconds(cs[0].unit) + TotalSeconds(cs[1..])
  }

  /** The unit one step smaller than `unit`. */
  function NextUnit(unit: char): char {
    if unit == 'h' then 'm' else 's'
  }

  lemma ComponentText(n: nat, unit: char)
    requires IsUnit(unit)
    ensures ParseComponent(NatToDecimal(n) + [unit]) == Some(Component(n, unit))
    ensures ' ' !in NatToDecimal(n) + [unit]
  {
    var w := NatToDecimal(n) + [unit];
    assert w[..|w| - 1] == NatToDecimal(n);
    DecimalRoundTrip(n);
    assert forall i :: 0 <= i < |w| - 1 ==> IsDigit(w[i]);
  }

  lemma ParseWords(a: string, c: Component, b: string, d: Component)
    requires ParseComponent(a) == Some(c) && ParseComponent(b) == Some(d)
    ensures ParseComponents([a]) == Some([c])
    ensures ParseComponents([a, b]) == Some([c, d])
  {
    assert ParseComponents([]) == Some([]);
    assert [a][0] == a && [a][1..] == [];
    assert ParseComponent([a][0]) == Some(c);
    assert [c] + [] == [c];
    assert [b][0] == b && [b][1..] == [];
    assert ParseComponent([b][0]) == Some(d);
    assert [d] + [] == [d];
    assert ParseComponents([b]) == Some([d]);
    assert [a, b][0] == a && [a, b][1..] == [b];
    assert [c] + [d] == [c, d];
  }

  lemma OneComponent(n: nat, unit: char)
    requires IsUnit(unit)
    ensures ParseDuration(NatToDecimal(n) + [unit]) == Some([Component(n, unit)])
  {
    var w := NatToDecimal(n) + [unit];
    ComponentText(n, unit);
    SplitOfField(w, ' ');
    ParseWords(w, Component(n, unit), w, Component(n, unit));
  }

  lemma TwoComponents(n: nat, u: char, k: nat, v: char)
    requires IsUnit(u) && IsUnit(v)
    ensures ParseDuration(NatToDecimal(n) + [u] + " " + NatToDecimal(k) + [v]) == Some([Component(n, u), Component(k, v)])
  {
    var a := NatToDecimal(n) + [u];
    var b := NatToDecimal(k) + [v];
    ComponentText(n, u);
    ComponentText(k, v);
    SplitOfPair(a, ' ', b);
    SplitOfField(b, ' ');
    assert NatToDecimal(n) + [u] + " " + NatToDecimal(k) + [v] == a + " " + b;
    ParseWords(a, Component(n, u), b, Component(k, v));
  }

  /**
   * What `FormatDuration` writes reads back as one or two components: the
   * leading unit is seconds below a minute, minutes below an hour and hours
   * otherwise; a second component is always the next smaller unit and below
   * 60; no component is zero unless the duration is 0; and the text stands
   * for the whole duration below an hour, and for the duration with its
   * leftover seconds dropped from an hour on.
   */
  lemma FormatDurationMeaning(seconds: nat)
    ensures ParseDuration(FormatDuration(seconds)).Some?
    ensures var cs := ParseDuration(FormatDuration(seconds)).value;
      && 1 <= |cs| <= 2
      && cs[0].unit == (if seconds < 60 then 's' else if seconds < 3600 then 'm' else 'h')
      && (|cs| == 2 ==> cs[0].unit != 's' && cs[1].unit == NextUnit(cs[0].unit) && cs[1].amount < 60)
      && (forall i :: 0 <= i < |cs| ==> cs[i].amount > 0 || seconds == 0)
      && TotalSeconds(cs) == (if seconds < 3600 then seconds else seconds - seconds % 60)
  {
    if seconds < 60 {
      OneComponent(seconds, 's');
    } else if seconds < 3600 {
      MinutesMeaning(seconds);
      TotalOfTwo(Component(seconds / 60, 'm'), Component(seconds % 60, 's'));
    } else {
      HoursMeaning(seconds);
      TotalOfTwo(Component(seconds / 3600, 'h'), Component((seconds % 3600) / 60, 'm'));
    }
  }

  lemma TotalOfTwo(a: Component, b: Component)
    ensures TotalSeconds([a]) == a.amount * UnitSeconds(a.unit)
    ensures TotalSeconds([a, b]) == a.amount * UnitSeconds(a.unit) + b.amount * UnitSeconds(b.unit)
  {
    assert [a, b][1..] == [b];
    assert [b][1..] == [];
    assert [a][1..] == [];
  }

  lemma MinutesMeaning(seconds: nat)
    requires 60 <= seconds < 3600
    ensures var mins, secs := seconds / 60, seconds % 60;
      ParseDuration(FormatDuration(seconds))
      == if secs == 0 then Some([Component(mins, 'm')]) else Some([Component(mins, 'm'), Component(secs, 's')])
    ensures seconds / 60 * 60 + seconds % 60 == seconds
  {
    var mins, secs := seconds / 60, seconds % 60;
    if secs == 0 {
      OneComponent(mins, 'm');
    } else {
      TwoComponents(mins, 'm', secs, 's');
      assert FormatDuration(seconds) == NatToDecimal(mins) + ['m'] + " " + NatToDecimal(secs) + ['s'];
    }
  }

  lemma HourArithmetic(seconds: nat)
    ensures seconds / 3600 * 3600 + (seconds % 3600) / 60 * 60 == seconds - seconds % 60
    ensures (seconds % 3600) / 60 < 60
  {
    var h, r := seconds / 3600, seconds % 3600;
    assert seconds == h * 3600 + r;
    assert r == r / 60 * 60 + r % 60;
    assert seconds == (h * 60 + r / 60) * 60 + r % 60;
    assert seconds % 60 == r % 60;
  }

  lemma HoursMeaning(seconds: nat)
    requires seconds >= 3600
    ensures var hours, mins := seconds / 3600, (seconds % 3600) / 60;
      ParseDuration(FormatDuration(seconds))
      == if mins == 0 then Some([Component(hours, 'h')]) else Some([Component(hours, 'h'), Component(mins, 'm')])
    ensures seconds / 3600 * 3600 + (seconds % 3600) / 60 * 60 == seconds - seconds % 60
    ensures (seconds % 3600) / 60 < 60 && seconds / 3600 > 0
  {
    var hours, mins := seconds / 3600, (seconds % 3600) / 60;
    HourArithmetic(seconds);
    if mins == 0 {
      OneComponent(hours, 'h');
      assert FormatDuration(seconds) == NatToDecimal(hours) + ['h'];
    } else {
      TwoComponents(hours, 'h', mins, 'm');
      assert FormatDuration(seconds) == NatToDecimal(hours) + ['h'] + " " + NatToDecimal(mins) + ['m'];
    }
  }

  /** Durations that differ by more than their dropped seconds are rendered differently. */
  lemma FormatDurationDistinguishes(a: nat, b: nat)
    requires FormatDuration(a) == FormatDuration(b)
    ensures a < 3600 ==> a == b
    ensures a >= 3600 ==> b >= 3600 && a / 60 == b / 60
  {
    FormatDurationMeaning(a);
    FormatDurationMeaning(b);
  }
}
