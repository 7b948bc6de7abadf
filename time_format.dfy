/** `msToTime` (static/js/scripts.js): a rift time in milliseconds rendered as hours,
    minutes and seconds, each left out when it is zero. */
module TimeFormat {

  import opened Text

  /** The argument of `msToTime`: the string `'N/A'` or a non-negative number of
      milliseconds. */
  datatype Duration = NotAvailable | Millis(ms: nat)

  /** `Math.floor((duration / (1000 * 60 * 60)) % 24)` and its two siblings, over
      non-negative integers. */
  function Hours(ms: nat): nat { (ms / 3600000) % 24 }
  function Minutes(ms: nat): nat { (ms / 60000) % 60 }
  function Seconds(ms: nat): nat { (ms / 1000) % 60 }

  /** One component: `n + unit + tail` when `n > 0`, nothing otherwise. */
  function Component(n: nat, unit: string): string {
    if n > 0 then DecimalString(n) + unit else ""
  }

  function MsToTime(d: Duration): (text: string)
    ensures d.NotAvailable? ==> text == "N/A"
  {
    match d
    case NotAvailable => "N/A"
    case Millis(ms) => Component(Hours(ms), "h ") + Component(Minutes(ms), "m ") + Component(Seconds(ms), "s")
  }

  lemma MinutesOfWholeSeconds(ms: nat)
    ensures ms / 60000 == (ms / 1000) / 60
  {
  }

  lemma HoursOfWholeSeconds(ms: nat)
    ensures ms / 3600000 == (ms / 1000) / 3600
  {
  }

  lemma SecondsOfDay(ms: nat)
    ensures (ms % 86400000) / 1000 == (ms / 1000) % 86400
  {
  }

  lemma WholeSeconds(ms: nat)
    ensures ms / 60000 == (ms / 1000) / 60
    ensures ms / 3600000 == (ms / 1000) / 3600
    ensures (ms % 86400000) / 1000 == (ms / 1000) % 86400
  {
    MinutesOfWholeSeconds(ms);
    HoursOfWholeSeconds(ms);
    SecondsOfDay(ms);
  }

  lemma SplitDay(s: nat)
    ensures (s / 3600) % 24 * 3600 + (s / 60) % 60 * 60 + s % 60 == s % 86400
  {
    var sec, q1 := s % 60, s / 60;
    var mi, q2 := q1 % 60, q1 / 60;
    var ho, dd := q2 % 24, q2 / 24;
    assert s == 3600 * q2 + (60 * mi + sec) && 0 <= 60 * mi + sec < 3600;
    assert s / 3600 == q2;
    assert s == 86400 * dd + (3600 * ho + 60 * mi + sec) && 0 <= 3600 * ho + 60 * mi + sec < 86400;
    assert s % 86400 == 3600 * ho + 60 * mi + sec;
  }

  /** The three components are the time of day, to the second, that `ms` denotes. */
  lemma ComponentsRecompose(ms: nat)
    ensures Hours(ms) < 24 && Minutes(ms) < 60 && Seconds(ms) < 60
    ensures Hours(ms) * 3600 + Minutes(ms) * 60 + Seconds(ms) == (ms % 86400000) / 1000
  {
    WholeSeconds(ms);
    SplitDay(ms / 1000);
  }

  /** The text is empty exactly when the time of day is less than a second: in
      particular for less than a second, and for whole days plus less than a second. */
  lemma BlankWhenNoWholeSecond(ms: nat)
    ensures MsToTime(Millis(ms)) == "" <==> ms % 86400000 < 1000
  {
    if ms % 86400000 < 1000 {
      NoComponents(ms);
    } else {
      SomeComponent(ms);
    }
  }

  /** A component is empty exactly when its number is zero. */
  lemma EmptyComponent(n: nat, unit: string)
    requires unit != ""
    ensures Component(n, unit) == "" <==> n == 0
  {
  }

  lemma SomeComponent(ms: nat)
    requires ms % 86400000 >= 1000
    ensures MsToTime(Millis(ms)) != ""
  {
    ComponentsRecompose(ms);
    assert (ms % 86400000) / 1000 > 0;
    EmptyComponent(Hours(ms), "h ");
    EmptyComponent(Minutes(ms), "m ");
    EmptyComponent(Seconds(ms), "s");
  }

  lemma NoComponents(ms: nat)
    requires ms % 86400000 < 1000
    ensures Hours(ms) == 0 && Minutes(ms) == 0 && Seconds(ms) == 0
  {
    ComponentsRecompose(ms);
    assert (ms % 86400000) / 1000 == 0;
  }

  /** Reads one component back: the leading digits and the unit letter after them,
      skipping the space that follows; `(0, s)` when `s` does not start that way. */
  function ReadComponent(s: string, unit: char): (nat, string)
  {
    var k := DigitRun(s);
    if 0 < k < |s| && s[k] == unit then
      var rest := s[k + 1..];
      (DigitsValue(s[..k]), if rest != [] && rest[0] == ' ' then rest[1..] else rest)
    else (0, s)
  }

  /** Reads a rendered time back into its hours, minutes and seconds. */
  function ReadTime(s: string): (nat, nat, nat)
  {
    var (h, afterH) := ReadComponent(s, 'h');
    var (m, afterM) := ReadComponent(afterH, 'm');
    var (sec, _) := ReadComponent(afterM, 's');
    (h, m, sec)
  }

  /** Reading digits followed by the unit letter gives their value, and the rest
      after the space that may follow. */
  lemma ReadDigitsThenUnit(d: string, unit: char, rest: string)
    requires d != [] && forall i :: 0 <= i < |d| ==> IsDigit(d[i])
    requires !IsDigit(unit)
    ensures ReadComponent(d + [unit] + rest, unit) ==
      (DigitsValue(d), if rest != [] && rest[0] == ' ' then rest[1..] else rest)
  {
    var s := d + [unit] + rest;
    assert s == d + ([unit] + rest);
    DigitRunOfDigitsThen(d, [unit] + rest);
    SplitAtUnit(d, unit, rest);
  }

  lemma SplitAtUnit(d: string, unit: char, rest: string)
    ensures var s := d + [unit] + rest;
      s[..|d|] == d && s[|d|] == unit && s[|d| + 1..] == rest
  {
    var s := d + [unit] + rest;
    assert s[..|d|] == d;
    assert s[|d| + 1..] == rest;
  }

  lemma ReadPresentComponent(n: nat, unit: char, tail: string)
    requires n > 0
    requires tail == [] || IsDigit(tail[0])
    requires !IsDigit(unit) && unit != ' '
    ensures ReadComponent(DecimalString(n) + [unit, ' '] + tail, unit) == (n, tail)
  {
    var d := DecimalString(n);
    assert d + [unit, ' '] + tail == d + [unit] + ([' '] + tail);
    ReadDigitsThenUnit(d, unit, [' '] + tail);
    assert ([' '] + tail)[1..] == tail;
    DecimalRoundTrip(n);
  }

  lemma ReadLastComponent(n: nat, unit: char)
    requires n > 0
    requires !IsDigit(unit)
    ensures ReadComponent(DecimalString(n) + [unit], unit) == (n, [])
  {
    var d := DecimalString(n);
    assert d + [unit] == d + [unit] + [];
    ReadDigitsThenUnit(d, unit, []);
    DecimalRoundTrip(n);
  }

  lemma ReadAbsentComponent(s: string, unit: char)
    requires s == [] || IsDigit(s[0])
    requires unit !in s
    ensures ReadComponent(s, unit) == (0, s)
  {
    var k := DigitRun(s);
    if 0 < k < |s| {
      assert s[k] in s;
    }
  }

  /** A component and what follows it start with a digit, or are empty. */
  lemma ComponentStart(n: nat, unit: string, tail: string)
    requires tail == [] || IsDigit(tail[0])
    ensures var s := Component(n, unit) + tail; s == [] || IsDigit(s[0])
  {
    if n > 0 {
      assert (DecimalString(n) + unit + tail)[0] == DecimalString(n)[0];
    }
  }

  /** A letter that is not in `unit` nor in `tail` is not in the component either. */
  lemma LetterNotInComponent(n: nat, unit: string, tail: string, c: char)
    requires !IsDigit(c) && c !in unit && c !in tail
    ensures c !in Component(n, unit) + tail
  {
    if n > 0 {
      var d := DecimalString(n);
      assert Component(n, unit) + tail == d + (unit + tail);
      assert c !in d by {
        forall i | 0 <= i < |d| ensures d[i] != c {
          assert IsDigit(d[i]);
        }
      }
    } else {
      assert Component(n, unit) + tail == tail;
    }
  }

  lemma ReadSeconds(sec: nat)
    ensures ReadComponent(Component(sec, "s"), 's') == (sec, [])
  {
    if sec > 0 {
      ReadLastComponent(sec, 's');
    }
  }

  lemma ReadMinutes(m: nat, sec: nat)
    ensures ReadComponent(Component(m, "m ") + Component(sec, "s"), 'm') == (m, Component(sec, "s"))
  {
    var cs := Component(sec, "s");
    ComponentStart(sec, "s", []);
    assert cs + [] == cs;
    if m > 0 {
      assert Component(m, "m ") + cs == DecimalString(m) + ['m', ' '] + cs;
      ReadPresentComponent(m, 'm', cs);
    } else {
      LetterNotInComponent(sec, "s", [], 'm');
      assert Component(m, "m ") + cs == cs;
      ReadAbsentComponent(cs, 'm');
    }
  }

  lemma ReadHours(h: nat, m: nat, sec: nat)
    ensures var rest := Component(m, "m ") + Component(sec, "s");
      ReadComponent(Component(h, "h ") + rest, 'h') == (h, rest)
  {
    var cs := Component(sec, "s");
    var rest := Component(m, "m ") + cs;
    ComponentStart(sec, "s", []);
    assert cs + [] == cs;
    ComponentStart(m, "m ", cs);
    if h > 0 {
      assert Component(h, "h ") + rest == DecimalString(h) + ['h', ' '] + rest;
      ReadPresentComponent(h, 'h', rest);
    } else {
      LetterNotInComponent(sec, "s", [], 'h');
      LetterNotInComponent(m, "m ", cs, 'h');
      assert Component(h, "h ") + rest == rest;
      ReadAbsentComponent(rest, 'h');
    }
  }

  lemma ReadTimeSteps(s: string, h: nat, afterH: string, m: nat, afterM: string, sec: nat)
    requires ReadComponent(s, 'h') == (h, afterH)
    requires ReadComponent(afterH, 'm') == (m, afterM)
    requires ReadComponent(afterM, 's') == (sec, [])
    ensures ReadTime(s) == (h, m, sec)
  {
  }

  /** Reading three rendered components back gives the three numbers. */
  lemma ReadComponents(h: nat, m: nat, sec: nat)
    ensures ReadTime(Component(h, "h ") + Component(m, "m ") + Component(sec, "s")) == (h, m, sec)
  {
    var cs := Component(sec, "s");
    var rest := Component(m, "m ") + cs;
    assert Component(h, "h ") + Component(m, "m ") + cs == Component(h, "h ") + rest;
    ReadHours(h, m, sec);
    ReadMinutes(m, sec);
    ReadSeconds(sec);
    ReadTimeSteps(Component(h, "h ") + rest, h, rest, m, cs, sec);
  }

  /** Reading the rendering of a duration gives back its hours, minutes and seconds:
      the text loses nothing but days and milliseconds. */
  lemma ReadTimeRoundTrip(ms: nat)
    ensures ReadTime(MsToTime(Millis(ms))) == (Hours(ms), Minutes(ms), Seconds(ms))
  {
    ReadComponents(Hours(ms), Minutes(ms), Seconds(ms));
  }

  /** A present component shows its unit letter. */
  lemma UnitShown(n: nat, unit: string, i: nat)
    requires n > 0 && i < |unit|
    ensures unit[i] in Component(n, unit)
  {
    assert Component(n, unit)[|DecimalString(n)| + i] == unit[i];
  }

  /** A letter that is not the component's unit, nor a digit, is not in it. */
  lemma OtherUnitHidden(n: nat, unit: string, c: char)
    requires !IsDigit(c) && c !in unit
    ensures c !in Component(n, unit)
  {
    LetterNotInComponent(n, unit, [], c);
    assert Component(n, unit) + [] == Component(n, unit);
  }

  /** Each unit letter appears in the text exactly when its component is non-zero: a
      zero component is left out, and a non-zero one is written. */
  lemma ShowsUnitIffNonZero(ms: nat)
    ensures 'h' in MsToTime(Millis(ms)) <==> Hours(ms) > 0
    ensures 'm' in MsToTime(Millis(ms)) <==> Minutes(ms) > 0
    ensures 's' in MsToTime(Millis(ms)) <==> Seconds(ms) > 0
  {
    var ch, cm, cs := Component(Hours(ms), "h "), Component(Minutes(ms), "m "), Component(Seconds(ms), "s");
    assert MsToTime(Millis(ms)) == ch + cm + cs;
    OtherUnitHidden(Minutes(ms), "m ", 'h');
    OtherUnitHidden(Seconds(ms), "s", 'h');
    OtherUnitHidden(Hours(ms), "h ", 'm');
    OtherUnitHidden(Seconds(ms), "s", 'm');
    OtherUnitHidden(Hours(ms), "h ", 's');
    OtherUnitHidden(Minutes(ms), "m ", 's');
    if Hours(ms) > 0 {
      UnitShown(Hours(ms), "h ", 0);
    }
    if Minutes(ms) > 0 {
      UnitShown(Minutes(ms), "m ", 0);
    }
    if Seconds(ms) > 0 {
      UnitShown(Seconds(ms), "s", 0);
    }
  }
}
