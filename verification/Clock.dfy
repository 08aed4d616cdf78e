/** Shifting a 12-hour clock label by minutes: an action of the integers modulo 1440. */
module Clock {
  import opened Options
  import opened JsText

  const DAY := 1440

  /** JavaScript's remainder, which takes the sign of the dividend. */
  function JsRem(a: int, b: int): int
    requires b > 0
  {
    if a >= 0 then a % b else -((-a) % b)
  }

  // ---- reading a label ----------------------------------------------------------------------

  function Digit(c: char): nat
    requires IsDigit(c)
  {
    (c - '0') as int
  }

  /** "AM" or "PM" in any case; `Some(true)` is PM. */
  function Meridiem(s: string): Option<bool> {
    if |s| != 2 || s[1] !in {'m', 'M'} then None
    else if s[0] in {'a', 'A'} then Some(false)
    else if s[0] in {'p', 'P'} then Some(true)
    else None
  }

  /** What follows the hour: a colon, two digits, white space, the meridiem. */
  function ReadRest(hour: nat, s: string): Option<int> {
    if |s| < 3 || s[0] != ':' || !IsDigit(s[1]) || !IsDigit(s[2]) then None
    else
      var pm := Meridiem(TrimStart(s[3..]));
      if pm.None? then None
      else Some((hour % 12 + if pm.value then 12 else 0) * 60 + Digit(s[1]) * 10 + Digit(s[2]))
  }

  /** The minutes since midnight a label names; `None` when it is not "h:mm AM/PM". */
  function Read(time: string): Option<int> {
    var s := Trim(time);
    if |s| < 2 || !IsDigit(s[0]) then None
    else if IsDigit(s[1]) then ReadRest(Digit(s[0]) * 10 + Digit(s[1]), s[2..])
    else ReadRest(Digit(s[0]), s[1..])
  }

  // ---- writing one ----------------------------------------------------------------------------

  function DigitChar(n: nat): char
    requires n < 10
  {
    '0' + n as char
  }

  /** A number below 100, without padding. */
  function Number(n: nat): string
    requires n < 100
  {
    if n < 10 then [DigitChar(n)] else [DigitChar(n / 10), DigitChar(n % 10)]
  }

  function PadTwo(s: string): string
    decreases 2 - |s|
  {
    if |s| >= 2 then s else PadTwo("0" + s)
  }

  function Write(minute: nat): string
    requires minute < DAY
  {
    var hour24 := minute / 60;
    var displayHour := if hour24 % 12 == 0 then 12 else hour24 % 12;
    Number(displayHour) + ":" + PadTwo(Number(minute % 60)) + " " + if hour24 < 12 then "AM" else "PM"
  }

  /** The exported helper: a label that does not read is returned as it came. */
  function AddMinutes(time: string, minutes: int): string {
    var base := Read(time);
    if base.None? then time
    else
      var shifted := JsRem(JsRem(base.value + minutes, DAY) + DAY, DAY);
      RemIsMod(base.value + minutes);
      Write(shifted)
  }

  /** The double remainder is the mathematical one, negative shifts included. */
  lemma RemIsMod(n: int)
    ensures JsRem(JsRem(n, DAY) + DAY, DAY) == n % DAY
    ensures 0 <= n % DAY < DAY
  {
  }

  // ---- laws --------------------------------------------------------------------------------------

  lemma TwoDigits(n: nat)
    requires n < 60
    ensures PadTwo(Number(n)) == [DigitChar(n / 10), DigitChar(n % 10)]
  {
    if n < 10 {
      assert "0" + Number(n) == [DigitChar(0), DigitChar(n)];
      assert PadTwo("0" + Number(n)) == "0" + Number(n);
    }
  }

  lemma ReadRestOfWritten(hour: nat, minute: nat, pm: bool, s: string)
    requires minute < 60
    requires s == ":" + [DigitChar(minute / 10), DigitChar(minute % 10)] + " " + if pm then "PM" else "AM"
    ensures ReadRest(hour, s) == Some((hour % 12 + if pm then 12 else 0) * 60 + minute)
  {
    var tail := if pm then "PM" else "AM";
    assert s[3..] == " " + tail;
    assert (" " + tail)[1..] == tail;
    assert TrimStart(" " + tail) == tail;
    assert Digit(s[1]) == minute / 10 && Digit(s[2]) == minute % 10;
  }

  function DisplayHour(minute: nat): nat {
    if minute / 60 % 12 == 0 then 12 else minute / 60 % 12
  }

  function Rest(minute: nat): string
    requires minute < DAY
  {
    ":" + [DigitChar(minute % 60 / 10), DigitChar(minute % 60 % 10)] + " " + if minute / 60 >= 12 then "PM" else "AM"
  }

  lemma WrittenForm(minute: nat)
    requires minute < DAY
    ensures Write(minute) == Number(DisplayHour(minute)) + Rest(minute)
  {
    TwoDigits(minute % 60);
  }

  /** Where the hour ends and the rest begins. */
  lemma ReadForm(h: nat, rest: string)
    requires h < 100 && |rest| > 1 && rest[0] == ':' && !IsSpace(rest[|rest| - 1])
    ensures Read(Number(h) + rest) == ReadRest(h, rest)
  {
    var s := Number(h) + rest;
    assert s[|s| - 1] == rest[|rest| - 1];
    TrimOfTrimmed(s);
    if h < 10 {
      assert s[0] == DigitChar(h) && s[1] == ':' && s[1..] == rest;
    } else {
      assert s[0] == DigitChar(h / 10) && s[1] == DigitChar(h % 10) && s[2..] == rest;
    }
  }

  lemma HourAndMinute(minute: nat)
    requires minute < DAY
    ensures DisplayHour(minute) < 100
    ensures (DisplayHour(minute) % 12 + if minute / 60 >= 12 then 12 else 0) * 60 + minute % 60 == minute
  {
    var h := minute / 60;
    assert h < 24 && DisplayHour(minute) % 12 == h % 12;
    assert h % 12 + (if h >= 12 then 12 else 0) == h;
  }

  lemma RestEnds(minute: nat)
    requires minute < DAY
    ensures |Rest(minute)| == 6 && Rest(minute)[0] == ':' && !IsSpace(Rest(minute)[5])
  {
  }

  /** Reading a written label gives the minute of day back. */
  lemma ReadInvertsWrite(minute: nat)
    requires minute < DAY
    ensures Read(Write(minute)) == Some(minute)
  {
    var h, rest := DisplayHour(minute), Rest(minute);
    WrittenForm(minute);
    RestEnds(minute);
    HourAndMinute(minute);
    ReadForm(h, rest);
    ReadRestOfWritten(h, minute % 60, minute / 60 >= 12, rest);
  }

  /** Character by character, what a label says: the hour from 1 to 12 without padding, two digits of minutes, and which half of the day. */
  lemma WriteSays(minute: nat)
    requires minute < 1440
    ensures var s, h := Write(minute), if minute / 60 % 12 == 0 then 12 else minute / 60 % 12;
            var n := if h < 10 then 1 else 2;
            && |s| == n + 6
            && (n == 1 ==> s[0] as int == '0' as int + h)
            && (n == 2 ==> s[0] == '1' && s[1] as int == '0' as int + h - 10)
            && s[n] == ':'
            && s[n + 1] as int == '0' as int + minute % 60 / 10 && s[n + 2] as int == '0' as int + minute % 60 % 10
            && s[n + 3] == ' ' && s[n + 4] == (if minute < 720 then 'A' else 'P') && s[n + 5] == 'M'
  {
    WrittenForm(minute);
    RestEnds(minute);
  }

  lemma {:induction false} TrimGap(gap: string, tail: string)
    requires forall i :: 0 <= i < |gap| ==> IsSpace(gap[i])
    requires tail != "" && !IsSpace(tail[0])
    ensures TrimStart(gap + tail) == tail
  {
    if gap == "" {
      assert gap + tail == tail;
    } else {
      assert (gap + tail)[1..] == gap[1..] + tail;
      TrimGap(gap[1..], tail);
    }
  }

  lemma ReadRestSays(h: nat, tens: nat, ones: nat, gap: string, a: char, m: char)
    requires tens < 10 && ones < 10 && a in {'a', 'A', 'p', 'P'} && m in {'m', 'M'}
    requires forall i :: 0 <= i < |gap| ==> IsSpace(gap[i])
    ensures ReadRest(h, [':', DigitChar(tens), DigitChar(ones)] + (gap + [a, m]))
         == Some((h % 12 + if a in {'p', 'P'} then 12 else 0) * 60 + tens * 10 + ones)
  {
    var head := [':', DigitChar(tens), DigitChar(ones)];
    var rest := head + (gap + [a, m]);
    assert rest[3..] == gap + [a, m];
    TrimGap(gap, [a, m]);
    assert rest[0] == ':' && Digit(rest[1]) == tens && Digit(rest[2]) == ones;
  }

  /** What a label means: hour modulo 12, twelve more in the afternoon, and the minutes as they stand; white space before the meridiem and its case do not matter. */
  lemma ReadSays(h: nat, tens: nat, ones: nat, gap: string, a: char, m: char)
    requires h < 100 && tens < 10 && ones < 10 && a in {'a', 'A', 'p', 'P'} && m in {'m', 'M'}
    requires forall i :: 0 <= i < |gap| ==> IsSpace(gap[i])
    ensures Read(Number(h) + ([':', DigitChar(tens), DigitChar(ones)] + (gap + [a, m])))
         == Some((h % 12 + if a in {'p', 'P'} then 12 else 0) * 60 + tens * 10 + ones)
  {
    var rest := [':', DigitChar(tens), DigitChar(ones)] + (gap + [a, m]);
    assert rest[|rest| - 1] == m;
    ReadForm(h, rest);
    ReadRestSays(h, tens, ones, gap, a, m);
  }

  lemma ShiftWrites(time: string, a: int)
    requires Read(time).Some?
    ensures AddMinutes(time, a) == Write((Read(time).value + a) % DAY)
  {
    RemIsMod(Read(time).value + a);
  }

  /** On a label that reads, a shift names the minute of day that many minutes on, wrapping either way at midnight. */
  lemma ShiftMeaning(time: string, a: int)
    requires Read(time).Some?
    ensures Read(AddMinutes(time, a)) == Some((Read(time).value + a) % DAY)
  {
    var minute := (Read(time).value + a) % DAY;
    ShiftWrites(time, a);
    ReadInvertsWrite(minute);
  }

  lemma ModAdds(n: int, b: int)
    ensures (n % DAY + b) % DAY == (n + b) % DAY
  {
    var q := n / DAY;
    assert n == q * DAY + n % DAY;
    ModShift(n % DAY + b, q);
  }

  lemma {:induction false} ModShift(n: int, q: int)
    ensures (n + q * DAY) % DAY == n % DAY
    decreases if q >= 0 then q else -q
  {
    if q == 0 {
    } else if q > 0 {
      ModShift(n + DAY, q - 1);
    } else {
      ModShift(n - DAY, q + 1);
    }
  }

  /** Shifting a label of the minute `n`, wherever `n` lies. */
  lemma ShiftFrom(text: string, n: int, b: int, m: int)
    requires Read(text) == Some(n % DAY) && m == n + b
    ensures AddMinutes(text, b) == Write(m % DAY)
  {
    ShiftWrites(text, b);
    ModAdds(n, b);
  }

  lemma ShiftOnward(time: string, once: string, a: int, b: int)
    requires Read(time).Some? && Read(once) == Some((Read(time).value + a) % DAY)
    ensures AddMinutes(once, b) == AddMinutes(time, a + b)
  {
    var base := Read(time).value;
    ShiftFrom(once, base + a, b, base + (a + b));
    ShiftWrites(time, a + b);
  }

  lemma ShiftsComposeOnLabels(time: string, a: int, b: int)
    requires Read(time).Some?
    ensures AddMinutes(AddMinutes(time, a), b) == AddMinutes(time, a + b)
  {
    ShiftMeaning(time, a);
    ShiftOnward(time, AddMinutes(time, a), a, b);
  }

  /**
   For every text and all shifts: one shift after another is their sum. With `b == -a` the
   result is `AddMinutes(time, 0)`, the canonical writing of the same minute.
   */
  lemma ShiftsCompose(time: string, a: int, b: int)
    ensures AddMinutes(AddMinutes(time, a), b) == AddMinutes(time, a + b)
  {
    if Read(time).Some? {
      ShiftsComposeOnLabels(time, a, b);
    }
  }

  /** A whole day is no shift. */
  lemma ADayIsNothing(time: string, a: int)
    ensures AddMinutes(time, a + DAY) == AddMinutes(time, a)
  {
    if Read(time).Some? {
      var n := Read(time).value + a;
      ModShift(n, 1);
      ShiftWrites(time, a);
      ShiftWrites(time, a + DAY);
    }
  }
}
