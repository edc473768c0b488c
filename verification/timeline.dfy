/**
 * The main window's timeline: the seek slider (TimelineSlider in main.py), the
 * clamping the 100 ms timer applies before it sizes the slider, and the
 * "MM:SS / MM:SS" time label.
 *
 * The slider counts in ticks of 100 ms (Ticks per second); the player reports
 * milliseconds, which the window divides into seconds.
 */
module Timeline {
  import opened Wrappers

  /** Slider ticks per second of audio. */
  const Ticks := 10
  /** The timeline never shows more than 24 hours. */
  const MaxSeconds := 86_400
  /** One wheel notch, in eighths of a degree. */
  const Notch := 120

  function Min(a: int, b: int): int { if a <= b then a else b }
  function Max(a: int, b: int): int { if a >= b then a else b }

  /** `max(lo, min(hi, v))`, the clamp the window writes out by hand. */
  function Clamp(lo: int, hi: int, v: int): (r: int)
    ensures lo <= hi ==> lo <= r <= hi
    ensures lo <= v <= hi ==> r == v
    ensures lo <= hi && v < lo ==> r == lo
    ensures lo <= hi && hi < v ==> r == hi
  {
    Max(lo, Min(hi, v))
  }

  /** Python's `int()` on a float: truncation toward zero. */
  function Trunc(v: real): (r: int)
    ensures 0.0 <= v ==> r as real <= v < r as real + 1.0
    ensures v < 0.0 ==> r as real - 1.0 < v <= r as real
  {
    if v >= 0.0 then v.Floor else -((-v).Floor)
  }

  /** The fraction of the slider's width at pixel x, clamped to [0, 1]. */
  function Ratio(x: int, width: int): real
    requires width != 0
  {
    var q := x as real / width as real;
    if q < 0.0 then 0.0 else if q > 1.0 then 1.0 else q
  }

  /**
   * TimelineSlider._val: the slider value under pixel x of a slider `width`
   * pixels wide with range [lo, hi]. A zero width divides by zero in Python;
   * that is the None result.
   */
  function ValueAt(lo: int, hi: int, width: int, x: int): (r: Option<int>)
    ensures r == None <==> width == 0
  {
    if width == 0 then None
    else Some(Trunc(lo as real + Ratio(x, width) * (hi - lo) as real))
  }

  /** Whatever the pixel, the value lies within the slider's range. */
  lemma ValueAtInRange(lo: int, hi: int, width: int, x: int)
    requires lo <= hi && width != 0
    ensures lo <= ValueAt(lo, hi, width, x).value <= hi
  {
    var v := lo as real + Ratio(x, width) * (hi - lo) as real;
    assert lo as real <= v <= hi as real by {
      var t := Ratio(x, width);
      assert 0.0 <= t * (hi - lo) as real <= (hi - lo) as real;
    }
  }

  /** Left of the groove is the minimum, right of it the maximum. */
  lemma ValueAtEnds(lo: int, hi: int, width: int, x: int)
    requires lo <= hi && width > 0
    ensures x <= 0 ==> ValueAt(lo, hi, width, x).value == lo
    ensures x >= width ==> ValueAt(lo, hi, width, x).value == hi
  {
    RatioAtEnds(x, width);
    if x <= 0 {
      TruncAtEnds(lo, hi, Ratio(x, width), lo as real);
    }
    if x >= width {
      TruncAtEnds(lo, hi, Ratio(x, width), hi as real);
    }
  }

  lemma TruncAtEnds(lo: int, hi: int, t: real, v: real)
    requires (t == 0.0 && v == lo as real) || (t == 1.0 && v == hi as real)
    ensures Trunc(lo as real + t * (hi - lo) as real) == Trunc(v) == v.Floor
  {
  }

  lemma RatioAtEnds(x: int, width: int)
    requires width > 0
    ensures x <= 0 ==> Ratio(x, width) == 0.0
    ensures x >= width ==> Ratio(x, width) == 1.0
  {
    var w := width as real;
    if x <= 0 {
      assert x as real / w <= 0.0;
    }
    if x >= width {
      assert x as real / w >= 1.0;
    }
  }

  /** Further right never means an earlier value. */
  lemma ValueAtMonotone(lo: int, hi: int, width: int, x: int, y: int)
    requires lo <= hi && width > 0 && x <= y
    ensures ValueAt(lo, hi, width, x).value <= ValueAt(lo, hi, width, y).value
  {
    var a := lo as real + Ratio(x, width) * (hi - lo) as real;
    var b := lo as real + Ratio(y, width) * (hi - lo) as real;
    assert a <= b by {
      RatioMonotone(x, y, width);
      ScaleMonotone(Ratio(x, width), Ratio(y, width), (hi - lo) as real);
    }
    TruncMonotone(a, b);
  }

  lemma RatioMonotone(x: int, y: int, width: int)
    requires width > 0 && x <= y
    ensures Ratio(x, width) <= Ratio(y, width)
  {
    var w := width as real;
    assert y as real / w - x as real / w == (y - x) as real / w;
  }

  lemma ScaleMonotone(a: real, b: real, d: real)
    requires a <= b && 0.0 <= d
    ensures a * d <= b * d
  {
    assert b * d - a * d == (b - a) * d;
  }

  lemma TruncMonotone(a: real, b: real)
    requires a <= b
    ensures Trunc(a) <= Trunc(b)
  {
  }

  /** Seconds one wheel notch moves: 1 with Ctrl held, 5 without. */
  function WheelStep(ctrl: bool): int { if ctrl then 1 else 5 }

  /**
   * wheelEvent as written: Python's `//` floors, so a partial notch
   * downwards counts as a whole one while a partial notch upwards counts as
   * none. (Dafny's `/` by a positive divisor floors as well.)
   */
  function WheelDeltaAsWritten(ctrl: bool, angle: int): (r: int)
    ensures angle >= 0 ==> r >= 0
    ensures angle < 0 ==> r < 0
  {
    WheelStep(ctrl) * (angle / Notch)
  }

  /** A quarter of a notch down jumps back five seconds, a quarter up does nothing. */
  lemma WheelDeltaAsWrittenAsymmetric()
    ensures WheelDeltaAsWritten(false, -30) == -5
    ensures WheelDeltaAsWritten(false, 30) == 0
  {
  }

  /** Whole notches toward zero, the same in both directions. */
  function WheelNotches(angle: int): (r: int)
    ensures angle >= 0 ==> 0 <= r * Notch <= angle < (r + 1) * Notch
    ensures angle < 0 ==> (r - 1) * Notch < angle <= r * Notch <= 0
  {
    if angle >= 0 then angle / Notch else -((-angle) / Notch)
  }

  /** Seconds a wheel event moves the slider by. */
  function WheelDelta(ctrl: bool, angle: int): int {
    WheelStep(ctrl) * WheelNotches(angle)
  }

  /** Turning the wheel the other way moves by the same amount the other way. */
  lemma WheelDeltaSymmetric(ctrl: bool, angle: int)
    ensures WheelDelta(ctrl, -angle) == -WheelDelta(ctrl, angle)
  {
    var n, m := WheelNotches(angle), WheelNotches(-angle);
    if angle > 0 {
      assert m == -((angle) / Notch);
    } else if angle < 0 {
      assert n == -((-angle) / Notch);
    }
  }

  /** Whole notches, and any turn upwards, move exactly as the code as written does. */
  lemma WheelDeltaAgrees(ctrl: bool, angle: int)
    requires angle >= 0 || angle % Notch == 0
    ensures WheelDelta(ctrl, angle) == WheelDeltaAsWritten(ctrl, angle)
  {
    if angle < 0 {
      var k := (-angle) / Notch;
      assert -angle == k * Notch;
      assert angle == (-k) * Notch;
      assert angle / Notch == -k;
    }
  }

  /** Less than a notch either way does not move the slider. */
  lemma WheelPartialNotchIsNoop(ctrl: bool, angle: int)
    requires -Notch < angle < Notch
    ensures WheelDelta(ctrl, angle) == 0
  {
  }

  /**
   * The slider value a wheel event lands on, as written: the old value moved by
   * the floored notch count and clamped to the range.
   */
  function WheelTarget(lo: int, hi: int, value: int, ctrl: bool, angle: int): (r: int)
    ensures lo <= hi ==> lo <= r <= hi
    ensures lo <= value + WheelDeltaAsWritten(ctrl, angle) * Ticks <= hi ==>
      r == value + WheelDeltaAsWritten(ctrl, angle) * Ticks
    ensures lo <= value <= hi && angle >= 0 ==> value <= r
    ensures lo <= value <= hi && angle < 0 ==> r <= value
  {
    Clamp(lo, hi, value + WheelDeltaAsWritten(ctrl, angle) * Ticks)
  }

  /** On a 0..1000 slider at 500, a quarter notch down lands on 450, a quarter notch up stays at 500. */
  lemma WheelTargetAsymmetric()
    ensures WheelTarget(0, 1000, 500, false, -30) == 450
    ensures WheelTarget(0, 1000, 500, false, 30) == 500
  {
    WheelDeltaAsWrittenAsymmetric();
  }

  /** The seek slider's state: its range, its value, its width in pixels and whether it is held down. */
  class TimelineSlider {
    var minimum: int
    var maximum: int
    var value: int
    var width: int
    var down: bool

    predicate Valid()
      reads this
    {
      minimum == 0 && minimum <= maximum && minimum <= value <= maximum && width >= 0
    }

    /** A new slider has Qt's default range 0..99 and value 0, and is not held down. */
    constructor (width: nat)
      ensures Valid()
      ensures minimum == 0 && maximum == 99 && value == 0 && this.width == width && !down
    {
      minimum, maximum, value := 0, 99, 0;
      this.width := width;
      down := false;
    }

    /** _val then setValue: jump to the value under pixel x and report it in milliseconds. */
    method JumpTo(x: int) returns (jumpMs: Option<int>)
      requires Valid()
      modifies this`value
      ensures Valid()
      ensures ValueAt(minimum, maximum, width, x) == None ==> value == old(value) && jumpMs == None
      ensures ValueAt(minimum, maximum, width, x) != None ==>
        value == ValueAt(minimum, maximum, width, x).value && jumpMs == Some(value * (1000 / Ticks))
    {
      var v := ValueAt(minimum, maximum, width, x);
      if v == None {
        jumpMs := None;
      } else {
        ValueAtInRange(minimum, maximum, width, x);
        value := v.value;
        jumpMs := Some(value * (1000 / Ticks));
      }
    }

    /**
     * mousePressEvent: a left press holds the slider down and jumps to the value
     * under pixel x; any other button changes nothing.
     */
    method Press(left: bool, x: int) returns (jumpMs: Option<int>)
      requires Valid()
      modifies this`value, this`down
      ensures Valid()
      ensures !left ==> value == old(value) && down == old(down) && jumpMs == None
      ensures left ==> down
      ensures left && ValueAt(minimum, maximum, width, x) == None ==> value == old(value) && jumpMs == None
      ensures left && ValueAt(minimum, maximum, width, x) != None ==>
        value == ValueAt(minimum, maximum, width, x).value && jumpMs == Some(value * (1000 / Ticks))
    {
      if left {
        down := true;
        jumpMs := JumpTo(x);
      } else {
        jumpMs := None;
      }
    }

    /** mouseMoveEvent: while the slider is held down, follow pixel x; otherwise nothing changes. */
    method Drag(x: int) returns (jumpMs: Option<int>)
      requires Valid()
      modifies this`value
      ensures Valid()
      ensures !down ==> value == old(value) && jumpMs == None
      ensures down && ValueAt(minimum, maximum, width, x) == None ==> value == old(value) && jumpMs == None
      ensures down && ValueAt(minimum, maximum, width, x) != None ==>
        value == ValueAt(minimum, maximum, width, x).value && jumpMs == Some(value * (1000 / Ticks))
    {
      if down {
        jumpMs := JumpTo(x);
      } else {
        jumpMs := None;
      }
    }

    /** mouseReleaseEvent: the slider is no longer held down. */
    method Release()
      requires Valid()
      modifies this`down
      ensures Valid() && !down
    {
      if down {
        down := false;
      }
    }

    /** wheelEvent: move by the floored notch count, clamp to the range, report the new position in ms. */
    method Wheel(ctrl: bool, angle: int) returns (jumpMs: int)
      requires Valid()
      modifies this`value
      ensures Valid()
      ensures value == WheelTarget(minimum, maximum, old(value), ctrl, angle)
      ensures jumpMs == value * (1000 / Ticks)
    {
      value := Clamp(minimum, maximum, value + WheelStep(ctrl) * (angle / Notch) * Ticks);
      jumpMs := value * (1000 / Ticks);
    }

    /**
     * The slider half of MainWindow._tick: unless the slider is held down, it is
     * resized to the clamped length and moved to the clamped position; the time
     * label is returned either way.
     */
    method ShowTick(lengthMs: int, positionMs: int) returns (caption: string)
      requires Valid()
      modifies this`maximum, this`value
      ensures Valid()
      ensures down ==> maximum == old(maximum) && value == old(value)
      ensures !down ==> maximum == TickClamp(lengthMs, positionMs).sliderMax
      ensures !down ==> value == TickClamp(lengthMs, positionMs).sliderValue
      ensures caption == TickClamp(lengthMs, positionMs).caption
    {
      var view := TickClamp(lengthMs, positionMs);
      if !down {
        maximum := view.sliderMax;
        value := view.sliderValue;
      }
      caption := view.caption;
    }
  }

  /** What the timer tick shows: the clamped length and position and the slider they size. */
  datatype TickView = TickView(lengthMs: int, positionMs: int, sliderMax: int, sliderValue: int, caption: string)

  /**
   * The clamping in MainWindow._tick: the length goes into [1 s, 24 h] and the
   * position into [0, length]; the slider is sized in ticks and the label
   * shows whole seconds.
   */
  function TickClamp(lengthMs: int, positionMs: int): (r: TickView)
    ensures 1000 <= r.lengthMs <= MaxSeconds * 1000
    ensures 0 <= r.positionMs <= r.lengthMs
    ensures 0 <= r.sliderValue <= r.sliderMax <= MaxSeconds * Ticks
    ensures 1000 <= lengthMs <= MaxSeconds * 1000 ==> r.lengthMs == lengthMs
    ensures 0 <= positionMs <= r.lengthMs ==> r.positionMs == positionMs
    ensures r.caption == TimeLabel(r.positionMs / 1000, r.lengthMs / 1000)
  {
    var len := Max(1000, Min(MaxSeconds * 1000, lengthMs));
    var pos := Max(0, Min(positionMs, len));
    TickView(len, pos, len / (1000 / Ticks), pos / (1000 / Ticks), TimeLabel(pos / 1000, len / 1000))
  }

  /** The decimal digit for 0..9. */
  function DigitChar(d: nat): char
    requires d < 10
  {
    "0123456789"[d]
  }

  predicate IsDigit(c: char) { '0' <= c <= '9' }

  predicate AllDigits(s: string) { forall i :: 0 <= i < |s| ==> IsDigit(s[i]) }

  /** `str(n)` for a non-negative integer. */
  function Decimal(n: nat): string
    decreases n
  {
    if n < 10 then [DigitChar(n)] else Decimal(n / 10) + [DigitChar(n % 10)]
  }

  /** The value of a string of decimal digits (leading zeros allowed). */
  function DigitsValue(s: string): nat
    requires AllDigits(s)
  {
    if s == [] then 0 else DigitsValue(s[..|s| - 1]) * 10 + (s[|s| - 1] as int - '0' as int)
  }

  /** `str(n)` is a non-empty run of digits that reads back as n. */
  lemma {:induction false} DecimalReadsBack(n: nat)
    ensures |Decimal(n)| >= 1 && AllDigits(Decimal(n))
    ensures DigitsValue(Decimal(n)) == n
    ensures n >= 10 ==> |Decimal(n)| >= 2
    decreases n
  {
    if n >= 10 {
      DecimalReadsBack(n / 10);
      var s := Decimal(n);
      assert s[..|s| - 1] == Decimal(n / 10);
    }
  }

  /** `f"{n:02}"`: at least two digits, zero-padded. */
  function Pad2(n: nat): string {
    if n < 10 then ['0'] + Decimal(n) else Decimal(n)
  }

  /** Zero-padding keeps the value and gives at least two digits, exactly two below 100. */
  lemma Pad2ReadsBack(n: nat)
    ensures |Pad2(n)| >= 2 && AllDigits(Pad2(n))
    ensures DigitsValue(Pad2(n)) == n
    ensures n < 100 ==> |Pad2(n)| == 2
  {
    DecimalReadsBack(n);
    if n < 10 {
      var s := Pad2(n);
      assert s[..1] == ['0'];
      assert DigitsValue(s[..1]) == 0;
    } else if n < 100 {
      DecimalReadsBack(n / 10);
    }
  }

  /** `MM:SS` for a non-negative whole number of seconds. */
  function Clock(seconds: nat): string {
    Pad2(seconds / 60) + ":" + Pad2(seconds % 60)
  }

  /** MainWindow._update_time_label for whole seconds of position and length. */
  function TimeLabel(position: nat, length: nat): string {
    Clock(position) + " / " + Clock(length)
  }

  /** The index of the first ':' in s, or |s| when there is none. */
  function ColonAt(s: string): (r: nat)
    ensures r <= |s|
    ensures forall i :: 0 <= i < r ==> s[i] != ':'
    ensures r < |s| ==> s[r] == ':'
  {
    if s == [] then 0 else if s[0] == ':' then 0 else 1 + ColonAt(s[1..])
  }

  /** Reads "M…M:SS" back into seconds; None unless minutes and a 00–59 seconds field are present. */
  function ParseClock(t: string): Option<nat> {
    var i := ColonAt(t);
    if i == |t| then None
    else
      var m, s := t[..i], t[i + 1..];
      if m == [] || |s| != 2 || !AllDigits(m) || !AllDigits(s) || DigitsValue(s) >= 60 then None
      else Some(DigitsValue(m) * 60 + DigitsValue(s))
  }

  /** The seconds field of a clock is always two digits from 00 to 59. */
  lemma ClockSecondsField(seconds: nat)
    ensures |Clock(seconds)| >= 5
    ensures var c := Clock(seconds);
      c[|c| - 3] == ':' && AllDigits(c[|c| - 2..]) && DigitsValue(c[|c| - 2..]) == seconds % 60 < 60
  {
    Pad2ReadsBack(seconds / 60);
    Pad2ReadsBack(seconds % 60);
    var c := Clock(seconds);
    assert c[|c| - 2..] == Pad2(seconds % 60);
  }

  /** A clock reads back to the seconds it shows. */
  lemma ClockRoundTrip(seconds: nat)
    ensures ParseClock(Clock(seconds)) == Some(seconds)
  {
    var m, s := Pad2(seconds / 60), Pad2(seconds % 60);
    Pad2ReadsBack(seconds / 60);
    Pad2ReadsBack(seconds % 60);
    var c := Clock(seconds);
    assert c == m + ":" + s;
    ColonFirst(m, s);
    assert c[..|m|] == m && c[|m| + 1..] == s;
  }

  /** A run of digits has no ':' so the first ':' after it is the separator. */
  lemma {:induction false} ColonFirst(m: string, s: string)
    requires AllDigits(m)
    ensures ColonAt(m + ":" + s) == |m|
    decreases |m|
  {
    if m != [] {
      assert (m + ":" + s)[1..] == m[1..] + ":" + s;
      ColonFirst(m[1..], s);
    }
  }

  /** Minutes past 99 keep every digit: a 24-hour track shows 1440:00. */
  lemma TwentyFourHours()
    ensures Clock(MaxSeconds) == "1440:00"
  {
    assert MaxSeconds / 60 == 1440 && MaxSeconds % 60 == 0;
    assert Decimal(1) == "1";
    assert Decimal(14) == "14";
    assert Decimal(144) == "144";
    assert Decimal(1440) == "1440";
    assert Pad2(1440) == "1440";
    assert Pad2(0) == "00";
  }
}
