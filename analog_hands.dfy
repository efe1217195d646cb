/** The strokes of the three analog hands (AnalogHandStroke and its second,
    minute and hour subclasses). A stroke keeps a paint, a hand length and
    the coordinates of the hand tip relative to the centre of the dial; its
    `SetTime` methods turn a time into a rotation and the rotation into the
    tip coordinates.

    Inheritance becomes composition: each hand owns a base stroke and writes
    its tip. Rotations are exact numbers of half-degrees measured clockwise
    from 12 o'clock; sine and cosine are left uninterpreted. */
module AnalogHands {
  import opened TimeSources

  /** An angle in half-degrees: 360 of them are pi radians. */
  type HalfDegrees = int

  const FullTurn: HalfDegrees := 720

  /** Sine and cosine of an angle given in half-degrees. No value of either
      is modelled. */
  const Sin: HalfDegrees -> real
  const Cos: HalfDegrees -> real

  /** Sine and cosine repeat after a full turn, as the real functions do. */
  ghost predicate TurnPeriodic() {
    forall a: HalfDegrees :: Sin(a + FullTurn) == Sin(a) && Cos(a + FullTurn) == Cos(a)
  }

  /** The second hand turns 6 degrees a second: `second / 30 * pi`. */
  function SecondRotation(second: int): (r: HalfDegrees)
    ensures r as real / 360.0 == second as real / 30.0
  {
    12 * second
  }

  /** The minute hand turns 6 degrees a minute: `minute / 30 * pi`. */
  function MinuteRotation(minute: int): (r: HalfDegrees)
    ensures r as real / 360.0 == minute as real / 30.0
  {
    12 * minute
  }

  /** The hour hand turns 30 degrees an hour and creeps half a degree a
      minute: `(hour + minute / 60) / 6 * pi`. */
  function HourRotation(hour: int, minute: int): (r: HalfDegrees)
    ensures r as real / 360.0 == (hour as real + minute as real / 60.0) / 6.0
  {
    60 * hour + minute
  }

  /** The host's paint object; its contents are never inspected. */
  class Paint {
    constructor ()
    {
    }
  }

  class AnalogHandStroke {
    const paint: Paint
    var x: real
    var y: real
    var length: real

    /** Keeps the given paint, or makes a new one when none is given; the
        tip starts at the centre. */
    constructor (paint: Paint?, length: real)
      ensures paint != null ==> this.paint == paint
      ensures paint == null ==> fresh(this.paint)
      ensures this.length == length && x == 0.0 && y == 0.0
    {
      if paint != null {
        this.paint := paint;
      } else {
        this.paint := new Paint();
      }
      this.length := length;
      x := 0.0;
      y := 0.0;
    }

    /** The `Length` setter: the tip is not recomputed. */
    method SetLength(length: real)
      modifies this`length
      ensures this.length == length
      ensures x == old(x) && y == old(y)
    {
      this.length := length;
    }

    /** Converts the polar tip (rotation, length) to screen coordinates, with
        y growing downwards: the part every `SetTime` shares. */
    method PointAt(rotation: HalfDegrees)
      modifies this`x, this`y
      ensures TipAt(rotation)
      ensures length == old(length)
    {
      x := Sin(rotation) * length;
      y := -Cos(rotation) * length;
    }

    /** The tip is where a hand of this length points at `rotation`. */
    ghost predicate TipAt(rotation: HalfDegrees)
      reads this
    {
      x == Sin(rotation) * length && y == -Cos(rotation) * length
    }
  }

  class SecondAnalogHandStroke {
    const stroke: AnalogHandStroke

    constructor (paint: Paint?, length: real)
      ensures fresh(stroke)
      ensures paint != null ==> stroke.paint == paint
      ensures paint == null ==> fresh(stroke.paint)
      ensures stroke.length == length && stroke.x == 0.0 && stroke.y == 0.0
    {
      stroke := new AnalogHandStroke(paint, length);
    }

    /** Points the hand at `second`; no range check is made. */
    method SetTime(second: int)
      modifies stroke`x, stroke`y
      ensures stroke.TipAt(SecondRotation(second))
      ensures stroke.length == old(stroke.length)
    {
      stroke.PointAt(SecondRotation(second));
    }

    method SetTimeFromTime(time: AndroidTime)
      modifies stroke`x, stroke`y
      ensures stroke.TipAt(SecondRotation(time.second))
      ensures stroke.length == old(stroke.length)
    {
      SetTime(time.second);
    }

    method SetTimeFromCalendar(time: Calendar)
      modifies stroke`x, stroke`y
      ensures stroke.TipAt(SecondRotation(Get(time, Second)))
      ensures stroke.length == old(stroke.length)
    {
      SetTime(Get(time, Second));
    }

    method SetTimeFromDateTime(time: DateTime)
      modifies stroke`x, stroke`y
      ensures stroke.TipAt(SecondRotation(time.second))
      ensures stroke.length == old(stroke.length)
    {
      SetTime(time.second);
    }
  }

  class MinuteAnalogHandStroke {
    const stroke: AnalogHandStroke

    constructor (paint: Paint?, length: real)
      ensures fresh(stroke)
      ensures paint != null ==> stroke.paint == paint
      ensures paint == null ==> fresh(stroke.paint)
      ensures stroke.length == length && stroke.x == 0.0 && stroke.y == 0.0
    {
      stroke := new AnalogHandStroke(paint, length);
    }

    /** Points the hand at `minute`; no range check is made. */
    method SetTime(minute: int)
      modifies stroke`x, stroke`y
      ensures stroke.TipAt(MinuteRotation(minute))
      ensures stroke.length == old(stroke.length)
    {
      stroke.PointAt(MinuteRotation(minute));
    }

    method SetTimeFromTime(time: AndroidTime)
      modifies stroke`x, stroke`y
      ensures stroke.TipAt(MinuteRotation(time.minute))
      ensures stroke.length == old(stroke.length)
    {
      SetTime(time.minute);
    }

    method SetTimeFromCalendar(time: Calendar)
      modifies stroke`x, stroke`y
      ensures stroke.TipAt(MinuteRotation(Get(time, Minute)))
      ensures stroke.length == old(stroke.length)
    {
      SetTime(Get(time, Minute));
    }

    method SetTimeFromDateTime(time: DateTime)
      modifies stroke`x, stroke`y
      ensures stroke.TipAt(MinuteRotation(time.minute))
      ensures stroke.length == old(stroke.length)
    {
      SetTime(time.minute);
    }
  }

  class HourAnalogHandStroke {
    const stroke: AnalogHandStroke

    constructor (paint: Paint?, length: real)
      ensures fresh(stroke)
      ensures paint != null ==> stroke.paint == paint
      ensures paint == null ==> fresh(stroke.paint)
      ensures stroke.length == length && stroke.x == 0.0 && stroke.y == 0.0
    {
      stroke := new AnalogHandStroke(paint, length);
    }

    /** Points the hand at `hour` and `minute`; no range check is made. */
    method SetTime(hour: int, minute: int)
      modifies stroke`x, stroke`y
      ensures stroke.TipAt(HourRotation(hour, minute))
      ensures stroke.length == old(stroke.length)
    {
      stroke.PointAt(HourRotation(hour, minute));
    }

    method SetTimeFromTime(time: AndroidTime)
      modifies stroke`x, stroke`y
      ensures stroke.TipAt(HourRotation(time.hour, time.minute))
      ensures stroke.length == old(stroke.length)
    {
      SetTime(time.hour, time.minute);
    }

    /** Reads the 12-hour `Hour` field, unlike the other overloads. */
    method SetTimeFromCalendar(time: Calendar)
      modifies stroke`x, stroke`y
      ensures stroke.TipAt(HourRotation(Get(time, Hour), Get(time, Minute)))
      ensures stroke.length == old(stroke.length)
    {
      SetTime(Get(time, Hour), Get(time, Minute));
    }

    method SetTimeFromDateTime(time: DateTime)
      modifies stroke`x, stroke`y
      ensures stroke.TipAt(HourRotation(time.hour, time.minute))
      ensures stroke.length == old(stroke.length)
    {
      SetTime(time.hour, time.minute);
    }
  }

  /** Sixty seconds, or sixty minutes, make one full turn. */
  lemma SixtyUnitsMakeATurn(value: int)
    ensures SecondRotation(value + 60) == SecondRotation(value) + FullTurn
    ensures MinuteRotation(value + 60) == MinuteRotation(value) + FullTurn
  {
  }

  /** A whole hour is a twelfth of a turn (so 0:00, 3:00 and 6:00 are no
      turn, a quarter turn and a half turn clockwise from 12 o'clock), twelve
      hours make a full turn, and sixty minutes move the hour hand as far as
      one hour. */
  lemma HourHandPeriods(hour: int, minute: int)
    ensures 12 * HourRotation(hour, 0) == FullTurn * hour
    ensures HourRotation(hour + 12, minute) == HourRotation(hour, minute) + FullTurn
    ensures HourRotation(hour, minute + 60) == HourRotation(hour + 1, minute)
  {
  }

  /** The 12-hour hour read by the calendar overload differs from the 24-hour
      hour by whole turns of the hour hand. */
  lemma CalendarHourDiffersByTurns(time: Calendar)
    ensures HourRotation(Get(time, Hour), time.minute)
            == HourRotation(time.hourOfDay, time.minute) - FullTurn * (time.hourOfDay / 12)
  {
  }

  /** Sine and cosine repeat after any whole number of turns. */
  lemma {:induction false} PeriodicByTurns(a: HalfDegrees, turns: int)
    requires TurnPeriodic()
    ensures Sin(a + FullTurn * turns) == Sin(a) && Cos(a + FullTurn * turns) == Cos(a)
    decreases if turns < 0 then -turns else turns
  {
    if turns > 0 {
      PeriodicByTurns(a, turns - 1);
      assert a + FullTurn * turns == (a + FullTurn * (turns - 1)) + FullTurn;
    } else if turns < 0 {
      PeriodicByTurns(a, turns + 1);
      assert a + FullTurn * (turns + 1) == (a + FullTurn * turns) + FullTurn;
    }
  }

  /** The hour hand's calendar overload puts the tip exactly where the
      24-hour hour would, and so where the `DateTime` overload puts it after
      the calendar is converted: a stroke's tip is at one rotation exactly
      when it is at the other. */
  lemma CalendarHourSameTip(stroke: AnalogHandStroke, time: Calendar)
    requires TurnPeriodic()
    ensures stroke.TipAt(HourRotation(Get(time, Hour), Get(time, Minute)))
            <==> stroke.TipAt(HourRotation(ConvertCalendar(time).hour, ConvertCalendar(time).minute))
    ensures Sin(HourRotation(Get(time, Hour), Get(time, Minute)))
            == Sin(HourRotation(ConvertCalendar(time).hour, ConvertCalendar(time).minute))
    ensures Cos(HourRotation(Get(time, Hour), Get(time, Minute)))
            == Cos(HourRotation(ConvertCalendar(time).hour, ConvertCalendar(time).minute))
  {
    CalendarHourDiffersByTurns(time);
    PeriodicByTurns(HourRotation(Get(time, Hour), time.minute), time.hourOfDay / 12);
  }
}
