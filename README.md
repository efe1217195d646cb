# Chronoface watch-face utility, modelled in Dafny

This project models the logic of `Chronoir_net.Chronoface.Utility`, a small
support library for Android watch faces:

- **Colour decoding** (`ColorCodec`, `color.dfy`): `ConvertARGBToColor`
  splits a signed 32-bit ARGB integer into alpha, red, green and blue bytes.
  The host colour type is represented by its four channels. C#'s arithmetic
  `>>` on `int` is modelled as floor division by a power of two, and `& 0xFF`
  as the non-negative remainder modulo 256. The packing
  `(a << 24) | (r << 16) | (g << 8) | b` is modelled as the sum of the shifted
  bytes, which equals the bitwise or because the fields do not overlap.
- **Time normalisation** (`TimeSources`, `time_sources.dfy`): the three
  `ConvertToDateTime` overloads turn an Android `Time`, a Java `Calendar` or a
  `DateTime` into a local `DateTime`. The host types are plain field records.
  `Calendar.Get` is a function of a symbolic field name. Its `Hour` field is
  the 12-hour hour, `HourOfDay % 12`.
- **Registration state machine** (`BroadcastReceivers`,
  `broadcast_receiver.dfy`): `ActionReservedBroadcastReceiver` is a class.
  The application context appears only as a ghost trace of
  `Register(filter)` / `Unregister` calls. Each run of the action delegate is
  kept in a second ghost trace. The object invariant says three things. The
  trace starts with a registration and then alternates. The `isRegistered`
  flag is true exactly when the last call was a registration. Every
  registration carries the receiver's own filter.
- **Hand strokes** (`AnalogHands`, `analog_hands.dfy`): `AnalogHandStroke`
  holds the paint, the length and the tip coordinates. Dafny has no class
  inheritance here, so each of the second, minute and hour hand classes owns
  a base stroke and writes its tip. Rotations are exact integers in
  half-degrees, measured clockwise from 12 o'clock, with 720 to a turn. The
  second and minute hands turn 12 half-degrees per unit. The hour hand's
  rotation is `60 * hour + minute`. `Sin` and `Cos` are constants of function
  type with no value given, so they stay uninterpreted. The tip is
  `(Sin(r) * Length, -Cos(r) * Length)`.

Each `SetTime` overload reads its field(s) straight from the time source;
none calls `ConvertToDateTime`. The hour hand's `Calendar` overload reads the 12-hour
`Hour` field, not `HourOfDay`. `CalendarHourSameTip` shows that this still
gives the same tip, as long as sine and cosine repeat every turn.

## Model

| member | source | states |
|---|---|---|
| ColorCodec.ConvertARGBToColor | Chronoir_net.Chronoface.Utility/Chronoir_net.Chronoface.Utility.cs:46-47 | every channel is in [0,255], and alpha, red, green and blue are bits 24-31, 16-23, 8-15 and 0-7 of the input's unsigned 32-bit pattern |
| ColorCodec.SignedShiftIsUnsignedShift | Chronoir_net.Chronoface.Utility/Chronoir_net.Chronoface.Utility.cs:47 | the signed shifts and masks extract the same bytes as shifts of the unsigned pattern, including for negative inputs |
| ColorCodec.ComposeAfterDecode | Chronoir_net.Chronoface.Utility/Chronoir_net.Chronoface.Utility.cs:46-47 | packing the decoded channels back into 32 bits gives the input read as unsigned, and reinterpreting that as signed gives the input itself |
| ColorCodec.DecodeAfterCompose | Chronoir_net.Chronoface.Utility/Chronoir_net.Chronoface.Utility.cs:46-47 | decoding the packed value of any four bytes returns those four bytes |
| ColorCodec.DecodeInjective | Chronoir_net.Chronoface.Utility/Chronoir_net.Chronoface.Utility.cs:46-47 | two different `int`s never decode to the same colour |
| TimeSources.ConvertTimeAsWritten | Chronoir_net.Chronoface.Utility/Chronoir_net.Chronoface.Utility.cs:57-58 | the code as written: the result is local, and its fields are the Time's fields with the month left 0-based |
| TimeSources.ConvertCalendarAsWritten | Chronoir_net.Chronoface.Utility/Chronoir_net.Chronoface.Utility.cs:65-70 | the code as written: the result is local, the hour is `HourOfDay`, and the month is left 0-based |
| TimeSources.ConvertTime | Chronoir_net.Chronoface.Utility/Chronoir_net.Chronoface.Utility.cs:57-58 | corrected conversion: a local `DateTime` from which the original Time is rebuilt exactly |
| TimeSources.ConvertCalendar | Chronoir_net.Chronoface.Utility/Chronoir_net.Chronoface.Utility.cs:65-70 | corrected conversion: a local `DateTime` from which the calendar is rebuilt exactly, so the hour is the 24-hour `HourOfDay` |
| TimeSources.ConvertDateTime | Chronoir_net.Chronoface.Utility/Chronoir_net.Chronoface.Utility.cs:80 | the `DateTime` overload returns its argument unchanged |
| TimeSources.EntryPointsAgree | Chronoir_net.Chronoface.Utility/Chronoir_net.Chronoface.Utility.cs:57-80 | a local time passed as a Time, as a Calendar or as itself converts back to itself |
| TimeSources.AsWrittenMonthIsOneEarly | Chronoir_net.Chronoface.Utility/Chronoir_net.Chronoface.Utility.cs:57-70 | the written conversions match the corrected ones in every field except the month, which is one lower |
| TimeSources.AsWrittenCounterexamples | Chronoir_net.Chronoface.Utility/Chronoir_net.Chronoface.Utility.cs:65-70 | 3 December 2016 comes back as month 11, and 15 January 2017 comes back as month 0 |
| BroadcastReceivers.SetterKeepsAlternation | Chronoir_net.Chronoface.Utility/Chronoir_net.Chronoface.Utility.cs:109-119 | when the flag matches the trace, one setter call keeps the trace alternating, and afterwards the receiver is attached exactly when the assigned value is true |
| BroadcastReceivers.SetterIsIdempotent | Chronoir_net.Chronoface.Utility/Chronoir_net.Chronoface.Utility.cs:110 | assigning the same value twice makes the same context calls as assigning it once, and one assignment makes at most one call |
| BroadcastReceivers.NoDoubleRegistration | Chronoir_net.Chronoface.Utility/Chronoir_net.Chronoface.Utility.cs:110-117 | in an alternating trace, no two registrations and no two unregistrations are adjacent |
| BroadcastReceivers.RegistrationBalance | Chronoir_net.Chronoface.Utility/Chronoir_net.Chronoface.Utility.cs:110-117 | registrations exceed unregistrations by one while attached and equal them otherwise |
| BroadcastReceivers.ActionReservedBroadcastReceiver.constructor | Chronoir_net.Chronoface.Utility/Chronoir_net.Chronoface.Utility.cs:127-130 | a new receiver keeps the action and a filter for the given string, starts unregistered (line 103) and has made no context calls |
| BroadcastReceivers.ActionReservedBroadcastReceiver.GetIsRegistered | Chronoir_net.Chronoface.Utility/Chronoir_net.Chronoface.Utility.cs:108 | the getter is true exactly when the last context call was a registration, that is, when registrations outnumber unregistrations |
| BroadcastReceivers.ActionReservedBroadcastReceiver.SetIsRegistered | Chronoir_net.Chronoface.Utility/Chronoir_net.Chronoface.Utility.cs:109-119 | the flag becomes the value, the trace gains `Register(filter)` on false-to-true, `Unregister` on true-to-false and nothing otherwise, and the invariant is kept |
| BroadcastReceivers.ActionReservedBroadcastReceiver.OnReceive | Chronoir_net.Chronoface.Utility/Chronoir_net.Chronoface.Utility.cs:137-139 | the stored action runs exactly once with the intent if there is one; otherwise nothing happens |
| AnalogHands.SecondRotation | Chronoir_net.Chronoface.Utility/Chronoir_net.Chronoface.Utility.cs:199 | the rotation in half-degrees is exactly `second / 30 * pi` radians |
| AnalogHands.MinuteRotation | Chronoir_net.Chronoface.Utility/Chronoir_net.Chronoface.Utility.cs:248 | the rotation in half-degrees is exactly `minute / 30 * pi` radians |
| AnalogHands.HourRotation | Chronoir_net.Chronoface.Utility/Chronoir_net.Chronoface.Utility.cs:296 | the rotation in half-degrees is exactly `(hour + minute / 60) / 6 * pi` radians |
| AnalogHands.SixtyUnitsMakeATurn | Chronoir_net.Chronoface.Utility/Chronoir_net.Chronoface.Utility.cs:196-251 | sixty more seconds or minutes turn the hand exactly once more |
| AnalogHands.HourHandPeriods | Chronoir_net.Chronoface.Utility/Chronoir_net.Chronoface.Utility.cs:295-299 | each whole hour is a twelfth of a turn (0:00, 3:00 and 6:00 are no turn, a quarter turn and a half turn clockwise from 12 o'clock); twelve hours are one turn; sixty minutes equal one hour |
| AnalogHands.CalendarHourDiffersByTurns | Chronoir_net.Chronoface.Utility/Chronoir_net.Chronoface.Utility.cs:315-316 | the 12-hour `Hour` field turns the hour hand exactly `HourOfDay / 12` whole turns less than the 24-hour hour |
| AnalogHands.CalendarHourSameTip | Chronoir_net.Chronoface.Utility/Chronoir_net.Chronoface.Utility.cs:315-323 | if sine and cosine repeat every turn, a stroke's tip is at the calendar overload's rotation exactly when it is at the rotation of the `DateTime` overload on the converted calendar, so both overloads give the same tip |
| AnalogHands.AnalogHandStroke.constructor | Chronoir_net.Chronoface.Utility/Chronoir_net.Chronoface.Utility.cs:174-177 | the paint is the given one, or a fresh one when none is given, so it is never null; the length is the given one and the tip starts at (0, 0) |
| AnalogHands.AnalogHandStroke.SetLength | Chronoir_net.Chronoface.Utility/Chronoir_net.Chronoface.Utility.cs:167 | assigning the length changes only the length, never the tip |
| AnalogHands.AnalogHandStroke.PointAt | Chronoir_net.Chronoface.Utility/Chronoir_net.Chronoface.Utility.cs:201-202 | writes only the tip, to `(Sin(r) * Length, -Cos(r) * Length)`; the length and paint are unchanged |
| AnalogHands.SecondAnalogHandStroke.constructor | Chronoir_net.Chronoface.Utility/Chronoir_net.Chronoface.Utility.cs:190 | a fresh base stroke with the given or a fresh paint, the given length and the tip at (0, 0) |
| AnalogHands.SecondAnalogHandStroke.SetTime | Chronoir_net.Chronoface.Utility/Chronoir_net.Chronoface.Utility.cs:196-203 | only the tip changes, to the point at the second's rotation; there is no range check |
| AnalogHands.SecondAnalogHandStroke.SetTimeFromTime | Chronoir_net.Chronoface.Utility/Chronoir_net.Chronoface.Utility.cs:212-213 | same as `SetTime` on the Time's second |
| AnalogHands.SecondAnalogHandStroke.SetTimeFromCalendar | Chronoir_net.Chronoface.Utility/Chronoir_net.Chronoface.Utility.cs:219-220 | same as `SetTime` on the calendar's `Second` field |
| AnalogHands.SecondAnalogHandStroke.SetTimeFromDateTime | Chronoir_net.Chronoface.Utility/Chronoir_net.Chronoface.Utility.cs:226-227 | same as `SetTime` on the `DateTime`'s second |
| AnalogHands.MinuteAnalogHandStroke.constructor | Chronoir_net.Chronoface.Utility/Chronoir_net.Chronoface.Utility.cs:240 | a fresh base stroke with the given or a fresh paint, the given length and the tip at (0, 0) |
| AnalogHands.MinuteAnalogHandStroke.SetTime | Chronoir_net.Chronoface.Utility/Chronoir_net.Chronoface.Utility.cs:246-251 | only the tip changes, to the point at the minute's rotation; there is no range check |
| AnalogHands.MinuteAnalogHandStroke.SetTimeFromTime | Chronoir_net.Chronoface.Utility/Chronoir_net.Chronoface.Utility.cs:260-261 | same as `SetTime` on the Time's minute |
| AnalogHands.MinuteAnalogHandStroke.SetTimeFromCalendar | Chronoir_net.Chronoface.Utility/Chronoir_net.Chronoface.Utility.cs:267-268 | same as `SetTime` on the calendar's `Minute` field |
| AnalogHands.MinuteAnalogHandStroke.SetTimeFromDateTime | Chronoir_net.Chronoface.Utility/Chronoir_net.Chronoface.Utility.cs:274-275 | same as `SetTime` on the `DateTime`'s minute |
| AnalogHands.HourAnalogHandStroke.constructor | Chronoir_net.Chronoface.Utility/Chronoir_net.Chronoface.Utility.cs:288 | a fresh base stroke with the given or a fresh paint, the given length and the tip at (0, 0) |
| AnalogHands.HourAnalogHandStroke.SetTime | Chronoir_net.Chronoface.Utility/Chronoir_net.Chronoface.Utility.cs:295-299 | only the tip changes, to the point at the hour-and-minute rotation; there is no range check |
| AnalogHands.HourAnalogHandStroke.SetTimeFromTime | Chronoir_net.Chronoface.Utility/Chronoir_net.Chronoface.Utility.cs:308-309 | same as `SetTime` on the Time's hour and minute |
| AnalogHands.HourAnalogHandStroke.SetTimeFromCalendar | Chronoir_net.Chronoface.Utility/Chronoir_net.Chronoface.Utility.cs:315-316 | same as `SetTime` on the calendar's 12-hour `Hour` field and its `Minute` field |
| AnalogHands.HourAnalogHandStroke.SetTimeFromDateTime | Chronoir_net.Chronoface.Utility/Chronoir_net.Chronoface.Utility.cs:322-323 | same as `SetTime` on the `DateTime`'s hour and minute |

## Findings

| source | as written | input that shows it | evidently intended | confidence | as-written member | corrected member |
|---|---|---|---|---|---|---|
| Chronoir_net.Chronoface.Utility/Chronoir_net.Chronoface.Utility.cs:57-58 | Android `Time.Month`, which counts from 0, is passed as the `DateTime` month, which counts from 1 | a Time for 3 December 2016 (`Month` = 11) converts to 3 November; any January Time gives month 0, which `DateTime` rejects | pass `Month + 1` | high; not executed | TimeSources.ConvertTimeAsWritten (shown by TimeSources.AsWrittenCounterexamples) | TimeSources.ConvertTime (TimeSources.EntryPointsAgree) |
| Chronoir_net.Chronoface.Utility/Chronoir_net.Chronoface.Utility.cs:65-70 | `Calendar.Get(Month)`, which counts from 0, is passed as the `DateTime` month, which counts from 1 | a calendar for 3 December 2016 converts to 3 November; any January calendar gives month 0, which `DateTime` rejects | pass `Get(Month) + 1` | high; not executed | TimeSources.ConvertCalendarAsWritten (shown by TimeSources.AsWrittenCounterexamples) | TimeSources.ConvertCalendar (TimeSources.EntryPointsAgree) |

## Left out

- Floating point: the `float` arithmetic, the `float` casts and the values of `Math.Sin` and `Math.Cos` are not modelled. Rotations are exact, lengths and coordinates are reals, and sine and cosine are uninterpreted.
- The host's range checks in the `DateTime` constructor (the exception for month 0, for example) are not modelled. The model's `DateTime` accepts any field values.
- The `#if __ANDROID_22__` / `[Obsolete]` markings on the Time overloads are build configuration. They are not modelled; the Time overloads are modelled like the others.
- `Application.Context`, `IntentFilter`, `Intent`, `Paint` and the action delegate are modelled as opaque values. The context is modelled only through the trace of calls made on it, and the delegate only through the trace of its runs. The context argument of `OnReceive`, which the source ignores, is not modelled. The model does not cover how the platform matches intents against the filter.
- Thread safety of the `IsRegistered` setter is not modelled. The source has no synchronisation, and the model is sequential.
- `DigitalTextStyle` holds only data. Its only logic is the paint default, which is the same as in the hand strokes, so it is not modelled.
- The constructors' optional `length = 0.0f` parameter is not modelled as a default: callers pass `0.0` for it.
- `Color.Argb` is not modelled. The decoded colour is the four channels the source passes to it.
