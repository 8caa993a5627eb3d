# Synrad UC-2000 controller, modelled in Dafny

This project models the Python driver for the Synrad UC-2000 laser power
controller. The driver talks to the controller in its REMOTE protocol over
RS-232, through a LabJack. Three pieces are modelled:

- **`add_no_carry`** (`helpers.py`, and its copy `Message.add_no_carry` in
  `uc2000.py`) is the digit arithmetic behind the SET (percent) checksum.
  `Helpers.AddNoCarry` is a recursive specification of what the code returns.
  `Helpers.AddNoCarryLoop` and `Helpers.ColumnLoop` are the code's nested
  loops, proved against it. `Helpers.PositionalNoCarry` is the carry-less
  number that the docstring describes.
- **The REMOTE message encoder** (`Message.message_bytes` in `Message.py`,
  and its copy in `uc2000.py`), with the command table and the byte
  constants. It is the total function `Message.Encode`, whose two error
  cases are `Failure` values.
- **`UC2000Controller`** (`uc2000.py`) has seven settings. Each keeps an
  append-only history seeded with `None`, and its setter sends a message
  only when the entry changed and a transport is attached. The controller
  also has the checksum flag, `reset`, the percent and shot-time limits,
  `shoot` and `__exit__`.
  - Module `Settings` describes every operation as a function from a state
    value to the next one. The state is a `State`, with one `Setting` (value
    and history) per setting.
  - Class `UC2000.UC2000Controller` has the object's fields. Its methods
    update them in place and are proved to reach exactly the state the
    matching `Settings` function computes.
  - The transport is the field `sent`, the list of byte sequences handed to
    `asynch.transmit`, plus the flag `attached`, which says whether
    `open_labjack` is truthy. The scheduler is the field `intervals`, which
    records the `add_interval` calls.

`uc2000.py` has its own copies of the command table (uc2000.py:633-662),
the byte constants (uc2000.py:726-729), `message_bytes`
(uc2000.py:741-785) and `add_no_carry` (uc2000.py:788-840). They behave the
same as `Message.py` and `helpers.py`, so the model defines each only once.

Modelling choices:

- A percent is held as a count `h` of 0.5 % steps, so 62.5 % is 125. The
  SET data byte `int(2 * percent)` is `h`. The checksum input is `h / 2`.
  The float digit extraction `arg % 10**pwr // 10**(pwr-1)` of a percent
  such as 62.5 yields the digits of its integer part, and the extra text
  columns of a float add nothing (`Helpers.ExtraColumnsAddNothing`).
- The percent setter's input is an exact `real`. Python's `round` is
  `Settings.RoundHalfEven`, round half to even.
- A shot time is a `real`, and `int(shot_time*1e3)` is its floor, since
  limited shot times are positive.
- The code is followed where the documentation disagrees with it:
  - `add_no_carry` adds the kept column results instead of placing them, so
    `add_no_carry(1, 18)` is 10 and `add_no_carry(1, 19)` is 1, where the
    docstring says 19 and 10. `Helpers.CodeIsDigitSumOfPositional` proves
    that the code returns the digit sum of the documented number.
  - The docstring examples of `Message` start with 126. The code starts
    every message with `START_BYTE` 0x5B.

## Model

| member | source | states |
|---|---|---|
| Helpers.NumDigits | helpers.py:31 | len(str(x)) of a natural number: the least d >= 1 with x < 10^d |
| Helpers.DigitIsSourceExpression | helpers.py:45 | the column digit used by the model equals the source's `arg % 10**pwr // 10**(pwr - 1)` |
| Helpers.AddNoCarryLoop | helpers.py:28-53 | the code's loops return None for an empty operand list (`max` raises) and otherwise exactly AddNoCarry(args), the sum over positions 1..max_digits of each column's digit sum mod 10 |
| Helpers.ColumnLoop | helpers.py:39-45 | the inner loop leaves result_no_carry equal to the column sum ColumnSum(args, pwr) |
| Helpers.MaxOfDigitCounts | helpers.py:30-33 | max() of the collected text lengths is the longest operand's length |
| Helpers.AddNoCarryBounds | helpers.py:33-51 | each column contributes at most 9: 0 <= result <= 9 * max_digits |
| Helpers.GuardOnlySkipsZeroDigits | helpers.py:41-45 | the `len(str(arg)) >= pwr` guard only skips positions whose digit is 0, so dropping it changes no column |
| Helpers.ExtraColumnsAddNothing | helpers.py:38-51 | summing any number of columns beyond max_digits gives the same result |
| Helpers.ColumnSumPermutation | helpers.py:39-45 | a column sum is the same for any reordering of the operands |
| Helpers.AddNoCarryPermutation | helpers.py:28-53 | the result depends only on the multiset of operands, not their order |
| Helpers.AddNoCarryCommutative | helpers.py:28-53 | add_no_carry(a, b) == add_no_carry(b, a) |
| Helpers.TwoOperands | helpers.py:38-45 | with two operands a column is the sum of their two terms, and max_digits is the longer length |
| Helpers.SingleDigits | helpers.py:45-51 | for single-digit a and b the result, and the positional sum, is (a + b) mod 10 |
| Helpers.UnitsAndTens | helpers.py:38-51 | a digit plus a two-digit number: the code adds the tens digit to the kept units column, the positional sum places it in the tens |
| Helpers.DocumentedExamples | helpers.py:17-24 | the code gives 2 for (1, 1), 10 for (1, 18) and 1 for (1, 19) |
| Helpers.SetPercentSumZero | helpers.py:28-53 | add_no_carry(0x7F, 0) == 10 (checksum of the 0 % message) |
| Helpers.SetPercentSumTwo | helpers.py:28-53 | add_no_carry(0x7F, 2) == 12 (checksum of the 2 % message) |
| Helpers.SetPercentSumTen | helpers.py:28-53 | add_no_carry(0x7F, 10) == 7 + 3 + 1 == 11 |
| Helpers.PositionalDigits | helpers.py:50-51 | the digit sum of the positional carry-less number over columns lo..hi is the code's sum of kept column results |
| Helpers.CodeIsDigitSumOfPositional | helpers.py:2-53 | add_no_carry(args) is the digit sum of the carry-less number the docstring describes |
| Helpers.DocumentedExamplesArePositional | helpers.py:17-24 | the documented 2, 19 and 10 are the values of the positional carry-less sum |
| Message.OnesComplement | Message.py:133 | `~b & 0xff` is a byte, and is 255 - b for a byte b |
| Message.TableMessage | Message.py:125-134 | a table command gives [0x5B, b] with b its table byte, followed by 255 - b (adding to 0xFF) when checksum is on |
| Message.TableBytesAreBytes | Message.py:8-37 | every command byte of the table lies in 0x30..0x7D |
| Message.PercentMessage | Message.py:136-148 | percent gives [0x5B, 0x7F, 2*percent], then ~add_no_carry(0x7F, percent) & 0xFF with checksum on; all bytes are bytes when 2*percent < 256 |
| Message.StatusRequestMessage | Message.py:150-151 | status_request gives [0x7E] whatever the data and the checksum flag |
| Message.MessageLength | Message.py:128-151 | a message has length 2 or 3 for table commands, 3 or 4 for percent and 1 for a status request |
| Message.UnknownCommandIff | Message.py:125-154 | the encoder reports an unrecognised command exactly for names outside the eight commands |
| Message.InvalidTableValueIff | Message.py:126 | a table command fails exactly for a value missing from its table |
| Message.InvalidPercentIff | Message.py:137-140 | percent fails exactly for data that is neither a count of 0.5 % steps nor a non-negative number |
| Message.TableInjective | Message.py:8-37 | within one command distinct values have distinct bytes |
| Message.CrossCommandCollision | Message.py:9-16 | pwm_freq 20 and gate_logic "up" encode to the same bytes 0x5B 0x7A |
| Message.LaseExamples | Message.py:125-134 | lase True gives [0x5B, 0x75], and [0x5B, 0x75, 0x8A] with checksum |
| Message.PercentExamples | Message.py:136-148 | percent 10 gives [0x5B, 0x7F, 20], and [0x5B, 0x7F, 20, 0xF4] with checksum |
| Message.DefaultSetupMessages | Message.py:9-134 | the default pwm_freq, gate_logic and max_pwm messages with checksum |
| Message.DefaultStateMessages | Message.py:22-134 | the default lase_on_power_up, mode and lase messages with checksum |
| Message.PercentZeroMessage | Message.py:136-148 | percent 0 with checksum gives [0x5B, 0x7F, 0, 0xF5] |
| Message.PercentTwoMessage | Message.py:136-148 | percent 2 with checksum gives [0x5B, 0x7F, 4, 0xF3] |
| Message.ErrorExamples | Message.py:125-154 | an unknown mode, max_pwm 97 and an unknown command fail |
| Settings.RoundHalfEven | uc2000.py:500 | Python round(): within 0.5 of its argument, a tie going to the even integer |
| Settings.RoundHalfEvenUnique | uc2000.py:500 | those two properties determine round() uniquely |
| Settings.PwmPercentLimits | uc2000.py:468-509 | above max_pwm the previous percent stays (through the 63 % table); below 0 gives 0; otherwise the nearest 0.5 step, at most max_pwm, a tie going to the even number of steps as Python's round() does, except that 63 % becomes 62.5 %; the result is never 63 % |
| Settings.PwmPercentLimitsUnique | uc2000.py:492-505 | for an input within [0, max_pwm] the clauses above admit exactly one setpoint, the one computed |
| Settings.Lower | uc2000.py:410 | `mode_type.lower()`: same length, each ASCII capital replaced by its small letter, every other character kept |
| Settings.ShotTimeLimits | uc2000.py:511-550 | a shot time in [50, 10000] is kept, any other (above as well as below) becomes 50 |
| Settings.Put | uc2000.py:187-191 | a setter stores the value, appends exactly one history entry, and counts as a change iff the entry differs from the previous one |
| Settings.Notify | uc2000.py:189-193 | at most one message is sent, and none unless the entry changed and a transport is attached; nothing else changes |
| Settings.PwmFreqAssignment | uc2000.py:257-262 | pwm_freq is stored and recorded; its message is sent iff attached and changed; a value outside {5, 10, 20} is stored and then raises; validity is kept |
| Settings.GateLogicAssignment | uc2000.py:300-305 | the same law for gate_logic over {"up", "down"} |
| Settings.MaxPwmAssignment | uc2000.py:331-336 | the same law for max_pwm over {95, 99}; the stored percent is not re-checked |
| Settings.LaseOnPowerUpAssignment | uc2000.py:362-367 | lase_on_power_up is stored and recorded, sent iff attached and changed, and never raises |
| Settings.ModeAssignment | uc2000.py:410-415 | mode stores the lower-cased input while its history, its change test and its message use the input as given; an input outside the table raises after the change |
| Settings.LaseAssignment | uc2000.py:187-193 | lase is stored and recorded, sent iff attached and changed, and never raises |
| Settings.PercentAssignment | uc2000.py:224-230 | the limited setpoint is stored and recorded, its SET message sent iff attached and changed, and nothing raises |
| Settings.ChecksumAssignment | uc2000.py:442-443 | checksum only sets the flag and appends to checksum_hist; nothing is sent |
| Settings.Pulse | uc2000.py:609-623 | the percent-then-lase pair of shoot keeps every history seeded; what it stores and records is stated for the whole shot by Settings.ShootEnd |
| Settings.Schedule | uc2000.py:611-615 | the add_interval record keeps every history seeded; the interval itself is stated by Settings.ShootEnd |
| Settings.ResetDefaults | uc2000.py:456-466 | after reset every setting holds its default, each history has grown by one entry, the flag, transport and scheduler are unchanged, at most seven messages are sent |
| Settings.ResetRaisesNothing | uc2000.py:456-466 | none of reset's seven assignments raises |
| Settings.ConstructDefaults | uc2000.py:118-139 | a new controller is valid, holds the defaults, each history is [None, default], checksum_hist is [True], nothing is scheduled |
| Settings.ConstructMessages | uc2000.py:118-139 | a new controller with a transport sends the seven default messages in reset's order; without one it sends none |
| Settings.SetupDefaultsSent | uc2000.py:459-461 | reset's first three assignments, from seeded histories, send the three setup messages |
| Settings.SwitchDefaultsSent | uc2000.py:462-464 | reset's lase_on_power_up and mode assignments send their two messages |
| Settings.OutputDefaultsSent | uc2000.py:465-466 | reset's lase and percent assignments send their two messages |
| Settings.PercentZeroSent | uc2000.py:224-230 | percent = 0 from a seeded history sends [0x5B, 0x7F, 0, 0xF5] |
| Settings.ResetDetachedSendsNothing | uc2000.py:456-466 | without a transport reset sends nothing |
| Settings.ShootEnd | uc2000.py:552-625 | shoot ends with lase off (recorded on, then off), percent at MIN_LASE_PERCENT when max_pwm allows, num_shots copies of the limited time recorded, one interval of 2*num_shots - 1 iterations when attached, other settings unchanged |
| Settings.ShootKeepsValid | uc2000.py:552-625 | shoot keeps the controller's invariant |
| Settings.PulseKeepsValid | uc2000.py:609-623 | each percent-then-lase pair keeps the invariant |
| Settings.ShootEndsWithLaseOff | uc2000.py:622-623 | with a transport the last message of shoot turns lase off; without one nothing is sent |
| Settings.ExitEnd | uc2000.py:144-157 | __exit__ always records lase off and one percent entry (0 when max_pwm >= 0), leaves the other settings, and returns True exactly when no exception occurred |
| Settings.ExitEndsWithLaseOff | uc2000.py:144-157 | with a transport and lase on, the last message of __exit__ turns lase off |
| Settings.RepeatedPercentIsSilent | uc2000.py:224-230 | assigning the same percent twice sends at most one message |
| Settings.RepeatedModeIsSilent | uc2000.py:410-415 | assigning the same mode twice: the second is silent and raises nothing |
| Settings.PercentAboveMaxIsRevert | uc2000.py:492-494 | an input above max_pwm keeps the percent, appends a history entry and sends nothing |
| Settings.UpperCaseMode | uc2000.py:410-415 | "MANUAL" is stored as "manual" but its message lookup fails |
| Settings.PercentLimitsExamples | uc2000.py:492-505 | 63 -> 62.5, 10 -> 10, 10.25 -> 10, 10.75 -> 11, -3 -> 0; 96 under max_pwm 95 keeps the previous percent, under 99 gives 96 |
| Settings.AsWrittenPercentAlwaysRaises | uc2000.py:504-505 | as written every percent assignment and every construction raises NameError; with the table's own name neither raises |
| Settings.ConstructAsWrittenSent | uc2000.py:456-466 | as written, construction raises NameError at reset's percent assignment, after the six messages before it have been sent (with a transport) |
| Settings.BeforePercentSent | uc2000.py:459-465 | reset's first six assignments from a new controller send the first six default messages with a transport, none without |
| UC2000.UC2000Controller.constructor | uc2000.py:118-139 | a new object is valid and its fields are exactly Construct(model, attached) |
| UC2000.UC2000Controller.Transmit | uc2000.py:192-193 | the encoded message is appended to the sent log, or its encoding error is returned |
| UC2000.UC2000Controller.Announce | uc2000.py:189-193 | the setters' send step: the object moves to the Notify state |
| UC2000.UC2000Controller.SetPwmFreq | uc2000.py:257-262 | the fields and the raised error are those of AssignPwmFreq |
| UC2000.UC2000Controller.SetGateLogic | uc2000.py:300-305 | the fields and the raised error are those of AssignGateLogic |
| UC2000.UC2000Controller.SetMaxPwm | uc2000.py:331-336 | the fields and the raised error are those of AssignMaxPwm |
| UC2000.UC2000Controller.SetLaseOnPowerUp | uc2000.py:362-367 | the fields become those of AssignLaseOnPowerUp |
| UC2000.UC2000Controller.SetMode | uc2000.py:410-415 | the fields and the raised error are those of AssignMode |
| UC2000.UC2000Controller.SetLase | uc2000.py:187-193 | the fields become those of AssignLase |
| UC2000.UC2000Controller.SetPercent | uc2000.py:224-230 | the fields become those of AssignPercent |
| UC2000.UC2000Controller.SetChecksum | uc2000.py:442-443 | the fields become those of AssignChecksum, and validity is kept |
| UC2000.UC2000Controller.Reset | uc2000.py:456-466 | the fields become those of Reset, no assignment raises, validity is kept |
| UC2000.UC2000Controller.Schedule | uc2000.py:611-615 | the interval is recorded exactly when a transport is attached |
| UC2000.UC2000Controller.Pulse | uc2000.py:609-623 | percent to MIN_LASE_PERCENT, then lase, as Settings.Pulse |
| UC2000.UC2000Controller.Shoot | uc2000.py:552-625 | the fields become those of Settings.Shoot, and validity is kept |
| UC2000.UC2000Controller.Exit | uc2000.py:144-157 | the fields and the returned flag are those of Settings.Exit, and validity is kept |

## Left out

- `float()` coercion of arbitrary objects and the ValueError it raises (uc2000.py:486-490, 539-543), and the ValueError of `int(2 * data)` on a non-number: every input of the model is already a number.
- `max_power` and `power` (uc2000.py:445-454): float estimates of optical power; no other operation uses them.
- `print` calls (uc2000.py:146, 508): output only.
- `__enter__` and the dispatch of `__exit__` by the interpreter: only the effect of `__exit__` is modelled, with the exception reduced to `ExitCause`.
- The scheduler's calls of `ops_inside` and `ops_outside` (uc2000.py:596-607) while the interval runs, `interval.start_interval` and its timing metrics: this is external timing behaviour. `intervals` records only the `add_interval` arguments, and the percent assignments those callbacks make are not in the model.
- Transport errors and ACK/NAK and status-response parsing: the source parses no response.
- Message.Encode: Python's `True == 1` key aliasing in the tables, the string repetition of `2 * "10"` and the TypeError on `None` are not modelled; values are typed (`Number`, `Text`, `Flag`, `Halves`).
- Message.Encode: a negative `Number` percent is a `Failure` here, where Python would encode a negative data byte; the controller never sends one, since the percent limit maps negatives to 0.
- Settings.Lower: `str.lower()` is modelled for ASCII letters only; other characters are kept.
- The class's setters (`SetPwmFreq` … `SetPercent`) do not themselves state that `Valid` is kept; that is stated for each assignment by the `Settings.*Assignment` lemmas, and for reset, shoot, `__exit__` and the constructor on the class.
- setup.py: packaging metadata.

## Findings

| source | as written | input that shows it | evidently intended | confidence | as-written member | corrected member |
|---|---|---|---|---|---|---|
| uc2000.py:504-505 | `_pwm_percent_limits` looks the 63 % table up under `PERCENT_TRANSFORMS`, but the module binds it as `_PERCENT_TRANSFORMS` (uc2000.py:11); every percent assignment raises NameError, including the one `reset()` makes from `__init__` | any percent, e.g. `UC2000Controller(model=25)` | look up `_PERCENT_TRANSFORMS`, so 63 % becomes 62.5 % and construction succeeds | not executed | Settings.ConstructAsWrittenSent | Settings.PwmPercentLimits |
