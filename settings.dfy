/**
  The settings logic of UC2000Controller (uc2000.py), on values.

  A State is everything a controller object holds: the seven settings, each
  with its history, the checksum flag and its history, the shot-time
  history, and the two collaborators reduced to what the core does with
  them: the byte sequences handed to the LabJack transport (`sent`) and the
  intervals handed to its scheduler (`intervals`).  Each Assign function is
  one property setter, Reset is reset(), Shoot is shoot() and Exit is
  __exit__(); the class in controller.dfy runs the same steps in place and
  is proved equal to these functions.

  A percent is held as a count of 0.5 % steps (Halves), so 62.5 % is 125.
*/
module Settings {
  import opened Wrappers
  import opened Message

  /** MIN_LASE_PERCENT, in percent. */
  const MinLasePercent: nat := 2
  /** SHOT_TIME_RANGE, in milliseconds. */
  const ShotTimeMin: real := 50.0
  const ShotTimeMax: real := 10000.0

  /** _PERCENT_TRANSFORMS {63: 62.5}, in 0.5 % steps. */
  const PercentTransforms: map<nat, nat> := map[126 := 125]

  /** One call of the scheduler's add_interval(interval in microseconds, number of iterations). */
  datatype Interval = Interval(microseconds: int, iterations: int)

  /** How the with-block that __exit__ closes ended. */
  datatype ExitCause = NoException | KeyboardInterrupt | OtherException

  /** A setting's current value and the history of the entries assigned to it. */
  datatype Setting<T> = Setting(value: T, hist: seq<Option<T>>)

  datatype State = State(
    model: int,
    attached: bool,
    checksum: bool,
    checksumHist: seq<bool>,
    pwmFreq: Setting<int>,
    gateLogic: Setting<string>,
    maxPwm: Setting<int>,
    laseOnPowerUp: Setting<bool>,
    mode: Setting<string>,
    lase: Setting<bool>,
    percent: Setting<nat>,
    shotTimeHist: seq<real>,
    sent: seq<seq<int>>,
    intervals: seq<Interval>)

  /** A setter's resulting state, and the encoding error it raised after changing the state, if any. */
  datatype Step = Step(state: State, err: Option<CodecError>)

  function Last<T>(s: seq<T>): T
    requires |s| > 0
  {
    s[|s| - 1]
  }

  /** A history starts with its None seed, so hist[-2] exists after an append. */
  predicate SeededSetting<T>(x: Setting<T>)
  {
    |x.hist| > 0 && x.hist[0] == None
  }

  /** The last entry of a history is the current value. */
  predicate CurrentSetting<T(==)>(x: Setting<T>)
  {
    |x.hist| > 1 && Last(x.hist) == Some(x.value)
  }

  predicate Seeded(s: State)
  {
    && SeededSetting(s.pwmFreq) && SeededSetting(s.gateLogic) && SeededSetting(s.maxPwm)
    && SeededSetting(s.laseOnPowerUp) && SeededSetting(s.mode) && SeededSetting(s.lase)
    && SeededSetting(s.percent)
  }

  /**
    The invariant of a constructed controller: every history starts with the
    None seed and ends with the entry of the current value (for mode, the
    input whose lower-case form is the current mode), the checksum history
    ends with the current flag, and the stored percent is never 63 %.
  */
  predicate Valid(s: State)
  {
    && Seeded(s)
    && CurrentSetting(s.pwmFreq) && CurrentSetting(s.gateLogic) && CurrentSetting(s.maxPwm)
    && CurrentSetting(s.laseOnPowerUp) && CurrentSetting(s.lase) && CurrentSetting(s.percent)
    && |s.mode.hist| > 1 && Last(s.mode.hist).Some? && s.mode.value == Lower(Last(s.mode.hist).value)
    && s.percent.value != 126
    && |s.checksumHist| > 0 && Last(s.checksumHist) == s.checksum
  }

  // ---------------------------------------------------------------------
  // Value selections
  // ---------------------------------------------------------------------

  /** Python's round(): the nearest integer, a tie going to the even one. */
  function RoundHalfEven(y: real): (n: int)
    ensures -0.5 <= n as real - y <= 0.5
    ensures (n as real - y == 0.5 || y - n as real == 0.5) ==> n % 2 == 0
  {
    var f := y.Floor;
    var frac := y - f as real;
    if frac < 0.5 then f
    else if frac > 0.5 then f + 1
    else if f % 2 == 0 then f
    else f + 1
  }

  /** Those two properties pin the rounded value down: any integer that has them is round(y). */
  lemma RoundHalfEvenUnique(y: real, m: int)
    requires -0.5 <= m as real - y <= 0.5
    requires (m as real - y == 0.5 || y - m as real == 0.5) ==> m % 2 == 0
    ensures m == RoundHalfEven(y)
  {
  }

  /** The 63 % -> 62.5 % substitution. */
  function Transform(h: nat): nat
  {
    if h in PercentTransforms then PercentTransforms[h] else h
  }

  /**
    _pwm_percent_limits, in 0.5 % steps: an input above the current max_pwm
    keeps the previous percent, a negative one gives 0, any other is rounded
    to the nearest multiple of 0.5; the result then goes through the
    63 -> 62.5 table.
  */
  function PwmPercentLimits(limitPer: real, maxPwm: int, previous: nat): (h: nat)
    ensures h != 126
    ensures limitPer > maxPwm as real ==> h == Transform(previous)
    ensures limitPer <= maxPwm as real && limitPer < 0.0 ==> h == 0
    ensures 0.0 <= limitPer <= maxPwm as real ==>
      && h <= 2 * maxPwm
      && (|| -0.5 <= h as real - 2.0 * limitPer <= 0.5
          || (h == 125 && 125.5 <= 2.0 * limitPer <= 126.5))
    ensures 0.0 <= limitPer <= maxPwm as real && (2.0 * limitPer).Floor as real + 0.5 == 2.0 * limitPer ==>
      h % 2 == 0 || (h == 125 && 125.5 <= 2.0 * limitPer <= 126.5)
  {
    var setpoint: nat :=
      if limitPer > maxPwm as real then previous
      else if limitPer < 0.0 then 0
      else RoundHalfEven(2.0 * limitPer);
    Transform(setpoint)
  }

  /**
    The clauses of PwmPercentLimits for an input within [0, max_pwm] leave
    one setpoint: any m that meets them is the one the function returns.
  */
  lemma PwmPercentLimitsUnique(limitPer: real, maxPwm: int, previous: nat, m: nat)
    requires 0.0 <= limitPer <= maxPwm as real && m != 126
    requires || -0.5 <= m as real - 2.0 * limitPer <= 0.5
             || (m == 125 && 125.5 <= 2.0 * limitPer <= 126.5)
    requires (2.0 * limitPer).Floor as real + 0.5 == 2.0 * limitPer ==>
      m % 2 == 0 || (m == 125 && 125.5 <= 2.0 * limitPer <= 126.5)
    ensures m == PwmPercentLimits(limitPer, maxPwm, previous)
  {
    var y := 2.0 * limitPer;
    var n := RoundHalfEven(y);
    if m == 125 && 125.5 <= y <= 126.5 {
      assert n == 126 || (n == 125 && y == 125.5) by {
        RoundHalfEvenUnique(y, n);
      }
    } else {
      assert -0.5 <= m as real - y <= 0.5;
      RoundHalfEvenUnique(y, m);
    }
  }

  /** _shot_time_limits: a shot time outside [50, 10000] ms, above as well as below, becomes 50 ms. */
  function ShotTimeLimits(shot: real): (t: real)
    ensures ShotTimeMin <= t <= ShotTimeMax
    ensures ShotTimeMin <= shot <= ShotTimeMax ==> t == shot
    ensures !(ShotTimeMin <= shot <= ShotTimeMax) ==> t == ShotTimeMin
  {
    if shot < ShotTimeMin then ShotTimeMin
    else if shot > ShotTimeMax then ShotTimeMin
    else shot
  }

  /** str.lower() on the ASCII letters. */
  function Lower(s: string): (r: string)
    ensures |r| == |s|
    ensures forall i :: 0 <= i < |s| ==> r[i] == LowerChar(s[i])
  {
    if |s| == 0 then [] else Lower(s[..|s| - 1]) + [LowerChar(s[|s| - 1])]
  }

  function LowerChar(c: char): char
  {
    if 'A' <= c <= 'Z' then (c as int + 32) as char else c
  }

  // ---------------------------------------------------------------------
  // The setters
  // ---------------------------------------------------------------------

  /**
    Steps 1 and 2 of every setter: store `stored` and record `entry`; the
    flag says whether the entry differs from the one recorded before it.
  */
  function Put<T(==)>(x: Setting<T>, stored: T, entry: T): (r: (Setting<T>, bool))
    requires SeededSetting(x)
    ensures SeededSetting(r.0) && r.0.value == stored && r.0.hist == x.hist + [Some(entry)]
    ensures r.1 <==> Last(x.hist) != Some(entry)
  {
    var hist := x.hist + [Some(entry)];
    (Setting(stored, hist), hist[|hist| - 2] != Some(entry))
  }

  /**
    Steps 3 and 4 of every setter: when the entry changed and a transport is
    attached, the message is encoded and transmitted; an encoding failure is
    raised with the state change already made.
  */
  function Notify(s: State, changed: bool, command: string, data: Data): (r: Step)
    ensures r.state == s.(sent := r.state.sent)
    ensures |s.sent| <= |r.state.sent| <= |s.sent| + 1
    ensures !(changed && s.attached) ==> r == Step(s, None)
  {
    if changed && s.attached then
      match Encode(command, data, s.checksum)
      case Success(bytes) => Step(s.(sent := s.sent + [bytes]), None)
      case Failure(e) => Step(s, Some(e))
    else
      Step(s, None)
  }

  function AssignPwmFreq(s: State, freq: int): Step
    requires Seeded(s)
  {
    var (x, changed) := Put(s.pwmFreq, freq, freq);
    Notify(s.(pwmFreq := x), changed, "pwm_freq", Number(freq))
  }

  function AssignGateLogic(s: State, pull: string): Step
    requires Seeded(s)
  {
    var (x, changed) := Put(s.gateLogic, pull, pull);
    Notify(s.(gateLogic := x), changed, "gate_logic", Text(pull))
  }

  function AssignMaxPwm(s: State, per: int): Step
    requires Seeded(s)
  {
    var (x, changed) := Put(s.maxPwm, per, per);
    Notify(s.(maxPwm := x), changed, "max_pwm", Number(per))
  }

  function AssignLaseOnPowerUp(s: State, pwr: bool): Step
    requires Seeded(s)
  {
    var (x, changed) := Put(s.laseOnPowerUp, pwr, pwr);
    Notify(s.(laseOnPowerUp := x), changed, "lase_on_power_up", Flag(pwr))
  }

  /** The mode setter stores the lower-cased input but records, compares and encodes the input as given. */
  function AssignMode(s: State, modeType: string): Step
    requires Seeded(s)
  {
    var (x, changed) := Put(s.mode, Lower(modeType), modeType);
    Notify(s.(mode := x), changed, "mode", Text(modeType))
  }

  function AssignLase(s: State, state: bool): (r: Step)
    requires Seeded(s)
    ensures Seeded(r.state)
  {
    var (x, changed) := Put(s.lase, state, state);
    Notify(s.(lase := x), changed, "lase", Flag(state))
  }

  /** The percent setter stores and records the limited setpoint. */
  function AssignPercent(s: State, per: real): (r: Step)
    requires Seeded(s)
    ensures Seeded(r.state)
  {
    var h := PwmPercentLimits(per, s.maxPwm.value, s.percent.value);
    var (x, changed) := Put(s.percent, h, h);
    Notify(s.(percent := x), changed, "percent", Halves(h))
  }

  /** The checksum setter records the flag; it transmits nothing. */
  function AssignChecksum(s: State, check: bool): State
  {
    s.(checksum := check, checksumHist := s.checksumHist + [check])
  }

  // ---------------------------------------------------------------------
  // reset, shoot, __exit__ and construction
  // ---------------------------------------------------------------------

  /** reset(): every setting assigned its default, max_pwm before percent. */
  function Reset(s: State): State
    requires Seeded(s)
  {
    var s1 := AssignPwmFreq(s, 20).state;
    var s2 := AssignGateLogic(s1, "up").state;
    var s3 := AssignMaxPwm(s2, 95).state;
    var s4 := AssignLaseOnPowerUp(s3, false).state;
    var s5 := AssignMode(s4, "manual").state;
    var s6 := AssignLase(s5, false).state;
    AssignPercent(s6, 0.0).state
  }

  /** [x] * n */
  function Repeat<T>(x: T, n: int): (r: seq<T>)
    ensures |r| == if n < 0 then 0 else n
    ensures forall i :: 0 <= i < |r| ==> r[i] == x
  {
    if n <= 0 then [] else [x] + Repeat(x, n - 1)
  }

  /**
    shoot(): the shot time is limited, percent goes to MIN_LASE_PERCENT and
    lase on; with a transport attached the scheduler gets the interval and
    2 * num_shots - 1 iterations; then percent is set to MIN_LASE_PERCENT
    again, lase off, and the shot time is recorded num_shots times.
  */
  function Shoot(s: State, shotPercent: real, shotTime: real, numShots: int): State
    requires Seeded(s)
  {
    var t := ShotTimeLimits(shotTime);
    var s2 := Pulse(s, true);
    var s3 := Schedule(s2, t, numShots);
    var s5 := Pulse(s3, false);
    s5.(shotTimeHist := s5.shotTimeHist + Repeat(t, numShots))
  }

  /** The pair of assignments shoot() makes twice: percent to MIN_LASE_PERCENT, then lase. */
  function Pulse(s: State, on: bool): (r: State)
    requires Seeded(s)
    ensures Seeded(r)
  {
    AssignLase(AssignPercent(s, MinLasePercent as real).state, on).state
  }

  /** The interval shoot() hands the scheduler when a transport is attached: microseconds and iterations. */
  function Schedule(s: State, t: real, numShots: int): (r: State)
    ensures Seeded(s) ==> Seeded(r)
  {
    if s.attached
    then s.(intervals := s.intervals + [Interval((t * 1000.0).Floor, 2 * numShots - 1)])
    else s
  }

  /** __exit__: percent 0 and lase off on every exit; the flag returned is True when no exception occurred. */
  function Exit(s: State, cause: ExitCause): (State, bool)
    requires Seeded(s)
  {
    if cause == KeyboardInterrupt then
      var s1 := AssignPercent(s, 0.0).state;
      (AssignLase(s1, false).state, false)
    else
      var s1 := AssignPercent(s, 0.0).state;
      (AssignLase(s1, false).state, cause == NoException)
  }

  /** The object before __init__ assigns a setting: each history holds only its None seed. */
  function Fresh(model: int, attached: bool): (r: State)
    ensures Seeded(r)
  {
    State(model, attached, false, [],
          Setting(0, [None]), Setting("", [None]), Setting(0, [None]), Setting(false, [None]),
          Setting("", [None]), Setting(false, [None]), Setting(0, [None]), [], [], [])
  }

  /** __init__: checksum on, then reset(). */
  function Construct(model: int, attached: bool): State
  {
    Reset(AssignChecksum(Fresh(model, attached), true))
  }

  // ---------------------------------------------------------------------
  // The setters' laws
  // ---------------------------------------------------------------------

  /**
    pwm_freq = freq: the value is stored and recorded whatever it is; the
    SETUP message goes out exactly when a transport is attached and the
    entry differs from the previous one, and a value outside {5, 10, 20}
    raises only then, after the state change.
  */
  lemma PwmFreqAssignment(s: State, freq: int)
    requires Seeded(s)
    ensures var r := AssignPwmFreq(s, freq);
      && var due := s.attached && Last(s.pwmFreq.hist) != Some(freq);
      && r.state == s.(pwmFreq := Setting(freq, s.pwmFreq.hist + [Some(freq)]), sent := r.state.sent)
      && r.state.sent == (if due && freq in {5, 10, 20}
                          then s.sent + [Encode("pwm_freq", Number(freq), s.checksum).value] else s.sent)
      && r.err == (if due && freq !in {5, 10, 20} then Some(InvalidValue) else None)
      && (Valid(s) ==> Valid(r.state))
  {
  }

  /** gate_logic = pull, with the same law for the values "up" and "down". */
  lemma GateLogicAssignment(s: State, pull: string)
    requires Seeded(s)
    ensures var r := AssignGateLogic(s, pull);
      && var due := s.attached && Last(s.gateLogic.hist) != Some(pull);
      && r.state == s.(gateLogic := Setting(pull, s.gateLogic.hist + [Some(pull)]), sent := r.state.sent)
      && r.state.sent == (if due && pull in {"up", "down"}
                          then s.sent + [Encode("gate_logic", Text(pull), s.checksum).value] else s.sent)
      && r.err == (if due && pull !in {"up", "down"} then Some(InvalidValue) else None)
      && (Valid(s) ==> Valid(r.state))
  {
  }

  /** max_pwm = per, with the same law for the values 95 and 99; the stored percent is not re-limited. */
  lemma MaxPwmAssignment(s: State, per: int)
    requires Seeded(s)
    ensures var r := AssignMaxPwm(s, per);
      && var due := s.attached && Last(s.maxPwm.hist) != Some(per);
      && r.state == s.(maxPwm := Setting(per, s.maxPwm.hist + [Some(per)]), sent := r.state.sent)
      && r.state.sent == (if due && per in {95, 99}
                          then s.sent + [Encode("max_pwm", Number(per), s.checksum).value] else s.sent)
      && r.err == (if due && per !in {95, 99} then Some(InvalidValue) else None)
      && r.state.percent == s.percent
      && (Valid(s) ==> Valid(r.state))
  {
  }

  /** lase_on_power_up = pwr: both values are in the table, so it never raises. */
  lemma LaseOnPowerUpAssignment(s: State, pwr: bool)
    requires Seeded(s)
    ensures var r := AssignLaseOnPowerUp(s, pwr);
      && r.state == s.(laseOnPowerUp := Setting(pwr, s.laseOnPowerUp.hist + [Some(pwr)]), sent := r.state.sent)
      && r.state.sent == (if s.attached && Last(s.laseOnPowerUp.hist) != Some(pwr)
                          then s.sent + [Encode("lase_on_power_up", Flag(pwr), s.checksum).value] else s.sent)
      && r.err == None
      && (Valid(s) ==> Valid(r.state))
  {
  }

  /**
    mode = modeType: the lower-cased input is stored, the input itself is
    recorded, compared and encoded, so only the five table names in lower
    case can be sent and any other input raises when a message is due.
  */
  lemma ModeAssignment(s: State, modeType: string)
    requires Seeded(s)
    ensures var r := AssignMode(s, modeType);
      && var due := s.attached && Last(s.mode.hist) != Some(modeType);
      && var names := {"manual", "anc", "anv", "man_closed", "anv_closed"};
      && r.state == s.(mode := Setting(Lower(modeType), s.mode.hist + [Some(modeType)]), sent := r.state.sent)
      && r.state.sent == (if due && modeType in names
                          then s.sent + [Encode("mode", Text(modeType), s.checksum).value] else s.sent)
      && r.err == (if due && modeType !in names then Some(InvalidValue) else None)
      && (Valid(s) ==> Valid(r.state))
  {
  }

  /** lase = state: both values are in the table, so it never raises. */
  lemma LaseAssignment(s: State, state: bool)
    requires Seeded(s)
    ensures var r := AssignLase(s, state);
      && r.state == s.(lase := Setting(state, s.lase.hist + [Some(state)]), sent := r.state.sent)
      && r.state.sent == (if s.attached && Last(s.lase.hist) != Some(state)
                          then s.sent + [Encode("lase", Flag(state), s.checksum).value] else s.sent)
      && r.err == None
      && (Valid(s) ==> Valid(r.state))
  {
  }

  /**
    percent = per: the limited setpoint is stored and recorded, and the SET
    message carrying it goes out when it differs from the previous entry;
    every setpoint encodes, so it never raises.
  */
  lemma PercentAssignment(s: State, per: real)
    requires Seeded(s)
    ensures var r := AssignPercent(s, per);
      && var h := PwmPercentLimits(per, s.maxPwm.value, s.percent.value);
      && r.state == s.(percent := Setting(h, s.percent.hist + [Some(h)]), sent := r.state.sent)
      && r.state.sent == (if s.attached && Last(s.percent.hist) != Some(h)
                          then s.sent + [Encode("percent", Halves(h), s.checksum).value] else s.sent)
      && r.err == None
      && (Valid(s) ==> Valid(r.state))
  {
    PercentMessage(PwmPercentLimits(per, s.maxPwm.value, s.percent.value), s.checksum);
  }

  /** checksum = check changes only the flag and its history; nothing is sent. */
  lemma ChecksumAssignment(s: State, check: bool)
    ensures var r := AssignChecksum(s, check);
      && r.checksum == check && r.checksumHist == s.checksumHist + [check]
      && r.sent == s.sent
      && (Valid(s) ==> Valid(r))
  {
  }

  // ---------------------------------------------------------------------
  // reset, construction, shoot and __exit__
  // ---------------------------------------------------------------------

  /**
    reset() gives every setting its default and records one entry in each
    history; the checksum flag, the transport and the scheduler are left
    alone, at most seven messages go out, and none of the seven assignments
    raises.
  */
  lemma ResetDefaults(s: State)
    requires Seeded(s)
    ensures var r := Reset(s);
      && r.pwmFreq == Setting(20, s.pwmFreq.hist + [Some(20)])
      && r.gateLogic == Setting("up", s.gateLogic.hist + [Some("up")])
      && r.maxPwm == Setting(95, s.maxPwm.hist + [Some(95)])
      && r.laseOnPowerUp == Setting(false, s.laseOnPowerUp.hist + [Some(false)])
      && r.mode == Setting(Lower("manual"), s.mode.hist + [Some("manual")])
      && r.lase == Setting(false, s.lase.hist + [Some(false)])
      && r.percent == Setting(0, s.percent.hist + [Some(0)])
      && r.model == s.model && r.attached == s.attached && r.checksum == s.checksum
      && r.checksumHist == s.checksumHist && r.shotTimeHist == s.shotTimeHist
      && r.intervals == s.intervals
      && |s.sent| <= |r.sent| <= |s.sent| + 7
      && (|s.checksumHist| > 0 && Last(s.checksumHist) == s.checksum ==> Valid(r))
  {
    var s1 := AssignPwmFreq(s, 20);
    var s2 := AssignGateLogic(s1.state, "up");
    var s3 := AssignMaxPwm(s2.state, 95);
    var s4 := AssignLaseOnPowerUp(s3.state, false);
    var s5 := AssignMode(s4.state, "manual");
    var s6 := AssignLase(s5.state, false);
    var s7 := AssignPercent(s6.state, 0.0);
    assert s7.state.percent.value == 0 by {
      RoundHalfEvenUnique(0.0, 0);
    }
  }

  /** None of the seven assignments of reset() raises: every default is in its table. */
  lemma ResetRaisesNothing(s: State)
    requires Seeded(s)
    ensures var s1 := AssignPwmFreq(s, 20);
      && var s2 := AssignGateLogic(s1.state, "up");
      && var s3 := AssignMaxPwm(s2.state, 95);
      && var s4 := AssignLaseOnPowerUp(s3.state, false);
      && var s5 := AssignMode(s4.state, "manual");
      && var s6 := AssignLase(s5.state, false);
      && var s7 := AssignPercent(s6.state, 0.0);
      && s1.err == s2.err == s3.err == s4.err == s5.err == s6.err == s7.err == None
  {
    var s1 := AssignPwmFreq(s, 20);
    PwmFreqAssignment(s, 20);
    var s2 := AssignGateLogic(s1.state, "up");
    GateLogicAssignment(s1.state, "up");
    var s3 := AssignMaxPwm(s2.state, 95);
    MaxPwmAssignment(s2.state, 95);
    var s4 := AssignLaseOnPowerUp(s3.state, false);
    LaseOnPowerUpAssignment(s3.state, false);
    var s5 := AssignMode(s4.state, "manual");
    ModeAssignment(s4.state, "manual");
    var s6 := AssignLase(s5.state, false);
    LaseAssignment(s5.state, false);
    var s7 := AssignPercent(s6.state, 0.0);
    PercentAssignment(s6.state, 0.0);
  }

  /**
    A new controller holds the defaults, each history is the None seed and
    the default, checksum is on, and nothing has been scheduled.
  */
  lemma ConstructDefaults(model: int, attached: bool)
    ensures var r := Construct(model, attached);
      && Valid(r)
      && r.model == model && r.attached == attached && r.checksum && r.checksumHist == [true]
      && r.pwmFreq == Setting(20, [None, Some(20)])
      && r.gateLogic == Setting("up", [None, Some("up")])
      && r.maxPwm == Setting(95, [None, Some(95)])
      && r.laseOnPowerUp == Setting(false, [None, Some(false)])
      && r.mode.value == "manual" && r.mode.hist == [None, Some("manual")]
      && r.lase == Setting(false, [None, Some(false)])
      && r.percent == Setting(0, [None, Some(0)])
      && r.shotTimeHist == [] && r.intervals == []
      && |r.sent| <= 7
  {
    ResetDefaults(AssignChecksum(Fresh(model, attached), true));
    assert Lower("manual") == "manual" by {
      assert forall i :: 0 <= i < |"manual"| ==> LowerChar("manual"[i]) == "manual"[i];
    }
  }

  /** The seven messages of a new controller with a transport, checksum on, in reset()'s order. */
  const InitialMessages: seq<seq<int>> := [
    [0x5B, 0x7A, 0x85], [0x5B, 0x7A, 0x85], [0x5B, 0x7C, 0x83], [0x5B, 0x31, 0xCE],
    [0x5B, 0x70, 0x8F], [0x5B, 0x76, 0x89], [0x5B, 0x7F, 0, 0xF5]]

  /** The first three assignments of reset(), attached, from histories that hold only their seeds. */
  lemma SetupDefaultsSent(s0: State)
    requires Seeded(s0) && s0.checksum && s0.attached
    requires Last(s0.pwmFreq.hist) == None && Last(s0.gateLogic.hist) == None && Last(s0.maxPwm.hist) == None
    ensures var s3 := AssignMaxPwm(AssignGateLogic(AssignPwmFreq(s0, 20).state, "up").state, 95).state;
      && s3.sent == s0.sent + InitialMessages[..3]
  {
    DefaultSetupMessages();
    var s1 := AssignPwmFreq(s0, 20).state;
    assert s1.sent == s0.sent + [[0x5B, 0x7A, 0x85]] by {
      PwmFreqAssignment(s0, 20);
    }
    var s2 := AssignGateLogic(s1, "up").state;
    assert s2.sent == s1.sent + [[0x5B, 0x7A, 0x85]] by {
      GateLogicAssignment(s1, "up");
    }
    var s3 := AssignMaxPwm(s2, 95).state;
    assert s3.sent == s2.sent + [[0x5B, 0x7C, 0x83]] by {
      MaxPwmAssignment(s2, 95);
    }
    assert InitialMessages[..3] == [[0x5B, 0x7A, 0x85]] + [[0x5B, 0x7A, 0x85]] + [[0x5B, 0x7C, 0x83]];
  }

  /** percent = 0, attached, from a history that holds only its seed, checksum on. */
  lemma PercentZeroSent(s: State)
    requires Seeded(s) && s.checksum && s.attached && s.maxPwm.value >= 0 && Last(s.percent.hist) == None
    ensures AssignPercent(s, 0.0).state.sent == s.sent + [[0x5B, 0x7F, 0, 0xF5]]
  {
    PercentAssignment(s, 0.0);
    assert PwmPercentLimits(0.0, s.maxPwm.value, s.percent.value) == 0 by {
      RoundHalfEvenUnique(0.0, 0);
    }
    PercentZeroMessage();
  }

  /** lase_on_power_up and mode of reset(), attached, from histories that hold only their seeds. */
  lemma SwitchDefaultsSent(s3: State)
    requires Seeded(s3) && s3.checksum && s3.attached
    requires Last(s3.laseOnPowerUp.hist) == None && Last(s3.mode.hist) == None
    ensures var s5 := AssignMode(AssignLaseOnPowerUp(s3, false).state, "manual").state;
      && s5.sent == s3.sent + InitialMessages[3..5]
  {
    DefaultStateMessages();
    var s4 := AssignLaseOnPowerUp(s3, false).state;
    assert s4.sent == s3.sent + [[0x5B, 0x31, 0xCE]] by {
      LaseOnPowerUpAssignment(s3, false);
    }
    var s5 := AssignMode(s4, "manual").state;
    assert s5.sent == s4.sent + [[0x5B, 0x70, 0x8F]] by {
      ModeAssignment(s4, "manual");
    }
    assert InitialMessages[3..5] == [[0x5B, 0x31, 0xCE]] + [[0x5B, 0x70, 0x8F]];
  }

  /** lase and percent of reset(), attached, from histories that hold only their seeds. */
  lemma OutputDefaultsSent(s5: State)
    requires Seeded(s5) && s5.checksum && s5.attached && s5.maxPwm.value >= 0
    requires Last(s5.lase.hist) == None && Last(s5.percent.hist) == None
    ensures var s7 := AssignPercent(AssignLase(s5, false).state, 0.0).state;
      && s7.sent == s5.sent + InitialMessages[5..]
  {
    var s6 := AssignLase(s5, false).state;
    assert s6.sent == s5.sent + [[0x5B, 0x76, 0x89]] by {
      DefaultStateMessages();
      LaseAssignment(s5, false);
    }
    PercentZeroSent(s6);
    assert InitialMessages[5..] == [[0x5B, 0x76, 0x89]] + [[0x5B, 0x7F, 0, 0xF5]];
  }

  /**
    Every default differs from the None seed, so a new controller with a
    transport sends all seven default messages; without one it sends none.
  */
  lemma ConstructMessages(model: int, attached: bool)
    ensures Construct(model, attached).sent == if attached then InitialMessages else []
  {
    if attached {
      var s0 := AssignChecksum(Fresh(model, attached), true);
      SetupDefaultsSent(s0);
      var s3 := AssignMaxPwm(AssignGateLogic(AssignPwmFreq(s0, 20).state, "up").state, 95).state;
      SwitchDefaultsSent(s3);
      var s5 := AssignMode(AssignLaseOnPowerUp(s3, false).state, "manual").state;
      OutputDefaultsSent(s5);
      var s7 := AssignPercent(AssignLase(s5, false).state, 0.0).state;
      assert s0.sent == [];
      assert s3.sent == InitialMessages[..3];
      assert s5.sent == InitialMessages[..3] + InitialMessages[3..5];
      assert s7.sent == InitialMessages[..3] + InitialMessages[3..5] + InitialMessages[5..];
      InitialMessagesSplit();
      assert Construct(model, attached) == s7;
    } else {
      ResetDetachedSendsNothing(AssignChecksum(Fresh(model, attached), true));
    }
  }

  /** Without a transport, reset() sends nothing. */
  lemma ResetDetachedSendsNothing(s: State)
    requires Seeded(s) && !s.attached
    ensures Reset(s).sent == s.sent
  {
  }

  lemma InitialMessagesSplit()
    ensures InitialMessages == InitialMessages[..3] + InitialMessages[3..5] + InitialMessages[5..]
  {
  }

  /**
    shoot() ends with lase off and, when max_pwm allows it, percent at
    MIN_LASE_PERCENT; lase is recorded on then off, percent twice; with a
    transport the scheduler gets one interval of the limited shot time in
    microseconds and 2 * num_shots - 1 iterations; the limited shot time is
    recorded num_shots times; no other setting changes.
  */
  lemma ShootEnd(s: State, shotPercent: real, shotTime: real, numShots: int)
    requires Seeded(s)
    ensures var r := Shoot(s, shotPercent, shotTime, numShots);
      && var t := ShotTimeLimits(shotTime);
      && r.lase == Setting(false, s.lase.hist + [Some(true), Some(false)])
      && |r.percent.hist| == |s.percent.hist| + 2
      && (s.maxPwm.value >= MinLasePercent ==> r.percent.value == 2 * MinLasePercent)
      && r.shotTimeHist == s.shotTimeHist + Repeat(t, numShots)
      && r.intervals == s.intervals + (if s.attached then [Interval((t * 1000.0).Floor, 2 * numShots - 1)] else [])
      && r.pwmFreq == s.pwmFreq && r.gateLogic == s.gateLogic && r.maxPwm == s.maxPwm
      && r.laseOnPowerUp == s.laseOnPowerUp && r.mode == s.mode
      && r.checksum == s.checksum && r.checksumHist == s.checksumHist
      && r.model == s.model && r.attached == s.attached
  {
    if s.maxPwm.value >= MinLasePercent {
      RoundHalfEvenUnique(4.0, 4);
    }
  }

  /** shoot() keeps a constructed controller's invariant. */
  lemma ShootKeepsValid(s: State, shotPercent: real, shotTime: real, numShots: int)
    requires Valid(s)
    ensures Valid(Shoot(s, shotPercent, shotTime, numShots))
  {
    var t := ShotTimeLimits(shotTime);
    PulseKeepsValid(s, true);
    var s2 := Pulse(s, true);
    var s3 := Schedule(s2, t, numShots);
    PulseKeepsValid(s3, false);
  }

  /** Each assignment of a pulse keeps the invariant. */
  lemma PulseKeepsValid(s: State, on: bool)
    requires Valid(s)
    ensures Valid(Pulse(s, on))
  {
    PercentAssignment(s, MinLasePercent as real);
    LaseAssignment(AssignPercent(s, MinLasePercent as real).state, on);
  }

  /**
    With a transport, the last message of shoot() is the lase-off message;
    without one, shoot() sends nothing.
  */
  lemma ShootEndsWithLaseOff(s: State, shotPercent: real, shotTime: real, numShots: int)
    requires Seeded(s)
    ensures var r := Shoot(s, shotPercent, shotTime, numShots);
      && (s.attached ==> |r.sent| > |s.sent| && Last(r.sent) == Encode("lase", Flag(false), s.checksum).value)
      && (!s.attached ==> r.sent == s.sent)
  {
    var t := ShotTimeLimits(shotTime);
    var s1 := AssignPercent(s, MinLasePercent as real).state;
    var s2 := AssignLase(s1, true).state;
    var s3 := if s2.attached
      then s2.(intervals := s2.intervals + [Interval((t * 1000.0).Floor, 2 * numShots - 1)])
      else s2;
    var s4 := AssignPercent(s3, MinLasePercent as real).state;
    assert Last(s4.lase.hist) == Some(true);
    LaseAssignment(s4, false);
  }

  /**
    __exit__ always records percent and lase off, percent being 0 when
    max_pwm is not negative, and returns True exactly when the block raised
    nothing; a KeyboardInterrupt is not suppressed.
  */
  lemma ExitEnd(s: State, cause: ExitCause)
    requires Seeded(s)
    ensures var (r, suppress) := Exit(s, cause);
      && r.lase == Setting(false, s.lase.hist + [Some(false)])
      && |r.percent.hist| == |s.percent.hist| + 1
      && (s.maxPwm.value >= 0 ==> r.percent.value == 0)
      && (suppress <==> cause == NoException)
      && r.pwmFreq == s.pwmFreq && r.gateLogic == s.gateLogic && r.maxPwm == s.maxPwm
      && r.laseOnPowerUp == s.laseOnPowerUp && r.mode == s.mode
      && r.shotTimeHist == s.shotTimeHist && r.intervals == s.intervals
  {
    if s.maxPwm.value >= 0 {
      RoundHalfEvenUnique(0.0, 0);
    }
  }

  /** With a transport and lase on, the last message of __exit__ is the lase-off message. */
  lemma ExitEndsWithLaseOff(s: State, cause: ExitCause)
    requires Seeded(s) && s.attached && Last(s.lase.hist) != Some(false)
    ensures var r := Exit(s, cause).0;
      && |r.sent| > |s.sent| && Last(r.sent) == Encode("lase", Flag(false), s.checksum).value
  {
    var s1 := AssignPercent(s, 0.0).state;
    LaseAssignment(s1, false);
  }

  // ---------------------------------------------------------------------
  // Repeated and rejected assignments
  // ---------------------------------------------------------------------

  /**
    Assigning the same percent twice sends at most one message: the second
    assignment stores the same setpoint and is silent, even for an input
    above max_pwm or one that rounds to 63 %.
  */
  lemma {:induction false} RepeatedPercentIsSilent(s: State, per: real)
    requires Seeded(s)
    ensures var s1 := AssignPercent(s, per).state;
      && var r2 := AssignPercent(s1, per);
      && r2.state.percent.value == s1.percent.value
      && r2.state.sent == s1.sent
      && |s1.sent| <= |s.sent| + 1
  {
    var h1 := PwmPercentLimits(per, s.maxPwm.value, s.percent.value);
    var s1 := AssignPercent(s, per).state;
    PercentAssignment(s, per);
    PercentAssignment(s1, per);
    assert PwmPercentLimits(per, s1.maxPwm.value, h1) == h1 by {
      if per > s.maxPwm.value as real {
        assert h1 !in PercentTransforms;
      }
    }
  }

  /** Assigning the same mode string twice: the second assignment is silent and raises nothing. */
  lemma RepeatedModeIsSilent(s: State, modeType: string)
    requires Seeded(s)
    ensures var s1 := AssignMode(s, modeType).state;
      && var r2 := AssignMode(s1, modeType);
      && r2.state.sent == s1.sent && r2.err == None
  {
  }

  /**
    An input above max_pwm keeps the controller's percent: a new history
    entry is recorded, but nothing is sent.
  */
  lemma PercentAboveMaxIsRevert(s: State, per: real)
    requires Valid(s) && per > s.maxPwm.value as real
    ensures var r := AssignPercent(s, per).state;
      && r.percent == Setting(s.percent.value, s.percent.hist + [Some(s.percent.value)])
      && r.sent == s.sent
  {
    assert s.percent.value !in PercentTransforms;
  }

  /**
    The mode setter stores "MANUAL" as "manual" but, with a transport and a
    changed entry, encodes "MANUAL", which is not in the mode table.
  */
  lemma UpperCaseMode(s: State)
    requires Seeded(s) && s.attached && Last(s.mode.hist) != Some("MANUAL")
    ensures AssignMode(s, "MANUAL").state.mode.value == "manual"
    ensures AssignMode(s, "MANUAL").err == Some(InvalidValue)
  {
    assert Lower("MANUAL") == "manual" by {
      assert LowerChar('M') == 'm' && LowerChar('A') == 'a' && LowerChar('N') == 'n'
        && LowerChar('U') == 'u' && LowerChar('L') == 'l';
    }
  }

  /** Setpoints of the percent limits: halves round to even, 63 % becomes 62.5 %, above max_pwm the previous stays. */
  lemma PercentLimitsExamples(previous: nat)
    ensures PwmPercentLimits(63.0, 95, previous) == 125
    ensures PwmPercentLimits(10.0, 95, previous) == 20
    ensures PwmPercentLimits(10.25, 95, previous) == 20
    ensures PwmPercentLimits(10.75, 95, previous) == 22
    ensures PwmPercentLimits(-3.0, 95, previous) == 0
    ensures PwmPercentLimits(96.0, 95, 40) == 40
    ensures PwmPercentLimits(96.0, 99, 40) == 192
  {
    RoundHalfEvenUnique(126.0, 126);
    RoundHalfEvenUnique(20.0, 20);
    RoundHalfEvenUnique(20.5, 20);
    RoundHalfEvenUnique(21.5, 22);
    RoundHalfEvenUnique(192.0, 192);
  }

  // ---------------------------------------------------------------------
  // The 63 % table as written
  // ---------------------------------------------------------------------

  /** The module-level names of uc2000.py. */
  const ModuleNames: set<string> :=
    {"time", "_PERCENT_TRANSFORMS", "SHOT_TIME_RANGE", "MIN_LASE_PERCENT", "UC2000Controller",
     "_UC2000_COMMAND_BYTES", "Message"}

  datatype PythonError = NameError(name: string)

  /** An exception, with the state the object had reached when it was raised. */
  datatype Raised = Raised(error: PythonError, at: State)

  /**
    _pwm_percent_limits as written: the setpoint is chosen as in
    PwmPercentLimits, then the 63 % table is looked up under the name
    PERCENT_TRANSFORMS, which the module does not bind.
  */
  function PwmPercentLimitsAsWritten(limitPer: real, maxPwm: int, previous: nat): Result<nat, PythonError>
  {
    var setpoint: nat :=
      if limitPer > maxPwm as real then previous
      else if limitPer < 0.0 then 0
      else RoundHalfEven(2.0 * limitPer);
    if "PERCENT_TRANSFORMS" in ModuleNames then Success(Transform(setpoint))
    else Failure(NameError("PERCENT_TRANSFORMS"))
  }

  /** The percent setter as written: it raises before anything is stored. */
  function AssignPercentAsWritten(s: State, per: real): Result<Step, PythonError>
    requires Seeded(s)
  {
    match PwmPercentLimitsAsWritten(per, s.maxPwm.value, s.percent.value)
    case Failure(e) => Failure(e)
    case Success(h) =>
      var (x, changed) := Put(s.percent, h, h);
      Success(Notify(s.(percent := x), changed, "percent", Halves(h)))
  }

  /** __init__ up to reset()'s percent assignment: checksum on and reset()'s first six assignments. */
  function BeforePercent(model: int, attached: bool): (r: State)
    ensures Seeded(r)
  {
    var s0 := AssignChecksum(Fresh(model, attached), true);
    var s3 := AssignMaxPwm(AssignGateLogic(AssignPwmFreq(s0, 20).state, "up").state, 95).state;
    var s5 := AssignMode(AssignLaseOnPowerUp(s3, false).state, "manual").state;
    AssignLase(s5, false).state
  }

  /**
    __init__ as written: reset() reaches the percent assignment, which
    raises; the six assignments before it have been made, and their messages
    sent, by then.
  */
  function ConstructAsWritten(model: int, attached: bool): Result<State, Raised>
  {
    var s6 := BeforePercent(model, attached);
    match AssignPercentAsWritten(s6, 0.0)
    case Failure(e) => Failure(Raised(e, s6))
    case Success(r) => Success(r.state)
  }

  /**
    As written, every percent assignment raises NameError, whatever the
    input, and so does every construction; with the table's own name, every
    input gives a setpoint and construction yields a valid controller.
  */
  lemma AsWrittenPercentAlwaysRaises(s: State, per: real, model: int, attached: bool)
    requires Seeded(s)
    ensures AssignPercentAsWritten(s, per) == Failure(NameError("PERCENT_TRANSFORMS"))
    ensures ConstructAsWritten(model, attached).Failure?
    ensures ConstructAsWritten(model, attached).error.error == NameError("PERCENT_TRANSFORMS")
    ensures AssignPercent(s, per).err == None
    ensures Valid(Construct(model, attached))
  {
    assert "PERCENT_TRANSFORMS" !in ModuleNames;
    PercentAssignment(s, per);
    ConstructDefaults(model, attached);
  }

  /**
    As written, a new controller with a transport has sent the six messages
    before the percent one when the NameError is raised: the device gets its
    setup, mode and lase defaults but no percent setpoint.
  */
  lemma ConstructAsWrittenSent(model: int, attached: bool)
    ensures ConstructAsWritten(model, attached) == Failure(Raised(NameError("PERCENT_TRANSFORMS"), BeforePercent(model, attached)))
    ensures BeforePercent(model, attached).sent == if attached then InitialMessages[..6] else []
  {
    assert "PERCENT_TRANSFORMS" !in ModuleNames;
    BeforePercentSent(model, attached);
  }

  lemma BeforePercentSent(model: int, attached: bool)
    ensures BeforePercent(model, attached).sent == if attached then InitialMessages[..6] else []
  {
    var s0 := AssignChecksum(Fresh(model, attached), true);
    var s3 := AssignMaxPwm(AssignGateLogic(AssignPwmFreq(s0, 20).state, "up").state, 95).state;
    var s5 := AssignMode(AssignLaseOnPowerUp(s3, false).state, "manual").state;
    if attached {
      SetupDefaultsSent(s0);
      SwitchDefaultsSent(s3);
      assert AssignLase(s5, false).state.sent == s5.sent + [[0x5B, 0x76, 0x89]] by {
        DefaultStateMessages();
        LaseAssignment(s5, false);
      }
      assert InitialMessages[..6] == InitialMessages[..3] + InitialMessages[3..5] + [[0x5B, 0x76, 0x89]];
    } else {
      LaseAssignment(s5, false);
    }
  }
}
