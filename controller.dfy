/**
  UC2000Controller (uc2000.py) as an object whose property setters update its
  fields in place.  The transport and the scheduler are reduced to two logs
  the object appends to: `sent`, the byte sequences handed to the LabJack's
  transmit, and `intervals`, the add_interval calls.  Every method is proved
  to take the object from a state to the state the matching function of the
  Settings module computes from it.
*/
module UC2000 {
  import opened Wrappers
  import opened Message
  import opened Settings

  class UC2000Controller {
    var model: int
    /** Whether open_labjack is a transport (truthy) or absent. */
    var attached: bool
    var checksum: bool
    var checksumHist: seq<bool>
    var pwmFreq: int
    var pwmFreqHist: seq<Option<int>>
    var gateLogic: string
    var gateLogicHist: seq<Option<string>>
    var maxPwm: int
    var maxPwmHist: seq<Option<int>>
    var laseOnPowerUp: bool
    var laseOnPowerUpHist: seq<Option<bool>>
    var mode: string
    var modeHist: seq<Option<string>>
    var lase: bool
    var laseHist: seq<Option<bool>>
    /** In 0.5 % steps. */
    var percent: nat
    var percentHist: seq<Option<nat>>
    var shotTimeHist: seq<real>
    var sent: seq<seq<int>>
    var intervals: seq<Interval>

    /** The object's fields as a Settings.State. */
    function Snapshot(): State
      reads this
    {
      State(model, attached, checksum, checksumHist,
            Setting(pwmFreq, pwmFreqHist), Setting(gateLogic, gateLogicHist), Setting(maxPwm, maxPwmHist),
            Setting(laseOnPowerUp, laseOnPowerUpHist), Setting(mode, modeHist), Setting(lase, laseHist),
            Setting(percent, percentHist), shotTimeHist, sent, intervals)
    }

    predicate Valid()
      reads this
    {
      Settings.Valid(Snapshot())
    }

    /** __init__: histories seeded with None, checksum on, then reset(). */
    constructor (model: int, attached: bool)
      ensures Valid()
      ensures Snapshot() == Construct(model, attached)
    {
      this.model := model;
      this.attached := attached;
      checksum, checksumHist := false, [];
      pwmFreq, pwmFreqHist := 0, [None];
      gateLogic, gateLogicHist := "", [None];
      maxPwm, maxPwmHist := 0, [None];
      laseOnPowerUp, laseOnPowerUpHist := false, [None];
      mode, modeHist := "", [None];
      lase, laseHist := false, [None];
      percent, percentHist := 0, [None];
      shotTimeHist, sent, intervals := [], [], [];
      new;
      SetChecksum(true);
      Reset();
      ConstructDefaults(model, attached);
    }

    /** Message(command, data, checksum).message_bytes handed to the transport; an encoding error is returned. */
    method Transmit(command: string, data: Data) returns (err: Option<CodecError>)
      modifies this`sent
      ensures var e := Encode(command, data, checksum);
        && sent == (if e.Success? then old(sent) + [e.value] else old(sent))
        && err == (if e.Failure? then Some(e.error) else None)
    {
      match Encode(command, data, checksum)
      case Success(bytes) =>
        sent := sent + [bytes];
        err := None;
      case Failure(e) =>
        err := Some(e);
    }

    /** Steps 3 and 4 of every setter: transmit when the entry changed and a transport is attached. */
    method Announce(changed: bool, command: string, data: Data) returns (err: Option<CodecError>)
      modifies this`sent
      ensures Snapshot() == Notify(old(Snapshot()), changed, command, data).state
      ensures err == Notify(old(Snapshot()), changed, command, data).err
    {
      err := None;
      if changed && attached {
        err := Transmit(command, data);
      }
    }

    method SetPwmFreq(freq: int) returns (err: Option<CodecError>)
      requires Seeded(Snapshot())
      modifies this
      ensures Step(Snapshot(), err) == AssignPwmFreq(old(Snapshot()), freq)
    {
      pwmFreq := freq;
      pwmFreqHist := pwmFreqHist + [Some(freq)];
      err := Announce(pwmFreqHist[|pwmFreqHist| - 2] != Some(freq), "pwm_freq", Number(freq));
    }

    method SetGateLogic(pull: string) returns (err: Option<CodecError>)
      requires Seeded(Snapshot())
      modifies this
      ensures Step(Snapshot(), err) == AssignGateLogic(old(Snapshot()), pull)
    {
      gateLogic := pull;
      gateLogicHist := gateLogicHist + [Some(pull)];
      err := Announce(gateLogicHist[|gateLogicHist| - 2] != Some(pull), "gate_logic", Text(pull));
    }

    method SetMaxPwm(per: int) returns (err: Option<CodecError>)
      requires Seeded(Snapshot())
      modifies this
      ensures Step(Snapshot(), err) == AssignMaxPwm(old(Snapshot()), per)
    {
      maxPwm := per;
      maxPwmHist := maxPwmHist + [Some(per)];
      err := Announce(maxPwmHist[|maxPwmHist| - 2] != Some(per), "max_pwm", Number(per));
    }

    /** Both values are in the table, so this setter raises nothing. */
    method SetLaseOnPowerUp(pwr: bool)
      requires Seeded(Snapshot())
      modifies this
      ensures Snapshot() == AssignLaseOnPowerUp(old(Snapshot()), pwr).state
    {
      laseOnPowerUp := pwr;
      laseOnPowerUpHist := laseOnPowerUpHist + [Some(pwr)];
      var _ := Announce(laseOnPowerUpHist[|laseOnPowerUpHist| - 2] != Some(pwr), "lase_on_power_up", Flag(pwr));
    }

    method SetMode(modeType: string) returns (err: Option<CodecError>)
      requires Seeded(Snapshot())
      modifies this
      ensures Step(Snapshot(), err) == AssignMode(old(Snapshot()), modeType)
    {
      mode := Lower(modeType);
      modeHist := modeHist + [Some(modeType)];
      err := Announce(modeHist[|modeHist| - 2] != Some(modeType), "mode", Text(modeType));
    }

    /** Both values are in the table, so this setter raises nothing. */
    method SetLase(state: bool)
      requires Seeded(Snapshot())
      modifies this
      ensures Snapshot() == AssignLase(old(Snapshot()), state).state
    {
      lase := state;
      laseHist := laseHist + [Some(state)];
      var _ := Announce(laseHist[|laseHist| - 2] != Some(state), "lase", Flag(state));
    }

    /** Every setpoint encodes, so this setter raises nothing. */
    method SetPercent(per: real)
      requires Seeded(Snapshot())
      modifies this
      ensures Snapshot() == AssignPercent(old(Snapshot()), per).state
    {
      var h := PwmPercentLimits(per, maxPwm, percent);
      percent := h;
      percentHist := percentHist + [Some(h)];
      var _ := Announce(percentHist[|percentHist| - 2] != Some(h), "percent", Halves(h));
    }

    method SetChecksum(check: bool)
      modifies this
      ensures Snapshot() == AssignChecksum(old(Snapshot()), check)
      ensures old(Valid()) ==> Valid()
    {
      checksum := check;
      checksumHist := checksumHist + [check];
    }

    /** reset(); none of its assignments raises. */
    method Reset()
      requires Seeded(Snapshot())
      modifies this
      ensures Snapshot() == Settings.Reset(old(Snapshot()))
      ensures old(Valid()) ==> Valid()
    {
      ResetRaisesNothing(Snapshot());
      ResetDefaults(Snapshot());
      var e1 := SetPwmFreq(20);
      var e2 := SetGateLogic("up");
      var e3 := SetMaxPwm(95);
      SetLaseOnPowerUp(false);
      var e5 := SetMode("manual");
      SetLase(false);
      SetPercent(0.0);
      assert e1 == e2 == e3 == e5 == None;
    }

    /** The transport's add_interval, when attached. */
    method Schedule(t: real, numShots: int)
      modifies this`intervals
      ensures Snapshot() == Settings.Schedule(old(Snapshot()), t, numShots)
    {
      if attached {
        intervals := intervals + [Interval((t * 1000.0).Floor, 2 * numShots - 1)];
      }
    }

    /** percent to MIN_LASE_PERCENT, then lase on or off. */
    method Pulse(on: bool)
      requires Seeded(Snapshot())
      modifies this
      ensures Snapshot() == Settings.Pulse(old(Snapshot()), on)
    {
      SetPercent(MinLasePercent as real);
      SetLase(on);
    }

    /** shoot(): the interval callbacks that the scheduler runs are not part of this model. */
    method Shoot(shotPercent: real, shotTime: real, numShots: int)
      requires Seeded(Snapshot())
      modifies this
      ensures Snapshot() == Settings.Shoot(old(Snapshot()), shotPercent, shotTime, numShots)
      ensures old(Valid()) ==> Valid()
    {
      if Valid() {
        ShootKeepsValid(Snapshot(), shotPercent, shotTime, numShots);
      }
      var t := ShotTimeLimits(shotTime);
      Pulse(true);
      Schedule(t, numShots);
      Pulse(false);
      shotTimeHist := shotTimeHist + Repeat(t, numShots);
    }

    /** __exit__ */
    method Exit(cause: ExitCause) returns (suppress: bool)
      requires Seeded(Snapshot())
      modifies this
      ensures (Snapshot(), suppress) == Settings.Exit(old(Snapshot()), cause)
      ensures old(Valid()) ==> Valid()
    {
      if cause == KeyboardInterrupt {
        SetPercent(0.0);
        SetLase(false);
        return false;
      }
      SetPercent(0.0);
      SetLase(false);
      return cause == NoException;
    }
  }
}
