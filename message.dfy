/**
  The REMOTE message encoder: Message.message_bytes in Message.py, and the
  identical Message class with its table _UC2000_COMMAND_BYTES in uc2000.py.
  A message is a command name, a data value and the checksum flag; its bytes
  take one of three layouts:

    table commands   [START, command byte] (+ [~command byte & 0xFF])
    percent          [START, SET_PERCENT, 2 * percent] (+ [~add_no_carry(SET_PERCENT, percent) & 0xFF])
    status request   [STATUS_REQUEST]

  The encoder is total: an unknown command name and a value missing from a
  command's table are Failure results, where the source raises.
*/
module Message {
  import opened Wrappers
  import Helpers

  const StartByte: int := 0x5B
  const StatusRequestByte: int := 0x7E
  const SetPercentByte: int := 0x7F

  /**
    The data of a message.  Python passes ints, strings and bools; a percent
    is carried as Halves(h), a count of 0.5 % steps, so that h / 2 is the
    percent (h even) or the percent minus one half (h odd).
  */
  datatype Data = Number(n: int) | Text(s: string) | Flag(b: bool) | Halves(h: nat)

  /** The two ways an encoding can fail (both a ValueError or KeyError in the source). */
  datatype CodecError = UnknownCommand | InvalidValue

  /** The command -> value -> command byte table. */
  const CommandBytes: map<string, map<Data, int>> := map[
    "pwm_freq" := map[Number(5) := 0x77, Number(10) := 0x78, Number(20) := 0x7A],
    "gate_logic" := map[Text("up") := 0x7A, Text("down") := 0x7B],
    "max_pwm" := map[Number(95) := 0x7C, Number(99) := 0x7D],
    "lase_on_power_up" := map[Flag(true) := 0x30, Flag(false) := 0x31],
    "mode" := map[Text("manual") := 0x70, Text("anc") := 0x71, Text("anv") := 0x72,
                  Text("man_closed") := 0x73, Text("anv_closed") := 0x74],
    "lase" := map[Flag(true) := 0x75, Flag(false) := 0x76]
  ]

  /** ~b & 0xFF: the one's complement of b, masked to one byte. */
  function OnesComplement(b: int): (c: int)
    ensures 0 <= c < 256
    ensures 0 <= b < 256 ==> c == 255 - b
  {
    (-b - 1) % 256
  }

  /**
    The percent a message carries, in 0.5 % steps, when int(2 * data) is
    defined for it.  Strings and bools are rejected here (Python would
    repeat the string or count the bool as 0 or 1), and so are negative
    numbers, which no caller sends.
  */
  function PercentHalves(data: Data): Option<nat>
  {
    match data
    case Halves(h) => Some(h)
    case Number(n) => if n >= 0 then Some(2 * n) else None
    case _ => None
  }

  /** message_bytes. */
  function Encode(command: string, data: Data, checksum: bool): Result<seq<int>, CodecError>
  {
    if command in CommandBytes then
      var table := CommandBytes[command];
      if data in table then
        var commandByte := table[data];
        Success([StartByte, commandByte] + if checksum then [OnesComplement(commandByte)] else [])
      else
        Failure(InvalidValue)
    else if command == "percent" then
      match PercentHalves(data)
      case None => Failure(InvalidValue)
      case Some(h) =>
        // the data byte is the doubled percent; the checksum adds the undoubled
        // percent, whose float digits are those of its integer part h / 2
        var sum := Helpers.AddNoCarry([SetPercentByte, h / 2]);
        Success([StartByte, SetPercentByte, h] + if checksum then [OnesComplement(sum)] else [])
    else if command == "status_request" then
      Success([StatusRequestByte])
    else
      Failure(UnknownCommand)
  }

  // ---------------------------------------------------------------------
  // The three layouts
  // ---------------------------------------------------------------------

  /**
    A table command's message is the start byte and the command byte, then,
    with checksum on, the byte that adds up with the command byte to 0xFF.
  */
  lemma TableMessage(command: string, data: Data, checksum: bool)
    requires command in CommandBytes && data in CommandBytes[command]
    ensures var b := CommandBytes[command][data];
      && 0 <= b < 256
      && Encode(command, data, checksum).Success?
      && var m := Encode(command, data, checksum).value;
      && |m| == (if checksum then 3 else 2)
      && m[0] == StartByte && m[1] == b
      && (checksum ==> m[2] == 255 - b && m[1] + m[2] == 0xFF)
  {
    TableBytesAreBytes(command, data);
  }

  lemma TableBytesAreBytes(command: string, data: Data)
    requires command in CommandBytes && data in CommandBytes[command]
    ensures 0x30 <= CommandBytes[command][data] <= 0x7D
  {
  }

  /**
    A percent message carries the doubled percent as its data byte and, with
    checksum on, the one's complement of add_no_carry(0x7F, percent), the
    percent being undoubled.  For a data byte below 256 every byte is a byte.
  */
  lemma PercentMessage(h: nat, checksum: bool)
    ensures Encode("percent", Halves(h), checksum).Success?
    ensures var m := Encode("percent", Halves(h), checksum).value;
      && |m| == (if checksum then 4 else 3)
      && m[..3] == [StartByte, SetPercentByte, h]
      && (checksum ==> m[3] == OnesComplement(Helpers.AddNoCarry([SetPercentByte, h / 2])))
      && (h < 256 ==> forall i :: 0 <= i < |m| ==> 0 <= m[i] < 256)
      && (h < 256 && checksum ==> m[3] + Helpers.AddNoCarry([SetPercentByte, h / 2]) == 0xFF)
  {
    assert "percent" !in CommandBytes;
    var sum := Helpers.AddNoCarry([SetPercentByte, h / 2]);
    if h < 256 {
      Helpers.AddNoCarryBounds([SetPercentByte, h / 2]);
      Helpers.TwoOperands(SetPercentByte, h / 2, 1);
      assert Helpers.NumDigits(h / 2) <= 3 by {
        assert h / 2 < 1000;
        NumDigitsBelow(h / 2, 3);
      }
    }
  }

  lemma {:induction false} NumDigitsBelow(x: nat, d: nat)
    requires d >= 1 && x < Helpers.Pow10(d)
    ensures Helpers.NumDigits(x) <= d
  {
    if x >= 10 {
      assert d >= 2;
      assert Helpers.Pow10(d) == 10 * Helpers.Pow10(d - 1);
      NumDigitsBelow(x / 10, d - 1);
    }
  }

  /** A status request is the single status byte, whatever the data and the checksum flag. */
  lemma StatusRequestMessage(data: Data, checksum: bool)
    ensures Encode("status_request", data, checksum) == Success([StatusRequestByte])
  {
    assert "status_request" !in CommandBytes;
  }

  /** The length of every message: 2 or 3 for table commands, 3 or 4 for percent, 1 for a status request. */
  lemma MessageLength(command: string, data: Data, checksum: bool)
    requires Encode(command, data, checksum).Success?
    ensures |Encode(command, data, checksum).value| ==
      if command == "status_request" then 1
      else if command == "percent" then (if checksum then 4 else 3)
      else (if checksum then 3 else 2)
  {
    assert "percent" !in CommandBytes && "status_request" !in CommandBytes;
  }

  // ---------------------------------------------------------------------
  // Errors
  // ---------------------------------------------------------------------

  /** The eight commands the encoder knows. */
  const Commands: set<string> := CommandBytes.Keys + {"percent", "status_request"}

  /** Exactly the command names outside the eight raise "not recognised". */
  lemma UnknownCommandIff(command: string, data: Data, checksum: bool)
    ensures Encode(command, data, checksum) == Failure(UnknownCommand) <==> command !in Commands
  {
  }

  /** A table command fails exactly for a value its table lacks. */
  lemma InvalidTableValueIff(command: string, data: Data, checksum: bool)
    requires command in CommandBytes
    ensures Encode(command, data, checksum) == Failure(InvalidValue) <==> data !in CommandBytes[command]
  {
  }

  /** A percent fails exactly when it is not a non-negative number. */
  lemma InvalidPercentIff(data: Data, checksum: bool)
    ensures Encode("percent", data, checksum) == Failure(InvalidValue) <==> !(data.Halves? || (data.Number? && data.n >= 0))
  {
    assert "percent" !in CommandBytes;
  }

  // ---------------------------------------------------------------------
  // The table
  // ---------------------------------------------------------------------

  /** Within one command, distinct values have distinct command bytes. */
  lemma TableInjective(command: string, v: Data, w: Data)
    requires command in CommandBytes && v in CommandBytes[command] && w in CommandBytes[command]
    requires CommandBytes[command][v] == CommandBytes[command][w]
    ensures v == w
  {
  }

  /** Across commands bytes may repeat: pwm_freq 20 and gate_logic "up" share 0x7A. */
  lemma CrossCommandCollision()
    ensures Encode("pwm_freq", Number(20), false) == Encode("gate_logic", Text("up"), false) == Success([0x5B, 0x7A])
  {
    assert CommandBytes["pwm_freq"][Number(20)] == CommandBytes["gate_logic"][Text("up")] == 0x7A;
    assert [StartByte, 0x7A] + [] == [0x5B, 0x7A];
  }

  // ---------------------------------------------------------------------
  // Worked examples
  // ---------------------------------------------------------------------

  lemma LaseExamples()
    ensures Encode("lase", Flag(true), false) == Success([0x5B, 0x75])
    ensures Encode("lase", Flag(true), true) == Success([0x5B, 0x75, 0x8A])
  {
    assert CommandBytes["lase"][Flag(true)] == 0x75;
    assert [StartByte, 0x75] + [] == [0x5B, 0x75];
    assert [StartByte, 0x75] + [OnesComplement(0x75)] == [0x5B, 0x75, 0x8A];
  }

  lemma PercentExamples()
    ensures Encode("percent", Number(10), false) == Success([0x5B, 0x7F, 20])
    ensures Encode("percent", Number(10), true) == Success([0x5B, 0x7F, 20, 0xF4])
    ensures Encode("percent", Halves(20), true) == Success([0x5B, 0x7F, 20, 0xF4])
  {
    Helpers.SetPercentSumTen();
    assert "percent" !in CommandBytes;
    assert [StartByte, SetPercentByte, 20] + [] == [0x5B, 0x7F, 20];
    assert [StartByte, SetPercentByte, 20] + [OnesComplement(11)] == [0x5B, 0x7F, 20, 0xF4];
  }

  /** The messages of the controller's default settings, with checksum on. */
  lemma DefaultSetupMessages()
    ensures Encode("pwm_freq", Number(20), true) == Success([0x5B, 0x7A, 0x85])
    ensures Encode("gate_logic", Text("up"), true) == Success([0x5B, 0x7A, 0x85])
    ensures Encode("max_pwm", Number(95), true) == Success([0x5B, 0x7C, 0x83])
  {
    assert [StartByte, 0x7A] + [OnesComplement(0x7A)] == [0x5B, 0x7A, 0x85];
    assert [StartByte, 0x7C] + [OnesComplement(0x7C)] == [0x5B, 0x7C, 0x83];
  }

  lemma DefaultStateMessages()
    ensures Encode("lase_on_power_up", Flag(false), true) == Success([0x5B, 0x31, 0xCE])
    ensures Encode("mode", Text("manual"), true) == Success([0x5B, 0x70, 0x8F])
    ensures Encode("lase", Flag(false), true) == Success([0x5B, 0x76, 0x89])
  {
    assert [StartByte, 0x31] + [OnesComplement(0x31)] == [0x5B, 0x31, 0xCE];
    assert [StartByte, 0x70] + [OnesComplement(0x70)] == [0x5B, 0x70, 0x8F];
    assert [StartByte, 0x76] + [OnesComplement(0x76)] == [0x5B, 0x76, 0x89];
  }

  /** The percent messages of 0 % and 2 %, with checksum on. */
  lemma PercentZeroMessage()
    ensures Encode("percent", Halves(0), true) == Success([0x5B, 0x7F, 0, 0xF5])
  {
    Helpers.SetPercentSumZero();
    assert "percent" !in CommandBytes;
    assert [StartByte, SetPercentByte, 0] + [OnesComplement(10)] == [0x5B, 0x7F, 0, 0xF5];
  }

  lemma PercentTwoMessage()
    ensures Encode("percent", Halves(4), true) == Success([0x5B, 0x7F, 4, 0xF3])
  {
    Helpers.SetPercentSumTwo();
    assert "percent" !in CommandBytes;
    assert [StartByte, SetPercentByte, 4] + [OnesComplement(12)] == [0x5B, 0x7F, 4, 0xF3];
  }

  lemma ErrorExamples()
    ensures Encode("mode", Text("bogus"), true) == Failure(InvalidValue)
    ensures Encode("max_pwm", Number(97), false) == Failure(InvalidValue)
    ensures Encode("power", Number(1), false) == Failure(UnknownCommand)
  {
  }
}
