/** The parsers for the motherboard firmware's serial replies
    (Extract_firmware_data.py).  The serial transport is not modelled: every
    parser receives the reply that `send_command` would have returned, or
    None when the port failed.

    Each parser's loop is specified in two layers: a classification of one
    line, which holds all the string handling, and a scan over the
    classified lines, about which the properties are proved. */
module Firmware {
  import opened Base
  import opened Text

  /** `if response and response.strip()`: a reply with some non-blank text. */
  predicate Answered(response: Option<string>) {
    response.Some? && Strip(response.value) != []
  }

  // ---------------------------------------------------------------------
  // Commands, matched case-insensitively

  predicate IsCo2Command(command: string) { Upper(command) == "CO2" }

  predicate IsBmeCommand(command: string) { Upper(command) == "BME" }

  predicate IsServoCommand(command: string) {
    Upper(command) == "SERVO1" || Upper(command) == "SERVO2"
  }

  predicate IsSwitchCommand(command: string) {
    Upper(command) in ["LS1", "LS2", "LS3", "LS4"]
  }

  predicate IsBoardCommand(command: string) { Lower(command) == "sensor board" }

  // ---------------------------------------------------------------------
  // CO2 reply

  /** What `read_co2_data` returns: the individual values and the average. */
  datatype Co2Reading = Co2Reading(values: seq<real>, average: Option<real>)

  /** How the loop body treats one line: a value line with its number (None
      when `float` fails), an average line with its number, an average line
      without "CO2 Average:" (its second piece raises IndexError), or a line
      it ignores.  A line holding "CO2 Value:" is a value line even when it
      also mentions the average. */
  datatype Co2Line = ValueLine(value: Option<real>) | AverageLine(average: Option<real>) | BrokenAverage | OtherLine

  function Co2LineOf(line: string): Co2Line {
    if Contains(line, "CO2 Value:") then ValueLine(ParseDecimal(Strip(Split(line, "CO2 Value:")[1])))
    else if Contains(line, "CO2 Average") then
      var parts := Split(line, "CO2 Average:");
      if |parts| < 2 then BrokenAverage else AverageLine(ParseDecimal(Strip(parts[1])))
    else OtherLine
  }

  function Co2Lines(lines: seq<string>): seq<Co2Line> {
    seq(|lines|, i requires 0 <= i < |lines| => Co2LineOf(lines[i]))
  }

  /** The state of the loop: the values so far, the last average read, and
      whether a broken average line has ended the parse. */
  datatype Co2Scan = Co2Scan(values: seq<real>, average: Option<real>, broken: bool)

  function Co2Step(s: Co2Scan, line: Co2Line): Co2Scan {
    match line
    case ValueLine(v) => if v.Some? then s.(values := s.values + [v.value]) else s
    case AverageLine(a) => if a.Some? then s.(average := a) else s
    case BrokenAverage => s.(broken := true)
    case OtherLine => s
  }

  /** The loop over the lines, stopping at the first broken average line. */
  function ScanCo2(ls: seq<Co2Line>): Co2Scan
    decreases |ls|
  {
    if ls == [] then Co2Scan([], None, false)
    else
      var s := ScanCo2(ls[..|ls| - 1]);
      if s.broken then s else Co2Step(s, ls[|ls| - 1])
  }

  /** What the parser returns once the loop is over. */
  function Co2Result(s: Co2Scan): Option<Co2Reading> {
    if s.broken || s.values == [] then None else Some(Co2Reading(s.values, s.average))
  }

  /** Reference: the numbers of the value lines that parse, in reply order. */
  function Co2Values(ls: seq<Co2Line>): seq<real>
    decreases |ls|
  {
    if ls == [] then []
    else
      var l := ls[|ls| - 1];
      Co2Values(ls[..|ls| - 1]) + (if l.ValueLine? && l.value.Some? then [l.value.value] else [])
  }

  /** Reference: the last average line that parses, searched from the end. */
  function LastAverage(ls: seq<Co2Line>): Option<real>
    decreases |ls|
  {
    if ls == [] then None
    else
      var l := ls[|ls| - 1];
      if l.AverageLine? && l.average.Some? then l.average else LastAverage(ls[..|ls| - 1])
  }

  /** One more line of the scan. */
  lemma {:induction false} Co2ScanSnoc(ls: seq<Co2Line>, l: Co2Line)
    ensures ScanCo2(ls + [l]) == if ScanCo2(ls).broken then ScanCo2(ls) else Co2Step(ScanCo2(ls), l)
  {
    assert (ls + [l])[..|ls|] == ls;
  }

  /** A scan that has broken stays as it was for the rest of the reply. */
  lemma {:induction false} Co2BrokenStays(ls: seq<Co2Line>, i: nat)
    requires i <= |ls| && ScanCo2(ls[..i]).broken
    ensures ScanCo2(ls) == ScanCo2(ls[..i])
    decreases |ls| - i
  {
    if i < |ls| {
      var init := ls[..|ls| - 1];
      assert init[..i] == ls[..i];
      Co2BrokenStays(init, i);
    } else {
      assert ls[..i] == ls;
    }
  }

  /** Until a broken average line, the scan holds exactly the parseable
      values, in order. */
  lemma {:induction false} Co2ScanValues(ls: seq<Co2Line>)
    requires !ScanCo2(ls).broken
    ensures ScanCo2(ls).values == Co2Values(ls)
    decreases |ls|
  {
    if ls != [] {
      Co2ScanValues(ls[..|ls| - 1]);
    }
  }

  /** Until a broken average line, the scan holds the last parseable average. */
  lemma {:induction false} Co2ScanAverage(ls: seq<Co2Line>)
    requires !ScanCo2(ls).broken
    ensures ScanCo2(ls).average == LastAverage(ls)
    decreases |ls|
  {
    if ls != [] {
      Co2ScanAverage(ls[..|ls| - 1]);
    }
  }

  /** The parse breaks exactly when some line is a broken average line. */
  lemma {:induction false} Co2BrokenIff(ls: seq<Co2Line>)
    ensures ScanCo2(ls).broken <==> exists i :: 0 <= i < |ls| && ls[i].BrokenAverage?
    decreases |ls|
  {
    if ls != [] {
      var init := ls[..|ls| - 1];
      Co2BrokenIff(init);
      if ScanCo2(ls).broken {
        if !ScanCo2(init).broken {
          assert ls[|ls| - 1].BrokenAverage?;
        } else {
          var i :| 0 <= i < |init| && init[i].BrokenAverage?;
          assert ls[i] == init[i];
        }
      } else {
        forall i | 0 <= i < |ls| ensures !ls[i].BrokenAverage? {
          if i < |init| {
            assert ls[i] == init[i];
          }
        }
      }
    }
  }

  /** The CO2 result in terms of the reference definitions: None when an
      average line is broken or no value parses, otherwise the values in
      order with the last parseable average. */
  lemma {:induction false} Co2ResultMeans(ls: seq<Co2Line>)
    ensures Co2Result(ScanCo2(ls)) ==
      if (exists i :: 0 <= i < |ls| && ls[i].BrokenAverage?) || Co2Values(ls) == [] then None
      else Some(Co2Reading(Co2Values(ls), LastAverage(ls)))
  {
    Co2BrokenIff(ls);
    if !ScanCo2(ls).broken {
      Co2ScanValues(ls);
      Co2ScanAverage(ls);
    }
  }

  // ---------------------------------------------------------------------
  // BME reply

  /** What `read_BME_data` returns: both lists and both rounded averages. */
  datatype BmeReading = BmeReading(temperatures: seq<real>, humidities: seq<real>, temperature: real, humidity: real)

  /** A line holding "Reading:", "Temperature:" and "Humidity:", with the
      number between "Temperature:" and "Humidity:" and the one after
      "Humidity:"; an IndexError or ValueError becomes None. */
  datatype ReadingPart = NoReading | Reading(temperature: Option<real>, humidity: Option<real>)

  /** An average line and the number after "readings:". */
  datatype AveragePart = NoAverage | TemperatureAverage(value: Option<real>) | HumidityAverage(value: Option<real>)

  datatype BmeLine = BmeLine(reading: ReadingPart, average: AveragePart)

  /** The number after "readings:"; the IndexError and ValueError are caught. */
  function AfterReadings(line: string): Option<real> {
    var parts := Split(line, "readings:");
    if |parts| < 2 then None else ParseDecimal(Strip(parts[1]))
  }

  function BmeLineOf(line: string): BmeLine {
    var reading :=
      if Contains(line, "Reading:") && Contains(line, "Temperature:") && Contains(line, "Humidity:") then
        var tp, hp := Split(line, "Temperature:"), Split(line, "Humidity:");
        Reading(ParseDecimal(Strip(Split(tp[1], "Humidity:")[0])), ParseDecimal(Strip(hp[1])))
      else NoReading;
    var average :=
      if Contains(line, "Average Temperature of 30 readings:") then TemperatureAverage(AfterReadings(line))
      else if Contains(line, "Average Humidity of 30 readings:") then HumidityAverage(AfterReadings(line))
      else NoAverage;
    BmeLine(reading, average)
  }

  function BmeLines(lines: seq<string>): seq<BmeLine> {
    seq(|lines|, i requires 0 <= i < |lines| => BmeLineOf(lines[i]))
  }

  datatype BmeScan = BmeScan(temperatures: seq<real>, humidities: seq<real>, avgTemp: Option<real>, avgHum: Option<real>)

  /** The temperature is appended before the humidity is parsed; the average
      checks follow. */
  function BmeStep(s: BmeScan, l: BmeLine): BmeScan {
    var s1 :=
      match l.reading
      case NoReading => s
      case Reading(t, h) =>
        if t.None? then s
        else if h.None? then s.(temperatures := s.temperatures + [t.value])
        else s.(temperatures := s.temperatures + [t.value], humidities := s.humidities + [h.value]);
    match l.average
    case NoAverage => s1
    case TemperatureAverage(v) => if v.Some? then s1.(avgTemp := v) else s1
    case HumidityAverage(v) => if v.Some? then s1.(avgHum := v) else s1
  }

  function ScanBme(ls: seq<BmeLine>): BmeScan
    decreases |ls|
  {
    if ls == [] then BmeScan([], [], None, None)
    else BmeStep(ScanBme(ls[..|ls| - 1]), ls[|ls| - 1])
  }

  lemma {:induction false} ScanBmeSnoc(ls: seq<BmeLine>, l: BmeLine)
    ensures ScanBme(ls + [l]) == BmeStep(ScanBme(ls), l)
  {
    assert (ls + [l])[..|ls|] == ls;
  }

  /** The result: both lists non-empty and both averages found. */
  function BmeResult(s: BmeScan): Option<BmeReading> {
    if s.temperatures != [] && s.humidities != [] && s.avgTemp.Some? && s.avgHum.Some? then
      Some(BmeReading(s.temperatures, s.humidities, Round2(s.avgTemp.value), Round2(s.avgHum.value)))
    else None
  }

  /** The temperature a line contributes, if any. */
  function LineTemperature(l: BmeLine): seq<real> {
    if l.reading.Reading? && l.reading.temperature.Some? then [l.reading.temperature.value] else []
  }

  /** The humidity a line contributes: only when its temperature parsed too. */
  function LineHumidity(l: BmeLine): seq<real> {
    if l.reading.Reading? && l.reading.temperature.Some? && l.reading.humidity.Some?
    then [l.reading.humidity.value] else []
  }

  /** Reference: the temperatures of the reading lines, in order. */
  function Temperatures(ls: seq<BmeLine>): seq<real>
    decreases |ls|
  {
    if ls == [] then [] else Temperatures(ls[..|ls| - 1]) + LineTemperature(ls[|ls| - 1])
  }

  /** Reference: the humidities of the reading lines, in order. */
  function Humidities(ls: seq<BmeLine>): seq<real>
    decreases |ls|
  {
    if ls == [] then [] else Humidities(ls[..|ls| - 1]) + LineHumidity(ls[|ls| - 1])
  }

  /** The reading lines whose temperature parses but whose humidity does not. */
  function HalfReadings(ls: seq<BmeLine>): nat
    decreases |ls|
  {
    if ls == [] then 0
    else
      var r := ls[|ls| - 1].reading;
      HalfReadings(ls[..|ls| - 1]) + (if r.Reading? && r.temperature.Some? && r.humidity.None? then 1 else 0)
  }

  /** Reference: the last parseable average-temperature line. */
  function LastAvgTemp(ls: seq<BmeLine>): Option<real>
    decreases |ls|
  {
    if ls == [] then None
    else
      var a := ls[|ls| - 1].average;
      if a.TemperatureAverage? && a.value.Some? then a.value else LastAvgTemp(ls[..|ls| - 1])
  }

  /** Reference: the last parseable average-humidity line. */
  function LastAvgHum(ls: seq<BmeLine>): Option<real>
    decreases |ls|
  {
    if ls == [] then None
    else
      var a := ls[|ls| - 1].average;
      if a.HumidityAverage? && a.value.Some? then a.value else LastAvgHum(ls[..|ls| - 1])
  }

  /** The scan holds the reference lists. */
  lemma {:induction false} BmeScanLists(ls: seq<BmeLine>)
    ensures ScanBme(ls).temperatures == Temperatures(ls)
    ensures ScanBme(ls).humidities == Humidities(ls)
    decreases |ls|
  {
    if ls != [] {
      BmeScanLists(ls[..|ls| - 1]);
    }
  }

  /** The scan holds the last parseable average of each kind. */
  lemma {:induction false} BmeScanAverages(ls: seq<BmeLine>)
    ensures ScanBme(ls).avgTemp == LastAvgTemp(ls)
    ensures ScanBme(ls).avgHum == LastAvgHum(ls)
    decreases |ls|
  {
    if ls != [] {
      BmeScanAverages(ls[..|ls| - 1]);
    }
  }

  /** The two lists differ in length by the number of reading lines whose
      humidity failed to parse after their temperature had been appended. */
  lemma {:induction false} BmeListsUnequal(ls: seq<BmeLine>)
    ensures |Temperatures(ls)| == |Humidities(ls)| + HalfReadings(ls)
    decreases |ls|
  {
    if ls != [] {
      BmeListsUnequal(ls[..|ls| - 1]);
    }
  }

  /** Python's `round(x, 2)` on the exact value: to the nearest hundredth,
      ties to the even hundredth. */
  function RoundHalfEven(x: real): (n: int)
    ensures -0.5 <= n as real - x <= 0.5
    ensures n as real - x == 0.5 || x - n as real == 0.5 ==> n % 2 == 0
  {
    var f := x.Floor;
    var d := x - f as real;
    if d < 0.5 then f
    else if d > 0.5 then f + 1
    else if f % 2 == 0 then f
    else f + 1
  }

  function Round2(x: real): (r: real)
    ensures -0.005 <= r - x <= 0.005
    ensures (r * 100.0).Floor as real == r * 100.0
    ensures r - x == 0.005 || x - r == 0.005 ==> (r * 100.0).Floor % 2 == 0
  {
    var n := RoundHalfEven(x * 100.0);
    var r := n as real / 100.0;
    assert r * 100.0 == n as real && (r * 100.0).Floor == n;
    assert r - x == (n as real - x * 100.0) / 100.0;
    r
  }

  // ---------------------------------------------------------------------
  // Servo reply

  predicate IsServoLine(line: string) { Contains(line, "Servo moved to angle") }

  /** The number after the last "angle:". */
  function AngleOf(line: string): Option<real> {
    var parts := Split(line, "angle:");
    ParseDecimal(Strip(parts[|parts| - 1]))
  }

  /** The reversed scan: the first servo line from the end decides. */
  function ServoAngle(lines: seq<string>): Option<real>
    decreases |lines|
  {
    if lines == [] then None
    else if IsServoLine(lines[|lines| - 1]) then AngleOf(lines[|lines| - 1])
    else ServoAngle(lines[..|lines| - 1])
  }

  /** The angle is read from the last servo line, whether or not it parses. */
  lemma {:induction false} ServoUsesLastMarkedLine(lines: seq<string>, i: nat)
    requires i < |lines| && IsServoLine(lines[i])
    requires forall j :: i < j < |lines| ==> !IsServoLine(lines[j])
    ensures ServoAngle(lines) == AngleOf(lines[i])
    decreases |lines|
  {
    if i < |lines| - 1 {
      var init := lines[..|lines| - 1];
      assert init[i] == lines[i];
      ServoUsesLastMarkedLine(init, i);
    }
  }

  /** Without a servo line there is no angle. */
  lemma {:induction false} ServoNoMarker(lines: seq<string>)
    requires forall j :: 0 <= j < |lines| ==> !IsServoLine(lines[j])
    ensures ServoAngle(lines).None?
    decreases |lines|
  {
    if lines != [] {
      var init := lines[..|lines| - 1];
      assert forall j :: 0 <= j < |init| ==> init[j] == lines[j];
      ServoNoMarker(init);
    }
  }

  // ---------------------------------------------------------------------
  // Limit switch replies

  /** `(attempts, count)` on a normal return. */
  datatype SwitchCount = SwitchCount(attempts: nat, count: nat)

  const MaxAttempts: nat := 10
  const WantedChanges: nat := 3

  /** The state in the last line of a reply; None for no reply, an empty reply
      or a last line that is not an integer. */
  function SwitchState(reply: Option<string>): Option<int> {
    if reply.None? || reply.value == [] then None
    else
      var lines := SplitLines(reply.value);
      ParseInt(Strip(lines[|lines| - 1]))
  }

  /** The states read by successive requests. */
  function SwitchStates(replies: nat -> Option<string>): nat -> Option<int> {
    (k: nat) => SwitchState(replies(k))
  }

  /** The `while` loop from the given state; `states(k)` is the state read by
      the k-th request, None when that request fails. */
  function SwitchLoop(states: nat -> Option<int>, count: nat, last: Option<int>, attempts: nat): Option<SwitchCount>
    decreases MaxAttempts - attempts
  {
    if count >= WantedChanges || attempts >= MaxAttempts then Some(SwitchCount(attempts, count))
    else
      match states(attempts)
      case None => None
      case Some(state) =>
        var changed := last.None? || state != last.value;
        SwitchLoop(states, if changed then count + 1 else count, Some(state), attempts + 1)
  }

  /** One iteration of the loop that reads a state. */
  lemma {:induction false} SwitchLoopUnfold(states: nat -> Option<int>, count: nat, last: Option<int>, attempts: nat)
    requires count < WantedChanges && attempts < MaxAttempts && states(attempts).Some?
    ensures SwitchLoop(states, count, last, attempts) ==
      SwitchLoop(states, if last.None? || states(attempts).value != last.value then count + 1 else count,
                 states(attempts), attempts + 1)
  {
  }

  /** Bounds kept by every iteration: count rises at most once per attempt
      and only to 3, the first reading always counts, and the loop stops at
      3 changes or 10 attempts. */
  lemma {:induction false} SwitchLoopBounds(states: nat -> Option<int>, count: nat, last: Option<int>, attempts: nat)
    requires count <= attempts <= MaxAttempts && count <= WantedChanges
    requires last.None? <==> attempts == 0
    requires attempts > 0 ==> count >= 1
    ensures var r := SwitchLoop(states, count, last, attempts);
      r.Some? ==>
        (1 <= r.value.count <= WantedChanges && r.value.count <= r.value.attempts <= MaxAttempts
         && (r.value.count == WantedChanges || r.value.attempts == MaxAttempts))
    decreases MaxAttempts - attempts
  {
    if count < WantedChanges && attempts < MaxAttempts {
      match states(attempts)
      case None =>
      case Some(state) =>
        var changed := last.None? || state != last.value;
        SwitchLoopBounds(states, if changed then count + 1 else count, Some(state), attempts + 1);
    }
  }

  /** The loop fails only when a request it makes reads no state, and it
      succeeds whenever every request it could make reads one. */
  lemma {:induction false} SwitchLoopFails(states: nat -> Option<int>, count: nat, last: Option<int>, attempts: nat)
    ensures SwitchLoop(states, count, last, attempts).None? ==>
      exists k :: attempts <= k < MaxAttempts && states(k).None?
    ensures (forall k :: attempts <= k < MaxAttempts ==> states(k).Some?) ==>
      SwitchLoop(states, count, last, attempts).Some?
    decreases MaxAttempts - attempts
  {
    if count < WantedChanges && attempts < MaxAttempts {
      match states(attempts)
      case None =>
      case Some(state) =>
        var changed := last.None? || state != last.value;
        SwitchLoopFails(states, if changed then count + 1 else count, Some(state), attempts + 1);
    }
  }

  /** From the start of the loop: a normal return has 1 <= count <= 3,
      count <= attempts <= 10, and stopped at 3 changes or 10 attempts. */
  lemma {:induction false} SwitchOutcome(states: nat -> Option<int>)
    ensures var r := SwitchLoop(states, 0, None, 0);
      r.Some? ==>
        (1 <= r.value.count <= WantedChanges && r.value.count <= r.value.attempts <= MaxAttempts
         && (r.value.count == WantedChanges || r.value.attempts == MaxAttempts))
    ensures SwitchLoop(states, 0, None, 0).None? ==> exists k :: 0 <= k < MaxAttempts && states(k).None?
    ensures (forall k :: 0 <= k < MaxAttempts ==> states(k).Some?) ==> SwitchLoop(states, 0, None, 0).Some?
  {
    SwitchLoopBounds(states, 0, None, 0);
    SwitchLoopFails(states, 0, None, 0);
  }

  // ---------------------------------------------------------------------
  // Sensor board reply

  /** What `read_Sensor_Board_data` returns. */
  datatype Board = Board(
    serial: string,
    totalValues: nat,
    totalSensing: nat,
    sensing: seq<real>,
    saturated: nat,
    temperature: real,
    humidity: real)

  const TokensPerReading: nat := 36
  const SaturationLevel: real := 2000000.0

  /** The whitespace tokens after "Sensor Data:". */
  function Tokens(line: string): seq<string>
    requires Contains(line, "Sensor Data:")
  {
    Words(Strip(Split(line, "Sensor Data:")[1]))
  }

  /** `float` of each token, None where it raises ValueError. */
  function Numbers(ts: seq<string>): (os: seq<Option<real>>)
    ensures |os| == |ts|
  {
    seq(|ts|, k requires 0 <= k < |ts| => ParseDecimal(ts[k]))
  }

  /** Every number, or None as soon as one is missing. */
  function Collect(os: seq<Option<real>>): (r: Option<seq<real>>)
    decreases |os|
    ensures r.Some? ==> |r.value| == |os|
  {
    if os == [] then Some([])
    else
      match Collect(os[..|os| - 1])
      case None => None
      case Some(xs) =>
        match os[|os| - 1]
        case None => None
        case Some(x) => Some(xs + [x])
  }

  /** `float` of every token, or None when one is not a number. */
  function ParseAll(ts: seq<string>): (r: Option<seq<real>>)
    ensures r.Some? ==> |r.value| == |ts|
  {
    Collect(Numbers(ts))
  }

  /** One more number extends a successful Collect. */
  lemma {:induction false} CollectSnoc(os: seq<Option<real>>, i: nat, xs: seq<real>, x: real)
    requires i < |os| && Collect(os[..i]) == Some(xs) && os[i] == Some(x)
    ensures Collect(os[..i + 1]) == Some(xs + [x])
  {
    assert os[..i + 1][..i] == os[..i];
  }

  /** A successful Collect holds every number, in order. */
  lemma {:induction false} CollectValues(os: seq<Option<real>>)
    requires Collect(os).Some?
    ensures forall i :: 0 <= i < |os| ==> os[i] == Some(Collect(os).value[i])
    decreases |os|
  {
    if os != [] {
      var init := os[..|os| - 1];
      CollectValues(init);
      forall i | 0 <= i < |os| ensures os[i] == Some(Collect(os).value[i]) {
        if i < |init| {
          assert os[i] == init[i];
        }
      }
    }
  }

  /** Collect fails exactly when some number is missing. */
  lemma {:induction false} CollectFails(os: seq<Option<real>>)
    ensures Collect(os).None? <==> exists i :: 0 <= i < |os| && os[i].None?
    decreases |os|
  {
    if os != [] {
      var init := os[..|os| - 1];
      CollectFails(init);
      if Collect(init).None? {
        var i :| 0 <= i < |init| && init[i].None?;
        assert os[i] == init[i];
      } else if Collect(os).Some? {
        forall i | 0 <= i < |os| ensures os[i].Some? {
          if i < |init| {
            assert os[i] == init[i];
          }
        }
      }
    }
  }

  /** A 36-token reading is valid when its first 35 tokens are numbers and
      its last one, the serial number, contains "bsi-nz". */
  function Validate(tokens: seq<string>): (r: Option<seq<real>>)
    requires |tokens| == TokensPerReading
    ensures r.Some? ==> |r.value| == 35 && Contains(tokens[35], "bsi-nz")
  {
    var nums := ParseAll(tokens[..35]);
    if nums.Some? && Contains(tokens[35], "bsi-nz") then nums else None
  }

  lemma {:induction false} ValidateIff(tokens: seq<string>)
    requires |tokens| == TokensPerReading
    ensures Validate(tokens).Some? <==>
      (forall i :: 0 <= i < 35 ==> ParseDecimal(tokens[i]).Some?) && Contains(tokens[35], "bsi-nz")
    ensures Validate(tokens).Some? ==>
      forall i :: 0 <= i < 35 ==> ParseDecimal(tokens[i]) == Some(Validate(tokens).value[i])
  {
    var os := Numbers(tokens[..35]);
    assert forall i :: 0 <= i < 35 ==> os[i] == ParseDecimal(tokens[i]);
    CollectFails(os);
    if Collect(os).Some? {
      CollectValues(os);
    }
  }

  /** How the loop treats one line: a reading with 36 tokens goes into
      `all_values` (only its serial number, the last token, is used later)
      together with its numbers when it is valid; any other line is skipped. */
  datatype BoardLine = Skipped | Counted(serial: string, numbers: Option<seq<real>>)

  /** The tokens of a line after "Sensor Data:"; a line without it, which
      the filter drops, gives none and is skipped like any short reading. */
  function LineTokens(line: string): seq<string> {
    if Contains(line, "Sensor Data:") then Tokens(line) else []
  }

  function LinesTokens(lines: seq<string>): (rs: seq<seq<string>>)
    ensures |rs| == |lines|
  {
    seq(|lines|, i requires 0 <= i < |lines| => LineTokens(lines[i]))
  }

  /** How the loop treats the tokens of one reading. */
  function ReadingOf(values: seq<string>): (l: BoardLine)
    ensures l.Counted? <==> |values| == TokensPerReading
    ensures l.Counted? ==> l.serial == values[35]
    ensures l.Counted? && l.numbers.Some? ==> |l.numbers.value| == 35 && Contains(l.serial, "bsi-nz")
  {
    if |values| == TokensPerReading then Counted(values[35], Validate(values)) else Skipped
  }

  /** Every 36-token reading is counted, whatever its tokens; it is valid
      exactly when its first 35 tokens read as numbers and its serial has
      the "bsi-nz" format, and then its numbers are those tokens' values. */
  lemma {:induction false} ReadingOfMeans(values: seq<string>)
    requires |values| == TokensPerReading
    ensures ReadingOf(values).Counted?
    ensures ReadingOf(values).numbers.Some? <==>
      (forall i :: 0 <= i < 35 ==> ParseDecimal(values[i]).Some?) && Contains(values[35], "bsi-nz")
    ensures ReadingOf(values).numbers.Some? ==>
      forall i :: 0 <= i < 35 ==> ParseDecimal(values[i]) == Some(ReadingOf(values).numbers.value[i])
  {
    ValidateIff(values);
  }

  function Readings(rs: seq<seq<string>>): seq<BoardLine> {
    seq(|rs|, i requires 0 <= i < |rs| => ReadingOf(rs[i]))
  }

  function BoardLines(lines: seq<string>): seq<BoardLine> {
    Readings(LinesTokens(lines))
  }

  /** Every valid line has 35 numbers and a "bsi-nz" serial. */
  predicate WellFormed(ls: seq<BoardLine>) {
    forall k :: 0 <= k < |ls| && ls[k].Counted? && ls[k].numbers.Some? ==>
      |ls[k].numbers.value| == 35 && Contains(ls[k].serial, "bsi-nz")
  }

  /** The serial numbers of `all_values`, in order. */
  function AllSerials(ls: seq<BoardLine>): seq<string>
    decreases |ls|
  {
    if ls == [] then []
    else AllSerials(ls[..|ls| - 1]) + (if ls[|ls| - 1].Counted? then [ls[|ls| - 1].serial] else [])
  }

  predicate IsValid(l: BoardLine) { l.Counted? && l.numbers.Some? }

  /** One more line of the sensor board loop. */
  lemma {:induction false} AllSerialsSnoc(ls: seq<BoardLine>, l: BoardLine)
    ensures AllSerials(ls + [l]) == AllSerials(ls) + (if l.Counted? then [l.serial] else [])
    ensures ValidReadings(ls + [l]) == ValidReadings(ls) + (if IsValid(l) then [l.numbers.value] else [])
  {
    assert (ls + [l])[..|ls|] == ls;
  }

  /** `valid_readings`, in order. */
  function ValidReadings(ls: seq<BoardLine>): seq<seq<real>>
    decreases |ls|
  {
    if ls == [] then []
    else ValidReadings(ls[..|ls| - 1]) + (if IsValid(ls[|ls| - 1]) then [ls[|ls| - 1].numbers.value] else [])
  }

  /** The serial numbers of the valid readings, parallel to `ValidReadings`. */
  function ValidSerials(ls: seq<BoardLine>): seq<string>
    decreases |ls|
  {
    if ls == [] then []
    else ValidSerials(ls[..|ls| - 1]) + (if IsValid(ls[|ls| - 1]) then [ls[|ls| - 1].serial] else [])
  }

  /** There are at least as many 36-token readings as valid ones; the valid
      readings have 35 numbers and a "bsi-nz" serial, and each comes from
      one line together with its serial. */
  lemma {:induction false} ValidReadingsShape(ls: seq<BoardLine>)
    requires WellFormed(ls)
    ensures |ValidReadings(ls)| <= |AllSerials(ls)|
    ensures |ValidSerials(ls)| == |ValidReadings(ls)|
    ensures forall k :: 0 <= k < |ValidReadings(ls)| ==>
      |ValidReadings(ls)[k]| == 35 && Contains(ValidSerials(ls)[k], "bsi-nz")
      && exists j :: 0 <= j < |ls| && ls[j] == Counted(ValidSerials(ls)[k], Some(ValidReadings(ls)[k]))
           && |ValidReadings(ls[..j])| == k
    decreases |ls|
  {
    if ls != [] {
      var init, l := ls[..|ls| - 1], ls[|ls| - 1];
      assert forall k :: 0 <= k < |init| ==> init[k] == ls[k];
      ValidReadingsShape(init);
      var valid, serials := ValidReadings(ls), ValidSerials(ls);
      forall k | 0 <= k < |valid|
        ensures |valid[k]| == 35 && Contains(serials[k], "bsi-nz")
        ensures exists j :: 0 <= j < |ls| && ls[j] == Counted(serials[k], Some(valid[k]))
                              && |ValidReadings(ls[..j])| == k
      {
        if k < |ValidReadings(init)| {
          assert valid[k] == ValidReadings(init)[k] && serials[k] == ValidSerials(init)[k];
          var j :| 0 <= j < |init| && init[j] == Counted(serials[k], Some(valid[k]))
            && |ValidReadings(init[..j])| == k;
          assert ls[j] == init[j] && ls[..j] == init[..j];
        } else {
          assert ls[|ls| - 1] == Counted(serials[k], Some(valid[k]));
          assert ls[..|ls| - 1] == init;
        }
      }
    }
  }

  lemma {:induction false} ReadingsWellFormed(rs: seq<seq<string>>)
    ensures WellFormed(Readings(rs))
  {
    var ls := Readings(rs);
    forall k | 0 <= k < |ls| && ls[k].Counted? && ls[k].numbers.Some?
      ensures |ls[k].numbers.value| == 35 && Contains(ls[k].serial, "bsi-nz")
    {
      assert ls[k] == ReadingOf(rs[k]);
    }
  }

  /** `sum(1 for x in xs if x >= 2000000)`. */
  function CountSaturated(xs: seq<real>): (n: nat)
    decreases |xs|
    ensures n <= |xs|
    ensures n == 0 <==> forall i :: 0 <= i < |xs| ==> xs[i] < SaturationLevel
    ensures n == |xs| <==> forall i :: 0 <= i < |xs| ==> xs[i] >= SaturationLevel
  {
    if xs == [] then 0
    else
      var rest := CountSaturated(xs[1..]);
      assert forall i :: 1 <= i < |xs| ==> xs[i] == xs[1..][i - 1];
      (if xs[0] >= SaturationLevel then 1 else 0) + rest
  }

  /** The count over two stretches of values is the sum of their counts, so
      together with the one-value case it counts every value that reaches
      2000000, wherever it stands. */
  lemma {:induction false} CountSaturatedAppend(a: seq<real>, b: seq<real>)
    ensures CountSaturated(a + b) == CountSaturated(a) + CountSaturated(b)
    ensures |a| == 1 ==> CountSaturated(a) == if a[0] >= SaturationLevel then 1 else 0
    decreases |a|
  {
    if a == [] {
      assert a + b == b;
    } else {
      assert (a + b)[0] == a[0] && (a + b)[1..] == a[1..] + b;
      CountSaturatedAppend(a[1..], b);
    }
    if |a| == 1 {
      assert a[1..] == [];
    }
  }

  /** The dictionary as written: the numbers of the second valid reading, the
      serial of the second 36-token reading, and saturation counted over
      the first 31 numbers. */
  function BoardAsWritten(values: seq<real>, serial: string): Board
    requires |values| == 35
  {
    Board(serial, TokensPerReading, TokensPerReading - 4,
          values[1..33], CountSaturated(values[..31]), values[33], values[34])
  }

  /** The result as written: None without a valid reading, IndexError with
      exactly one. */
  function BoardResultAsWritten(ls: seq<BoardLine>): Result<Option<Board>>
    requires WellFormed(ls)
  {
    ValidReadingsShape(ls);
    var valid, all := ValidReadings(ls), AllSerials(ls);
    if valid == [] then Ok(None)
    else if |valid| < 2 then Raised("IndexError: list index out of range")
    else Ok(Some(BoardAsWritten(valid[1], all[1])))
  }

  /** The dictionary as evidently intended: saturation counted over the
      sensing elements. */
  function IntendedBoard(values: seq<real>, serial: string): Board
    requires |values| == 35
  {
    Board(serial, TokensPerReading, TokensPerReading - 4,
          values[1..33], CountSaturated(values[1..33]), values[33], values[34])
  }

  /** The result as evidently intended: serial and numbers from the same
      valid reading. */
  function BoardResultIntended(ls: seq<BoardLine>): Result<Option<Board>>
    requires WellFormed(ls)
  {
    ValidReadingsShape(ls);
    var valid, serials := ValidReadings(ls), ValidSerials(ls);
    if valid == [] then Ok(None)
    else if |valid| < 2 then Raised("IndexError: list index out of range")
    else Ok(Some(IntendedBoard(valid[1], serials[1])))
  }

  /** The intended board comes from the second valid reading: exactly one
      valid reading precedes its line, its serial has the "bsi-nz" format,
      its 32 sensing elements are numbers 1..32 of that reading, temperature
      and humidity are its last two numbers, and the saturated count is the
      number of sensing elements that reach 2000000. */
  lemma {:induction false} IntendedBoardMeans(ls: seq<BoardLine>)
    requires WellFormed(ls)
    requires BoardResultIntended(ls).Ok? && BoardResultIntended(ls).value.Some?
    ensures var b := BoardResultIntended(ls).value.value;
      Contains(b.serial, "bsi-nz") && |b.sensing| == b.totalSensing == 32 && b.totalValues == 36
      && (exists j, v :: 0 <= j < |ls| && ls[j] == Counted(b.serial, Some(v)) && |v| == 35
            && |ValidReadings(ls[..j])| == 1
            && b.sensing == v[1..33] && b.temperature == v[33] && b.humidity == v[34])
      && b.saturated == CountSaturated(b.sensing) <= 32
      && (b.saturated == 0 <==> forall i :: 0 <= i < 32 ==> b.sensing[i] < SaturationLevel)
  {
    ValidReadingsShape(ls);
    var v := ValidReadings(ls)[1];
    var j :| 0 <= j < |ls| && ls[j] == Counted(ValidSerials(ls)[1], Some(v)) && |ValidReadings(ls[..j])| == 1;
  }

  /** Finding: when the second 36-token reading is an invalid one, the serial
      reported next to the second valid reading's numbers is the invalid
      reading's last token, which lacks the "bsi-nz" format. */
  lemma {:induction false} SerialFromOtherReading(a: BoardLine, b: BoardLine, c: BoardLine)
    requires WellFormed([a, b, c])
    requires IsValid(a) && IsValid(c) && |c.numbers.value| == 35
    requires b.Counted? && !Contains(b.serial, "bsi-nz")
    ensures BoardResultAsWritten([a, b, c]) == Ok(Some(BoardAsWritten(c.numbers.value, b.serial)))
    ensures !Contains(BoardResultAsWritten([a, b, c]).value.value.serial, "bsi-nz")
    ensures BoardResultIntended([a, b, c]) == Ok(Some(IntendedBoard(c.numbers.value, c.serial)))
  {
    var ls := [a, b, c];
    assert ls[..2] == [a, b] && [a, b][..1] == [a] && [a][..0] == [];
    assert !IsValid(b) by {
      assert ls[1] == b;
    }
    assert AllSerials([a]) == [a.serial];
    assert AllSerials([a, b]) == [a.serial, b.serial];
    assert ValidReadings([a]) == [a.numbers.value];
    assert ValidReadings([a, b]) == [a.numbers.value];
    assert ValidSerials([a]) == [a.serial];
    assert ValidSerials([a, b]) == [a.serial];
  }

  /** Finding: the saturated count as written misses a saturated value in the
      last two sensing elements (numbers 31 and 32). */
  lemma {:induction false} SaturationMissesLastSensing(values: seq<real>, serial: string)
    requires |values| == 35
    requires forall i :: 0 <= i < 31 ==> values[i] < SaturationLevel
    requires values[32] >= SaturationLevel
    ensures BoardAsWritten(values, serial).saturated == 0
    ensures IntendedBoard(values, serial).saturated >= 1
  {
    assert forall i :: 0 <= i < 31 ==> values[..31][i] == values[i];
    assert values[1..33][31] == values[32];
  }

  /** Finding: the saturated count as written also counts number 0, which is
      not a sensing element. */
  lemma {:induction false} SaturationCountsFirstValue(values: seq<real>, serial: string)
    requires |values| == 35
    requires values[0] >= SaturationLevel
    requires forall i :: 1 <= i < 33 ==> values[i] < SaturationLevel
    ensures BoardAsWritten(values, serial).saturated >= 1
    ensures IntendedBoard(values, serial).saturated == 0
  {
    assert values[..31][0] == values[0];
    assert forall i :: 0 <= i < 32 ==> values[1..33][i] == values[i + 1];
  }

  // ---------------------------------------------------------------------
  // The extractor

  /** The `while` loop of `read_limit_switches_data` over the states read
      by successive requests. */
  method CountChanges(states: nat -> Option<int>) returns (r: Option<SwitchCount>)
    ensures r == SwitchLoop(states, 0, None, 0)
  {
    ghost var goal := SwitchLoop(states, 0, None, 0);
    var count: nat := 0;
    var last: Option<int> := None;
    var attempts: nat := 0;
    while count < WantedChanges && attempts < MaxAttempts
      invariant SwitchLoop(states, count, last, attempts) == goal
      decreases MaxAttempts - attempts
    {
      var current := states(attempts);
      if current.None? {
        return None;
      }
      SwitchLoopUnfold(states, count, last, attempts);
      if last.None? || current.value != last.value {
        count := count + 1;
        last := current;
      }
      assert last == current;
      attempts := attempts + 1;
    }
    r := Some(SwitchCount(attempts, count));
  }

  /** One pass of the CO2 loop body for a line that is not a broken
      average: append the value or take the average. */
  method StepCo2(s: Co2Scan, l: Co2Line) returns (next: Co2Scan)
    requires !l.BrokenAverage?
    ensures next == Co2Step(s, l)
  {
    next := s;
    match l {
      case ValueLine(v) =>
        if v.Some? {
          next := next.(values := next.values + [v.value]);
        }
      case AverageLine(a) =>
        if a.Some? {
          next := next.(average := a);
        }
      case OtherLine =>
    }
  }

  /** One pass of the BME loop body: append the reading, then take the
      average. */
  method StepBme(s: BmeScan, l: BmeLine) returns (next: BmeScan)
    ensures next == BmeStep(s, l)
  {
    next := s;
    match l.reading {
      case NoReading =>
      case Reading(t, h) =>
        if t.Some? {
          next := next.(temperatures := next.temperatures + [t.value]);
          if h.Some? {
            next := next.(humidities := next.humidities + [h.value]);
          }
        }
    }
    match l.average {
      case NoAverage =>
      case TemperatureAverage(v) =>
        if v.Some? {
          next := next.(avgTemp := v);
        }
      case HumidityAverage(v) =>
        if v.Some? {
          next := next.(avgHum := v);
        }
    }
  }

  /** `float` of each token, one at a time. */
  method ParseNumbers(ts: seq<string>) returns (r: Option<seq<real>>)
    ensures r == ParseAll(ts)
  {
    ghost var os := Numbers(ts);
    var numbers: seq<real> := [];
    var i := 0;
    while i < |ts|
      invariant i <= |ts|
      invariant Collect(os[..i]) == Some(numbers)
    {
      var x := ParseDecimal(ts[i]);
      assert os[i] == x;
      if x.None? {
        CollectFails(os);
        return None;
      }
      CollectSnoc(os, i, numbers, x.value);
      numbers := numbers + [x.value];
      i := i + 1;
    }
    assert os[..i] == os;
    r := Some(numbers);
  }

  /** `vs` are 36-token readings whose serial numbers are `serials`. */
  predicate SerialsOf(vs: seq<seq<string>>, serials: seq<string>) {
    |vs| == |serials| &&
    forall k :: 0 <= k < |vs| ==> |vs[k]| == TokensPerReading && vs[k][35] == serials[k]
  }

  lemma {:induction false} SerialsOfSnoc(vs: seq<seq<string>>, serials: seq<string>, v: seq<string>)
    requires SerialsOf(vs, serials) && |v| == TokensPerReading
    ensures SerialsOf(vs + [v], serials + [v[35]])
  {
    assert forall k :: 0 <= k < |vs| ==> (vs + [v])[k] == vs[k] && (serials + [v[35]])[k] == serials[k];
  }

  /** The loop of `read_Sensor_Board_data` over the token lists of the
      readings: a 36-token reading goes into `all_values`, and into
      `valid_readings` as its numbers when its first 35 tokens are numbers and
      its serial has the "bsi-nz" format. */
  method CollectReadings(readings: seq<seq<string>>) returns (validReadings: seq<seq<real>>, allValues: seq<seq<string>>)
    ensures validReadings == ValidReadings(Readings(readings))
    ensures SerialsOf(allValues, AllSerials(Readings(readings)))
  {
    ghost var ls: seq<BoardLine> := [];
    validReadings, allValues := [], [];
    var i := 0;
    while i < |readings|
      invariant i == |ls| <= |readings|
      invariant forall k :: 0 <= k < i ==> ls[k] == ReadingOf(readings[k])
      invariant SerialsOf(allValues, AllSerials(ls))
      invariant validReadings == ValidReadings(ls)
    {
      var values := readings[i];
      ghost var l := ReadingOf(values);
      AllSerialsSnoc(ls, l);
      if |values| == TokensPerReading {
        SerialsOfSnoc(allValues, AllSerials(ls), values);
        allValues := allValues + [values];
        var numbers := ParseNumbers(values[..35]);
        if numbers.Some? && Contains(values[35], "bsi-nz") {
          validReadings := validReadings + [numbers.value];
        }
      }
      ls := ls + [l];
      i := i + 1;
    }
    assert ls == Readings(readings);
  }

  /** `SensorDataExtractor`: the lists it keeps between calls. */
  class SensorDataExtractor {
    var co2Values: seq<real>
    var humidity: seq<real>
    var temperature: seq<real>

    constructor()
      ensures co2Values == [] && humidity == [] && temperature == []
    {
      co2Values := [];
      humidity := [];
      temperature := [];
    }

    /** `read_co2_data`: resets `co2_values` and fills it line by line; the
        values gathered before a broken average line stay in the field. */
    method ReadCo2(command: string, response: Option<string>) returns (r: Option<Co2Reading>)
      modifies this`co2Values
      ensures !(IsCo2Command(command) && Answered(response)) ==> r.None? && co2Values == old(co2Values)
      ensures IsCo2Command(command) && Answered(response) ==>
        var scan := ScanCo2(Co2Lines(Split(response.value, "\n")));
        co2Values == scan.values && r == Co2Result(scan)
    {
      if !IsCo2Command(command) || !Answered(response) {
        return None;
      }
      var average, broken := ScanCo2Lines(Co2Lines(Split(response.value, "\n")));
      if broken {
        return None;
      }
      r := if co2Values == [] then None else Some(Co2Reading(co2Values, average));
    }

    /** The loop of `read_co2_data` over the classified lines; it stops at
        a broken average line, keeping the values gathered so far. */
    method ScanCo2Lines(ls: seq<Co2Line>) returns (average: Option<real>, broken: bool)
      modifies this`co2Values
      ensures ScanCo2(ls) == Co2Scan(co2Values, average, broken)
    {
      co2Values := [];
      average := None;
      var i := 0;
      while i < |ls|
        invariant i <= |ls|
        invariant ScanCo2(ls[..i]) == Co2Scan(co2Values, average, false)
      {
        Co2ScanSnoc(ls[..i], ls[i]);
        assert ls[..i + 1] == ls[..i] + [ls[i]];
        if ls[i].BrokenAverage? {
          Co2BrokenStays(ls, i + 1);
          return average, true;
        }
        var next := StepCo2(Co2Scan(co2Values, average, false), ls[i]);
        co2Values, average := next.values, next.average;
        i := i + 1;
      }
      assert ls[..i] == ls;
      broken := false;
    }

    /** The loop of `read_BME_data` over the classified lines. */
    method ScanBmeLines(ls: seq<BmeLine>) returns (avgTemp: Option<real>, avgHum: Option<real>)
      modifies this`temperature, this`humidity
      ensures ScanBme(ls) == BmeScan(temperature, humidity, avgTemp, avgHum)
    {
      humidity := [];
      temperature := [];
      avgTemp, avgHum := None, None;
      var i := 0;
      while i < |ls|
        invariant i <= |ls|
        invariant ScanBme(ls[..i]) == BmeScan(temperature, humidity, avgTemp, avgHum)
      {
        ScanBmeSnoc(ls[..i], ls[i]);
        assert ls[..i + 1] == ls[..i] + [ls[i]];
        var next := StepBme(BmeScan(temperature, humidity, avgTemp, avgHum), ls[i]);
        temperature, humidity, avgTemp, avgHum := next.temperatures, next.humidities, next.avgTemp, next.avgHum;
        i := i + 1;
      }
      assert ls[..i] == ls;
    }

    /** `read_BME_data`: resets both lists and fills them line by line. */
    method ReadBme(command: string, response: Option<string>) returns (r: Option<BmeReading>)
      modifies this`temperature, this`humidity
      ensures !(IsBmeCommand(command) && Answered(response)) ==>
        r.None? && temperature == old(temperature) && humidity == old(humidity)
      ensures IsBmeCommand(command) && Answered(response) ==>
        var scan := ScanBme(BmeLines(Split(response.value, "\n")));
        temperature == scan.temperatures && humidity == scan.humidities && r == BmeResult(scan)
    {
      if !IsBmeCommand(command) || !Answered(response) {
        return None;
      }
      var avgTemp, avgHum := ScanBmeLines(BmeLines(Split(response.value, "\n")));
      if temperature != [] && humidity != [] && avgTemp.Some? && avgHum.Some? {
        r := Some(BmeReading(temperature, humidity, Round2(avgTemp.value), Round2(avgHum.value)));
      } else {
        r := None;
      }
    }

    /** `read_Servos_data`: the angle of the last servo line of a non-empty
        reply to SERVO1 or SERVO2. */
    function ReadServos(command: string, response: Option<string>): (r: Option<real>)
      ensures r.Some? ==> IsServoCommand(command) && response.Some? && response.value != []
    {
      if !IsServoCommand(command) || response.None? || response.value == [] then None
      else ServoAngle(Split(response.value, "\n"))
    }

    /** `read_limit_switches_data`; `replies(k)` is the reply to the k-th
        request. */
    method ReadLimitSwitches(command: string, replies: nat -> Option<string>) returns (r: Option<SwitchCount>)
      ensures r == if IsSwitchCommand(command) then SwitchLoop(SwitchStates(replies), 0, None, 0) else None
    {
      if !IsSwitchCommand(command) {
        return None;
      }
      r := CountChanges(SwitchStates(replies));
    }

    /** `read_Sensor_Board_data`: collects `all_values` and `valid_readings`
        over the reply's lines. */
    method ReadSensorBoard(command: string, response: Option<string>) returns (r: Result<Option<Board>>)
      ensures !(IsBoardCommand(command) && Answered(response)) ==> r == Ok(None)
      ensures IsBoardCommand(command) && Answered(response) ==>
        WellFormed(BoardLines(Split(response.value, "\n")))
        && r == BoardResultAsWritten(BoardLines(Split(response.value, "\n")))
    {
      if !IsBoardCommand(command) || !Answered(response) {
        return Ok(None);
      }
      var readings := LinesTokens(Split(response.value, "\n"));
      var validReadings, allValues := CollectReadings(readings);
      ghost var ls := Readings(readings);
      ReadingsWellFormed(readings);
      ValidReadingsShape(ls);
      if validReadings == [] {
        r := Ok(None);
      } else if |validReadings| < 2 {
        r := Raised("IndexError: list index out of range");
      } else {
        r := Ok(Some(BoardAsWritten(validReadings[1], allValues[1][35])));
      }
    }
  }
}
