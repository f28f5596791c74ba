/** The test bookkeeping of display_completion.py: `TestManager`'s status
    map of the nine test tables, the completion summaries, the pass/fail
    rules that turn a measurement into a field's entry and status, and the
    "Complete Testing" gate.  Menus, `input()` prompts, charts and the
    devices are not modelled: what the operator types is a parameter. */
module Completion {
  import opened Base
  import opened Text
  import opened Report
  import Firmware

  // ---------------------------------------------------------------------
  // The status map

  /** One entry of `all_test_status`; the map keeps its keys in insertion
      order, so it is a sequence of entries with distinct titles. */
  datatype Status = Status(title: string, completed: bool)

  const TestTitles: seq<string> := [
    "Leakage of MP+BPV Table",
    "MP+BPV VOC Loss Table",
    "MP+BPV RH Reduction Table",
    "Capnogram Leakage Test Table",
    "Flow Diversion Valve Leakage Test Table",
    "BFU Test Table",
    "System Leakage Test Table",
    "System Functionality Test Table",
    "Device Level Test Table"
  ]

  function Titles(st: seq<Status>): (ts: seq<string>)
    ensures |ts| == |st| && forall k :: 0 <= k < |st| ==> ts[k] == st[k].title
  {
    seq(|st|, k requires 0 <= k < |st| => st[k].title)
  }

  predicate Distinct(ts: seq<string>) {
    forall i, j :: 0 <= i < j < |ts| ==> ts[i] != ts[j]
  }

  function InitialStatus(): seq<Status> {
    seq(|TestTitles|, k requires 0 <= k < |TestTitles| => Status(TestTitles[k], false))
  }

  /** The map starts with the nine test titles, each once, none completed. */
  lemma {:induction false} InitialStatusShape()
    ensures Titles(InitialStatus()) == TestTitles && |TestTitles| == 9
    ensures Distinct(TestTitles)
    ensures forall k :: 0 <= k < |InitialStatus()| ==> !InitialStatus()[k].completed
  {
    assert Titles(InitialStatus()) == TestTitles;
  }

  /** `all_test_status[title] = True`: an existing key keeps its place, a
      new one is added at the end. */
  function MarkCompleted(st: seq<Status>, title: string): seq<Status> {
    if title in Titles(st) then
      seq(|st|, k requires 0 <= k < |st| => if st[k].title == title then Status(title, true) else st[k])
    else st + [Status(title, true)]
  }

  /** Marking completes exactly the given title, adds it when it is new and
      changes nothing else. */
  lemma {:induction false} MarkCompletedMeans(st: seq<Status>, title: string)
    ensures var r := MarkCompleted(st, title);
      Titles(r) == (if title in Titles(st) then Titles(st) else Titles(st) + [title])
      && (forall k :: 0 <= k < |st| ==> r[k].completed == (st[k].completed || st[k].title == title))
      && (title !in Titles(st) ==> r[|st|].completed)
      && (Distinct(Titles(st)) ==> Distinct(Titles(r)))
  {
    var r := MarkCompleted(st, title);
    if title !in Titles(st) {
      assert Titles(r) == Titles(st) + [title];
    } else {
      assert Titles(r) == Titles(st);
    }
  }

  /** The loop of `set_previous_completed_tests`: a name that is a key is
      marked, any other name is ignored. */
  function MarkKnown(st: seq<Status>, tests: seq<string>): seq<Status>
    decreases |tests|
  {
    if tests == [] then st
    else
      var before := MarkKnown(st, tests[..|tests| - 1]);
      var test := tests[|tests| - 1];
      if test in Titles(before) then MarkCompleted(before, test) else before
  }

  /** The keys stay as they were; an entry is completed afterwards exactly
      when it was before or its title is among the given names. */
  lemma {:induction false} MarkKnownMeans(st: seq<Status>, tests: seq<string>)
    ensures var r := MarkKnown(st, tests);
      Titles(r) == Titles(st) &&
      forall k :: 0 <= k < |st| ==> r[k].completed == (st[k].completed || st[k].title in tests)
    decreases |tests|
  {
    if tests != [] {
      var init, test := tests[..|tests| - 1], tests[|tests| - 1];
      MarkKnownMeans(st, init);
      var before := MarkKnown(st, init);
      MarkCompletedMeans(before, test);
      assert tests == init + [test];
      forall k | 0 <= k < |st|
        ensures MarkKnown(st, tests)[k].completed == (st[k].completed || st[k].title in tests)
      {
        assert before[k].title == st[k].title;
      }
    }
  }

  // ---------------------------------------------------------------------
  // Completion summaries

  /** `[name for name, completed in all_test_status.items() if completed]`. */
  function CompletedTitles(st: seq<Status>): seq<string>
    decreases |st|
  {
    if st == [] then []
    else CompletedTitles(st[..|st| - 1]) + (if st[|st| - 1].completed then [st[|st| - 1].title] else [])
  }

  /** The titles not completed, in map order. */
  function PendingTitles(st: seq<Status>): seq<string>
    decreases |st|
  {
    if st == [] then []
    else PendingTitles(st[..|st| - 1]) + (if st[|st| - 1].completed then [] else [st[|st| - 1].title])
  }

  /** Every entry is listed exactly once, among the completed titles or
      among the pending ones according to its flag. */
  lemma {:induction false} TitlesPartition(st: seq<Status>)
    ensures |CompletedTitles(st)| + |PendingTitles(st)| == |st|
    ensures forall t :: t in CompletedTitles(st) <==> exists k :: 0 <= k < |st| && st[k].title == t && st[k].completed
    ensures forall t :: t in PendingTitles(st) <==> exists k :: 0 <= k < |st| && st[k].title == t && !st[k].completed
    decreases |st|
  {
    if st != [] {
      var init := st[..|st| - 1];
      TitlesPartition(init);
      forall t ensures t in CompletedTitles(st) <==> exists k :: 0 <= k < |st| && st[k].title == t && st[k].completed {
        if exists k :: 0 <= k < |init| && init[k].title == t && init[k].completed {
          var k :| 0 <= k < |init| && init[k].title == t && init[k].completed;
          assert st[k] == init[k];
        }
        if exists k :: 0 <= k < |st| && st[k].title == t && st[k].completed {
          var k :| 0 <= k < |st| && st[k].title == t && st[k].completed;
          if k < |init| {
            assert init[k] == st[k];
          }
        }
      }
      forall t ensures t in PendingTitles(st) <==> exists k :: 0 <= k < |st| && st[k].title == t && !st[k].completed {
        if exists k :: 0 <= k < |init| && init[k].title == t && !init[k].completed {
          var k :| 0 <= k < |init| && init[k].title == t && !init[k].completed;
          assert st[k] == init[k];
        }
        if exists k :: 0 <= k < |st| && st[k].title == t && !st[k].completed {
          var k :| 0 <= k < |st| && st[k].title == t && !st[k].completed;
          if k < |init| {
            assert init[k] == st[k];
          }
        }
      }
    }
  }

  /** No title is pending exactly when every entry is completed. */
  lemma {:induction false} NothingPending(st: seq<Status>)
    ensures PendingTitles(st) == [] <==> forall k :: 0 <= k < |st| ==> st[k].completed
    decreases |st|
  {
    if st != [] {
      NothingPending(st[..|st| - 1]);
      assert forall k :: 0 <= k < |st| - 1 ==> st[..|st| - 1][k] == st[k];
    }
  }

  /** Some title is completed exactly when some entry is. */
  lemma {:induction false} SomethingCompleted(st: seq<Status>)
    ensures CompletedTitles(st) != [] <==> exists k :: 0 <= k < |st| && st[k].completed
    decreases |st|
  {
    if st != [] {
      var init := st[..|st| - 1];
      SomethingCompleted(init);
      if exists k :: 0 <= k < |init| && init[k].completed {
        var k :| 0 <= k < |init| && init[k].completed;
        assert st[k] == init[k];
      }
      if exists k :: 0 <= k < |st| && st[k].completed {
        var k :| 0 <= k < |st| && st[k].completed;
        if k < |init| {
          assert init[k] == st[k];
        }
      }
    }
  }

  const CompletedPrefix: string := "You have completed the following tests: "
  const NoneCompleted: string := "You have not completed any tests."
  const AllFinished: string := "You finished all tests"

  function CompletedMessage(st: seq<Status>): string {
    if CompletedTitles(st) != [] then CompletedPrefix + Join(CompletedTitles(st), ", ") else NoneCompleted
  }

  /** `check_all_tests_completion_1`, used for a new device. */
  function CompletionSummary1(st: seq<Status>): string {
    if PendingTitles(st) == [] then AllFinished
    else CompletedMessage(st) + "\n" + "\n" + PendingMarker + " " + Join(PendingTitles(st), ", ")
  }

  /** Both forms of the completed message begin "You have". */
  lemma {:induction false} CompletedMessageStart(st: seq<Status>)
    ensures |CompletedMessage(st)| > 4 && CompletedMessage(st)[4] == 'h'
  {
    var m := CompletedMessage(st);
    if CompletedTitles(st) != [] {
      assert m[4] == CompletedPrefix[4];
    }
  }

  /** The new-device summary announces that all tests are finished exactly
      when every test is completed. */
  lemma {:induction false} Summary1Finished(st: seq<Status>)
    ensures CompletionSummary1(st) == AllFinished <==> forall k :: 0 <= k < |st| ==> st[k].completed
  {
    NothingPending(st);
    if PendingTitles(st) != [] {
      var m := CompletedMessage(st);
      CompletedMessageStart(st);
      var s := CompletionSummary1(st);
      assert s[4] == m[4];
      assert AllFinished[4] == 'f';
    }
  }

  /** Otherwise it carries the pending marker the report splits at. */
  lemma {:induction false} Summary1Marker(st: seq<Status>)
    ensures !(forall k :: 0 <= k < |st| ==> st[k].completed) ==> Contains(CompletionSummary1(st), PendingMarker)
  {
    NothingPending(st);
    if PendingTitles(st) != [] {
      var m := CompletedMessage(st);
      var s := CompletionSummary1(st);
      var rest := " " + Join(PendingTitles(st), ", ");
      assert s == (m + "\n" + "\n") + PendingMarker + rest;
      ContainsInside(m + "\n" + "\n", PendingMarker, rest);
    }
  }

  /** In the report, the new-device summary has a pending part exactly
      when some test is not completed. */
  lemma {:induction false} Summary1PendingPart(st: seq<Status>)
    ensures SplitSummary(CompletionSummary1(st)).1 != "" <==> !(forall k :: 0 <= k < |st| ==> st[k].completed)
  {
    Summary1Finished(st);
    Summary1Marker(st);
    var s := CompletionSummary1(st);
    if forall k :: 0 <= k < |st| ==> st[k].completed {
      assert !Contains(s, PendingMarker) by {
        assert forall j :: !IsAt(s, PendingMarker, j);
      }
    }
  }

  /** `check_all_tests_completion_2`, used for reprocessing: with nothing
      completed, `completed_message` is never bound and printing it raises
      UnboundLocalError. */
  function CompletionSummary2(st: seq<Status>): Result<string> {
    if CompletedTitles(st) != [] then Ok(CompletedPrefix + Join(CompletedTitles(st), ", "))
    else Raised("UnboundLocalError: completed_message")
  }

  /** The reprocessing summary is defined exactly when some test is
      completed, and then lists only completed tests. */
  lemma {:induction false} Summary2Defined(st: seq<Status>)
    ensures CompletionSummary2(st).Ok? <==> exists k :: 0 <= k < |st| && st[k].completed
    ensures CompletionSummary2(st).Ok? ==> CompletionSummary2(st).value[..|CompletedPrefix|] == CompletedPrefix
  {
    SomethingCompleted(st);
  }

  const Congratulations: string :=
    "Congratulations! Brother/Sister! You finished all tests. This device is ready to be shipped!"

  /** `generate_completion_summary`. */
  function GenerateCompletionSummary(st: seq<Status>, includeNotCompleted: bool): string {
    if PendingTitles(st) == [] then Congratulations
    else if includeNotCompleted then CompletedMessage(st) + "\n" + PendingMarker + " " + Join(PendingTitles(st), ", ")
    else CompletedMessage(st)
  }

  /** Without the pending list the summary is only the completed part;
      with all tests done it is the congratulation. */
  lemma {:induction false} GenerateSummaryParts(st: seq<Status>, includeNotCompleted: bool)
    ensures (forall k :: 0 <= k < |st| ==> st[k].completed) ==> GenerateCompletionSummary(st, includeNotCompleted) == Congratulations
    ensures !(forall k :: 0 <= k < |st| ==> st[k].completed) && includeNotCompleted ==>
      Contains(GenerateCompletionSummary(st, includeNotCompleted), PendingMarker)
    ensures !(forall k :: 0 <= k < |st| ==> st[k].completed) && !includeNotCompleted ==>
      GenerateCompletionSummary(st, includeNotCompleted) == CompletedMessage(st)
  {
    NothingPending(st);
    if PendingTitles(st) != [] && includeNotCompleted {
      var m := CompletedMessage(st);
      var s := GenerateCompletionSummary(st, includeNotCompleted);
      assert s[|m| + 1..|m| + 1 + |PendingMarker|] == PendingMarker;
      ContainsAt(s, PendingMarker, |m| + 1);
    }
  }

  // ---------------------------------------------------------------------
  // Expected results and pass/fail rules

  /** The number at the head of an expected result, before "(" and with the
      unit removed: `float(expected.split('(')[0].replace(unit, '').strip())`;
      a missing expected result is "N/A", which is not a number. */
  function ExpectedValue(expected: Option<string>, unit: string): Option<real> {
    var e := if expected.Some? then expected.value else "N/A";
    var head := Split(e, "(")[0];
    ParseDecimal(if unit == "" then head else Replace(head, unit, ""))
  }

  /** A whole number followed by a note in parentheses reads as that
      number, as the leakage tables write their limits. */
  lemma {:induction false} ExpectedValueOfWhole(n: nat, note: string)
    ensures ExpectedValue(Some(NatString(n) + " (" + note), "") == Some(n as real)
  {
    var d := NatString(n);
    var e := NatString(n) + " (" + note;
    CharAbsent(d + " ", "(");
    assert e == (d + " ") + "(" + note;
    SplitAtFirst(d + " ", "(", note);
    StripTrailingBlank(d);
    ParseDecimalDigits(d + " ");
    DigitsValueNatString(n);
  }

  datatype Verdict = Pass | Fail

  function StatusText(v: Verdict): string {
    if v == Pass then "P" else "F"
  }

  /** CO2: a baseline passes within [0, expected], the CO2 flow at or above
      the expected value; other measurements set no status. */
  function Co2Verdict(measurement: string, average: real, expected: real): Option<Verdict> {
    if measurement == "baseline" || measurement == "return baseline" then
      Some(if 0.0 <= average <= expected then Pass else Fail)
    else if measurement == "CO2 flow" then Some(if expected <= average then Pass else Fail)
    else None
  }

  /** BME: a baseline passes at or below the expected value, breathing at
      or above it. */
  function BmeVerdict(measurement: string, value: real, expected: real): Option<Verdict> {
    if measurement == "baseline" then Some(if value <= expected then Pass else Fail)
    else if measurement == "breathing" then Some(if value >= expected then Pass else Fail)
    else None
  }

  /** `f.(status := ...)` when the rule gives a verdict; the field's status
      is left alone otherwise. */
  function WithVerdict(f: Field, v: Option<Verdict>): Field {
    if v.None? then f else f.(status := Some(StatusText(v.value)))
  }

  // ---------------------------------------------------------------------
  // Writing the fields of a table in place

  /** What one field's update leaves behind: the field as far as it was
      written, and the exception that stopped the loop, if any. */
  datatype Update = Update(field: Field, error: Option<string>)

  /** The fields after a `for field in fields:` pass, and its exception. */
  datatype Sweep = Sweep(fields: seq<Field>, error: Option<string>)

  /** A pass applying `rule` to every field in place: once a rule raises,
      that field keeps what was written before the exception and the later
      fields are left untouched. */
  function Fill(fields: seq<Field>, rule: Field -> Update): Sweep
    decreases |fields|
  {
    if fields == [] then Sweep([], None)
    else
      var before := Fill(fields[..|fields| - 1], rule);
      var last := fields[|fields| - 1];
      if before.error.Some? then Sweep(before.fields + [last], before.error)
      else Sweep(before.fields + [rule(last).field], rule(last).error)
  }

  /** Without an exception every field is replaced by its rule's result. */
  lemma {:induction false} FillCompletes(fields: seq<Field>, rule: Field -> Update)
    ensures |Fill(fields, rule).fields| == |fields|
    ensures Fill(fields, rule).error.None? <==> forall k :: 0 <= k < |fields| ==> rule(fields[k]).error.None?
    ensures Fill(fields, rule).error.None? ==>
      forall k :: 0 <= k < |fields| ==> Fill(fields, rule).fields[k] == rule(fields[k]).field
    decreases |fields|
  {
    if fields != [] {
      var init := fields[..|fields| - 1];
      FillCompletes(init, rule);
      assert forall k :: 0 <= k < |init| ==> init[k] == fields[k];
      if Fill(init, rule).error.Some? {
        var j :| 0 <= j < |init| && rule(init[j]).error.Some?;
        assert rule(fields[j]).error.Some?;
      }
    }
  }

  /** After the first exception the remaining fields pass through unchanged. */
  lemma {:induction false} FillAfterError(fields: seq<Field>, rule: Field -> Update, i: nat, j: nat)
    requires i < j <= |fields| && Fill(fields[..i + 1], rule).error.Some?
    ensures Fill(fields[..j], rule)
      == Sweep(Fill(fields[..i + 1], rule).fields + fields[i + 1..j], Fill(fields[..i + 1], rule).error)
    decreases j
  {
    if j > i + 1 {
      FillAfterError(fields, rule, i, j - 1);
      assert fields[..j][..j - 1] == fields[..j - 1];
      assert fields[i + 1..j] == fields[i + 1..j - 1] + [fields[j - 1]];
    } else {
      assert fields[i + 1..j] == [];
    }
  }

  /** The first exception stops the pass: the fields before it are
      updated, the field that raised keeps its partial update, and the
      fields after it are untouched. */
  lemma {:induction false} FillStops(fields: seq<Field>, rule: Field -> Update, i: nat)
    requires i < |fields| && rule(fields[i]).error.Some?
    requires forall k :: 0 <= k < i ==> rule(fields[k]).error.None?
    ensures var s := Fill(fields, rule);
      |s.fields| == |fields| && s.error == rule(fields[i]).error
      && (forall k :: 0 <= k < i ==> s.fields[k] == rule(fields[k]).field)
      && s.fields[i] == rule(fields[i]).field
      && (forall k :: i < k < |fields| ==> s.fields[k] == fields[k])
  {
    var init := fields[..i];
    assert forall k :: 0 <= k < i ==> init[k] == fields[k];
    FillCompletes(init, rule);
    assert fields[..i + 1][..i] == init;
    var head := Fill(fields[..i + 1], rule);
    assert head == Sweep(Fill(init, rule).fields + [rule(fields[i]).field], rule(fields[i]).error);
    FillAfterError(fields, rule, i, |fields|);
    assert fields[..|fields|] == fields;
    var s := Fill(fields, rule);
    assert s.fields == head.fields + fields[i + 1..];
    forall k | 0 <= k < i ensures s.fields[k] == rule(fields[k]).field {
      assert s.fields[k] == Fill(init, rule).fields[k];
    }
    forall k | i < k < |fields| ensures s.fields[k] == fields[k] {
      assert s.fields[k] == fields[i + 1..][k - i - 1];
    }
  }

  // ---------------------------------------------------------------------
  // The measurement rules of `_handle_sensor_measurement`

  const Co2Prefix: string := "Co2 concen."

  function Co2FieldName(measurement: string): string {
    Co2Prefix + "(" + measurement + ")"
  }

  /** The CO2 rule on one field: the field named for the measurement gets
      the average in ppm, and a status when the measurement has a rule. */
  function Co2Field(measurement: string, average: Option<real>, f: Field): (u: Update)
    ensures u.field.name == f.name && u.field.expected == f.expected
    ensures f.name != Co2FieldName(measurement) ==> u == Update(f, None)
    ensures f.name == Co2FieldName(measurement) ==>
      (u.error.None? <==> average.Some? && ExpectedValue(f.expected, "ppm").Some?)
    ensures f.name == Co2FieldName(measurement) && average.Some? ==>
      u.field.entry == Some(Shown(average.value, "ppm"))
    ensures f.name == Co2FieldName(measurement) && average.Some? && u.error.None?
         && (measurement == "baseline" || measurement == "return baseline")
      ==> (u.field.status == Some("P") <==> 0.0 <= average.value <= ExpectedValue(f.expected, "ppm").value)
    ensures f.name == Co2FieldName(measurement) && average.Some? && u.error.None?
         && measurement == "CO2 flow"
      ==> (u.field.status == Some("P") <==> ExpectedValue(f.expected, "ppm").value <= average.value)
  {
    if f.name != Co2FieldName(measurement) then Update(f, None)
    else if average.None? then Update(f, Some("TypeError"))
    else
      var shown := f.(entry := Some(Shown(average.value, "ppm")));
      match ExpectedValue(f.expected, "ppm")
      case None => Update(shown, Some("ValueError"))
      case Some(e) => Update(WithVerdict(shown, Co2Verdict(measurement, average.value, e)), None)
  }

  /** The BME rule on one field: `Temperature(m)` gets the temperature in
      C and `Humidity(m)` the humidity in %, each with its status. */
  function BmeField(measurement: string, temperature: real, humidity: real, f: Field): (u: Update)
    ensures u.field.name == f.name && u.field.expected == f.expected
    ensures f.name != "Temperature(" + measurement + ")" && f.name != "Humidity(" + measurement + ")" ==>
      u == Update(f, None)
    ensures f.name == "Temperature(" + measurement + ")" ==>
      u.field.entry == Some(Shown(temperature, "C")) && (u.error.None? <==> ExpectedValue(f.expected, "C").Some?)
    ensures f.name == "Humidity(" + measurement + ")" ==>
      u.field.entry == Some(Shown(humidity, "%")) && (u.error.None? <==> ExpectedValue(f.expected, "%").Some?)
    ensures f.name == "Temperature(" + measurement + ")" && u.error.None? && measurement == "baseline" ==>
      (u.field.status == Some("P") <==> temperature <= ExpectedValue(f.expected, "C").value)
    ensures f.name == "Temperature(" + measurement + ")" && u.error.None? && measurement == "breathing" ==>
      (u.field.status == Some("P") <==> temperature >= ExpectedValue(f.expected, "C").value)
    ensures f.name == "Humidity(" + measurement + ")" && u.error.None? && measurement == "baseline" ==>
      (u.field.status == Some("P") <==> humidity <= ExpectedValue(f.expected, "%").value)
    ensures f.name == "Humidity(" + measurement + ")" && u.error.None? && measurement == "breathing" ==>
      (u.field.status == Some("P") <==> humidity >= ExpectedValue(f.expected, "%").value)
  {
    if f.name == "Temperature(" + measurement + ")" then
      var shown := f.(entry := Some(Shown(temperature, "C")));
      match ExpectedValue(f.expected, "C")
      case None => Update(shown, Some("ValueError"))
      case Some(e) => Update(WithVerdict(shown, BmeVerdict(measurement, temperature, e)), None)
    else if f.name == "Humidity(" + measurement + ")" then
      var shown := f.(entry := Some(Shown(humidity, "%")));
      match ExpectedValue(f.expected, "%")
      case None => Update(shown, Some("ValueError"))
      case Some(e) => Update(WithVerdict(shown, BmeVerdict(measurement, humidity, e)), None)
    else Update(f, None)
  }

  /** The text before the first "(" of the expected result, stripped. */
  function ExpectedText(expected: Option<string>): string {
    Strip(Split(if expected.Some? then expected.value else "N/A", "(")[0])
  }

  const SwitchSequence: string := "0 1 0"

  /** A limit switch that saw its three changes reads "0 1 0" and passes
      exactly when that is what the table expects. */
  function SwitchPassed(digit: char, f: Field): (u: Update)
    ensures u.error.None? && u.field.name == f.name
    ensures f.name != "Limit Switch " + [digit] ==> u.field == f
    ensures f.name == "Limit Switch " + [digit] ==>
      u.field.entry == Some(Typed(SwitchSequence))
      && (u.field.status == Some("P") <==> ExpectedText(f.expected) == SwitchSequence)
  {
    if f.name != "Limit Switch " + [digit] then Update(f, None)
    else
      Update(f.(entry := Some(Typed(SwitchSequence)),
                status := Some(if SwitchSequence == ExpectedText(f.expected) then "P" else "F")), None)
  }

  /** A limit switch that ran out of attempts reads "FAIL" and fails. */
  function SwitchFailed(digit: char, f: Field): (u: Update)
    ensures u.error.None? && u.field.name == f.name
    ensures f.name != "Limit Switch " + [digit] ==> u.field == f
    ensures f.name == "Limit Switch " + [digit] ==>
      u.field.entry == Some(Typed("FAIL")) && u.field.status == Some("F")
  {
    if f.name != "Limit Switch " + [digit] then Update(f, None)
    else Update(f.(entry := Some(Typed("FAIL")), status := Some("F")), None)
  }

  /** The limit-switch rows of the tables expect "0 1 0 (...)", so a switch
      that saw its three changes passes. */
  lemma {:induction false} SwitchPassesOnTable(digit: char, f: Field, note: string)
    requires f.name == "Limit Switch " + [digit] && f.expected == Some(SwitchSequence + " (" + note)
    ensures SwitchPassed(digit, f).field.status == Some("P")
  {
    var head := SwitchSequence + " ";
    assert f.expected.value == head + "(" + note;
    CharAbsent(head, "(");
    SplitAtFirst(head, "(", note);
    StripTrailingBlank(SwitchSequence);
  }

  /** A normal return of the limit-switch loop always reaches one of the
      two branches that set the field: the branch that reports the test
      as unfinished is never taken. */
  lemma {:induction false} SwitchNeverUnfinished(states: nat -> Option<int>)
    ensures var r := Firmware.SwitchLoop(states, 0, None, 0);
      r.Some? ==> r.value.count == 3 || r.value.attempts >= 10
  {
    Firmware.SwitchOutcome(states);
  }

  /** `f"{a}, {b}, {c}"` of the sensor-board counts. */
  function CountsEntry(b: Firmware.Board): string {
    NatString(b.totalValues) + ", " + NatString(b.totalSensing) + ", " + NatString(b.saturated)
  }

  /** `int(x.strip())` over a list, raising at the first failure. */
  function Ints(parts: seq<string>): (r: Result<seq<int>>)
    ensures r.Ok? ==> |r.value| == |parts|
    decreases |parts|
  {
    if parts == [] then Ok([])
    else
      match Ints(parts[..|parts| - 1])
      case Raised(e) => Raised(e)
      case Ok(init) =>
        match ParseInt(parts[|parts| - 1])
        case None => Raised("ValueError")
        case Some(n) => Ok(init + [n])
  }

  lemma {:induction false} IntsSnoc(parts: seq<string>, p: string, ns: seq<int>, n: int)
    requires Ints(parts) == Ok(ns) && ParseInt(p) == Some(n)
    ensures Ints(parts + [p]) == Ok(ns + [n])
  {
    assert (parts + [p])[..|parts|] == parts;
  }

  /** `[int(x.strip()) for x in s.split(',')]`. */
  function ParseCounts(s: string): Result<seq<int>> {
    Ints(Split(s, ","))
  }

  /** The counts entry splits at its two commas. */
  lemma {:induction false} CountsParts(b: Firmware.Board)
    ensures Split(CountsEntry(b), ",")
      == [NatString(b.totalValues), " " + NatString(b.totalSensing), " " + NatString(b.saturated)]
  {
    var x, y, z := NatString(b.totalValues), NatString(b.totalSensing), NatString(b.saturated);
    var rest := " " + y + ", " + z;
    assert CountsEntry(b) == x + "," + rest;
    assert rest == (" " + y) + "," + (" " + z);
    CharAbsent(x, ",");
    CharAbsent(" " + y, ",");
    CharAbsent(" " + z, ",");
    SplitAtFirst(x, ",", rest);
    SplitAtFirst(" " + y, ",", " " + z);
    assert Split(" " + z, ",") == [" " + z];
    calc {
      Split(CountsEntry(b), ",");
      [x] + Split(rest, ",");
      [x] + ([" " + y] + Split(" " + z, ","));
      [x, " " + y, " " + z];
    }
  }

  /** A number after one blank, as `int(x.strip())` sees it past a comma. */
  lemma {:induction false} ParseIntPadded(n: nat)
    ensures ParseInt(" " + NatString(n)) == Some(n)
  {
    StripLeadingBlank(NatString(n));
    ParseIntNatString(n);
  }

  /** The counts written into the functionality field read back as the
      same three numbers. */
  lemma {:induction false} CountsRoundTrip(b: Firmware.Board)
    ensures ParseCounts(CountsEntry(b)) == Ok([b.totalValues, b.totalSensing, b.saturated])
  {
    var x, y, z := NatString(b.totalValues), " " + NatString(b.totalSensing), " " + NatString(b.saturated);
    CountsParts(b);
    ParseIntNatString(b.totalValues);
    ParseIntPadded(b.totalSensing);
    ParseIntPadded(b.saturated);
    var a, c, d: int := b.totalValues, b.totalSensing, b.saturated;
    assert Ints([]) == Ok([]);
    IntsSnoc([], x, [], a);
    assert [] + [x] == [x] && [] + [a] == [a];
    IntsSnoc([x], y, [a], c);
    assert [x] + [y] == [x, y] && [a] + [c] == [a, c];
    IntsSnoc([x, y], z, [a, c], d);
    assert [x, y] + [z] == [x, y, z] && [a, c] + [d] == [a, c, d];
  }

  /** The functionality verdict: the first two counts must equal the
      expected ones and the saturated count must not exceed its limit. */
  function BoardFunctionality(b: Firmware.Board, expected: Option<string>): Result<Verdict> {
    match ParseCounts(ExpectedText(expected))
    case Raised(e) => Raised(e)
    case Ok(x) =>
      match ParseCounts(CountsEntry(b))
      case Raised(e) => Raised(e)
      case Ok(a) => CountsVerdict(a, x)
  }

  /** `actual[:2] == expected[:2]` and `actual[2] <= expected[2]`. */
  function CountsVerdict(actual: seq<int>, expected: seq<int>): Result<Verdict> {
    if |actual| < 3 || |expected| < 3 then Raised("IndexError")
    else Ok(if actual[..2] == expected[..2] && actual[2] <= expected[2] then Pass else Fail)
  }

  lemma {:induction false} CountsVerdictMeans(a: seq<int>, x: seq<int>)
    requires |a| == 3
    ensures CountsVerdict(a, x).Ok? <==> |x| >= 3
    ensures |x| >= 3 ==> (CountsVerdict(a, x) == Ok(Pass) <==> a[0] == x[0] && a[1] == x[1] && a[2] <= x[2])
  {
    if |x| >= 3 && a[0] == x[0] && a[1] == x[1] {
      assert a[..2] == [a[0], a[1]] == [x[0], x[1]] == x[..2];
    }
  }

  /** Against an expectation of three counts, the board passes exactly when
      its total and sensing counts match and it saturated no more often than
      allowed; fewer than three expected counts raise. */
  lemma {:induction false} BoardFunctionalityMeans(b: Firmware.Board, expected: Option<string>)
    requires ParseCounts(ExpectedText(expected)).Ok?
    ensures var x := ParseCounts(ExpectedText(expected)).value;
      (BoardFunctionality(b, expected).Ok? <==> |x| >= 3)
      && (|x| >= 3 ==> (BoardFunctionality(b, expected) == Ok(Pass) <==>
            b.totalValues == x[0] && b.totalSensing == x[1] && b.saturated <= x[2]))
  {
    CountsRoundTrip(b);
    CountsVerdictMeans([b.totalValues, b.totalSensing, b.saturated], ParseCounts(ExpectedText(expected)).value);
  }

  /** The sensor-board rule on one field. */
  function BoardField(b: Firmware.Board, f: Field): (u: Update)
    ensures u.field.name == f.name && u.field.expected == f.expected
    ensures f.name == "Sensor Board Serial Number" ==> u == Update(f.(entry := Some(Typed(b.serial))), None)
    ensures f.name == "Sensor Board Functionality" ==>
      u.field.entry == Some(Typed(CountsEntry(b)))
      && (u.error.None? <==> BoardFunctionality(b, f.expected).Ok?)
      && (u.error.None? ==> (u.field.status == Some("P") <==> BoardFunctionality(b, f.expected) == Ok(Pass)))
    ensures f.name == "BME in Sensor Board Temperature" ==>
      u.field.entry == Some(Shown(b.temperature, "C"))
      && (u.error.None? <==> ExpectedValue(f.expected, "C").Some?)
      && (u.error.None? ==> (u.field.status == Some("P") <==> b.temperature <= ExpectedValue(f.expected, "C").value))
    ensures f.name == "BME in Sensor Board Humidity" ==>
      u.field.entry == Some(Shown(b.humidity, "%"))
      && (u.error.None? <==> ExpectedValue(f.expected, "%").Some?)
      && (u.error.None? ==> (u.field.status == Some("P") <==> b.humidity <= ExpectedValue(f.expected, "%").value))
    ensures f.name !in BoardFieldNames ==> u == Update(f, None)
  {
    if f.name == "Sensor Board Serial Number" then Update(f.(entry := Some(Typed(b.serial))), None)
    else if f.name == "Sensor Board Functionality" then
      var shown := f.(entry := Some(Typed(CountsEntry(b))));
      match BoardFunctionality(b, f.expected)
      case Raised(e) => Update(shown, Some(e))
      case Ok(v) => Update(WithVerdict(shown, Some(v)), None)
    else if f.name == "BME in Sensor Board Temperature" then
      var shown := f.(entry := Some(Shown(b.temperature, "C")));
      match ExpectedValue(f.expected, "C")
      case None => Update(shown, Some("ValueError"))
      case Some(e) => Update(WithVerdict(shown, Some(if b.temperature <= e then Pass else Fail)), None)
    else if f.name == "BME in Sensor Board Humidity" then
      var shown := f.(entry := Some(Shown(b.humidity, "%")));
      match ExpectedValue(f.expected, "%")
      case None => Update(shown, Some("ValueError"))
      case Some(e) => Update(WithVerdict(shown, Some(if b.humidity <= e then Pass else Fail)), None)
    else Update(f, None)
  }

  const BoardFieldNames: seq<string> := [
    "Sensor Board Serial Number", "Sensor Board Functionality",
    "BME in Sensor Board Temperature", "BME in Sensor Board Humidity"
  ]

  /** The LED rule: the operator's answer decides the entry and status. */
  function LedField(prefix: string, working: bool, f: Field): (u: Update)
    ensures u.error.None? && u.field.name == f.name
    ensures f.name != prefix + " functionality" ==> u.field == f
    ensures f.name == prefix + " functionality" ==>
      u.field.entry == Some(Typed(if working then "PASS" else "FAIL"))
      && (u.field.status == Some("P") <==> working)
  {
    if f.name != prefix + " functionality" then Update(f, None)
    else
      var answer := if working then "PASS" else "FAIL";
      Update(f.(entry := Some(Typed(answer)), status := Some(if answer == "PASS" then "P" else "F")), None)
  }

  /** The servo positions in the order the handler visits them. */
  const ServoAngles: seq<(nat, string)> := [(90, "Home Position"), (135, "Hit Left LS"), (45, "Hit Right LS")]

  function ServoFieldName(motor: char, position: string): string {
    "Servo Motor " + [motor] + " (" + position + ")"
  }

  /** Marks only the first field with the given name as passed, with the
      given entry, as the inner loop's `break` does. */
  function SetFirst(fields: seq<Field>, name: string, entry: string): (r: seq<Field>)
    ensures |r| == |fields|
    ensures forall k :: 0 <= k < |fields| && r[k] != fields[k] ==>
      fields[k].name == name && forall j :: 0 <= j < k ==> fields[j].name != name
    ensures forall k :: 0 <= k < |fields| && fields[k].name == name && (forall j :: 0 <= j < k ==> fields[j].name != name) ==>
      r[k] == fields[k].(entry := Some(Typed(entry)), status := Some("P"))
    decreases |fields|
  {
    if fields == [] then []
    else if fields[0].name == name then [fields[0].(entry := Some(Typed(entry)), status := Some("P"))] + fields[1..]
    else
      var rest := SetFirst(fields[1..], name, entry);
      assert forall k :: 1 <= k < |fields| ==> fields[k] == fields[1..][k - 1];
      [fields[0]] + rest
  }

  // ---------------------------------------------------------------------
  // The leakage and pump rules of `display_table`

  const PumpField: string := "Pump Flow Rate in ccm"

  const LeakageFields: seq<string> := [
    "MP + BPV Leakage %",
    "Leakage of Capnogram in %",
    "Leakage of Flow Diversion Valve in %",
    PumpField,
    "Leakage of BFU in %",
    "Leakage of System in %"
  ]

  function Abs(x: real): real { if x < 0.0 then -x else x }

  /** `abs((1 - avg2 / avg1) * 100)`: the share of the first meter's flow
      that the second meter does not see, in percent. */
  function LeakagePercent(avg1: real, avg2: real): (r: Result<real>)
    ensures r.Raised? <==> avg1 == 0.0
    ensures r.Ok? ==> r.value >= 0.0 && (r.value == 0.0 <==> avg2 == avg1)
    ensures r.Ok? ==> r.value * Abs(avg1) == 100.0 * Abs(avg1 - avg2)
  {
    if avg1 == 0.0 then Raised("ZeroDivisionError")
    else
      var q := avg2 / avg1;
      assert q == 1.0 <==> avg2 == avg1;
      assert (1.0 - q) * 100.0 * avg1 == 100.0 * (avg1 - avg2);
      assert Abs((1.0 - q) * 100.0) * Abs(avg1) == Abs((1.0 - q) * 100.0 * avg1);
      Ok(Abs((1.0 - q) * 100.0))
  }

  /** A leakage field passes within [0, limit]; the pump-flow field instead
      passes when the first meter's average is within 10 ccm of the
      expected rate.  Other fields take what the operator types. */
  function LeakageField(leak: real, avg1: real, answer: string, f: Field): (g: Field)
    ensures g.name == f.name && g.expected == f.expected
    ensures f.name !in LeakageFields ==> g == f.(entry := Some(Typed(answer)))
    ensures f.name in LeakageFields && f.name != PumpField && ExpectedValue(f.expected, "").Some? ==>
      g.entry == Some(Shown(leak, ""))
      && (g.status == Some("P") <==> 0.0 <= leak <= ExpectedValue(f.expected, "").value)
    ensures f.name == PumpField && ExpectedValue(f.expected, "").Some? ==>
      g.entry == Some(Shown(avg1, ""))
      && (g.status == Some("P") <==> Abs(avg1 - ExpectedValue(f.expected, "").value) <= 10.0)
  {
    if f.name !in LeakageFields then f.(entry := Some(Typed(answer)))
    else match ExpectedValue(f.expected, "")
      case None => f
      case Some(e) =>
        var g := f.(status := Some(if 0.0 <= leak <= e then "P" else "F"), entry := Some(Shown(leak, "")));
        if f.name == PumpField then
          g.(status := Some(if e - 10.0 <= avg1 <= e + 10.0 then "P" else "F"), entry := Some(Shown(avg1, "")))
        else g
  }

  /** The leakage branch of `display_table`: the program exits (Raised)
      when the first meter averaged zero or a leakage field's limit does
      not read as a number; otherwise every field is filled. */
  function LeakageTable(fields: seq<Field>, avg1: real, avg2: real, answers: string -> string): Result<seq<Field>> {
    match LeakagePercent(avg1, avg2)
    case Raised(e) => Raised(e)
    case Ok(leak) =>
      if exists k :: 0 <= k < |fields| && fields[k].name in LeakageFields && ExpectedValue(fields[k].expected, "").None? then
        Raised("ValueError")
      else Ok(seq(|fields|, k requires 0 <= k < |fields| => LeakageField(leak, avg1, answers(fields[k].name), fields[k])))
  }

  /** The leakage branch completes exactly when the first meter saw flow and
      every leakage field's limit is a number; every field then carries its
      verdict and nothing else is rearranged. */
  lemma {:induction false} LeakageTableMeans(fields: seq<Field>, avg1: real, avg2: real, answers: string -> string)
    ensures LeakageTable(fields, avg1, avg2, answers).Ok? <==>
      avg1 != 0.0 && forall k :: 0 <= k < |fields| && fields[k].name in LeakageFields ==> ExpectedValue(fields[k].expected, "").Some?
    ensures LeakageTable(fields, avg1, avg2, answers).Ok? ==>
      var r := LeakageTable(fields, avg1, avg2, answers).value;
      |r| == |fields| && forall k :: 0 <= k < |fields| ==>
        (r[k].name == fields[k].name
         && (fields[k].name in LeakageFields && fields[k].name != PumpField ==>
               (r[k].status == Some("P") <==> 0.0 <= LeakagePercent(avg1, avg2).value <= ExpectedValue(fields[k].expected, "").value))
         && (fields[k].name == PumpField ==>
               (r[k].status == Some("P") <==> Abs(avg1 - ExpectedValue(fields[k].expected, "").value) <= 10.0)))
  {
    if LeakageTable(fields, avg1, avg2, answers).Ok? {
      var leak := LeakagePercent(avg1, avg2).value;
      var r := LeakageTable(fields, avg1, avg2, answers).value;
      forall k | 0 <= k < |fields|
        ensures r[k] == LeakageField(leak, avg1, answers(fields[k].name), fields[k])
      {
      }
    }
  }

  // ---------------------------------------------------------------------
  // The manual branch of `display_table`

  /** A field typed in by the operator: a non-empty answer replaces the
      entry, and "P" or "F" (after strip and upper) replaces the status.
      The flag says whether anything was written. */
  function ManualField(f: Field, entryAnswer: string, statusAnswer: string): (r: (Field, bool))
    ensures r.0.name == f.name && r.0.expected == f.expected
    ensures r.0.entry == (if f.entry.Some? && entryAnswer != "" then Some(Typed(entryAnswer)) else f.entry)
    ensures r.0.status == (if f.status.Some? && Upper(Strip(statusAnswer)) in ["P", "F"] then Some(Upper(Strip(statusAnswer))) else f.status)
    ensures r.1 <==> r.0 != f || (f.entry.Some? && entryAnswer != "") || (f.status.Some? && Upper(Strip(statusAnswer)) in ["P", "F"])
  {
    var written := f.entry.Some? && entryAnswer != "";
    var g := if written then f.(entry := Some(Typed(entryAnswer))) else f;
    var s := Upper(Strip(statusAnswer));
    if f.status.Some? && (s == "P" || s == "F") then (g.(status := Some(s)), true)
    else (g, written)
  }

  // ---------------------------------------------------------------------
  // The "Complete Testing" gate

  const OperatorFields: seq<string> := ["Name", "Date", "Motherboard Serial Number", "Remark"]

  /** `field.get("user_entry")` is truthy: present and not empty. */
  predicate Filled(e: Option<Entry>) {
    e.Some? && (e.value.Shown? || e.value.text != "")
  }

  /** `all(field.get("user_entry") for field in fields if name not in ...)`. */
  function AllFieldsFilled(fields: seq<Field>): bool
    decreases |fields|
  {
    if fields == [] then true
    else
      var last := fields[|fields| - 1];
      AllFieldsFilled(fields[..|fields| - 1]) && (last.name in OperatorFields || Filled(last.entry))
  }

  /** The gate opens exactly when every field other than the four the
      operator fills at the end has an entry. */
  lemma {:induction false} AllFieldsFilledIff(fields: seq<Field>)
    ensures AllFieldsFilled(fields) <==>
      forall k :: 0 <= k < |fields| && fields[k].name !in OperatorFields ==> Filled(fields[k].entry)
    decreases |fields|
  {
    if fields != [] {
      var init := fields[..|fields| - 1];
      AllFieldsFilledIff(init);
      assert forall k :: 0 <= k < |init| ==> init[k] == fields[k];
    }
  }

  // ---------------------------------------------------------------------
  // The manager

  /** `measurement_type.lower().replace(' ', '_')`. */
  function MeasurementKey(measurement: string): string {
    Replace(Lower(measurement), " ", "_")
  }

  /** What a measurement that was taken returns: True, or the exception a
      field update raised. */
  function Handled(error: Option<string>): (r: Result<bool>)
    ensures r.Ok? <==> error.None?
    ensures r.Ok? ==> r.value
  {
    if error.None? then Ok(true) else Raised(error.value)
  }

  /** The servo handler's three passes, one per position, after `i` of them. */
  function ServoSteps(fields: seq<Field>, motor: char, i: nat): seq<Field>
    requires i <= |ServoAngles|
  {
    if i == 0 then fields
    else
      var (angle, position) := ServoAngles[i - 1];
      SetFirst(ServoSteps(fields, motor, i - 1), ServoFieldName(motor, position), NatString(angle) + "Â°")
  }

  /** The messages `display_table` can end with, by `check_test_type`. */
  function SummaryFor(st: seq<Status>, checkType: string): Result<string> {
    if checkType == "1" then Ok(CompletionSummary1(st))
    else if checkType == "2" then CompletionSummary2(st)
    else Raised("ValueError")
  }

  class TestManager {
    var co2Values: map<string, seq<real>>
    var temperature: map<string, seq<real>>
    var humidity: map<string, seq<real>>
    var allTestStatus: seq<Status>
    var updatedTables: seq<Table>
    var deviceSerialNumber: string
    var previousCompletedTests: seq<string>
    var previousTestNote: string
    var currentTable: Table

    /** Each title appears once in the status map. */
    predicate Valid()
      reads this
    {
      Distinct(Titles(allTestStatus))
    }

    constructor()
      ensures Valid() && allTestStatus == InitialStatus()
      ensures co2Values == map["baseline" := [], "CO2 flow" := [], "return baseline" := []]
      ensures temperature == map["baseline" := [], "breathing" := []] && humidity == temperature
      ensures updatedTables == [] && deviceSerialNumber == ""
      ensures previousCompletedTests == [] && previousTestNote == ""
    {
      co2Values := map["baseline" := [], "CO2 flow" := [], "return baseline" := []];
      temperature := map["baseline" := [], "breathing" := []];
      humidity := map["baseline" := [], "breathing" := []];
      allTestStatus := InitialStatus();
      updatedTables := [];
      deviceSerialNumber := "";
      previousCompletedTests := [];
      previousTestNote := "";
      currentTable := Table("", []);
      InitialStatusShape();
    }

    method SetDeviceSerialNumber(serialNumber: string)
      modifies this`deviceSerialNumber
      ensures deviceSerialNumber == serialNumber
    {
      deviceSerialNumber := serialNumber;
    }

    method SetPreviousTestNote(note: string)
      modifies this`previousTestNote
      ensures previousTestNote == note
    {
      previousTestNote := note;
    }

    /** Records the names and marks those that are tables as completed. */
    method SetPreviousCompletedTests(completedTests: seq<string>)
      requires Valid()
      modifies this`previousCompletedTests, this`allTestStatus
      ensures Valid()
      ensures previousCompletedTests == completedTests
      ensures allTestStatus == MarkKnown(old(allTestStatus), completedTests)
    {
      previousCompletedTests := completedTests;
      var i := 0;
      while i < |completedTests|
        invariant 0 <= i <= |completedTests|
        invariant allTestStatus == MarkKnown(old(allTestStatus), completedTests[..i])
        invariant Valid() && previousCompletedTests == completedTests
      {
        var test := completedTests[i];
        assert completedTests[..i + 1][..i] == completedTests[..i];
        if test in Titles(allTestStatus) {
          MarkCompletedMeans(allTestStatus, test);
          allTestStatus := MarkCompleted(allTestStatus, test);
        }
        i := i + 1;
      }
      assert completedTests[..i] == completedTests;
    }

    /** One `for field in self.current_table["fields"]` pass of `rule`,
        written into the fields in place. */
    method FillCurrentTable(rule: Field -> Update) returns (error: Option<string>)
      modifies this`currentTable
      ensures var s := Fill(old(currentTable.fields), rule);
        currentTable == old(currentTable).(fields := s.fields) && error == s.error
    {
      var fields := currentTable.fields;
      var done: seq<Field> := [];
      var i := 0;
      while i < |fields|
        invariant 0 <= i <= |fields| && currentTable == old(currentTable)
        invariant Fill(fields[..i], rule) == Sweep(done, None)
      {
        var u := rule(fields[i]);
        assert fields[..i + 1][..i] == fields[..i];
        if u.error.Some? {
          FillAfterError(fields, rule, i, |fields|);
          assert fields[..|fields|] == fields;
          currentTable := currentTable.(fields := done + [u.field] + fields[i + 1..]);
          return u.error;
        }
        done := done + [u.field];
        i := i + 1;
      }
      assert fields[..i] == fields;
      currentTable := currentTable.(fields := done);
      return None;
    }

    /** A CO2 measurement: the readings are stored under the measurement's
        key and the matching field gets the average and its verdict. */
    method MeasureCo2(measurement: string, reading: Option<Firmware.Co2Reading>) returns (r: Result<bool>)
      modifies this`co2Values, this`currentTable
      ensures reading.None? ==> r == Ok(false) && co2Values == old(co2Values) && currentTable == old(currentTable)
      ensures reading.Some? ==>
        co2Values == old(co2Values)[MeasurementKey(measurement) := reading.value.values]
        && var s := Fill(old(currentTable.fields), f => Co2Field(measurement, reading.value.average, f));
           currentTable == old(currentTable).(fields := s.fields) && r == Handled(s.error)
    {
      if reading.None? {
        return Ok(false);
      }
      co2Values := co2Values[MeasurementKey(measurement) := reading.value.values];
      var error := FillCurrentTable(f => Co2Field(measurement, reading.value.average, f));
      r := Handled(error);
    }

    /** A BME measurement: both lists are stored under the measurement's
        key and the temperature and humidity fields get their verdicts. */
    method MeasureBme(measurement: string, reading: Option<Firmware.BmeReading>) returns (r: Result<bool>)
      modifies this`temperature, this`humidity, this`currentTable
      ensures reading.None? ==>
        r == Ok(false) && temperature == old(temperature) && humidity == old(humidity)
        && currentTable == old(currentTable)
      ensures reading.Some? ==>
        temperature == old(temperature)[MeasurementKey(measurement) := reading.value.temperatures]
        && humidity == old(humidity)[MeasurementKey(measurement) := reading.value.humidities]
        && var s := Fill(old(currentTable.fields),
                         f => BmeField(measurement, reading.value.temperature, reading.value.humidity, f));
           currentTable == old(currentTable).(fields := s.fields) && r == Handled(s.error)
    {
      if reading.None? {
        return Ok(false);
      }
      var b := reading.value;
      temperature := temperature[MeasurementKey(measurement) := b.temperatures];
      humidity := humidity[MeasurementKey(measurement) := b.humidities];
      var error := FillCurrentTable(f => BmeField(measurement, b.temperature, b.humidity, f));
      r := Handled(error);
    }

    /** A limit switch ("LS1" to "LS4"): three changes pass it, ten attempts
        fail it; a failed read compares None with 10 and raises. */
    method TestLimitSwitch(sensorType: string, outcome: Option<Firmware.SwitchCount>) returns (r: Result<bool>)
      requires |sensorType| >= 3
      modifies this`currentTable
      ensures outcome.None? ==> r == Raised("TypeError") && currentTable == old(currentTable)
      ensures outcome.Some? && outcome.value.count == 3 ==>
        r == Ok(true) && currentTable == old(currentTable).(fields := Fill(old(currentTable.fields), f => SwitchPassed(sensorType[2], f)).fields)
      ensures outcome.Some? && outcome.value.count != 3 && outcome.value.attempts >= 10 ==>
        r == Ok(true) && currentTable == old(currentTable).(fields := Fill(old(currentTable.fields), f => SwitchFailed(sensorType[2], f)).fields)
      ensures outcome.Some? && outcome.value.count != 3 && outcome.value.attempts < 10 ==>
        r == Raised("UnboundLocalError") && currentTable == old(currentTable)
    {
      if outcome.None? {
        return Raised("TypeError");
      }
      var digit := sensorType[2];
      if outcome.value.count == 3 {
        FillCompletes(currentTable.fields, f => SwitchPassed(digit, f));
        var error := FillCurrentTable(f => SwitchPassed(digit, f));
        return Ok(true);
      } else if outcome.value.attempts >= 10 {
        FillCompletes(currentTable.fields, f => SwitchFailed(digit, f));
        var error := FillCurrentTable(f => SwitchFailed(digit, f));
        return Ok(true);
      }
      return Raised("UnboundLocalError");
    }

    /** A servo ("SERVO1" or "SERVO2"): once the board answers, the first
        field of each of the three positions is marked passed with its
        fixed angle, whatever angle the board reported. */
    method TestServo(sensorType: string, angle: Option<real>) returns (r: bool)
      requires |sensorType| >= 1
      modifies this`currentTable
      ensures r <==> angle.Some?
      ensures currentTable == old(currentTable).(fields :=
        if angle.Some? then ServoSteps(old(currentTable.fields), sensorType[|sensorType| - 1], |ServoAngles|)
        else old(currentTable.fields))
    {
      if angle.None? {
        return false;
      }
      var motor := sensorType[|sensorType| - 1];
      for i := 0 to |ServoAngles|
        invariant currentTable == old(currentTable).(fields := ServoSteps(old(currentTable.fields), motor, i))
      {
        var (degrees, position) := ServoAngles[i];
        currentTable := currentTable.(fields :=
          SetFirst(currentTable.fields, ServoFieldName(motor, position), NatString(degrees) + "Â°"));
      }
      return true;
    }

    /** An LED ("LED 1" or "LED 2"): when it blinked, the operator's answer
        decides its functionality field. */
    method TestLed(prefix: string, blinked: bool, working: bool) returns (r: bool)
      modifies this`currentTable
      ensures r == blinked
      ensures currentTable == old(currentTable).(fields :=
        if blinked then Fill(old(currentTable.fields), f => LedField(prefix, working, f)).fields
        else old(currentTable.fields))
    {
      if !blinked {
        return false;
      }
      FillCompletes(currentTable.fields, f => LedField(prefix, working, f));
      var error := FillCurrentTable(f => LedField(prefix, working, f));
      return true;
    }

    /** The sensor board: its serial, counts and BME readings go into the
        four board fields. */
    method TestSensorBoard(data: Result<Option<Firmware.Board>>) returns (r: Result<bool>)
      modifies this`currentTable
      ensures data.Raised? ==> r == Raised(data.error) && currentTable == old(currentTable)
      ensures data == Ok(None) ==> r == Ok(false) && currentTable == old(currentTable)
      ensures data.Ok? && data.value.Some? ==>
        var s := Fill(old(currentTable.fields), f => BoardField(data.value.value, f));
        currentTable == old(currentTable).(fields := s.fields) && r == Handled(s.error)
    {
      if data.Raised? {
        return Raised(data.error);
      }
      if data.value.None? {
        return Ok(false);
      }
      var b := data.value.value;
      var error := FillCurrentTable(f => BoardField(b, f));
      r := Handled(error);
    }

    /** The end of `display_table`: an updated table is kept for the
        report, the table's title is marked completed whether or not it
        was updated, and the summary of the chosen kind is built. */
    method RecordTable(table: Table, updated: bool, checkType: string) returns (summary: Result<string>)
      requires Valid()
      modifies this`updatedTables, this`allTestStatus
      ensures Valid()
      ensures updatedTables == old(updatedTables) + (if updated then [table] else [])
      ensures allTestStatus == MarkCompleted(old(allTestStatus), table.title)
      ensures summary == SummaryFor(allTestStatus, checkType)
    {
      if updated {
        updatedTables := updatedTables + [table];
      }
      MarkCompletedMeans(allTestStatus, table.title);
      allTestStatus := MarkCompleted(allTestStatus, table.title);
      summary := SummaryFor(allTestStatus, checkType);
    }
  }
}
