# Breathalyzer test bench: a verified model of its core logic

This project models the decision logic of a breathalyzer production test
bench and proves properties of it. The bench has four parts:

- **Breath-profile replay** (`Replay`, `replay.dfy`). A recorded breath profile
  is replayed on two mass-flow controllers (MFCs). Each usable row is clamped to
  [0, 20000] sccm. The rule looks `lookahead` rows ahead and overdrives a large
  step by `factor`. The total is split evenly between MFC1 and MFC2. The loop
  waits for the wall clock, sets both MFCs, reads both back and keeps one record
  per tick. After the loop the CSV is written once and both MFCs are zeroed.
  `cleanup` zeroes each MFC on its own. The MFC pair is a class: every device
  call is appended to a trace with whether it raised. Which trace positions
  raise and what a read returns are fixed when the object is built. The wall
  clock is a parameter, and sleeps are recorded.
- **Firmware reply parsers** (`Firmware`, `firmware.dfy`). These are the text
  parsers of the motherboard's serial replies for CO2, BME, servo, limit-switch
  and sensor-board data. `send_command` is abstracted away: each parser gets the
  reply, or None. Each loop is split into a pure classification of every line
  and an imperative scan over the classified lines. The scan is proved against a
  specification function. That function is tied to reference definitions by
  lemmas.
- **Test bookkeeping and pass/fail rules** (`Completion`, `test_manager.dfy`).
  This covers `TestManager`'s map of the nine test tables and the completion
  summaries. It also covers the rules that turn a measurement into a field's
  entry and status, including the in-place field loops with their
  stop-at-exception behaviour. The leakage and pump-flow rules and the
  "Complete Testing" gate are modelled too.
- **Report layout** (`Report`, `pdf_layout.dfy`). This covers the greedy word
  wrap of `draw_justified_text` and the split of the completion summary. It also
  covers the chart-title mapping and the row-height and page-break arithmetic
  of `create_pdf`. The font's string width and `textwrap.wrap` are parameters.

Python string operations (`split`, `strip`, `join`, `lower`, `upper`, `title`,
`float`, `int`, `in`) are modelled in `Text` (`text.dfy`), over the ASCII range. `Option` and
`Result` are in `Base` (`base.dfy`). A Python exception is modelled as
`Raised(name)`.

Floats are modelled as `real`. In the replay a missing cell is `NaN`.

## Model

| member | source | states |
|---|---|---|
| Replay.Clamp | two_MFCs_control_sampling_generator.py:74-80 | the rate ends in [0, 20000]; a rate inside is kept, a negative one becomes 0, one above 20000 becomes 20000 |
| Replay.ClampIsNearest | two_MFCs_control_sampling_generator.py:74-80 | the clamped rate is the admissible rate closest to the recorded one |
| Replay.LoadProfile | two_MFCs_control_sampling_generator.py:176-183 | loading raises exactly when the rate or the timestamp column is missing; otherwise the two lists are the rate and timestamp cells of the kept rows, row by row and in order |
| Replay.Complete | two_MFCs_control_sampling_generator.py:179 | every kept row has both cells, and no rows are added |
| Replay.CompleteAppend | two_MFCs_control_sampling_generator.py:179 | rows are dropped one at a time: the kept rows of two parts are the kept rows of each part, in order, and a single row is kept exactly when both of its cells are present |
| Replay.CompleteKeepsCompleteRows | two_MFCs_control_sampling_generator.py:179 | the rows are kept unchanged exactly when all are complete; an incomplete row shrinks the table |
| Replay.Elapsed | two_MFCs_control_sampling_generator.py:57-63 | one elapsed time per timestamp, starting at 0 for the first; an elapsed time is missing exactly when its timestamp or the first one is; two elapsed times differ by exactly what their timestamps differ by |
| Replay.TickSetpoints | two_MFCs_control_sampling_generator.py:74-100 | both MFCs get the same setpoint; the rate is clamped; compensation happens exactly when the predicted step is strictly above the threshold; the setpoint is predicted·factor/2 with compensation and predicted/2 without |
| Replay.TickLookahead | two_MFCs_control_sampling_generator.py:84-92 | the prediction is the unclamped rate `lookahead` rows ahead when that row exists, otherwise the clamped current rate; the last rows never compensate |
| Replay.PlansFollowRows | two_MFCs_control_sampling_generator.py:68-72 | one tick per usable row, in row order, each with the plan of its row; every usable row gets a tick |
| Replay.PlansPrefix | two_MFCs_control_sampling_generator.py:68-72 | the ticks of a shorter profile prefix are a prefix of the ticks of a longer one |
| Replay.GaplessProfileTicksEveryRow | two_MFCs_control_sampling_generator.py:68-80 | with no missing cells, tick k handles row k with its clamped rate |
| Replay.StepProfileScenario | two_MFCs_control_sampling_generator.py:53-100 | with the defaults, the profile 100, 100, 4000 sccm sends 50, then an overdriven 2200, then 2000 to each MFC |
| Replay.TicksRequests | two_MFCs_control_sampling_generator.py:113-121 | each tick makes exactly four device calls |
| Replay.TicksRequestsAppend | two_MFCs_control_sampling_generator.py:113-121 | the calls of consecutive ticks are issued in tick order |
| Replay.WaitsPositive | two_MFCs_control_sampling_generator.py:104-110 | every sleep is positive, and there is at most one per tick |
| Replay.LastSetpointSkips | two_MFCs_control_sampling_generator.py:40-46 | calls that set no setpoint on a device leave its last setpoint unchanged |
| Replay.SucceedingMeans | two_MFCs_control_sampling_generator.py:113-121 | the calls before the first raising one succeed, and the next one raises |
| Replay.AttemptsMeans | two_MFCs_control_sampling_generator.py:113-121 | each issued call is recorded with whether the hardware raised at its position |
| Replay.AttemptsAppend | two_MFCs_control_sampling_generator.py:113-121 | recording consecutive calls appends their records in order |
| Replay.Records | two_MFCs_control_sampling_generator.py:128-136 | one record per completed tick |
| Replay.LoopStaysStopped | two_MFCs_control_sampling_generator.py:68-121 | once a call has raised, later rows change nothing |
| Replay.CleanStartsAll | two_MFCs_control_sampling_generator.py:68-121 | when no call raises, every tick begins |
| Replay.TickCompleted | two_MFCs_control_sampling_generator.py:113-136 | a tick whose four calls succeed keeps the run clean and issues all of its calls |
| Replay.TickInterrupted | two_MFCs_control_sampling_generator.py:113-121 | a tick with a raising call ends the clean run; its calls stop at the raising one |
| Replay.AgreesCompleted | two_MFCs_control_sampling_generator.py:104-136 | a completed tick keeps the loop state in agreement with the whole-run description |
| Replay.AgreesInterrupted | two_MFCs_control_sampling_generator.py:104-121 | an interrupted tick keeps that agreement too |
| Replay.AgreesStopped | two_MFCs_control_sampling_generator.py:68-121 | rows after a raise keep that agreement |
| Replay.LoopAgrees | two_MFCs_control_sampling_generator.py:68-136 | after any number of rows, the loop's calls, sleeps and records are the whole-run description of the usable rows |
| Replay.TickStep | two_MFCs_control_sampling_generator.py:104-136 | one executed tick is one step of the loop's specification |
| Replay.RunCalls | two_MFCs_control_sampling_generator.py:139-144 | the calls after the loop are the two zeroing calls, made only after a clean loop and a written CSV |
| Replay.RunOutcome | two_MFCs_control_sampling_generator.py:53-144 | `run` as executed meets the whole-run description: the calls stop at the first raise, there is one sleep per begun tick when behind, the CSV is written once iff no call raised, and the run succeeds iff both zeroing calls also succeed, returning one record per tick |
| Replay.RunFinish | two_MFCs_control_sampling_generator.py:139-144 | writing the CSV and then `exit_procedure` complete that description |
| Replay.RecordsSnoc | two_MFCs_control_sampling_generator.py:128-136 | records are appended in tick order |
| Replay.CleanupZeroesEach | two_MFCs_control_sampling_generator.py:146-173 | each MFC ends at setpoint 0 when its own zeroing call succeeds, whatever the other MFC did; it keeps its setpoint when that call raises |
| Replay.CompletedRunZeroes | two_MFCs_control_sampling_generator.py:139-144 | a run that returns normally leaves both MFCs at 0 |
| Replay.InterruptedRunKeepsSetpoint | two_MFCs_control_sampling_generator.py:113-144 | a read that raises in the first tick leaves MFC1 at that tick's setpoint; `run` zeroes nothing, because it has no `finally` |
| Replay.TwoMfcs.constructor | two_MFCs_control_sampling_generator.py:14-38 | both handles are open; the trace, sleeps and CSV writes are empty |
| Replay.TwoMfcs.Issue | two_MFCs_control_sampling_generator.py:119-120 | one call is appended to the trace, raising exactly at a faulty position or on a closed handle |
| Replay.TwoMfcs.SetValue | two_MFCs_control_sampling_generator.py:40-46 | `set_value_MFC1/2` appends one setpoint call |
| Replay.TwoMfcs.ApplyTick | two_MFCs_control_sampling_generator.py:113-121 | MFC1 is set, then MFC2, then both are read, stopping at the first raise; the readings are those at the two read positions |
| Replay.TwoMfcs.ExitProcedure | two_MFCs_control_sampling_generator.py:48-51 | MFC1 is zeroed, then MFC2, with no try |
| Replay.TwoMfcs.Tick | two_MFCs_control_sampling_generator.py:102-136 | it sleeps the lag only when positive, makes the tick's calls, and builds the record from the clamped rate and the two readings, whose sum is the combined flow |
| Replay.TwoMfcs.Step | two_MFCs_control_sampling_generator.py:102-136 | one tick is one step of the loop's specification |
| Replay.TwoMfcs.Ticks | two_MFCs_control_sampling_generator.py:68-136 | the loop's trace, sleeps and records are those of the loop specification over all rows |
| Replay.TwoMfcs.Run | two_MFCs_control_sampling_generator.py:53-144 | an empty timestamp list raises; otherwise the run meets the whole-run description |
| Replay.TwoMfcs.SaveAndExit | two_MFCs_control_sampling_generator.py:139-144 | the records are written once, then both MFCs are zeroed; a failed write skips the zeroing |
| Replay.TwoMfcs.Cleanup | two_MFCs_control_sampling_generator.py:146-173 | for each MFC in turn it tries to zero it and, if that worked, closes its port; both handles end up None |
| Firmware.Co2ScanSnoc | Extract_firmware_data.py:68-82 | one more line extends the scan unless a broken average line has already ended it |
| Firmware.Co2BrokenStays | Extract_firmware_data.py:77-96 | a broken average line ends the parse: later lines change nothing |
| Firmware.Co2ScanValues | Extract_firmware_data.py:69-75 | the values are the parseable "CO2 Value:" numbers, in reply order |
| Firmware.Co2ScanAverage | Extract_firmware_data.py:77-82 | the average is the last parseable "CO2 Average:" number |
| Firmware.Co2BrokenIff | Extract_firmware_data.py:77-96 | the parse breaks exactly when some average line lacks "CO2 Average:" |
| Firmware.Co2ResultMeans | Extract_firmware_data.py:64-96 | the result is None on a broken average line or without values; otherwise it holds the values in order and the last parseable average |
| Firmware.ScanBmeSnoc | Extract_firmware_data.py:156-181 | one more line is one more step of the scan |
| Firmware.BmeScanLists | Extract_firmware_data.py:158-168 | the lists are the parseable temperatures and humidities, in reply order |
| Firmware.BmeScanAverages | Extract_firmware_data.py:171-181 | the averages are the last parseable average lines of each kind |
| Firmware.BmeListsUnequal | Extract_firmware_data.py:158-168 | the temperature list is longer than the humidity list by the number of readings whose humidity failed to parse |
| Firmware.RoundHalfEven | Extract_firmware_data.py:186-195 | the result is an integer within 0.5 of the input, and the even one on a tie, as Python's `round` does |
| Firmware.Round2 | Extract_firmware_data.py:186-195 | the result is a whole number of hundredths, within 0.005 of the input, and the even hundredth on a tie |
| Firmware.ServoUsesLastMarkedLine | Extract_firmware_data.py:221-227 | the angle is read from the last "Servo moved to angle" line, whether or not it parses |
| Firmware.ServoNoMarker | Extract_firmware_data.py:221-227 | without such a line there is no angle |
| Firmware.SwitchLoopUnfold | Extract_firmware_data.py:247-259 | one iteration counts the first state and every change of state |
| Firmware.SwitchLoopBounds | Extract_firmware_data.py:241-270 | on a normal return 1 <= count <= 3, count <= attempts <= 10, and the loop stopped at 3 changes or 10 attempts |
| Firmware.SwitchLoopFails | Extract_firmware_data.py:249-266 | the loop fails only when a request reads no state, and it succeeds when every request reads one |
| Firmware.SwitchOutcome | Extract_firmware_data.py:238-270 | from the start: the bounds above, and failure exactly when some request within 10 reads no state |
| Firmware.CollectValues | Extract_firmware_data.py:316-318 | the collected numbers are the tokens' numbers, in order |
| Firmware.CollectFails | Extract_firmware_data.py:316-326 | collection fails exactly when some token is not a number |
| Firmware.Validate | Extract_firmware_data.py:311-325 | a valid reading has 35 numbers and a serial containing "bsi-nz" |
| Firmware.ValidateIff | Extract_firmware_data.py:311-325 | a 36-token reading is valid exactly when its first 35 tokens are numbers and its last contains "bsi-nz"; the numbers are those tokens' values |
| Firmware.ReadingOf | Extract_firmware_data.py:311-325 | exactly the 36-token readings are counted in `all_values`, with their last token as the serial |
| Firmware.ReadingOfMeans | Extract_firmware_data.py:311-325 | every 36-token reading is counted, valid or not; it is valid exactly when its first 35 tokens are numbers and its serial contains "bsi-nz", and then its numbers are those tokens' values |
| Firmware.AllSerialsSnoc | Extract_firmware_data.py:311-325 | every 36-token reading adds its serial to `all_values`, and only a valid one adds its numbers to `valid_readings` |
| Firmware.ValidReadingsShape | Extract_firmware_data.py:311-325 | there are at least as many 36-token readings as valid ones; each valid reading has 35 numbers and a "bsi-nz" serial, and comes from one line |
| Firmware.ReadingsWellFormed | Extract_firmware_data.py:294-327 | every reading the loop classifies as valid has 35 numbers and a "bsi-nz" serial |
| Firmware.CountSaturated | Extract_firmware_data.py:359 | the count is at most the length; it is 0 exactly when no value reaches 2000000 and the length exactly when every value does |
| Firmware.CountSaturatedAppend | Extract_firmware_data.py:359 | the count over two stretches is the sum of their counts, and a single value counts 1 exactly when it reaches 2000000 |
| Firmware.IntendedBoardMeans | Extract_firmware_data.py:336-365 | the intended board comes from the second valid reading (exactly one valid reading precedes its line): a "bsi-nz" serial, 36 values, 32 sensing elements that are numbers 1..32 of that reading, temperature and humidity as its last two numbers, and a saturated count that is the count of sensing elements reaching 2000000 |
| Firmware.SerialFromOtherReading | Extract_firmware_data.py:336-341 | when the second 36-token reading is invalid, the as-written result pairs the second valid reading's numbers with that invalid reading's serial, which lacks "bsi-nz" |
| Firmware.SaturationMissesLastSensing | Extract_firmware_data.py:344-359 | a saturated element 32 is not counted as written, but it is counted as intended |
| Firmware.SaturationCountsFirstValue | Extract_firmware_data.py:344-359 | a saturated value 0, which is not a sensing element, is counted as written but not as intended |
| Firmware.CountChanges | Extract_firmware_data.py:241-270 | the `while` loop computes the limit-switch loop's specification |
| Firmware.StepCo2 | Extract_firmware_data.py:69-82 | one loop body of the CO2 parse is one step of its specification |
| Firmware.StepBme | Extract_firmware_data.py:156-181 | one loop body of the BME parse is one step of its specification |
| Firmware.ParseNumbers | Extract_firmware_data.py:316-318 | the `float` loop computes the collected numbers, or None at the first token that is not a number |
| Firmware.SerialsOfSnoc | Extract_firmware_data.py:311-313 | appending a 36-token reading to `all_values` appends its serial |
| Firmware.CollectReadings | Extract_firmware_data.py:300-331 | the loop builds `valid_readings` and `all_values` as the specification says |
| Firmware.SensorDataExtractor.constructor | Extract_firmware_data.py:8-14 | the three value lists start empty |
| Firmware.SensorDataExtractor.ReadCo2 | Extract_firmware_data.py:54-138 | a wrong command or a blank reply gives None and leaves `co2_values` alone; otherwise `co2_values` is the scan's values and the result is the scan's result |
| Firmware.SensorDataExtractor.ScanCo2Lines | Extract_firmware_data.py:64-82 | the loop leaves the scan's values in `co2_values` and returns its average and whether it broke |
| Firmware.SensorDataExtractor.ScanBmeLines | Extract_firmware_data.py:153-181 | the loop leaves the scan's lists in the fields and returns its averages |
| Firmware.SensorDataExtractor.ReadBme | Extract_firmware_data.py:140-210 | a wrong command or a blank reply gives None and leaves both lists alone; otherwise the lists are the scan's and the result is the scan's result |
| Firmware.SensorDataExtractor.ReadServos | Extract_firmware_data.py:212-236 | an angle is returned only for SERVO1 or SERVO2 with a non-empty reply |
| Firmware.SensorDataExtractor.ReadLimitSwitches | Extract_firmware_data.py:238-273 | LS1 to LS4 run the loop over the replies' states; any other command gives (None, None) |
| Firmware.SensorDataExtractor.ReadSensorBoard | Extract_firmware_data.py:285-371 | a wrong command or a blank reply gives None; otherwise the readings are well formed and the result is the as-written board: None without a valid reading, IndexError with exactly one |
| Completion.InitialStatusShape | display_completion.py:43-53 | the map starts with the nine titles, each once, none completed |
| Completion.MarkCompletedMeans | display_completion.py:813 | exactly the given title is completed; a new title is added at the end; nothing else changes and titles stay distinct |
| Completion.MarkKnownMeans | display_completion.py:64-69 | the keys are unchanged; an entry ends completed exactly when it was before or its title is among the given names |
| Completion.TitlesPartition | display_completion.py:74-77 | the completed and pending titles split the map: each title is in the list that matches its flag |
| Completion.NothingPending | display_completion.py:74-79 | nothing is pending exactly when every test is completed |
| Completion.SomethingCompleted | display_completion.py:80-81 | something is completed exactly when some entry is |
| Completion.Summary1Finished | display_completion.py:834-845 | the new-device summary is "You finished all tests" exactly when every test is completed |
| Completion.Summary1Marker | display_completion.py:834-845 | otherwise it contains the pending marker |
| Completion.Summary1PendingPart | display_completion.py:834-845 | the report finds a pending part in it exactly when some test is pending |
| Completion.Summary2Defined | display_completion.py:847-855 | the reprocessing summary is defined exactly when some test is completed, and then lists the completed tests |
| Completion.GenerateSummaryParts | display_completion.py:74-84 | all done gives the congratulation; with pending tests, the summary has the pending list exactly when it is asked for |
| Completion.ExpectedValueOfWhole | display_completion.py:122 | a whole number followed by a parenthesised note reads as that number |
| Completion.FillCompletes | display_completion.py:118-127 | a pass without an exception replaces every field by its rule's result, and it raises exactly when some field's rule raises |
| Completion.FillAfterError | display_completion.py:118-127 | after the first exception the remaining fields pass through unchanged |
| Completion.FillStops | display_completion.py:118-127 | the first exception stops the pass: earlier fields are updated, the raising field keeps its partial update, later fields are untouched |
| Completion.Co2Field | display_completion.py:118-127 | only the field named prefix(measurement) changes; it shows the average in ppm; it raises when the average is None or the expected value is not a number; baselines pass within [0, expected], CO2 flow at or above expected |
| Completion.BmeField | display_completion.py:139-156 | the temperature and humidity fields show their values; baseline passes at or below expected, breathing at or above; a non-numeric expected value raises |
| Completion.SwitchPassed | display_completion.py:164-172 | the limit-switch field gets "0 1 0" and passes exactly when the expected sequence is "0 1 0" |
| Completion.SwitchFailed | display_completion.py:174-181 | the limit-switch field gets "FAIL" and status F |
| Completion.SwitchPassesOnTable | display_completion.py:164-172 | an expected result of "0 1 0 (note)" makes the sequence pass |
| Completion.SwitchNeverUnfinished | display_completion.py:163-184 | a normal parser return always has count 3 or at least 10 attempts, so the "try again" branch is never reached |
| Completion.IntsSnoc | display_completion.py:254-255 | parsing one more part appends its value |
| Completion.CountsParts | display_completion.py:251 | the functionality entry splits at commas into the three counts |
| Completion.ParseIntPadded | display_completion.py:255 | `int` of a space-padded count gives the count back |
| Completion.CountsRoundTrip | display_completion.py:251-255 | parsing the written functionality entry gives back the three counts |
| Completion.CountsVerdictMeans | display_completion.py:254-260 | with at least three expected counts, the check passes exactly when the first two are equal and the saturated count is at most the expected one; fewer raise |
| Completion.BoardFunctionalityMeans | display_completion.py:250-260 | the board passes exactly when its values and sensing counts equal the expected ones and its saturated count is at most the expected one |
| Completion.BoardField | display_completion.py:246-272 | the serial is copied; the functionality gets the counts and its verdict; the board temperature and humidity pass at or below the expected values; other fields are untouched |
| Completion.LedField | display_completion.py:217-231 | the LED field gets PASS or FAIL from the operator's answer, with the matching status |
| Completion.SetFirst | display_completion.py:196-202 | only the first field with the name is changed: it gets the angle and passes |
| Completion.LeakagePercent | display_completion.py:718 | the leakage raises exactly when the first meter averaged 0; otherwise it is non-negative, 0 exactly when the two averages agree, and times the first average's magnitude it is 100 times the difference's magnitude |
| Completion.LeakageField | display_completion.py:748-776 | a leakage field shows the leakage and passes within [0, limit]; the pump-flow field shows the first meter's average and passes within 10 of its expected rate; other fields take the operator's answer |
| Completion.LeakageTableMeans | display_completion.py:714-779 | the branch completes exactly when the first meter saw flow and every leakage limit is a number; then every field carries its verdict |
| Completion.ManualField | display_completion.py:781-796 | a non-empty answer replaces an existing entry; an answer that strips and upper-cases to P or F replaces an existing status, and any other answer leaves the status as it was; the flag says whether something was written |
| Completion.AllFieldsFilledIff | display_completion.py:309-320 | the gate opens exactly when every field except Name, Date, Motherboard Serial Number and Remark has a non-empty entry |
| Completion.Handled | display_completion.py:118-128 | a measurement that was taken returns True, or the exception a field raised |
| Completion.TestManager.constructor | display_completion.py:25-59 | the value maps have their keys, the status map is initial, the updated tables are empty |
| Completion.TestManager.SetDeviceSerialNumber | display_completion.py:61-62 | stores the serial number |
| Completion.TestManager.SetPreviousTestNote | display_completion.py:71-72 | stores the note |
| Completion.TestManager.SetPreviousCompletedTests | display_completion.py:64-69 | stores the list and marks exactly the known names, keeping titles distinct |
| Completion.TestManager.FillCurrentTable | display_completion.py:118-127 | the `for field in fields` loop writes the fields in place, as the pass specification says |
| Completion.TestManager.MeasureCo2 | display_completion.py:109-129 | no reading returns False and changes nothing; otherwise the values go under the measurement's key and the table is filled by the CO2 rule |
| Completion.TestManager.MeasureBme | display_completion.py:131-158 | no reading returns False; otherwise both lists go under the key and the table is filled by the BME rule |
| Completion.TestManager.TestLimitSwitch | display_completion.py:160-184 | count 3 passes the switch; 10 attempts fail it; a failed read raises TypeError; the rest raise UnboundLocalError |
| Completion.TestManager.TestServo | display_completion.py:186-204 | once the board answers, the first field of each of the three positions gets its fixed angle and passes |
| Completion.TestManager.TestLed | display_completion.py:206-233 | after a blink the LED field is filled from the operator's answer |
| Completion.TestManager.TestSensorBoard | display_completion.py:235-278 | an exception propagates; no board returns False; otherwise the board fields are filled |
| Completion.TestManager.RecordTable | display_completion.py:798-820 | the table is appended only when updated, its title is always marked completed, and the summary follows the check type |
| Report.FlattenSnoc | create_pdf.py:74-82 | the words of one more line follow the earlier ones |
| Report.WrapScanWords | create_pdf.py:74-82 | the finished lines and the current line hold the words in order |
| Report.WrapScanEmptyLine | create_pdf.py:74-82 | only the first finished line can be empty, exactly when the first word is too wide |
| Report.WrapScanFits | create_pdf.py:74-82 | every line of two or more words fits |
| Report.WrapScanGreedy | create_pdf.py:74-82 | each finished line would not fit with the next word added |
| Report.WrapKeepsWords | create_pdf.py:69-82 | flattening the lines gives back the words, in order, each once |
| Report.WrapEmptyLines | create_pdf.py:69-82 | only the first line can be empty, exactly when the first word alone is too wide; no words give no lines |
| Report.WrapFits | create_pdf.py:75-77 | every line of two or more words is at most `max_width` wide |
| Report.WrapGreedy | create_pdf.py:75-82 | every line but the last would be too wide with the next line's first word added |
| Report.DrawJustifiedText | create_pdf.py:68-98 | the text moves down 12 per wrapped line |
| Report.JustifiedTextMoves | create_pdf.py:68-98 | there are no lines exactly when there are no words, and at most one more line than words |
| Report.WrapLineCount | create_pdf.py:74-82 | lines whose only empty one is the first number at most one more than the words |
| Report.SplitSummaryParts | create_pdf.py:50-56 | with the marker, the completed part is the stripped text before its first occurrence, and the pending part is the marker, a blank and the stripped text up to the next occurrence or the end; without it, the whole summary is the completed part and nothing is pending |
| Report.ChartTitleIgnoresCase | create_pdf.py:194-207 | the title is chosen from the cleaned name in lower case, checking 'combined', 'co2 flow', 'return baseline', then 'baseline' |
| Report.RowHeight | create_pdf.py:140-146 | the row is 12 times the line count of its tallest column |
| Report.RowPlacement | create_pdf.py:149-161 | a row that fits on a continued page never ends below the bottom margin |
| Report.RowsWithoutBreak | create_pdf.py:149-183 | without a page break the rows take their heights and 10 apart each |
| Report.DrawRows | create_pdf.py:138-183 | the row loop ends where the row arithmetic says, with that many page breaks |
| Report.RowsOf | create_pdf.py:134-146 | one row per field |
| Report.CreatePdf | create_pdf.py:8-235 | no table gives no pages; otherwise there is at least the first page plus one per chart |

## Left out

- The Sensirion device setup and driver calls, `send_command`'s serial transport and its fixed sleeps, the wall clock and `time.sleep` are not modelled as such. They are parameters or recorded values: the hardware's faults and readings, `clock`, and the `sleeps` trace.
- The fallback in `read_co2_data` for a UnicodeDecodeError (Extract_firmware_data.py:101-131) is not modelled; it calls `read_all` on a port-name string.
- `read_LEDs_data` (Extract_firmware_data.py:275-283) is not modelled: it only tests the command. Whether the LED blinked is a parameter of `TestLed`.
- pandas is not modelled: CSV reading and writing, `pd.to_datetime` parsing, and the rounding and timestamp strings of the records. Timestamps are given as seconds, and `written` says whether `to_csv` succeeded.
- Floating point is modelled as `real`. IEEE rounding and `float()` syntax beyond signed decimals are not modelled. Round2 rounds half to even on the exact value, not on the binary float.
- The `:.2f` formatting of entries is not modelled: an entry is `Shown(value, unit)`.
- Menus, `input()` prompts and the readiness y/n question are not modelled; what the operator types is a parameter.
- Chart generation with matplotlib is not modelled, and neither is the sensing-elements chart.
- The reportlab canvas, the justified spacing of drawn words and `textwrap.wrap` are not modelled. String width and wrapped line counts are parameters; `create_pdf` tracks only `y` and pages.
- `sys.exit` in the leakage branch is modelled as `Raised`. The MFC and flow-meter calls of that branch are not modelled; their averages are parameters.
- `cleanup_devices`, `handle_two_mfc_test` and the test-menu dispatch are not modelled beyond the gate and the per-sensor handlers.
- Aliasing between `current_table` and `table` is not modelled: the table's fields are a value in `currentTable`.
- Completion.TestManager.RecordTable: appends a copy of the table's fields, while the source appends the table's own field list (display_completion.py:799-803). When the same table is run twice, Python shows the second run's values in both entries of `updated_tables`, so the report prints them twice. The model keeps each run's values.
- Text covers only the ASCII range. Whitespace for `split` and `strip` is the ASCII whitespace plus the separators 28-31, and `lower`, `upper` and `title` change only A-Z and a-z. Python also treats non-ASCII whitespace such as U+00A0 as space and maps non-ASCII letters (`'ß'.upper() == 'SS'`); the model does neither.
- Each parser loop classifies every line before the loop and scans the classified lines. Classification is pure, so the result matches the interleaved Python loop.
- Lines without "Sensor Data:" give an empty token list and are skipped, rather than being filtered out first. Such lines are never counted either way.
- Replay.TickLookahead: a negative `lookahead_steps` (Python negative indexing) is not modelled; `lookahead` is a `nat`.
- Firmware.SensorDataExtractor.ReadServos: its own contract says only when an angle can be returned. Which line the angle comes from is stated by Firmware.ServoUsesLastMarkedLine and Firmware.ServoNoMarker.
- Report.CreatePdf: it bounds the page count only from below. The exact count of table page breaks is stated by Report.DrawRows for each table's rows.
- Report.RowHeight: it takes the wrapped line counts as given and does not model `textwrap.wrap`.

## Findings

| source | as written | input that shows it | evidently intended | confidence | as-written member | corrected member |
|---|---|---|---|---|---|---|
| Extract_firmware_data.py:336-341 | the serial is `all_values[1][-1]`, the second 36-token reading, valid or not, while the numbers are `valid_readings[1]` | three 36-token readings: valid, invalid (serial without "bsi-nz"), valid | serial and numbers from the same, second valid reading | not executed | Firmware.SerialFromOtherReading, Firmware.BoardResultAsWritten | Firmware.BoardResultIntended, Firmware.IntendedBoardMeans |
| Extract_firmware_data.py:344-359 | saturation counts `reading_values[:-4]`, values 0..30, while the sensing elements are `reading_values[1:-2]`, values 1..32 | a valid reading whose value 32 is 2000000 and all others lower, or whose value 0 is 2000000 and values 1..32 lower | count saturation over the 32 sensing elements | not executed | Firmware.SaturationMissesLastSensing, Firmware.SaturationCountsFirstValue, Firmware.BoardAsWritten | Firmware.IntendedBoard, Firmware.IntendedBoardMeans |
