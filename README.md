# pH sensor input and fermentation steps of the SB Elsinore brewery controller

This project models two parts of the controller. Each part gets a verified specification.

**The pH sensor** (`ph_sensor.dfy`, module `PhSensors`) covers:
- which input a sensor reads: an analogue GPIO pin, or a DS2450 channel read through OWFS at `<address>/volt.<offset>`.
- the `stopLogging` fault flag of `updateReading`. The flag makes a failing input log its failure once, and log "recovered" once when reads succeed again. The OWFS bus is reset on every failed read.
- `calcPhValue`, which looks up calibration formulas by model name ignoring case.
- `getAvailableTypes`.
- the SEN0161 sampling loop, which keeps reading until four reads return a non-zero value.

The hardware is a parameter. Each read is given as an `Outcome`: a value, or an exception. The sensor class keeps a ghost `trace` of everything it does to the outside world:
- reads
- failure, recovery and reconnect log lines
- OWFS resets

The reference functions `Onsets`, `Recoveries` and `Failures` count what a series of outcomes should produce. Lemmas relate them to the trace.

**A fermentation step** (`ferment_step.dfy`, module `FermentSteps`) covers:
- the index of a step kind.
- conversion of the step temperature between Fahrenheit and Celsius.
- the XML item a recipe stores a step as. `ReadItem` is a reader for that layout, and it reads the item back.
- the duration in minutes, computed in 32-bit `int` arithmetic.

Two supporting modules:
- `java_text.dfy` (module `JavaText`) models `String.equalsIgnoreCase` and `Integer.toString`. `ParseInt` inverts `Integer.toString`.
- `wrappers.dfy` holds `Option`, which stands for a Java reference that may be null.

Two behaviours of the code differ from what the field names suggest:
- The flag suggests one OWFS reconnect and reset per fault. The code resets on every failed read instead, not only on the first failure of a run (`ReplayResets`).
- `phReading` suggests a status that tracks the last reading. The field is never assigned after construction, so the JSON status always reports 0 (`UpdateReading` keeps `JsonStatus()` unchanged).

## Model

| member | source | states |
|---|---|---|
| JavaText.IntText | src/com/sb/elsinore/inputs/PhSensor.java:145 | Integer.toString gives non-empty text that contains no '<', so it can sit inside an XML element |
| JavaText.ParseNatText | src/com/sb/elsinore/inputs/PhSensor.java:145 | the decimal text of a natural number parses back to that number |
| JavaText.IntTextRoundTrip | src/main/java/ca/strangebrew/recipe/FermentStep.java:34 | the text Integer.toString gives for any int, negative included, parses back to that int |
| PhSensors.SelectInput | src/com/sb/elsinore/inputs/PhSensor.java:87-109 | the pin is read when one is bound; otherwise OWFS is read when the address and offset are both non-null and non-empty, at address + "/volt." + offset; otherwise nothing is read |
| PhSensors.AttemptEvents | src/com/sb/elsinore/inputs/PhSensor.java:88-103 | one read attempt starts with the read; a failure logs once only if the flag was clear and always resets the bus; a success logs a recovery only if the flag was set |
| PhSensors.Update | src/com/sb/elsinore/inputs/PhSensor.java:84-127 | an unbound sensor returns 0 and changes nothing; a bound one sets the flag to whether the read threw and returns the value read, or 0 on an exception |
| PhSensors.UpdateEvents | src/com/sb/elsinore/inputs/PhSensor.java:84-127 | one call logs a failure only on an OK to fault transition, logs a recovery only on a fault to OK transition, and resets OWFS exactly when a bound read fails |
| PhSensors.ReplayFlag | src/com/sb/elsinore/inputs/PhSensor.java:90-99 | after any series of reads the flag equals whether the last read failed (the start flag if there were none); an unbound sensor never changes it or emits anything |
| PhSensors.ReplayFaultLogs | src/com/sb/elsinore/inputs/PhSensor.java:95-100 | over any series of reads, the number of failure messages equals the number of reads that fail while the flag is clear |
| PhSensors.ReplayRecoveryLogs | src/com/sb/elsinore/inputs/PhSensor.java:90-94 | over any series of reads, the number of recovery messages equals the number of reads that succeed while the flag is set |
| PhSensors.ReplayResets | src/com/sb/elsinore/inputs/PhSensor.java:101-102 | over any series of reads, OWFS is reset once per failed read, not once per fault |
| PhSensors.LogsAlternate | src/com/sb/elsinore/inputs/PhSensor.java:90-100 | failure and recovery messages alternate: failure messages plus the start flag equal recovery messages plus the final flag |
| PhSensors.SteadyOutcomesHaveNoTransitions | src/com/sb/elsinore/inputs/PhSensor.java:90-100 | reads that all agree with the current flag contain no transition of either kind |
| PhSensors.SteadyRunIsSilent | src/com/sb/elsinore/inputs/PhSensor.java:90-100 | repeating the outcome that set the flag logs neither failure nor recovery messages, however often it repeats |
| PhSensors.ReplayAppend | src/com/sb/elsinore/inputs/PhSensor.java:84-127 | a series of calls composes: one more read adds exactly that read's flag change and events |
| PhSensors.SamplesAppend | src/com/sb/elsinore/inputs/PhSensor.java:228-232 | one more read adds one kept sample exactly when it returns a non-zero value |
| PhSensors.SamplesOfPrefix | src/com/sb/elsinore/inputs/PhSensor.java:226-233 | a prefix of the reads never keeps more samples than the whole series |
| PhSensors.Sen0161Exit | src/com/sb/elsinore/inputs/PhSensor.java:226-233 | the sampling loop ends with four samples exactly when the reads hold at least four non-zero values |
| PhSensors.Sen0161AsWritten | src/com/sb/elsinore/inputs/PhSensor.java:224-236 | as written, the SEN0161 result is the offset, whatever the samples |
| PhSensors.Sen0161AsWrittenIgnoresSamples | src/com/sb/elsinore/inputs/PhSensor.java:231 | four samples of 10 give pH 0 as written, while their average gives 175/1024 |
| PhSensors.Sen0161DividesByMaxRead | src/com/sb/elsinore/inputs/PhSensor.java:234 | four samples of 3 (sum 12) divided by MAXREAD = 3 give pH 35/512, where their average gives 105/2048 |
| PhSensors.Sen0161IntendedAveragesEqualSamples | src/com/sb/elsinore/inputs/PhSensor.java:234-236 | the corrected formula maps four equal samples v to v * 5/1024 * 3.5 + offset |
| PhSensors.CalcPhValue | src/com/sb/elsinore/inputs/PhSensor.java:176-197 | the loop returns the value of the last formula whose model equals the sensor model ignoring case and whose call returned; otherwise null |
| PhSensors.PhValueAbsent | src/com/sb/elsinore/inputs/PhSensor.java:176-197 | calcPhValue returns null if and only if no formula both matches the model and returns |
| PhSensors.PhValueLastMatchWins | src/com/sb/elsinore/inputs/PhSensor.java:184-186 | when several formulas match, the last one in registry order that returns decides the value |
| PhSensors.RegistryLookup | src/com/sb/elsinore/inputs/PhSensor.java:184-186 | models "SEN0161" and "sen0161" both select the SEN0161 formula; an empty or null model selects none |
| PhSensors.AvailableTypes | src/com/sb/elsinore/inputs/PhSensor.java:203-215 | the list holds the model name of every annotated formula, one per formula, in registry order |
| PhSensors.PhSensor.constructor | src/com/sb/elsinore/inputs/PhSensor.java:24-38 | a blank sensor has pin -1, empty address, offset and model, name "pH Sensor", zero reading and offset, a clear flag, and no input bound |
| PhSensors.PhSensor.FromPin | src/com/sb/elsinore/inputs/PhSensor.java:45-48 | a sensor on a pin keeps the pin and reads the analogue input |
| PhSensors.PhSensor.FromDs2450 | src/com/sb/elsinore/inputs/PhSensor.java:55-58 | a DS2450 sensor keeps the address and offset as given; it reads OWFS only if both are non-empty |
| PhSensors.PhSensor.SetType | src/com/sb/elsinore/inputs/PhSensor.java:64-66 | the model becomes the given type |
| PhSensors.PhSensor.GetAIN | src/com/sb/elsinore/inputs/PhSensor.java:141-146 | the text is empty exactly when the pin is -1; otherwise it parses back to the pin |
| PhSensors.PhSensor.UpdateReading | src/com/sb/elsinore/inputs/PhSensor.java:84-127 | returns the value read, or 0; sets the flag and extends the trace as one step of the fault-flag machine; leaves the JSON status unchanged |
| PhSensors.PhSensor.CalcSen0161 | src/com/sb/elsinore/inputs/PhSensor.java:221-237 | the loop ends exactly when four non-zero values have been read; the last read is one of them; the flag and trace are those of that series of reads; the result is the as-written formula |
| FermentSteps.TypeIndexFrom | src/main/java/ca/strangebrew/recipe/FermentStep.java:22-28 | the search from index i returns the first kind at or after i that equals the text ignoring case, or 0 when there is none |
| FermentSteps.TypeIndex | src/main/java/ca/strangebrew/recipe/FermentStep.java:21-29 | getTypeIndex returns the first kind equal to the text ignoring case, and 0 when none is (null included) |
| FermentSteps.TypeIndexOfName | src/main/java/ca/strangebrew/recipe/FermentStep.java:11-29 | each kind's name, in any case, gets back its own index |
| FermentSteps.UnknownTypeIsPrimary | src/main/java/ca/strangebrew/recipe/FermentStep.java:28 | text naming no kind gets the index of Primary |
| FermentSteps.ConvertedUnit | src/main/java/ca/strangebrew/recipe/FermentStep.java:81-91 | after convertTo the unit equals the requested one ignoring case, and the kind and duration are unchanged |
| FermentSteps.ConvertedIdempotent | src/main/java/ca/strangebrew/recipe/FermentStep.java:81-91 | converting twice to the same unit is the same as converting once |
| FermentSteps.LowerCaseFConvertsToCelsius | src/main/java/ca/strangebrew/recipe/FermentStep.java:85-89 | from Celsius, "F" applies cToF but "f" applies fToC and records the unit "f" |
| FermentSteps.Wrap32 | src/main/java/ca/strangebrew/recipe/FermentStep.java:94 | Java int arithmetic: the result is congruent to the exact value modulo 2^32, and equal to it when the exact value fits in an int |
| FermentSteps.MultipleOfModulus | src/main/java/ca/strangebrew/recipe/FermentStep.java:94 | multiples of 2^32 stay multiples under sums and scaling |
| FermentSteps.MinutesOf | src/main/java/ca/strangebrew/recipe/FermentStep.java:94 | time*24*60 computed in int is congruent to time*1440 modulo 2^32, and equal to it for durations up to 1491308 days either way |
| FermentSteps.TextBeforeTag | src/main/java/ca/strangebrew/recipe/FermentStep.java:31-39 | the split of an element's text at the next '<' gives back the text, and the first part contains no '<' |
| FermentSteps.TextBeforeTagOf | src/main/java/ca/strangebrew/recipe/FermentStep.java:31-39 | text without '<' followed by a tag splits back into that text and that tag |
| FermentSteps.DropPrefixOf | src/main/java/ca/strangebrew/recipe/FermentStep.java:31-39 | a fixed prefix of the item layout is read off exactly |
| FermentSteps.ReadElementOf | src/main/java/ca/strangebrew/recipe/FermentStep.java:33-36 | one element line written with text free of '<' reads back to that text and the rest of the item |
| FermentSteps.ItemXmlReadsBack | src/main/java/ca/strangebrew/recipe/FermentStep.java:31-39 | the item toXML writes reads back to the kind, the duration, the printed temperature and the unit, provided the texts contain no '<' |
| FermentSteps.FermentStep.constructor | src/main/java/ca/strangebrew/recipe/FermentStep.java:7-18 | a new step has null kind and unit, duration 0 and temperature 0 |
| FermentSteps.FermentStep.SetTemp | src/main/java/ca/strangebrew/recipe/FermentStep.java:55-57 | the temperature becomes the given value |
| FermentSteps.FermentStep.SetTempU | src/main/java/ca/strangebrew/recipe/FermentStep.java:58-60 | the unit becomes the given value |
| FermentSteps.FermentStep.SetTime | src/main/java/ca/strangebrew/recipe/FermentStep.java:61-63 | the duration becomes the given value |
| FermentSteps.FermentStep.SetType | src/main/java/ca/strangebrew/recipe/FermentStep.java:64-66 | the kind becomes the given value |
| FermentSteps.FermentStep.ToXml | src/main/java/ca/strangebrew/recipe/FermentStep.java:31-39 | the text built line by line is the step's item, and reads back to its fields when none of the texts holds a '<' |
| FermentSteps.FermentStep.CompareTo | src/main/java/ca/strangebrew/recipe/FermentStep.java:68-79 | every pair of steps compares equal |
| FermentSteps.FermentStep.ConvertTo | src/main/java/ca/strangebrew/recipe/FermentStep.java:81-91 | the new fields are the converted value of the old ones; with ConvertedUnit and ConvertedIdempotent, the unit ends up matching the request and converting twice does nothing more |
| FermentSteps.FermentStep.TimeMins | src/main/java/ca/strangebrew/recipe/FermentStep.java:93-95 | getTimeMins is an int value congruent to days*1440 modulo 2^32, and exact for durations up to 1491308 days |

## Left out

- Reading hardware is left out. `InPin.readValue` and `LaunchControl.readOWFSPath` become the `Outcome` of each read.
- The exception `FromPin` can throw (`InvalidGPIOException`) is left out. `FromPin` models only the case where the pin opens; a pin that does not open yields no sensor.
- `LaunchControl.setupOWFS` and the log calls are not run. They appear as `OwfsReset` and log events in the ghost trace, without their message text and exception detail.
- `getJsonStatus` returns the `Status` record instead of a JSON object.
- The getters `getName`, `getModel`, `getDsOffset`, `getDsAddress`, `getTemp`, `getTempU`, `getTime` and `getType` return their field and carry no contract.
- Reflection is replaced by an explicit registry. `calcPhValue` and `getAvailableTypes` walk the annotated methods that `Class.getDeclaredMethods()` returns, and that array is in no particular order. `Registry` fixes one order the JVM may return, with one entry (SEN0161). "Last match wins" (`PhValueLastMatchWins`) and "in order" (`AvailableTypes`) hold relative to that order only. With a single annotated method, the difference cannot be observed.
- Invoking a formula is the parameter `eval`; `None` stands for an invocation that threw, after which the previous value is kept.
- PhSensors.PhValueLastMatchWins: does not cover a formula that returns null. Java then overwrites `value` with null, whereas the model treats that formula like one that threw and keeps the earlier value. The only formula, SEN0161, never returns null, so `Registry` does not show the difference.
- PhSensors.CalcPhValue: does not model side effects of the invoked formula, because `eval` gives only the formula's value. Invoking SEN0161 from `calcPhValue` reads the sensor; that effect is modelled by `CalcSen0161` itself.
- PhSensors.PhSensor.CalcSen0161: is modelled over a finite series of read outcomes. When the series holds fewer than four non-zero values, the source would go on reading, and the model returns `None`.
- Decimal arithmetic is exact rational arithmetic (`real`): `BigDecimal`, the conversion of the `double` read to `BigDecimal`, and the rounding in `MathUtil.multiply`. One consequence is that `BigDecimal.divide` without a rounding mode throws on a quotient with no finite decimal expansion. That cannot happen as written, because the dividend is always 0. It also cannot happen in the corrected formula, which divides by 4. It could happen only if the sum were kept while the divisor stayed MAXREAD = 3 (`Sen0161Tail`, second Findings row).
- FermentSteps.FermentStep.TimeMins: returns the int value, not the `double` that value is widened to.
- Temperatures are `real`. `BrewCalcs.cToF`, `BrewCalcs.fToC` and `Double.toString` are function parameters (`cToF`, `fToC`, `showDouble`); their definitions are not part of this model.
- Case folding in `equalsIgnoreCase` is ASCII only.
- FermentSteps.FermentStep.ConvertTo: requires the unit to be non-null and the new unit to be a string. Java throws a `NullPointerException` when `tempU` is null; with a null new unit it throws after the comparison fails.
- The commented-out ordering in `compareTo` is dead code and is not modelled.

## Findings

| source | as written | input that shows it | evidently intended | confidence | as-written member | corrected member |
|---|---|---|---|---|---|---|
| src/com/sb/elsinore/inputs/PhSensor.java:231 | `readValue.add(t)` discards its result (BigDecimal is immutable), so the sum stays 0 and calcSEN0161 returns the offset whatever is read | four reads of 10 with offset 0 give 0 | the sum of the four samples, giving 175/1024 for four reads of 10 | high, not executed | PhSensors.Sen0161AsWrittenIgnoresSamples | PhSensors.Sen0161IntendedAveragesEqualSamples |
| src/com/sb/elsinore/inputs/PhSensor.java:234 | the sum of the MAXREAD + 1 = 4 samples is divided by MAXREAD = 3; a sum with no finite decimal quotient by 3 makes `divide` throw | four reads of 3 with the sum kept give 35/512 | divide by the number of samples, 4, giving the average 105/2048 | medium, not executed | PhSensors.Sen0161DividesByMaxRead | PhSensors.Sen0161IntendedAveragesEqualSamples |
