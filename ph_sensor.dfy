/**
 * The pH sensor input of the brewery controller: where a reading comes from,
 * the one-bit fault flag that keeps a failing input from flooding the log,
 * the registry of calibration models, and the SEN0161 sampling loop.
 *
 * The hardware is not modelled: each read of the bound input is given as an
 * Outcome, and everything the sensor does to the outside world (reads, log
 * lines, OWFS bus resets) is recorded in a ghost trace of Events.
 */
module PhSensors {
  import opened Wrappers
  import opened JavaText

  /** The outcome of one read of the bound input: the value read, or an exception. */
  datatype Outcome = Ok(value: real) | Fail

  /** The input an update reads: the analogue pin, a DS2450 voltage path on OWFS, or none. */
  datatype Input = Analogue | Owfs(path: string) | Unbound

  /** Which failure message is logged: the one for the analogue pin or the one for OWFS. */
  datatype Origin = FromAnalogue | FromOwfs

  datatype Event =
    | AnalogueRead                  // ainGPIO.readValue()
    | OwfsRead(path: string)        // LaunchControl.readOWFSPath(path)
    | FaultLogged(origin: Origin)   // severe: "Could not update the pH reading from ..."
    | RecoveryLogged(name: string)  // severe: "Recovered pH level reading for " + name
    | ReconnectLogged               // info: "Reconnecting OWFS"
    | OwfsReset                     // LaunchControl.setupOWFS()

  predicate IsFaultLog(e: Event) { e.FaultLogged? }
  predicate IsRecoveryLog(e: Event) { e.RecoveryLogged? }
  predicate IsReset(e: Event) { e.OwfsReset? }

  /** Number of events of es that satisfy p. */
  function Count(es: seq<Event>, p: Event -> bool): nat {
    if es == [] then 0 else Count(es[..|es| - 1], p) + (if p(es[|es| - 1]) then 1 else 0)
  }

  lemma {:induction false} CountAppend(a: seq<Event>, b: seq<Event>, p: Event -> bool)
    ensures Count(a + b, p) == Count(a, p) + Count(b, p)
  {
    if b != [] {
      assert (a + b)[..|a + b| - 1] == a + b[..|b| - 1];
      CountAppend(a, b[..|b| - 1], p);
    } else {
      assert a + b == a;
    }
  }

  /** Regrouping of three traces, stated once so that the sampling loop does not re-derive it. */
  lemma AppendAssoc(a: seq<Event>, b: seq<Event>, c: seq<Event>)
    ensures a + b + c == a + (b + c)
  {
  }

  function FaultLogs(es: seq<Event>): nat { Count(es, IsFaultLog) }
  function RecoveryLogs(es: seq<Event>): nat { Count(es, IsRecoveryLog) }
  function Resets(es: seq<Event>): nat { Count(es, IsReset) }

  /** A reference field that is neither null nor the empty string. */
  predicate Present(s: Option<string>) {
    s.Some? && |s.value| > 0
  }

  /** The branch updateReading takes: the pin if one is bound, else the DS2450 path if both parts are given. */
  function SelectInput(analogueBound: bool, dsAddress: Option<string>, dsOffset: Option<string>): (i: Input)
    ensures i.Analogue? <==> analogueBound
    ensures i.Owfs? <==> !analogueBound && Present(dsAddress) && Present(dsOffset)
    ensures i.Owfs? ==> i.path == dsAddress.value + "/volt." + dsOffset.value
  {
    if analogueBound then Analogue
    else if Present(dsAddress) && Present(dsOffset) then Owfs(dsAddress.value + "/volt." + dsOffset.value)
    else Unbound
  }

  /** What a call of updateReading returns: the value read, and the sentinel 0 otherwise. */
  function ReadValue(input: Input, o: Outcome): real {
    if !input.Unbound? && o.Ok? then o.value else 0.0
  }

  /** The effect of one updateReading: the value returned, the new fault flag, the events emitted. */
  datatype Step = Step(value: real, faulted: bool, events: seq<Event>)

  predicate IsRead(e: Event) { e.AnalogueRead? || e.OwfsRead? }

  function Attempt(read: Event, origin: Origin, faulted: bool, name: string, o: Outcome): Step
    requires IsRead(read)
  {
    match o
    case Ok(v) =>
      Step(v, false, [read] + (if faulted then [RecoveryLogged(name)] else []))
    case Fail =>
      Step(0.0, true, [read] + (if faulted then [] else [FaultLogged(origin)]) + [ReconnectLogged, OwfsReset])
  }

  lemma CountSingle(e: Event, p: Event -> bool)
    ensures Count([e], p) == if p(e) then 1 else 0
  {
    assert [e][..0] == [];
  }

  /** Counts over a read event followed by extra events. */
  lemma CountsAfterRead(read: Event, extra: seq<Event>)
    requires IsRead(read)
    ensures FaultLogs([read] + extra) == FaultLogs(extra)
    ensures RecoveryLogs([read] + extra) == RecoveryLogs(extra)
    ensures Resets([read] + extra) == Resets(extra)
  {
    CountAppend([read], extra, IsFaultLog);
    CountAppend([read], extra, IsRecoveryLog);
    CountAppend([read], extra, IsReset);
    CountSingle(read, IsFaultLog);
    CountSingle(read, IsRecoveryLog);
    CountSingle(read, IsReset);
  }

  /** The events after the read when it fails: a failure message if the flag was clear, then the reconnect notice and the reset. */
  lemma FailureEventCounts(origin: Origin, faulted: bool)
    ensures var extra := (if faulted then [] else [FaultLogged(origin)]) + [ReconnectLogged, OwfsReset];
      FaultLogs(extra) == (if faulted then 0 else 1) && RecoveryLogs(extra) == 0 && Resets(extra) == 1
  {
    var middle: seq<Event> := if faulted then [] else [FaultLogged(origin)];
    var tail := [ReconnectLogged, OwfsReset];
    assert tail == [ReconnectLogged] + [OwfsReset];
    CountAppend([ReconnectLogged], [OwfsReset], IsFaultLog);
    CountAppend([ReconnectLogged], [OwfsReset], IsRecoveryLog);
    CountAppend([ReconnectLogged], [OwfsReset], IsReset);
    CountSingle(ReconnectLogged, IsFaultLog);
    CountSingle(ReconnectLogged, IsRecoveryLog);
    CountSingle(ReconnectLogged, IsReset);
    CountSingle(OwfsReset, IsFaultLog);
    CountSingle(OwfsReset, IsRecoveryLog);
    CountSingle(OwfsReset, IsReset);
    CountAppend(middle, tail, IsFaultLog);
    CountAppend(middle, tail, IsRecoveryLog);
    CountAppend(middle, tail, IsReset);
    if !faulted {
      CountSingle(FaultLogged(origin), IsFaultLog);
      CountSingle(FaultLogged(origin), IsRecoveryLog);
      CountSingle(FaultLogged(origin), IsReset);
    } else {
      assert middle + tail == tail;
    }
  }

  /** One read logs a failure only when it fails with the flag clear, a recovery only when it succeeds with the flag set. */
  lemma AttemptEvents(read: Event, origin: Origin, faulted: bool, name: string, o: Outcome)
    requires IsRead(read)
    ensures var s := Attempt(read, origin, faulted, name, o);
      |s.events| > 0 && s.events[0] == read &&
      FaultLogs(s.events) == (if o.Fail? && !faulted then 1 else 0) &&
      RecoveryLogs(s.events) == (if o.Ok? && faulted then 1 else 0) &&
      Resets(s.events) == (if o.Fail? then 1 else 0)
  {
    match o
    case Ok(v) =>
      var extra: seq<Event> := if faulted then [RecoveryLogged(name)] else [];
      CountsAfterRead(read, extra);
      if faulted {
        CountSingle(RecoveryLogged(name), IsFaultLog);
        CountSingle(RecoveryLogged(name), IsRecoveryLog);
        CountSingle(RecoveryLogged(name), IsReset);
      }
    case Fail =>
      var extra := (if faulted then [] else [FaultLogged(origin)]) + [ReconnectLogged, OwfsReset];
      assert [read] + (if faulted then [] else [FaultLogged(origin)]) + [ReconnectLogged, OwfsReset] == [read] + extra;
      CountsAfterRead(read, extra);
      FailureEventCounts(origin, faulted);
  }

  function Update(input: Input, faulted: bool, name: string, o: Outcome): (s: Step)
    ensures input.Unbound? ==> s == Step(0.0, faulted, [])
    ensures !input.Unbound? ==> s.faulted == o.Fail?
    ensures s.value == ReadValue(input, o)
    ensures input.Analogue? ==> |s.events| > 0 && s.events[0] == AnalogueRead
    ensures input.Owfs? ==> |s.events| > 0 && s.events[0] == OwfsRead(input.path)
  {
    match input
    case Unbound => Step(0.0, faulted, [])
    case Analogue => Attempt(AnalogueRead, FromAnalogue, faulted, name, o)
    case Owfs(path) => Attempt(OwfsRead(path), FromOwfs, faulted, name, o)
  }

  /** The messages and resets of one updateReading call. */
  lemma UpdateEvents(input: Input, faulted: bool, name: string, o: Outcome)
    ensures var s := Update(input, faulted, name, o);
      FaultLogs(s.events) == (if !input.Unbound? && o.Fail? && !faulted then 1 else 0) &&
      RecoveryLogs(s.events) == (if !input.Unbound? && o.Ok? && faulted then 1 else 0) &&
      Resets(s.events) == (if !input.Unbound? && o.Fail? then 1 else 0)
  {
    match input
    case Unbound =>
    case Analogue => AttemptEvents(AnalogueRead, FromAnalogue, faulted, name, o);
    case Owfs(path) => AttemptEvents(OwfsRead(path), FromOwfs, faulted, name, o);
  }

  /** The fault flag and the events after a series of updateReading calls. */
  datatype History = History(faulted: bool, events: seq<Event>)

  function Replay(input: Input, faulted: bool, name: string, os: seq<Outcome>): History
    decreases |os|
  {
    if os == [] then History(faulted, [])
    else
      var before := Replay(input, faulted, name, os[..|os| - 1]);
      var s := Update(input, before.faulted, name, os[|os| - 1]);
      History(s.faulted, before.events + s.events)
  }

  /** The flag in force just before the i-th read of a bound input: the start flag, or whether the previous read failed. */
  function FlagBefore(start: bool, os: seq<Outcome>, i: nat): bool
    requires i <= |os|
  {
    if i == 0 then start else os[i - 1].Fail?
  }

  /** Reads that fail while the flag is clear (the OK to FAULTED transitions). */
  function Onsets(start: bool, os: seq<Outcome>): nat {
    if os == [] then 0
    else Onsets(start, os[..|os| - 1]) + (if os[|os| - 1].Fail? && !FlagBefore(start, os, |os| - 1) then 1 else 0)
  }

  /** Reads that succeed while the flag is set (the FAULTED to OK transitions). */
  function Recoveries(start: bool, os: seq<Outcome>): nat {
    if os == [] then 0
    else Recoveries(start, os[..|os| - 1]) + (if os[|os| - 1].Ok? && FlagBefore(start, os, |os| - 1) then 1 else 0)
  }

  function Failures(os: seq<Outcome>): nat {
    if os == [] then 0 else Failures(os[..|os| - 1]) + (if os[|os| - 1].Fail? then 1 else 0)
  }

  /** The flag follows the last outcome of a bound input; an unbound sensor never changes or emits anything. */
  lemma {:induction false} ReplayFlag(input: Input, start: bool, name: string, os: seq<Outcome>)
    ensures input.Unbound? ==> Replay(input, start, name, os) == History(start, [])
    ensures !input.Unbound? ==> Replay(input, start, name, os).faulted == FlagBefore(start, os, |os|)
  {
    if os != [] {
      ReplayFlag(input, start, name, os[..|os| - 1]);
    }
  }

  /** The failure message is logged once per OK to FAULTED transition of a bound input. */
  lemma {:induction false} ReplayFaultLogs(input: Input, start: bool, name: string, os: seq<Outcome>)
    requires !input.Unbound?
    ensures FaultLogs(Replay(input, start, name, os).events) == Onsets(start, os)
  {
    if os != [] {
      var prefix := os[..|os| - 1];
      ReplayFaultLogs(input, start, name, prefix);
      ReplayFlag(input, start, name, prefix);
      var before := Replay(input, start, name, prefix);
      var s := Update(input, before.faulted, name, os[|os| - 1]);
      UpdateEvents(input, before.faulted, name, os[|os| - 1]);
      CountAppend(before.events, s.events, IsFaultLog);
    }
  }

  /** The recovery message is logged once per FAULTED to OK transition of a bound input. */
  lemma {:induction false} ReplayRecoveryLogs(input: Input, start: bool, name: string, os: seq<Outcome>)
    requires !input.Unbound?
    ensures RecoveryLogs(Replay(input, start, name, os).events) == Recoveries(start, os)
  {
    if os != [] {
      var prefix := os[..|os| - 1];
      ReplayRecoveryLogs(input, start, name, prefix);
      ReplayFlag(input, start, name, prefix);
      var before := Replay(input, start, name, prefix);
      var s := Update(input, before.faulted, name, os[|os| - 1]);
      UpdateEvents(input, before.faulted, name, os[|os| - 1]);
      CountAppend(before.events, s.events, IsRecoveryLog);
    }
  }

  /** The OWFS bus is reset on every failed read of a bound input, not only on the first of a run. */
  lemma {:induction false} ReplayResets(input: Input, start: bool, name: string, os: seq<Outcome>)
    requires !input.Unbound?
    ensures Resets(Replay(input, start, name, os).events) == Failures(os)
  {
    if os != [] {
      var prefix := os[..|os| - 1];
      ReplayResets(input, start, name, prefix);
      var before := Replay(input, start, name, prefix);
      var s := Update(input, before.faulted, name, os[|os| - 1]);
      UpdateEvents(input, before.faulted, name, os[|os| - 1]);
      CountAppend(before.events, s.events, IsReset);
    }
  }

  /** Failure and recovery messages alternate: there is at most one more failure message than recovery messages. */
  lemma {:induction false} LogsAlternate(input: Input, start: bool, name: string, os: seq<Outcome>)
    ensures var h := Replay(input, start, name, os);
      FaultLogs(h.events) + (if start then 1 else 0) == RecoveryLogs(h.events) + (if h.faulted then 1 else 0)
  {
    if os != [] {
      var prefix := os[..|os| - 1];
      LogsAlternate(input, start, name, prefix);
      var before := Replay(input, start, name, prefix);
      var s := Update(input, before.faulted, name, os[|os| - 1]);
      UpdateEvents(input, before.faulted, name, os[|os| - 1]);
      CountAppend(before.events, s.events, IsFaultLog);
      CountAppend(before.events, s.events, IsRecoveryLog);
    }
  }

  lemma {:induction false} SteadyOutcomesHaveNoTransitions(start: bool, os: seq<Outcome>)
    requires forall i :: 0 <= i < |os| ==> os[i].Fail? == start
    ensures Onsets(start, os) == 0 && Recoveries(start, os) == 0
  {
    if os != [] {
      SteadyOutcomesHaveNoTransitions(start, os[..|os| - 1]);
    }
  }

  /** Repeating the outcome that set the flag logs nothing: no failure and no recovery message. */
  lemma SteadyRunIsSilent(input: Input, start: bool, name: string, os: seq<Outcome>)
    requires forall i :: 0 <= i < |os| ==> os[i].Fail? == start
    ensures FaultLogs(Replay(input, start, name, os).events) == 0
    ensures RecoveryLogs(Replay(input, start, name, os).events) == 0
  {
    if input.Unbound? {
      ReplayFlag(input, start, name, os);
    } else {
      ReplayFaultLogs(input, start, name, os);
      ReplayRecoveryLogs(input, start, name, os);
      SteadyOutcomesHaveNoTransitions(start, os);
    }
  }

  /** The non-zero values a series of reads hands back, in order: the samples calcSEN0161 keeps. */
  function Samples(input: Input, os: seq<Outcome>): seq<real> {
    if os == [] then []
    else
      var v := ReadValue(input, os[|os| - 1]);
      Samples(input, os[..|os| - 1]) + (if v != 0.0 then [v] else [])
  }

  lemma {:induction false} SamplesOfPrefix(input: Input, os: seq<Outcome>, k: nat)
    requires k <= |os|
    ensures |Samples(input, os[..k])| <= |Samples(input, os)|
  {
    if k < |os| {
      assert os[..|os| - 1][..k] == os[..k];
      SamplesOfPrefix(input, os[..|os| - 1], k);
    } else {
      assert os[..k] == os;
    }
  }

  /** One more read extends the history by that read's step. */
  lemma ReplayAppend(input: Input, start: bool, name: string, os: seq<Outcome>, o: Outcome)
    ensures var h := Replay(input, start, name, os);
      var s := Update(input, h.faulted, name, o);
      Replay(input, start, name, os + [o]) == History(s.faulted, h.events + s.events)
  {
    assert (os + [o])[..|os|] == os;
  }

  /** One more read keeps one more sample exactly when it hands back a non-zero value. */
  lemma SamplesAppend(input: Input, os: seq<Outcome>, o: Outcome)
    ensures |Samples(input, os + [o])| == |Samples(input, os)| + (if ReadValue(input, o) != 0.0 then 1 else 0)
  {
    assert (os + [o])[..|os|] == os;
  }

  /** When the sampling loop stops: it stops short of four samples exactly when the whole feed holds fewer than four non-zero reads. */
  lemma Sen0161Exit(input: Input, feed: seq<Outcome>, k: nat, i: int)
    requires k <= |feed| && i == |Samples(input, feed[..k])| <= MaxRead + 1
    requires i <= MaxRead ==> k == |feed|
    ensures i <= MaxRead <==> |Samples(input, feed)| < MaxRead + 1
  {
    SamplesOfPrefix(input, feed, k);
    if i <= MaxRead {
      assert feed[..k] == feed;
    }
  }

  /** Sum of the samples, in the order they were kept. */
  function Sum(vs: seq<real>): real {
    if vs == [] then 0.0 else Sum(vs[..|vs| - 1]) + vs[|vs| - 1]
  }

  lemma SumOfEqualSamples(v: real)
    ensures Sum([v, v, v, v]) == 4.0 * v
  {
    assert [v][..0] == [];
    assert Sum([v]) == v;
    assert [v, v][..1] == [v];
    assert Sum([v, v]) == 2.0 * v;
    assert [v, v, v][..2] == [v, v];
    assert Sum([v, v, v]) == 3.0 * v;
    assert [v, v, v, v][..3] == [v, v, v];
  }

  /** MAXREAD in calcSEN0161: the loop index runs from 0 to MAXREAD inclusive. */
  const MaxRead: int := 3

  /** The arithmetic after the loop: divide by MAXREAD, scale to millivolts, then to pH, then add the offset. */
  function Sen0161Tail(accumulated: real, offset: real): real {
    accumulated / (MaxRead as real) * (5.0 / 1024.0) * 3.5 + offset
  }

  /** calcSEN0161 as written: the sum of the samples is discarded, so the tail sees 0. */
  function Sen0161AsWritten(samples: seq<real>, offset: real): (ph: real)
    ensures ph == offset
  {
    Sen0161Tail(0.0, offset)
  }

  /** What calcSEN0161 evidently means: the average of its four samples, scaled. */
  function Sen0161Intended(samples: seq<real>, offset: real): real
    requires |samples| == MaxRead + 1
  {
    Sum(samples) / (|samples| as real) * (5.0 / 1024.0) * 3.5 + offset
  }

  /** The kept samples make no difference to the result as written. */
  lemma Sen0161AsWrittenIgnoresSamples()
    ensures Sen0161AsWritten([10.0, 10.0, 10.0, 10.0], 0.0) == 0.0
    ensures Sen0161Intended([10.0, 10.0, 10.0, 10.0], 0.0) == 175.0 / 1024.0
  {
    SumOfEqualSamples(10.0);
  }

  /** Even with the sum kept, dividing four samples by MAXREAD = 3 overstates the average by a third. */
  lemma Sen0161DividesByMaxRead()
    ensures Sen0161Tail(12.0, 0.0) == 35.0 / 512.0
    ensures Sen0161Intended([3.0, 3.0, 3.0, 3.0], 0.0) == 105.0 / 2048.0
  {
    SumOfEqualSamples(3.0);
  }

  /** The intended formula maps four equal samples v to the pH of v. */
  lemma Sen0161IntendedAveragesEqualSamples(v: real, offset: real)
    ensures Sen0161Intended([v, v, v, v], offset) == v * (5.0 / 1024.0) * 3.5 + offset
  {
    SumOfEqualSamples(v);
  }

  /** A calibration formula that the sensor class declares with the PhSensorType annotation. */
  datatype Formula = Sen0161

  /** One registry entry: the annotation's model name and the method it is attached to. */
  datatype Entry = Entry(model: string, formula: Formula)

  /** The annotated methods of PhSensor, in declaration order. */
  const Registry: seq<Entry> := [Entry("SEN0161", Sen0161)]

  /** Whether entry e is selected for the model and its formula returned a value. */
  predicate Selected(e: Entry, model: Option<string>, eval: Formula -> Option<real>) {
    MatchesIgnoreCase(e.model, model) && eval(e.formula).Some?
  }

  /** What calcPhValue returns: the value of the last selected entry, or null. */
  function PhValue(registry: seq<Entry>, model: Option<string>, eval: Formula -> Option<real>): Option<real> {
    if registry == [] then None
    else
      var last := registry[|registry| - 1];
      if Selected(last, model, eval) then eval(last.formula)
      else PhValue(registry[..|registry| - 1], model, eval)
  }

  /**
   * calcPhValue: scans the registry and invokes every formula whose model name
   * equals the sensor's model ignoring case, keeping the last value returned.
   * eval gives what invoking each formula returns (None: the call threw).
   */
  method CalcPhValue(registry: seq<Entry>, model: Option<string>, eval: Formula -> Option<real>)
    returns (value: Option<real>)
    ensures value == PhValue(registry, model, eval)
  {
    value := None;
    var k := 0;
    while k < |registry|
      invariant 0 <= k <= |registry|
      invariant value == PhValue(registry[..k], model, eval)
    {
      var m := registry[k];
      if MatchesIgnoreCase(m.model, model) {
        var r := eval(m.formula);
        if r.Some? {
          value := r;
        }
      }
      assert registry[..k + 1][..k] == registry[..k];
      k := k + 1;
    }
    assert registry[..k] == registry;
  }

  /** calcPhValue gives null exactly when no entry is selected. */
  lemma {:induction false} PhValueAbsent(registry: seq<Entry>, model: Option<string>, eval: Formula -> Option<real>)
    ensures PhValue(registry, model, eval).None? <==>
      forall i :: 0 <= i < |registry| ==> !Selected(registry[i], model, eval)
  {
    if registry != [] {
      var prefix := registry[..|registry| - 1];
      PhValueAbsent(prefix, model, eval);
      assert forall i :: 0 <= i < |prefix| ==> prefix[i] == registry[i];
    }
  }

  /** The last selected entry wins, because value is overwritten on each match. */
  lemma {:induction false} PhValueLastMatchWins(registry: seq<Entry>, model: Option<string>, eval: Formula -> Option<real>, i: nat)
    requires i < |registry| && Selected(registry[i], model, eval)
    requires forall j :: i < j < |registry| ==> !Selected(registry[j], model, eval)
    ensures PhValue(registry, model, eval) == eval(registry[i].formula)
  {
    if i < |registry| - 1 {
      var prefix := registry[..|registry| - 1];
      assert prefix[i] == registry[i];
      assert forall j :: i < j < |prefix| ==> prefix[j] == registry[j];
      PhValueLastMatchWins(prefix, model, eval, i);
    }
  }

  /** The SEN0161 formula is found whatever the case of the model name; a blank or null model has no formula. */
  lemma RegistryLookup(eval: Formula -> Option<real>)
    ensures PhValue(Registry, Some("SEN0161"), eval) == eval(Sen0161)
    ensures PhValue(Registry, Some("sen0161"), eval) == eval(Sen0161)
    ensures PhValue(Registry, Some(""), eval) == None
    ensures PhValue(Registry, None, eval) == None
  {
    assert Registry[..0] == [];
    assert EqualsIgnoreCase("SEN0161", "sen0161");
  }

  /** getAvailableTypes: the model name of every registry entry, one per entry, in order. */
  method AvailableTypes(registry: seq<Entry>) returns (typeList: seq<string>)
    ensures |typeList| == |registry|
    ensures forall i :: 0 <= i < |registry| ==> typeList[i] == registry[i].model
  {
    typeList := [];
    var k := 0;
    while k < |registry|
      invariant 0 <= k <= |registry|
      invariant |typeList| == k
      invariant forall i :: 0 <= i < k ==> typeList[i] == registry[i].model
    {
      typeList := typeList + [registry[k].model];
      k := k + 1;
    }
  }

  /** The record getJsonStatus reports. */
  datatype Status = Status(phReading: real, name: string, deviceType: Option<string>)

  class PhSensor {
    var ainPin: int
    var dsAddress: Option<string>
    var dsOffset: Option<string>
    var model: Option<string>
    var name: string
    var phReading: real
    var offset: real
    /** Whether an analogue InPin was opened (ainGPIO != null). */
    var analogueBound: bool
    var stopLogging: bool
    /** Everything the sensor has done to the outside world, oldest first. */
    ghost var trace: seq<Event>

    /** A blank sensor: no input bound. */
    constructor ()
      ensures ainPin == -1 && dsAddress == Some("") && dsOffset == Some("") && model == Some("")
      ensures name == "pH Sensor" && phReading == 0.0 && offset == 0.0
      ensures !analogueBound && !stopLogging && trace == []
      ensures InputOf() == Unbound
    {
      ainPin, dsAddress, dsOffset, model := -1, Some(""), Some(""), Some("");
      name, phReading, offset := "pH Sensor", 0.0, 0.0;
      analogueBound, stopLogging := false, false;
      trace := [];
    }

    /** A sensor on an analogue pin, in the case where the pin opens. */
    constructor FromPin(newPin: int)
      ensures ainPin == newPin && dsAddress == Some("") && dsOffset == Some("") && model == Some("")
      ensures name == "pH Sensor" && phReading == 0.0 && offset == 0.0
      ensures analogueBound && !stopLogging && trace == []
      ensures InputOf() == Analogue
    {
      ainPin, dsAddress, dsOffset, model := newPin, Some(""), Some(""), Some("");
      name, phReading, offset := "pH Sensor", 0.0, 0.0;
      analogueBound, stopLogging := true, false;
      trace := [];
    }

    /** A sensor on a DS2450 analogue input, read through OWFS; nothing is checked until the first read. */
    constructor FromDs2450(address: Option<string>, dsOff: Option<string>)
      ensures ainPin == -1 && dsAddress == address && dsOffset == dsOff && model == Some("")
      ensures name == "pH Sensor" && phReading == 0.0 && offset == 0.0
      ensures !analogueBound && !stopLogging && trace == []
      ensures InputOf() == SelectInput(false, address, dsOff)
    {
      ainPin, dsAddress, dsOffset, model := -1, address, dsOff, Some("");
      name, phReading, offset := "pH Sensor", 0.0, 0.0;
      analogueBound, stopLogging := false, false;
      trace := [];
    }

    /** The input updateReading reads, fixed by the constructor. */
    function InputOf(): Input
      reads this`analogueBound, this`dsAddress, this`dsOffset
    {
      SelectInput(analogueBound, dsAddress, dsOffset)
    }

    method SetType(newType: Option<string>)
      modifies this`model
      ensures model == newType
    {
      model := newType;
    }

    function JsonStatus(): Status
      reads this`phReading, this`name, this`model
    {
      Status(phReading, name, model)
    }

    function GetName(): string reads this`name { name }
    function GetModel(): Option<string> reads this`model { model }
    function GetDsOffset(): Option<string> reads this`dsOffset { dsOffset }
    function GetDsAddress(): Option<string> reads this`dsAddress { dsAddress }

    /** The pin as text: empty when no pin was set, otherwise its decimal text. */
    function GetAIN(): (s: string)
      reads this`ainPin
      ensures s == "" <==> ainPin == -1
      ensures ainPin != -1 ==> ParseInt(s) == Some(ainPin)
    {
      if ainPin == -1 then ""
      else
        IntTextRoundTrip(ainPin);
        IntText(ainPin)
    }

    /**
     * updateReading, given the outcome of the read it makes. Only the fault
     * flag and the trace change; in particular phReading is never written,
     * so the status keeps reporting its initial value.
     */
    method UpdateReading(o: Outcome) returns (pinValue: real)
      modifies this`stopLogging, this`trace
      ensures pinValue == Update(InputOf(), old(stopLogging), name, o).value
      ensures stopLogging == Update(InputOf(), old(stopLogging), name, o).faulted
      ensures trace == old(trace) + Update(InputOf(), old(stopLogging), name, o).events
      ensures JsonStatus() == old(JsonStatus())
    {
      pinValue := 0.0;
      if analogueBound {
        trace := trace + [AnalogueRead];
        match o {
          case Ok(v) =>
            pinValue := v;
            if stopLogging {
              trace := trace + [RecoveryLogged(name)];
              stopLogging := false;
            }
          case Fail =>
            if !stopLogging {
              trace := trace + [FaultLogged(FromAnalogue)];
              stopLogging := true;
            }
            trace := trace + [ReconnectLogged, OwfsReset];
        }
      } else if dsAddress.Some? && |dsAddress.value| > 0 && dsOffset.Some? && |dsOffset.value| > 0 {
        trace := trace + [OwfsRead(dsAddress.value + "/volt." + dsOffset.value)];
        match o {
          case Ok(v) =>
            pinValue := v;
            if stopLogging {
              trace := trace + [RecoveryLogged(name)];
              stopLogging := false;
            }
          case Fail =>
            if !stopLogging {
              trace := trace + [FaultLogged(FromOwfs)];
              stopLogging := true;
            }
            trace := trace + [ReconnectLogged, OwfsReset];
        }
      }
    }

    /**
     * calcSEN0161 over the outcomes of its successive reads. The loop only
     * ends once four reads have returned a non-zero value; when feed runs out
     * first the source would still be looping, and the result is None.
     */
    method CalcSen0161(feed: seq<Outcome>) returns (ph: Option<real>, ghost used: nat)
      modifies this`stopLogging, this`trace
      ensures used <= |feed|
      ensures stopLogging == Replay(InputOf(), old(stopLogging), name, feed[..used]).faulted
      ensures trace == old(trace) + Replay(InputOf(), old(stopLogging), name, feed[..used]).events
      ensures ph.Some? <==> |Samples(InputOf(), feed)| >= MaxRead + 1
      ensures ph.Some? ==>
        var kept := Samples(InputOf(), feed[..used]);
        |kept| == MaxRead + 1 && ReadValue(InputOf(), feed[used - 1]) != 0.0 &&
        ph.value == Sen0161AsWritten(kept, offset)
      ensures ph.None? ==> used == |feed|
    {
      ghost var input := InputOf();
      ghost var start := stopLogging;
      ghost var consumed: seq<Outcome> := [];
      ghost var history := History(start, []);
      var readValue := 0.0;
      var i := 0;
      var k := 0;
      while i <= MaxRead && k < |feed|
        invariant 0 <= k <= |feed| && consumed == feed[..k]
        invariant InputOf() == input && start == old(stopLogging)
        invariant i == |Samples(input, consumed)| <= MaxRead + 1
        invariant i == MaxRead + 1 ==> k > 0 && ReadValue(input, feed[k - 1]) != 0.0
        invariant history == Replay(input, start, name, consumed)
        invariant stopLogging == history.faulted
        invariant trace == old(trace) + history.events
        decreases |feed| - k
      {
        ghost var s := Update(input, history.faulted, name, feed[k]);
        ReplayAppend(input, start, name, consumed, feed[k]);
        SamplesAppend(input, consumed, feed[k]);
        ghost var traceBefore := trace;
        var t := UpdateReading(feed[k]);
        assert InputOf() == input;
        assert stopLogging == s.faulted && trace == traceBefore + s.events && t == s.value;
        AppendAssoc(old(trace), history.events, s.events);
        history := History(s.faulted, history.events + s.events);
        consumed := consumed + [feed[k]];
        k := k + 1;
        if t == 0.0 {
          i := i - 1;
        } else {
          // readValue.add(t): the sum is computed and dropped
          var _ := readValue + t;
        }
        i := i + 1;
      }
      used := k;
      Sen0161Exit(input, feed, k, i);
      if i <= MaxRead {
        ph := None;
        return;
      }
      readValue := readValue / (MaxRead as real);
      var millivolts := readValue * (5.0 / 1024.0);
      ph := Some(millivolts * 3.5 + offset);
    }
  }
}
