/**
 The experiment harness (scripts/research_harness_v2.py): an append-only log of
 measurements, an index of probe baselines, expectations judged when they are
 recorded, and a report whose verdict should say something about the whole run.
 */
module ResearchHarness {
  import opened Results
  import Runs

  // ---------- values ----------

  datatype Value = Bool(b: bool) | Num(n: int) | Text(t: string) | Nothing

  predicate Truthy(v: Value) {
    match v
    case Bool(b) => b
    case Num(n) => n != 0
    case Text(t) => t != ""
    case Nothing => false
  }

  // Python's ==, by which True equals 1 and False equals 0.
  predicate Equal(v: Value, w: Value) {
    v == w || (AsNumber(v).Some? && AsNumber(v) == AsNumber(w))
  }

  function AsNumber(v: Value): Option<int> {
    match v
    case Bool(b) => Some(if b then 1 else 0)
    case Num(n) => Some(n)
    case Text(_) => None
    case Nothing => None
  }

  datatype Measurement = Measurement(
    title: string, value: Value, isControl: bool, isBaseline: bool, probe: string, arm: string)

  predicate SameMeasurement(m: Measurement, n: Measurement) {
    m.(value := Nothing) == n.(value := Nothing) && Equal(m.value, n.value)
  }

  datatype Expectation = Expectation(
    claim: string, measurement: Measurement, want: bool, holds: bool, arm: string, waiver: string)

  datatype State = State(
    measurements: seq<Measurement>,
    expectations: seq<Expectation>,
    baselines: map<string, bool>,
    voidArms: map<string, string>,
    stated: bool,
    probes: seq<string>)

  const EMPTY_RUN := State([], [], map[], map[], false, [])

  // ---------- operations ----------

  datatype Op =
    | DeclareProbe(name: string)
    | Baseline(k: nat, value: Value, want: bool)
    | Sample(k: nat, value: Value, title: string)
    | Measure(title: string, value: Value, arm: string)
    | Control(title: string, value: Value, arm: string)
    | Expect(claim: string, measurement: Measurement, want: bool, waiver: string, arm: string)
    | VoidArm(arm: string, reason: string)
    | NotTried

  function BaselineOf(name: string, value: Value): Measurement {
    Measurement("baseline: " + name, value, true, true, name, "")
  }

  function SampleOf(name: string, value: Value, title: string): Measurement {
    Measurement(if title == "" then name else title, value, false, false, name, "")
  }

  function AfterBaseline(s: State, name: string, value: Value, want: bool): State {
    if !value.Bool? then s
    else
      // The measurement is logged before its value is judged.
      var logged := s.(measurements := s.measurements + [BaselineOf(name, value)]);
      if value.b != want then logged else logged.(baselines := s.baselines[name := want])
  }

  ghost predicate WasRecorded(s: State, m: Measurement) {
    exists k :: 0 <= k < |s.measurements| && SameMeasurement(m, s.measurements[k])
  }

  // The refusals of expect().
  ghost predicate Accepts(s: State, m: Measurement, want: bool, waiver: string) {
    && WasRecorded(s, m)
    && m.value.Bool?
    && (waiver == "" ==> m.probe != "" && m.probe in s.baselines && s.baselines[m.probe] != want)
  }

  function ExpectationOf(claim: string, m: Measurement, want: bool, waiver: string, arm: string): Expectation {
    Expectation(claim, m, want, m.value == Bool(want), if arm == "" then m.arm else arm, waiver)
  }

  ghost function Next(s: State, op: Op): State {
    match op
    case DeclareProbe(name) =>
      if name in s.baselines then s else s.(probes := s.probes + [name])
    case Baseline(k, value, want) =>
      if k < |s.probes| then AfterBaseline(s, s.probes[k], value, want) else s
    case Sample(k, value, title) =>
      if k < |s.probes| && value.Bool? then s.(measurements := s.measurements + [SampleOf(s.probes[k], value, title)])
      else s
    case Measure(title, value, arm) =>
      s.(measurements := s.measurements + [Measurement(title, value, false, false, "", arm)])
    case Control(title, value, arm) =>
      s.(measurements := s.measurements + [Measurement(title, value, true, false, "", arm)])
    case Expect(claim, m, want, waiver, arm) =>
      if Accepts(s, m, want, waiver)
      then s.(expectations := s.expectations + [ExpectationOf(claim, m, want, waiver, arm)])
      else s
    case VoidArm(arm, reason) => s.(voidArms := s.voidArms[arm := reason])
    case NotTried => s.(stated := true)
  }

  ghost function Calls(): (State, Op) -> State {
    (s: State, op: Op) => Next(s, op)
  }

  // The state after the first n calls.
  ghost function RunTo(ops: seq<Op>, n: nat): State
    requires n <= |ops|
  {
    Runs.RunTo(EMPTY_RUN, Calls(), ops, n)
  }

  ghost function Run(ops: seq<Op>): State {
    RunTo(ops, |ops|)
  }

  datatype VoidReason = NoControl | ControlFailed | BoundsNotStated

  predicate Live(s: State, e: Expectation) {
    e.arm !in s.voidArms
  }

  predicate Breaks(s: State, m: Measurement) {
    m.isControl && !Truthy(m.value) && !m.isBaseline && m.arm !in s.voidArms
  }

  datatype HarnessError = NotBool | AlreadyDeclared | BaselineMismatch | NeverRecorded | Standalone
                        | NeverBaselined | SameAsBaseline

  class Harness {
    var measurements: seq<Measurement>
    var expectations: seq<Expectation>
    var baselines: map<string, bool>
    var voidArms: map<string, string>
    var stated: bool
    var probes: seq<string>

    constructor ()
      ensures Snapshot() == EMPTY_RUN
    {
      measurements, expectations, baselines, voidArms, stated, probes := [], [], map[], map[], false, [];
    }

    function Snapshot(): State
      reads this
    {
      State(measurements, expectations, baselines, voidArms, stated, probes)
    }

    method Probe(name: string) returns (r: Result<nat, HarnessError>)
      modifies this`probes
      ensures Snapshot() == Next(old(Snapshot()), DeclareProbe(name))
      ensures r.Err? <==> name in baselines
      ensures r.Ok? ==> r.value < |probes| && probes[r.value] == name
    {
      if name in baselines {
        return Err(AlreadyDeclared);
      }
      probes := probes + [name];
      return Ok(|probes| - 1);
    }

    method TakeBaseline(k: nat, value: Value, want: bool) returns (r: Result<Measurement, HarnessError>)
      requires k < |probes|
      modifies this`measurements, this`baselines
      ensures Snapshot() == Next(old(Snapshot()), Baseline(k, value, want))
      ensures r.Ok? <==> value == Bool(want)
      ensures r.Ok? ==> r.value == Measurement("baseline: " + probes[k], value, true, true, probes[k], "")
      ensures r == Err(NotBool) <==> !value.Bool?
      ensures r == Err(BaselineMismatch) <==> value == Bool(!want)
    {
      var name := probes[k];
      if !value.Bool? {
        return Err(NotBool);
      }
      var m := BaselineOf(name, value);
      measurements := measurements + [m];
      if value.b != want {
        return Err(BaselineMismatch);
      }
      baselines := baselines[name := value.b];
      return Ok(m);
    }

    method TakeSample(k: nat, value: Value, title: string) returns (r: Result<Measurement, HarnessError>)
      requires k < |probes|
      modifies this`measurements
      ensures Snapshot() == Next(old(Snapshot()), Sample(k, value, title))
      ensures r.Ok? <==> value.Bool?
      ensures r.Ok? ==>
                r.value == Measurement(if title == "" then probes[k] else title, value, false, false, probes[k], "")
    {
      if !value.Bool? {
        return Err(NotBool);
      }
      var m := SampleOf(probes[k], value, title);
      measurements := measurements + [m];
      return Ok(m);
    }

    method Record(title: string, value: Value, isControl: bool, arm: string)
      modifies this`measurements
      ensures Snapshot()
           == Next(old(Snapshot()), if isControl then Control(title, value, arm) else Measure(title, value, arm))
    {
      measurements := measurements + [Measurement(title, value, isControl, false, "", arm)];
    }

    method Void(arm: string, reason: string)
      modifies this`voidArms
      ensures Snapshot() == Next(old(Snapshot()), VoidArm(arm, reason))
    {
      voidArms := voidArms[arm := reason];
    }

    method StateBounds()
      modifies this`stated
      ensures Snapshot() == Next(old(Snapshot()), NotTried)
    {
      stated := true;
    }

    method ExpectThat(claim: string, m: Measurement, want: bool, waiver: string, arm: string)
      returns (r: Result<Expectation, HarnessError>)
      modifies this`expectations
      ensures Snapshot() == Next(old(Snapshot()), Expect(claim, m, want, waiver, arm))
      ensures r.Ok? <==> Accepts(old(Snapshot()), m, want, waiver)
      ensures r == Err(NeverRecorded) <==> !WasRecorded(old(Snapshot()), m)
      ensures r == Err(NotBool) <==> WasRecorded(old(Snapshot()), m) && !m.value.Bool?
      ensures r.Err? && r.error in [Standalone, NeverBaselined, SameAsBaseline] ==> waiver == ""
      ensures r == Err(Standalone) ==> m.probe == ""
      ensures r == Err(NeverBaselined) ==> m.probe != "" && m.probe !in baselines
      ensures r == Err(SameAsBaseline) ==> m.probe in baselines && baselines[m.probe] == want
    {
      var found := false;
      var k := 0;
      while k < |measurements| && !found
        invariant 0 <= k <= |measurements|
        invariant found ==> WasRecorded(Snapshot(), m)
        invariant !found ==> forall j :: 0 <= j < k ==> !SameMeasurement(m, measurements[j])
        invariant Snapshot() == old(Snapshot())
      {
        found := SameMeasurement(m, Snapshot().measurements[k]);
        k := k + 1;
      }
      if !found {
        return Err(NeverRecorded);
      }
      if !m.value.Bool? {
        return Err(NotBool);
      }
      if waiver == "" {
        if m.probe == "" {
          return Err(Standalone);
        }
        if m.probe !in baselines {
          return Err(NeverBaselined);
        }
        if baselines[m.probe] == want {
          return Err(SameAsBaseline);
        }
      }
      var e := Expectation(claim, m, want, m.value == Bool(want), if arm == "" then m.arm else arm, waiver);
      expectations := expectations + [e];
      return Ok(e);
    }

    // report(): refuses without a control, with a failed control or without stated
    // bounds; otherwise says whether every live expectation held.
    method Report() returns (r: Result<bool, VoidReason>)
      ensures r == Ok(true) <==> Passed(Snapshot())
      ensures r.Err? <==> !Renders(Snapshot())
      ensures r == Err(NoControl) <==> forall m :: m in measurements ==> !m.isControl
      ensures r == Err(BoundsNotStated) ==> !stated
    {
      var controls, broken := 0, 0;
      var k := 0;
      while k < |measurements|
        invariant 0 <= k <= |measurements|
        invariant controls > 0 <==> exists j :: 0 <= j < k && measurements[j].isControl
        invariant broken > 0 <==> exists j :: 0 <= j < k && Breaks(Snapshot(), measurements[j])
        invariant controls >= 0 && broken >= 0
      {
        if measurements[k].isControl {
          controls := controls + 1;
          if !Truthy(measurements[k].value) && !measurements[k].isBaseline && measurements[k].arm !in voidArms {
            assert Breaks(Snapshot(), measurements[k]);
            broken := broken + 1;
          }
        }
        k := k + 1;
      }
      if controls == 0 {
        return Err(NoControl);
      }
      if broken > 0 {
        return Err(ControlFailed);
      }
      if !stated {
        return Err(BoundsNotStated);
      }
      k := 0;
      var ok := true;
      while k < |expectations|
        invariant 0 <= k <= |expectations|
        invariant ok <==> forall j :: 0 <= j < k && Live(Snapshot(), expectations[j]) ==> expectations[j].holds
      {
        if expectations[k].arm !in voidArms && !expectations[k].holds {
          assert Live(Snapshot(), expectations[k]);
          ok := false;
        }
        k := k + 1;
      }
      return Ok(ok);
    }
  }

  ghost predicate Renders(s: State) {
    && (exists k :: 0 <= k < |s.measurements| && s.measurements[k].isControl)
    && (forall k :: 0 <= k < |s.measurements| ==> !Breaks(s, s.measurements[k]))
    && s.stated
  }

  // report() returned True.
  ghost predicate Passed(s: State) {
    Renders(s) && forall k :: 0 <= k < |s.expectations| && Live(s, s.expectations[k]) ==> s.expectations[k].holds
  }

  // ---------- invariant ----------

  // A baseline of the named probe that read `value` is in the log.
  ghost predicate BaselineLogged(s: State, name: string, value: bool) {
    exists k :: 0 <= k < |s.measurements| && s.measurements[k] == BaselineOf(name, Bool(value))
  }

  // What an expectation rests on.
  ghost predicate Grounded(s: State, e: Expectation) {
    && (e.holds <==> e.measurement.value == Bool(e.want))
    && e.measurement.value.Bool?
    && WasRecorded(s, e.measurement)
    && (e.waiver == "" ==>
          e.measurement.probe != "" && e.measurement in s.measurements
          && BaselineLogged(s, e.measurement.probe, !e.want))
  }

  ghost predicate Inv(s: State) {
    && (forall k :: 0 <= k < |s.measurements| && s.measurements[k].probe != "" ==> s.measurements[k].value.Bool?)
    && (forall name :: name in s.baselines ==> BaselineLogged(s, name, s.baselines[name]))
    && (forall k :: 0 <= k < |s.expectations| ==> Grounded(s, s.expectations[k]))
  }

  lemma LogGrows(s: State, t: State, added: seq<Measurement>)
    requires t.measurements == s.measurements + added
    ensures forall m: Measurement :: WasRecorded(s, m) ==> WasRecorded(t, m)
    ensures forall name: string, v: bool :: BaselineLogged(s, name, v) ==> BaselineLogged(t, name, v)
    ensures forall e: Expectation :: Grounded(s, e) ==> Grounded(t, e)
  {
    forall m: Measurement | WasRecorded(s, m)
      ensures WasRecorded(t, m)
    {
      var k :| 0 <= k < |s.measurements| && SameMeasurement(m, s.measurements[k]);
      assert SameMeasurement(m, t.measurements[k]);
    }
    forall name: string, v: bool | BaselineLogged(s, name, v)
      ensures BaselineLogged(t, name, v)
    {
      var k :| 0 <= k < |s.measurements| && s.measurements[k] == BaselineOf(name, Bool(v));
      assert t.measurements[k] == BaselineOf(name, Bool(v));
    }
  }

  // A probe's measurement that equals a logged one is that one: probes log booleans.
  lemma EqualProbeMeasurementIsLogged(s: State, m: Measurement)
    requires Inv(s) && WasRecorded(s, m) && m.value.Bool? && m.probe != ""
    ensures m in s.measurements
  {
    var k :| 0 <= k < |s.measurements| && SameMeasurement(m, s.measurements[k]);
    var n := s.measurements[k];
    assert m.(value := Nothing).probe == n.(value := Nothing).probe;
    assert m == m.(value := Nothing).(value := n.value);
  }

  lemma ExpectKeepsInv(s: State, op: Op)
    requires Inv(s) && op.Expect?
    ensures Inv(Next(s, op))
  {
    var t := Next(s, op);
    LogGrows(s, t, []);
    if Accepts(s, op.measurement, op.want, op.waiver) {
      if op.waiver == "" {
        EqualProbeMeasurementIsLogged(s, op.measurement);
        assert BaselineLogged(s, op.measurement.probe, s.baselines[op.measurement.probe]);
      }
      assert Grounded(t, ExpectationOf(op.claim, op.measurement, op.want, op.waiver, op.arm));
    }
  }

  lemma RecordKeepsInv(s: State, t: State, m: Measurement)
    requires Inv(s) && t.measurements == s.measurements + [m] && t.expectations == s.expectations
    requires m.probe != "" ==> m.value.Bool?
    requires t.baselines == s.baselines
          || (m.value.Bool? && m == BaselineOf(m.probe, m.value) && t.baselines == s.baselines[m.probe := m.value.b])
    ensures Inv(t)
  {
    LogGrows(s, t, [m]);
    assert t.measurements[|s.measurements|] == m;
    forall name | name in t.baselines
      ensures BaselineLogged(t, name, t.baselines[name])
    {
      if t.baselines != s.baselines && name == m.probe {
        assert t.measurements[|s.measurements|] == BaselineOf(name, Bool(t.baselines[name]));
      } else {
        assert BaselineLogged(s, name, s.baselines[name]);
      }
    }
  }

  lemma QuietKeepsInv(s: State, t: State)
    requires Inv(s) && t.measurements == s.measurements && t.expectations == s.expectations
    requires t.baselines == s.baselines
    ensures Inv(t)
  {
    LogGrows(s, t, []);
  }

  lemma BaselineKeepsInv(s: State, name: string, value: Value, want: bool)
    requires Inv(s)
    ensures Inv(AfterBaseline(s, name, value, want))
  {
    if value.Bool? {
      RecordKeepsInv(s, AfterBaseline(s, name, value, want), BaselineOf(name, value));
    }
  }

  lemma StepKeepsInv(s: State, op: Op)
    requires Inv(s)
    ensures Inv(Next(s, op))
  {
    var t := Next(s, op);
    match op
    case DeclareProbe(_) => QuietKeepsInv(s, t);
    case Baseline(k, value, want) =>
      if k < |s.probes| {
        BaselineKeepsInv(s, s.probes[k], value, want);
      }
    case Sample(k, value, title) =>
      if k < |s.probes| && value.Bool? {
        RecordKeepsInv(s, t, SampleOf(s.probes[k], value, title));
      }
    case Measure(title, value, arm) => RecordKeepsInv(s, t, Measurement(title, value, false, false, "", arm));
    case Control(title, value, arm) => RecordKeepsInv(s, t, Measurement(title, value, true, false, "", arm));
    case Expect(_, _, _, _, _) => ExpectKeepsInv(s, op);
    case VoidArm(_, _) => QuietKeepsInv(s, t);
    case NotTried => QuietKeepsInv(s, t);
  }

  lemma RunKeepsInv(ops: seq<Op>, n: nat)
    requires n <= |ops|
    ensures Inv(RunTo(ops, n))
  {
    forall s: State, op: Op | Inv(s)
      ensures Inv(Calls()(s, op))
    {
      StepKeepsInv(s, op);
    }
    Runs.Kept(EMPTY_RUN, Calls(), ops, n, s => Inv(s));
  }

  // ---------- soundness of a passing report ----------

  // Whatever was called before: a report that returns True means the bounds were
  // stated, there was a control and every one outside voided arms held, and each live
  // expectation is true of a recorded measurement; unless waived, a baseline of a probe
  // of the same name, with the opposite answer, is in the log too.
  lemma PassedReportIsSound(ops: seq<Op>)
    requires Passed(Run(ops))
    ensures var s := Run(ops);
            && s.stated
            && (exists m :: m in s.measurements && m.isControl)
            && (forall m :: m in s.measurements && MustHold(s, m) ==> Truthy(m.value))
            && (forall e :: e in s.expectations && Live(s, e) ==> Established(s, e))
  {
    RunKeepsInv(ops, |ops|);
    var s := Run(ops);
    forall m | m in s.measurements && MustHold(s, m)
      ensures Truthy(m.value)
    {
      var k :| 0 <= k < |s.measurements| && s.measurements[k] == m;
      assert !Breaks(s, s.measurements[k]);
    }
    forall e | e in s.expectations && Live(s, e)
      ensures Established(s, e)
    {
      assert Grounded(s, e);
      if e.waiver == "" {
        var k :| 0 <= k < |s.measurements| && s.measurements[k] == BaselineOf(e.measurement.probe, Bool(!e.want));
        assert s.measurements[k] in s.measurements;
      }
    }
  }

  predicate MustHold(s: State, m: Measurement) {
    m.isControl && !m.isBaseline && m.arm !in s.voidArms
  }

  // A claim a reader may rely on.
  ghost predicate Established(s: State, e: Expectation) {
    && e.holds && e.measurement.value == Bool(e.want) && WasRecorded(s, e.measurement)
    && (e.waiver == "" ==>
          && e.measurement in s.measurements
          && exists b :: b in s.measurements && b.isBaseline && b.probe == e.measurement.probe
                      && b.value == Bool(!e.want))
  }

  lemma StepAppends(s: State, op: Op)
    ensures s.measurements <= Next(s, op).measurements && s.expectations <= Next(s, op).expectations
  {
  }

  // Nothing recorded is ever changed or dropped.
  lemma LogIsAppendOnly(ops: seq<Op>, k: nat, n: nat)
    requires k <= n <= |ops|
    ensures RunTo(ops, k).measurements <= RunTo(ops, n).measurements
    ensures RunTo(ops, k).expectations <= RunTo(ops, n).expectations
  {
    forall s: State, op: Op
      ensures Runs.Extends(s.measurements, Calls()(s, op).measurements)
      ensures Runs.Extends(s.expectations, Calls()(s, op).expectations)
    {
      StepAppends(s, op);
    }
    Runs.Appends(EMPTY_RUN, Calls(), ops, k, n, (s: State) => s.measurements);
    Runs.Appends(EMPTY_RUN, Calls(), ops, k, n, (s: State) => s.expectations);
  }

  // ---------- the index and the log ----------

  function LastBaseline(log: seq<Measurement>, name: string): Option<Value> {
    if log == [] then None
    else if log[|log| - 1].isBaseline && log[|log| - 1].probe == name then Some(log[|log| - 1].value)
    else LastBaseline(log[..|log| - 1], name)
  }

  // The index holds what the probe's latest logged baseline read.
  predicate UpToDate(s: State, name: string) {
    LastBaseline(s.measurements, name) == if name in s.baselines then Some(Bool(s.baselines[name])) else None
  }

  // A baseline call that disagreed with its `want` and with the index.
  predicate LeavesIndexBehind(s: State, op: Op, name: string) {
    && op.Baseline? && op.k < |s.probes| && s.probes[op.k] == name
    && op.value == Bool(!op.want)
    && !(name in s.baselines && op.value == Bool(s.baselines[name]))
  }

  lemma LastBaselineOfAppended(log: seq<Measurement>, m: Measurement, name: string)
    ensures LastBaseline(log + [m], name)
         == if m.isBaseline && m.probe == name then Some(m.value) else LastBaseline(log, name)
  {
    assert (log + [m])[..|log|] == log;
  }

  // What a call other than baseline() adds to the log.
  lemma OtherCalls(s: State, op: Op) returns (added: seq<Measurement>)
    requires !op.Baseline?
    ensures |added| <= 1 && Next(s, op).measurements == s.measurements + added
    ensures Next(s, op).baselines == s.baselines
    ensures forall k :: 0 <= k < |added| ==> !added[k].isBaseline
    ensures forall k :: 0 <= k < |added| && added[k].probe != "" ==>
              op.Sample? && op.k < |s.probes| && s.probes[op.k] == added[k].probe
  {
    added := [];
    match op
    case Sample(k, value, title) =>
      if k < |s.probes| && value.Bool? {
        added := [SampleOf(s.probes[k], value, title)];
      }
    case Measure(title, value, arm) => added := [Measurement(title, value, false, false, "", arm)];
    case Control(title, value, arm) => added := [Measurement(title, value, true, false, "", arm)];
    case _ =>
  }

  lemma StepUpToDateIff(s: State, op: Op, name: string)
    requires UpToDate(s, name)
    ensures UpToDate(Next(s, op), name) <==> !LeavesIndexBehind(s, op, name)
  {
    if op.Baseline? {
      if op.k < |s.probes| && op.value.Bool? {
        LastBaselineOfAppended(s.measurements, BaselineOf(s.probes[op.k], op.value), name);
      }
    } else {
      var added := OtherCalls(s, op);
      if |added| == 1 {
        assert added == [added[0]];
        LastBaselineOfAppended(s.measurements, added[0], name);
      } else {
        assert s.measurements + added == s.measurements;
      }
    }
  }

  ghost function IndexCurrent(name: string): State -> bool {
    (s: State) => UpToDate(s, name)
  }

  ghost function IndexLagger(name: string): (State, Op) -> bool {
    (s: State, op: Op) => LeavesIndexBehind(s, op, name)
  }

  // The index agrees with the log at every moment of a run, if and only if no call of
  // it leaves the index behind.
  lemma IndexAgreesWithLogIff(ops: seq<Op>, n: nat, name: string)
    requires n <= |ops|
    ensures Runs.AlwaysGood(EMPTY_RUN, Calls(), ops, n, IndexCurrent(name))
       <==> Runs.NeverBad(EMPTY_RUN, Calls(), ops, n, IndexLagger(name))
  {
    forall s: State, op: Op | IndexCurrent(name)(s)
      ensures IndexCurrent(name)(Calls()(s, op)) <==> !IndexLagger(name)(s, op)
    {
      StepUpToDateIff(s, op, name);
    }
    Runs.KeptIff(EMPTY_RUN, Calls(), ops, n, s => true, IndexCurrent(name), IndexLagger(name));
  }

  // A run that baselines a probe, is refused a second baseline, and goes on.
  const STALE_RUN: seq<Op> :=
    [DeclareProbe("p"), Baseline(0, Bool(false), false), Baseline(0, Bool(true), false),
     Sample(0, Bool(true), ""), Expect("c", SampleOf("p", Bool(true), ""), true, "", ""), NotTried]

  const STALE_LOG: seq<Measurement> :=
    [BaselineOf("p", Bool(false)), BaselineOf("p", Bool(true)), SampleOf("p", Bool(true), "")]

  lemma StaleRunLogs()
    ensures RunTo(STALE_RUN, 4) == State(STALE_LOG, [], map["p" := false], map[], false, ["p"])
  {
    var s1 := EMPTY_RUN.(probes := ["p"]);
    RunStep(STALE_RUN, 0, EMPTY_RUN, s1);
    var s2 := s1.(measurements := STALE_LOG[..1], baselines := map["p" := false]);
    RunStep(STALE_RUN, 1, s1, s2);
    var s3 := s2.(measurements := STALE_LOG[..2]);
    RunStep(STALE_RUN, 2, s2, s3);
    RunStep(STALE_RUN, 3, s3, s3.(measurements := STALE_LOG));
  }

  // A run that ends in one true claim about a sample of p, with bounds stated.
  function ClaimedLast(log: seq<Measurement>): State {
    State(log, [ExpectationOf("c", SampleOf("p", Bool(true), ""), true, "", "")], map["p" := false], map[], true, ["p"])
  }

  lemma ClaimedLastPasses(log: seq<Measurement>)
    requires exists k :: 0 <= k < |log| && log[k].isControl
    requires forall k :: 0 <= k < |log| ==> log[k].isBaseline || !log[k].isControl
    ensures Passed(ClaimedLast(log))
  {
    var s := ClaimedLast(log);
    forall k | 0 <= k < |log|
      ensures !Breaks(s, log[k])
    {
    }
  }

  lemma ClaimLast(ops: seq<Op>, n: nat, log: seq<Measurement>, j: nat)
    requires n + 2 == |ops| && RunTo(ops, n) == State(log, [], map["p" := false], map[], false, ["p"])
    requires ops[n] == Expect("c", SampleOf("p", Bool(true), ""), true, "", "") && ops[n + 1] == NotTried
    requires j < |log| && log[j] == SampleOf("p", Bool(true), "")
    ensures Run(ops) == ClaimedLast(log)
  {
    var s := State(log, [], map["p" := false], map[], false, ["p"]);
    assert SameMeasurement(log[j], s.measurements[j]);
    assert Accepts(s, log[j], true, "");
    RunStep(ops, n, s, ClaimedLast(log).(stated := false));
    RunStep(ops, n + 1, ClaimedLast(log).(stated := false), ClaimedLast(log));
  }

  // After such a call an expectation still rests on the older baseline: this report
  // passes although the probe's last baseline reads what its sample reads.
  lemma StaleIndexStillDecides()
    ensures Passed(Run(STALE_RUN)) && |Run(STALE_RUN).expectations| == 1
    ensures Run(STALE_RUN).expectations[0].waiver == ""
    ensures LastBaseline(Run(STALE_RUN).measurements, "p") == Some(Run(STALE_RUN).expectations[0].measurement.value)
  {
    StaleRunLogs();
    ClaimLast(STALE_RUN, 4, STALE_LOG, 2);
    assert STALE_LOG[0].isControl;
    ClaimedLastPasses(STALE_LOG);
    assert STALE_LOG == STALE_LOG[..2] + [STALE_LOG[2]];
    LastBaselineOfAppended(STALE_LOG[..2], STALE_LOG[2], "p");
  }

  lemma RunStep(ops: seq<Op>, k: nat, s: State, t: State)
    requires k < |ops| && RunTo(ops, k) == s && Next(s, ops[k]) == t
    ensures RunTo(ops, k + 1) == t
  {
  }

  // ---------- order ----------

  predicate SampleAt(log: seq<Measurement>, j: nat) {
    j < |log| && log[j].probe != "" && !log[j].isBaseline
  }

  // Before position j the log holds a baseline of the probe that read v.
  predicate Preceded(log: seq<Measurement>, j: nat, name: string, v: bool)
    requires j <= |log|
  {
    exists i :: 0 <= i < j && log[i] == BaselineOf(name, Bool(v))
  }

  // Each sample comes after a baseline that read what the index says.
  ghost predicate SamplesFollowBaselines(s: State) {
    forall j: nat :: SampleAt(s.measurements, j) ==> FollowsBaseline(s, j)
  }

  predicate FollowsBaseline(s: State, j: nat)
    requires j < |s.measurements|
  {
    var name := s.measurements[j].probe;
    name in s.baselines && Preceded(s.measurements, j, name, s.baselines[name])
  }

  // A call that samples a probe without a baseline.
  predicate SamplesTooEarly(s: State, op: Op) {
    op.Sample? && op.k < |s.probes| && op.value.Bool? && s.probes[op.k] != "" && s.probes[op.k] !in s.baselines
  }

  // An accepted baseline call with an answer that some sample of the probe does not
  // have before it.
  ghost predicate BaselinesTooLate(s: State, op: Op) {
    && op.Baseline? && op.k < |s.probes| && op.value == Bool(op.want)
    && exists j: nat :: Lacks(s.measurements, j, s.probes[op.k], op.want)
  }

  lemma PrecededStays(log: seq<Measurement>, longer: seq<Measurement>, j: nat, name: string, v: bool)
    requires log <= longer && j <= |log|
    ensures Preceded(longer, j, name, v) <==> Preceded(log, j, name, v)
  {
    assert forall i :: 0 <= i < j ==> longer[i] == log[i];
  }

  // A sample of the named probe without a baseline v before it.
  ghost predicate Lacks(log: seq<Measurement>, j: nat, name: string, v: bool) {
    SampleAt(log, j) && log[j].probe == name && !Preceded(log, j, name, v)
  }

  lemma AcceptedOrderAt(s: State, t: State, name: string, v: bool, j: nat)
    requires SamplesFollowBaselines(s)
    requires t.measurements == s.measurements + [BaselineOf(name, Bool(v))] && t.baselines == s.baselines[name := v]
    requires SampleAt(t.measurements, j)
    ensures SampleAt(s.measurements, j)
    ensures FollowsBaseline(t, j) <==> !Lacks(s.measurements, j, name, v)
  {
    assert SampleAt(s.measurements, j) && FollowsBaseline(s, j);
    var probe := s.measurements[j].probe;
    PrecededStays(s.measurements, t.measurements, j, probe, t.baselines[probe]);
  }

  lemma AcceptedOrderIff(s: State, t: State, name: string, v: bool)
    requires SamplesFollowBaselines(s)
    requires t.measurements == s.measurements + [BaselineOf(name, Bool(v))] && t.baselines == s.baselines[name := v]
    ensures SamplesFollowBaselines(t) <==> !exists j: nat :: Lacks(s.measurements, j, name, v)
  {
    forall j: nat | SampleAt(t.measurements, j)
      ensures FollowsBaseline(t, j) <==> !Lacks(s.measurements, j, name, v)
    {
      AcceptedOrderAt(s, t, name, v, j);
    }
    if j: nat :| Lacks(s.measurements, j, name, v) {
      assert SampleAt(t.measurements, j);
    }
  }

  lemma BaselineOrderIff(s: State, op: Op)
    requires Inv(s) && SamplesFollowBaselines(s) && op.Baseline?
    ensures SamplesFollowBaselines(Next(s, op)) <==> !BaselinesTooLate(s, op)
  {
    var t := Next(s, op);
    if op.k < |s.probes| && op.value == Bool(op.want) {
      AcceptedOrderIff(s, t, s.probes[op.k], op.want);
    } else if t.measurements == s.measurements {
      assert t == s;
    } else {
      RefusedKeepsOrder(s, t, BaselineOf(s.probes[op.k], op.value));
    }
  }

  lemma RefusedKeepsOrder(s: State, t: State, refused: Measurement)
    requires SamplesFollowBaselines(s) && refused.isBaseline
    requires t.measurements == s.measurements + [refused] && t.baselines == s.baselines
    ensures SamplesFollowBaselines(t)
  {
    forall j: nat | SampleAt(t.measurements, j)
      ensures FollowsBaseline(t, j)
    {
      assert SampleAt(s.measurements, j) && FollowsBaseline(s, j);
      var name := s.measurements[j].probe;
      PrecededStays(s.measurements, t.measurements, j, name, s.baselines[name]);
    }
  }

  lemma AppendKeepsOrder(s: State, t: State, added: seq<Measurement>, j: nat)
    requires Inv(s) && SamplesFollowBaselines(s) && |added| <= 1
    requires t.measurements == s.measurements + added && t.baselines == s.baselines
    requires forall k :: 0 <= k < |added| && added[k].probe != "" ==> added[k].probe in s.baselines
    requires SampleAt(t.measurements, j)
    ensures FollowsBaseline(t, j)
  {
    if j < |s.measurements| {
      assert SampleAt(s.measurements, j) && FollowsBaseline(s, j);
      var name := s.measurements[j].probe;
      PrecededStays(s.measurements, t.measurements, j, name, s.baselines[name]);
    } else {
      var name := added[0].probe;
      assert t.measurements[j] == added[0];
      assert BaselineLogged(s, name, s.baselines[name]);
      var i :| 0 <= i < |s.measurements| && s.measurements[i] == BaselineOf(name, Bool(s.baselines[name]));
      assert t.measurements[i] == s.measurements[i];
    }
  }

  // A call keeps every sample after its baseline if and only if it is neither.
  lemma StepKeepsOrderIff(s: State, op: Op)
    requires Inv(s) && SamplesFollowBaselines(s)
    ensures SamplesFollowBaselines(Next(s, op)) <==> !SamplesTooEarly(s, op) && !BaselinesTooLate(s, op)
  {
    var t := Next(s, op);
    if op.Baseline? {
      BaselineOrderIff(s, op);
    } else if SamplesTooEarly(s, op) {
      assert SampleAt(t.measurements, |s.measurements|) && !FollowsBaseline(t, |s.measurements|);
    } else {
      var added := OtherCalls(s, op);
      forall j: nat | SampleAt(t.measurements, j)
        ensures FollowsBaseline(t, j)
      {
        AppendKeepsOrder(s, t, added, j);
      }
    }
  }

  ghost predicate BreaksOrder(s: State, op: Op) {
    SamplesTooEarly(s, op) || BaselinesTooLate(s, op)
  }

  ghost function OrderBreaker(): (State, Op) -> bool {
    (s: State, op: Op) => BreaksOrder(s, op)
  }

  ghost function OrderKept(): State -> bool {
    (s: State) => SamplesFollowBaselines(s)
  }

  // None of the first n calls breaks the order.
  ghost predicate OrderedSteps(ops: seq<Op>, n: nat)
    requires n <= |ops|
  {
    Runs.NeverBad(EMPTY_RUN, Calls(), ops, n, OrderBreaker())
  }

  // After each of the first n calls the samples follow their baselines.
  ghost predicate OrderedSoFar(ops: seq<Op>, n: nat)
    requires n <= |ops|
  {
    Runs.AlwaysGood(EMPTY_RUN, Calls(), ops, n, OrderKept())
  }

  lemma OrderStep(s: State, op: Op)
    requires Inv(s)
    ensures Inv(Calls()(s, op))
    ensures OrderKept()(s) ==> (OrderKept()(Calls()(s, op)) <==> !OrderBreaker()(s, op))
  {
    StepKeepsInv(s, op);
    if SamplesFollowBaselines(s) {
      StepKeepsOrderIff(s, op);
    }
  }

  // At every moment of a run each sample follows its baseline, if and only if no call
  // of it is one of the two.
  lemma RunOrderedIff(ops: seq<Op>, n: nat)
    requires n <= |ops|
    ensures OrderedSoFar(ops, n) <==> OrderedSteps(ops, n)
  {
    var inv := (s: State) => Inv(s);
    forall s: State, op: Op | inv(s)
      ensures inv(Calls()(s, op))
      ensures OrderKept()(s) ==> (OrderKept()(Calls()(s, op)) <==> !OrderBreaker()(s, op))
    {
      OrderStep(s, op);
    }
    Runs.KeptIff(EMPTY_RUN, Calls(), ops, n, inv, OrderKept(), OrderBreaker());
  }

  // ---------- order and expectations ----------

  // The opposite baseline was taken before the sample the expectation rests on.
  predicate OppositeFirst(log: seq<Measurement>, e: Expectation) {
    exists j: nat :: j < |log| && log[j] == e.measurement && Preceded(log, j, e.measurement.probe, !e.want)
  }

  lemma OppositeFirstStays(log: seq<Measurement>, longer: seq<Measurement>, e: Expectation)
    requires log <= longer && OppositeFirst(log, e)
    ensures OppositeFirst(longer, e)
  {
    var j: nat :| j < |log| && log[j] == e.measurement && Preceded(log, j, e.measurement.probe, !e.want);
    PrecededStays(log, longer, j, e.measurement.probe, !e.want);
    assert longer[j] == e.measurement;
  }

  predicate RestsOnSample(e: Expectation) {
    e.waiver == "" && !e.measurement.isBaseline
  }

  lemma AcceptedInOrder(s: State, op: Op)
    requires Inv(s) && SamplesFollowBaselines(s) && op.Expect?
    requires Accepts(s, op.measurement, op.want, op.waiver) && op.waiver == "" && !op.measurement.isBaseline
    ensures OppositeFirst(s.measurements, ExpectationOf(op.claim, op.measurement, op.want, op.waiver, op.arm))
  {
    var m := op.measurement;
    EqualProbeMeasurementIsLogged(s, m);
    var j: nat :| j < |s.measurements| && s.measurements[j] == m;
    assert SampleAt(s.measurements, j) && FollowsBaseline(s, j);
  }

  lemma StepKeepsOpposite(s: State, op: Op, e: Expectation)
    requires Inv(s) && SamplesFollowBaselines(s) && e in Next(s, op).expectations && RestsOnSample(e)
    requires e in s.expectations ==> OppositeFirst(s.measurements, e)
    ensures OppositeFirst(Next(s, op).measurements, e)
  {
    StepAppends(s, op);
    if e !in s.expectations {
      AcceptedInOrder(s, op);
    }
    OppositeFirstStays(s.measurements, Next(s, op).measurements, e);
  }

  ghost predicate AllOpposite(s: State) {
    forall e :: e in s.expectations && RestsOnSample(e) ==> OppositeFirst(s.measurements, e)
  }

  ghost predicate InGoodOrder(s: State) {
    Inv(s) && SamplesFollowBaselines(s) && AllOpposite(s)
  }

  lemma StepKeepsGoodOrder(s: State, op: Op)
    requires InGoodOrder(s) && !BreaksOrder(s, op)
    ensures InGoodOrder(Next(s, op))
  {
    StepKeepsInv(s, op);
    StepKeepsOrderIff(s, op);
    forall e | e in Next(s, op).expectations && RestsOnSample(e)
      ensures OppositeFirst(Next(s, op).measurements, e)
    {
      StepKeepsOpposite(s, op, e);
    }
  }

  // In a run without the two calls every unwaived claim about a sample has its
  // opposite baseline before that sample.
  lemma OppositeBaselineCameFirst(ops: seq<Op>, n: nat, e: Expectation)
    requires n <= |ops| && OrderedSteps(ops, n)
    requires e in RunTo(ops, n).expectations && RestsOnSample(e)
    ensures OppositeFirst(RunTo(ops, n).measurements, e)
  {
    var good := (s: State) => InGoodOrder(s);
    forall s: State, op: Op | good(s) && !OrderBreaker()(s, op)
      ensures good(Calls()(s, op))
    {
      StepKeepsGoodOrder(s, op);
    }
    Runs.KeptUnless(EMPTY_RUN, Calls(), ops, n, good, OrderBreaker());
  }

  // The call logs the sample that e rests on while the log holds the opposite baseline.
  ghost predicate SamplesAfterOpposite(s: State, op: Op, e: Expectation) {
    && op.Sample? && op.k < |s.probes| && op.value.Bool?
    && SampleOf(s.probes[op.k], op.value, op.title) == e.measurement
    && BaselineLogged(s, e.measurement.probe, !e.want)
  }

  lemma OneAtMost(s: State, op: Op)
    ensures Runs.Extends(s.measurements, Next(s, op).measurements)
    ensures |Next(s, op).measurements| <= |s.measurements| + 1
  {
  }

  // Which call logged position j.
  lemma LoggedBy(ops: seq<Op>, j: nat) returns (k: nat)
    requires j < |Run(ops).measurements|
    ensures k < |ops|
    ensures RunTo(ops, k).measurements == Run(ops).measurements[..j]
    ensures Next(RunTo(ops, k), ops[k]).measurements == Run(ops).measurements[..j + 1]
  {
    var log := (s: State) => s.measurements;
    forall s: State, op: Op
      ensures Runs.Extends(log(s), log(Calls()(s, op))) && |log(Calls()(s, op))| <= |log(s)| + 1
    {
      OneAtMost(s, op);
    }
    k := Runs.AddedBy(EMPTY_RUN, Calls(), ops, |ops|, log, j);
  }

  lemma SampleComesFromSampling(s: State, op: Op, m: Measurement)
    requires Next(s, op).measurements == s.measurements + [m] && m.probe != "" && !m.isBaseline
    ensures op.Sample? && op.k < |s.probes| && op.value.Bool? && m == SampleOf(s.probes[op.k], op.value, op.title)
  {
    assert Next(s, op).measurements[|s.measurements|] == m;
  }

  lemma PrecededIsLogged(s: State, log: seq<Measurement>, j: nat, name: string, v: bool)
    requires j <= |log| && s.measurements == log[..j] && Preceded(log, j, name, v)
    ensures BaselineLogged(s, name, v)
  {
    var i :| 0 <= i < j && log[i] == BaselineOf(name, Bool(v));
    assert s.measurements[i] == log[i];
  }

  lemma CallAt(s: State, op: Op, log: seq<Measurement>, j: nat, e: Expectation)
    requires e.measurement.probe != "" && !e.measurement.isBaseline && j < |log| && log[j] == e.measurement
    requires s.measurements == log[..j] && Next(s, op).measurements == log[..j + 1]
    requires Preceded(log, j, e.measurement.probe, !e.want)
    ensures SamplesAfterOpposite(s, op, e)
  {
    assert log[..j + 1] == log[..j] + [e.measurement];
    SampleComesFromSampling(s, op, e.measurement);
    PrecededIsLogged(s, log, j, e.measurement.probe, !e.want);
  }

  lemma OppositeFirstThenCall(ops: seq<Op>, e: Expectation, j: nat) returns (k: nat)
    requires e.measurement.probe != "" && !e.measurement.isBaseline
    requires j < |Run(ops).measurements| && Run(ops).measurements[j] == e.measurement
    requires Preceded(Run(ops).measurements, j, e.measurement.probe, !e.want)
    ensures k < |ops| && SamplesAfterOpposite(RunTo(ops, k), ops[k], e)
  {
    k := LoggedBy(ops, j);
    CallAt(RunTo(ops, k), ops[k], Run(ops).measurements, j, e);
  }

  lemma LoggedThenPreceded(s: State, log: seq<Measurement>, e: Expectation)
    requires log == s.measurements + [e.measurement] && BaselineLogged(s, e.measurement.probe, !e.want)
    ensures OppositeFirst(log, e)
  {
    var i :| 0 <= i < |s.measurements| && s.measurements[i] == BaselineOf(e.measurement.probe, Bool(!e.want));
    assert log[i] == s.measurements[i] && log[|s.measurements|] == e.measurement;
    assert Preceded(log, |s.measurements|, e.measurement.probe, !e.want);
  }

  lemma SampledThenPreceded(s: State, op: Op, e: Expectation)
    requires SamplesAfterOpposite(s, op, e)
    ensures OppositeFirst(Next(s, op).measurements, e)
  {
    LoggedThenPreceded(s, Next(s, op).measurements, e);
  }

  lemma CallThenOppositeFirst(ops: seq<Op>, k: nat, e: Expectation)
    requires k < |ops| && SamplesAfterOpposite(RunTo(ops, k), ops[k], e)
    ensures OppositeFirst(Run(ops).measurements, e)
  {
    SampledThenPreceded(RunTo(ops, k), ops[k], e);
    LogIsAppendOnly(ops, k + 1, |ops|);
    OppositeFirstStays(RunTo(ops, k + 1).measurements, Run(ops).measurements, e);
  }

  // For each unwaived claim about a sample: its opposite baseline came first, if and
  // only if some call logged that sample with the opposite baseline already there.
  lemma OppositeFirstIff(ops: seq<Op>, e: Expectation)
    requires e in Run(ops).expectations && RestsOnSample(e)
    ensures OppositeFirst(Run(ops).measurements, e)
       <==> exists k: nat :: k < |ops| && SamplesAfterOpposite(RunTo(ops, k), ops[k], e)
  {
    RunKeepsInv(ops, |ops|);
    assert Grounded(Run(ops), e);
    var log := Run(ops).measurements;
    if j: nat :| j < |log| && log[j] == e.measurement && Preceded(log, j, e.measurement.probe, !e.want) {
      var k := OppositeFirstThenCall(ops, e, j);
    }
    if k: nat :| k < |ops| && SamplesAfterOpposite(RunTo(ops, k), ops[k], e) {
      CallThenOppositeFirst(ops, k, e);
    }
  }

  const LATE_RUN: seq<Op> :=
    [DeclareProbe("p"), Sample(0, Bool(true), ""), Baseline(0, Bool(false), false),
     Expect("c", SampleOf("p", Bool(true), ""), true, "", ""), NotTried]

  const LATE_LOG: seq<Measurement> := [SampleOf("p", Bool(true), ""), BaselineOf("p", Bool(false))]

  lemma LateRunLogs()
    ensures RunTo(LATE_RUN, 3) == State(LATE_LOG, [], map["p" := false], map[], false, ["p"])
  {
    var s1 := EMPTY_RUN.(probes := ["p"]);
    RunStep(LATE_RUN, 0, EMPTY_RUN, s1);
    var s2 := s1.(measurements := LATE_LOG[..1]);
    RunStep(LATE_RUN, 1, s1, s2);
    RunStep(LATE_RUN, 2, s2, s2.(measurements := LATE_LOG, baselines := map["p" := false]));
  }

  // Without it a report can pass on a sample taken before the only baseline.
  lemma SampleMayPrecedeBaseline()
    ensures Passed(Run(LATE_RUN)) && |Run(LATE_RUN).expectations| == 1
    ensures Run(LATE_RUN).expectations[0].waiver == ""
    ensures !OppositeFirst(Run(LATE_RUN).measurements, Run(LATE_RUN).expectations[0])
  {
    LateRunLogs();
    ClaimLast(LATE_RUN, 3, LATE_LOG, 0);
    assert LATE_LOG[1].isControl;
    ClaimedLastPasses(LATE_LOG);
    assert !Preceded(LATE_LOG, 0, "p", false);
    assert LATE_LOG[1] != LATE_LOG[0];
  }

  // ---------- edges ----------

  // After an arm is voided the report passes if and only if the bounds are stated,
  // there is a control, and every control and live expectation that fails is of that
  // arm: nothing the arm recorded counts any more.
  lemma VoidedArmPassesIff(ops: seq<Op>, arm: string, reason: string)
    ensures Passed(Next(Run(ops), VoidArm(arm, reason)))
       <==> var s := Run(ops);
            && s.stated
            && (exists k :: 0 <= k < |s.measurements| && s.measurements[k].isControl)
            && (forall k :: 0 <= k < |s.measurements| && Breaks(s, s.measurements[k]) ==> s.measurements[k].arm == arm)
            && (forall k :: 0 <= k < |s.expectations| && Live(s, s.expectations[k]) && !s.expectations[k].holds ==>
                  s.expectations[k].arm == arm)
  {
    var s := Run(ops);
    var t := Next(s, VoidArm(arm, reason));
    assert t == s.(voidArms := s.voidArms[arm := reason]);
    forall m: Measurement
      ensures Breaks(t, m) <==> Breaks(s, m) && m.arm != arm
    {
    }
    forall e: Expectation
      ensures Live(t, e) <==> Live(s, e) && e.arm != arm
    {
    }
  }

  // So voiding the arm "" passes a report that renders, however many expectations
  // fail, when none of them names an arm.
  lemma VoidingTheDefaultArm(ops: seq<Op>, reason: string)
    requires Renders(Run(ops))
    requires forall k :: 0 <= k < |Run(ops).expectations| ==> Run(ops).expectations[k].arm == ""
    ensures Passed(Next(Run(ops), VoidArm("", reason)))
  {
    VoidedArmPassesIff(ops, "", reason);
  }

  // A waived expectation may rest on a measurement that only equals a logged one.
  lemma WaivedMayRestOnEqual(s: State, title: string)
    requires Measurement(title, Num(1), false, false, "", "") in s.measurements
    ensures Accepts(s, Measurement(title, Bool(true), false, false, "", ""), true, "w")
  {
    var k :| 0 <= k < |s.measurements| && s.measurements[k] == Measurement(title, Num(1), false, false, "", "");
    assert SameMeasurement(Measurement(title, Bool(true), false, false, "", ""), s.measurements[k]);
  }

  // Two probes of one name can both be declared before either has a baseline.
  lemma ProbesMayShareAName(name: string)
    ensures Run([DeclareProbe(name), DeclareProbe(name)]).probes == [name, name]
  {
    var ops := [DeclareProbe(name), DeclareProbe(name)];
    RunStep(ops, 0, EMPTY_RUN, EMPTY_RUN.(probes := [name]));
    RunStep(ops, 1, EMPTY_RUN.(probes := [name]), EMPTY_RUN.(probes := [name, name]));
  }

  // ---------- the verdict spelled out ----------

  // The verdict is True exactly when bounds were stated, something is a control, every
  // control that is no baseline and of no voided arm has a value that is True, a number
  // other than 0 or a text other than "", and every expectation of no voided arm holds.
  lemma PassedExactly(s: State)
    ensures Passed(s)
       <==> && s.stated
            && (exists m :: m in s.measurements && m.isControl)
            && (forall m :: m in s.measurements && m.isControl && !m.isBaseline && m.arm !in s.voidArms ==>
                  || m.value == Bool(true)
                  || (m.value.Num? && m.value.n != 0)
                  || (m.value.Text? && m.value.t != ""))
            && (forall e :: e in s.expectations && e.arm !in s.voidArms ==> e.holds)
  {
    forall m: Measurement
      ensures Breaks(s, m)
         <==> m.isControl && !m.isBaseline && m.arm !in s.voidArms
              && !(m.value == Bool(true) || (m.value.Num? && m.value.n != 0) || (m.value.Text? && m.value.t != ""))
    {
    }
    if forall k :: 0 <= k < |s.measurements| ==> !Breaks(s, s.measurements[k]) {
      assert forall m :: m in s.measurements ==> !Breaks(s, m);
    }
    if k :| 0 <= k < |s.measurements| && s.measurements[k].isControl {
      assert s.measurements[k] in s.measurements;
    }
    if forall k :: 0 <= k < |s.expectations| && Live(s, s.expectations[k]) ==> s.expectations[k].holds {
      assert forall e :: e in s.expectations && Live(s, e) ==> e.holds;
    }
  }

  // A run of one control of each kind of value.
  lemma ControlVerdict(value: Value)
    ensures Passed(Run([Control("c", value, ""), NotTried]))
       <==> || value == Bool(true) || (value.Num? && value.n != 0) || (value.Text? && value.t != "")
  {
    var ops := [Control("c", value, ""), NotTried];
    var m := Measurement("c", value, true, false, "", "");
    var s1 := EMPTY_RUN.(measurements := [m]);
    RunStep(ops, 0, EMPTY_RUN, s1);
    RunStep(ops, 1, s1, s1.(stated := true));
    var s := Run(ops);
    assert s == s1.(stated := true);
    assert s.measurements == [m] && m in s.measurements && s.expectations == [];
    PassedExactly(s);
  }

  // Values are equal as Python has it: among themselves, and True to 1, False to 0.
  lemma EqualExactly(v: Value, w: Value)
    ensures Equal(v, w)
       <==> || v == w
            || (v == Bool(true) && w == Num(1)) || (v == Num(1) && w == Bool(true))
            || (v == Bool(false) && w == Num(0)) || (v == Num(0) && w == Bool(false))
  {
  }

  // An accepted claim holds when the value is the one wanted, is of its own arm or else
  // its measurement's, and is recorded last.
  lemma ExpectationRecorded(s: State, op: Op)
    requires op.Expect? && Accepts(s, op.measurement, op.want, op.waiver)
    ensures var t := Next(s, op);
            && t == s.(expectations := t.expectations) && |t.expectations| == |s.expectations| + 1
            && t.expectations[..|s.expectations|] == s.expectations
            && var e := t.expectations[|s.expectations|];
            && e.claim == op.claim && e.measurement == op.measurement && e.want == op.want && e.waiver == op.waiver
            && (e.holds <==> op.measurement.value == Bool(op.want))
            && e.arm == (if op.arm != "" then op.arm else op.measurement.arm)
  {
  }

  // A boolean that was recorded is accepted with any reason for a waiver, and without
  // one exactly when its probe was baselined to the opposite answer.
  lemma AcceptedExactly(s: State, m: Measurement, want: bool, waiver: string)
    requires m in s.measurements && m.value.Bool?
    ensures waiver != "" ==> Accepts(s, m, want, waiver)
    ensures waiver == "" ==>
              (Accepts(s, m, want, waiver)
               <==> m.probe != "" && m.probe in s.baselines && s.baselines[m.probe] == !want)
  {
    var k :| 0 <= k < |s.measurements| && s.measurements[k] == m;
    assert SameMeasurement(m, s.measurements[k]);
  }

  // What each call records.
  lemma CallsRecord(s: State, k: nat, b: bool, want: bool, title: string, value: Value, arm: string)
    requires k < |s.probes|
    ensures Next(s, Sample(k, Bool(b), title)).measurements
         == s.measurements
            + [Measurement(if title == "" then s.probes[k] else title, Bool(b), false, false, s.probes[k], "")]
    ensures Next(s, Baseline(k, Bool(b), want)).measurements
         == s.measurements + [Measurement("baseline: " + s.probes[k], Bool(b), true, true, s.probes[k], "")]
    ensures Next(s, Baseline(k, Bool(b), want)).baselines
         == if b == want then s.baselines[s.probes[k] := b] else s.baselines
    ensures Next(s, Measure(title, value, arm)).measurements
         == s.measurements + [Measurement(title, value, false, false, "", arm)]
    ensures Next(s, Control(title, value, arm)).measurements
         == s.measurements + [Measurement(title, value, true, false, "", arm)]
  {
  }
}
