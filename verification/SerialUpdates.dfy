/**
 Concurrent Update, Migrate and Load calls on one document (store/handle.go). Every
 process runs the steps of Update or Migrate one at a time - take the lock, re-read,
 write, release - and may be killed between any two of them; Load reads without a
 lock. A step that is not enabled leaves the state as it is, so a run is any sequence
 of steps.
 */
module SerialUpdates {
  import opened Results
  import opened JsonDocument
  import opened DocumentHandle
  import Runs

  type Pid = nat

  datatype Phase =
    | Idle
    | Waiting(op: Op)
    | Locked(op: Op)
    | HasRead(op: Op, seen: File)
    | HasWritten

  datatype Sight = Sight(seen: File, at: nat)

  // `order` lists the operations as they took the lock, `errors` what the finished
  // ones reported, `sights` what each Load saw and how many operations had finished.
  datatype State = State(
    file: File,
    holder: Option<Pid>,
    phases: map<Pid, Phase>,
    order: seq<Op>,
    errors: seq<Option<Error>>,
    sights: seq<Sight>)

  datatype Step =
    | Ask(p: Pid, op: Op)
    | Acquire(p: Pid)
    | Read(p: Pid)
    | Write(p: Pid)
    | Release(p: Pid)
    | Kill(p: Pid)
    | Load

  function PhaseOf(s: State, p: Pid): Phase {
    if p in s.phases then s.phases[p] else Idle
  }

  function Start(file: File): State {
    State(file, None, map[], [], [], [])
  }

  // The file after the write of a process that read `seen`: a refused operation
  // writes nothing, an accepted one writes what it computed from `seen`.
  function Overwrite(current: File, seen: File, op: Op): After {
    match op
    case DoUpdate(u, io) =>
      (match Planned(seen, u)
       case Err(e) => After(current, Some(e))
       case Ok(fields) => Commit(current, fields, io))
    case DoMigrate(path, rt, io) =>
      (match PlannedMigration(seen, path, rt)
       case Err(e) => After(current, Some(e))
       case Ok(None) => After(current, None)
       case Ok(Some(fields)) => Commit(current, fields, io))
  }

  // An operation carried out on a file as it is, having seen another: what the machine
  // below needs to know of Update and Migrate.
  type Executor = (File, File, Op) -> After

  function Execute(): Executor {
    (current: File, seen: File, op: Op) => Overwrite(current, seen, op)
  }

  // The operation of a process killed before it wrote.
  function Killed(op: Op): Op {
    op.(io := FailedBeforeRename)
  }

  // A write that fails before its rename changes nothing.
  ghost predicate HarmlessWhenKilled(exec: Executor) {
    forall f: File, op: Op :: exec(f, f, Killed(op)).file == f
  }

  function Next(exec: Executor, s: State, step: Step): State {
    match step
    case Ask(p, op) =>
      if PhaseOf(s, p).Idle? then s.(phases := s.phases[p := Waiting(op)]) else s
    case Acquire(p) =>
      if PhaseOf(s, p).Waiting? && s.holder == None then
        var op := PhaseOf(s, p).op;
        s.(holder := Some(p), phases := s.phases[p := Locked(op)], order := s.order + [op])
      else s
    case Read(p) =>
      if PhaseOf(s, p).Locked? then s.(phases := s.phases[p := HasRead(PhaseOf(s, p).op, s.file)]) else s
    case Write(p) =>
      if PhaseOf(s, p).HasRead? then
        var after := exec(s.file, PhaseOf(s, p).seen, PhaseOf(s, p).op);
        s.(file := after.file, phases := s.phases[p := HasWritten], errors := s.errors + [after.error])
      else s
    case Release(p) =>
      if PhaseOf(s, p).HasWritten? then s.(holder := None, phases := s.phases[p := Idle]) else s
    case Kill(p) =>
      // The kernel drops the lock of a dead process; an operation that had not
      // written yet counts as one whose write failed.
      if PhaseOf(s, p).Idle? then s
      else if PhaseOf(s, p).Waiting? then s.(phases := s.phases[p := Idle])
      else if PhaseOf(s, p).HasWritten? then s.(holder := None, phases := s.phases[p := Idle])
      else
        var op := Killed(PhaseOf(s, p).op);
        var order := if s.order == [] then [] else s.order[..|s.order| - 1] + [op];
        s.(holder := None, phases := s.phases[p := Idle], order := order,
           errors := s.errors + [exec(s.file, s.file, op).error])
    case Load => s.(sights := s.sights + [Sight(s.file, |s.errors|)])
  }

  ghost function Steps(exec: Executor): (State, Step) -> State {
    (s: State, step: Step) => Next(exec, s, step)
  }

  ghost function Run(file: File, steps: seq<Step>): State {
    Runs.RunTo(Start(file), Steps(Execute()), steps, |steps|)
  }

  // An operation carried out with nobody else about.
  ghost function Alone(exec: Executor): (File, Op) -> File {
    (f: File, op: Op) => exec(f, f, op).file
  }

  // The first n operations carried out one after the other.
  ghost function Serial(exec: Executor, file: File, order: seq<Op>, n: nat): File
    requires n <= |order|
  {
    Runs.RunTo(file, Alone(exec), order, n)
  }

  // Which is what doing them one after the other is.
  lemma SerialIsDoing(file: File, order: seq<Op>, n: nat)
    requires n <= |order|
    ensures Serial(Execute(), file, order, n) == DoTo(file, order, n)
  {
    forall f: File, op: Op
      ensures Alone(Execute())(f, op) == Doing()(f, op)
    {
      OverwriteAlone(f, op);
    }
    Runs.SameRun(file, Alone(Execute()), order, Doing(), order, n);
  }

  lemma OverwriteAlone(f: File, op: Op)
    ensures Overwrite(f, f, op) == Do(f, op)
  {
  }

  // ---------- invariant ----------

  predicate Critical(phase: Phase) {
    phase.Locked? || phase.HasRead? || phase.HasWritten?
  }

  ghost predicate Exclusive(s: State) {
    && (forall p: Pid :: Critical(PhaseOf(s, p)) <==> s.holder == Some(p))
    && |s.errors| == |s.order| - (if InProgress(s) then 1 else 0)
  }

  // The lock is held by an operation that has not written yet.
  predicate InProgress(s: State) {
    s.holder.Some? && (PhaseOf(s, s.holder.value).Locked? || PhaseOf(s, s.holder.value).HasRead?)
  }

  ghost predicate Current(s: State) {
    InProgress(s) ==>
      && s.order != []
      && s.order[|s.order| - 1] == PhaseOf(s, s.holder.value).op
      && (PhaseOf(s, s.holder.value).HasRead? ==> PhaseOf(s, s.holder.value).seen == s.file)
  }

  // What the i-th operation reports when carried out alone after those before it.
  ghost function Reported(exec: Executor, file: File, order: seq<Op>, i: nat): Option<Error>
    requires i < |order|
  {
    exec(Serial(exec, file, order, i), Serial(exec, file, order, i), order[i]).error
  }

  ghost predicate Ordered(exec: Executor, file: File, s: State) {
    && |s.errors| <= |s.order|
    && s.file == Serial(exec, file, s.order, |s.errors|)
    && forall i :: 0 <= i < |s.errors| ==> s.errors[i] == Reported(exec, file, s.order, i)
  }

  ghost predicate SawSerial(exec: Executor, file: File, s: State, i: nat)
    requires i < |s.sights|
  {
    && s.sights[i].at <= |s.errors| <= |s.order|
    && s.sights[i].seen == Serial(exec, file, s.order, s.sights[i].at)
  }

  ghost predicate Seen(exec: Executor, file: File, s: State) {
    && (forall i :: 0 <= i < |s.sights| ==> SawSerial(exec, file, s, i))
    && (forall i, j :: 0 <= i < j < |s.sights| ==> s.sights[i].at <= s.sights[j].at)
  }

  ghost predicate Inv(exec: Executor, file: File, s: State) {
    Exclusive(s) && Current(s) && Ordered(exec, file, s) && Seen(exec, file, s)
  }

  lemma SameOrder(exec: Executor, file: File, order: seq<Op>, other: seq<Op>, n: nat)
    requires n <= |order| && n <= |other| && forall k :: 0 <= k < n ==> order[k] == other[k]
    ensures Serial(exec, file, order, n) == Serial(exec, file, other, n)
  {
    Runs.SameRun(file, Alone(exec), order, Alone(exec), other, n);
  }

  // Adding operations, or rewriting an unfinished one, keeps what was serial before.
  lemma OrderGrows(exec: Executor, file: File, s: State, t: State)
    requires Ordered(exec, file, s) && Seen(exec, file, s)
    requires t.file == s.file && t.errors == s.errors && t.sights == s.sights
    requires |s.errors| <= |t.order| && forall k :: 0 <= k < |s.errors| ==> t.order[k] == s.order[k]
    ensures Ordered(exec, file, t) && Seen(exec, file, t)
  {
    forall n | 0 <= n <= |s.errors|
      ensures Serial(exec, file, t.order, n) == Serial(exec, file, s.order, n)
    {
      SameOrder(exec, file, t.order, s.order, n);
    }
    forall i | 0 <= i < |t.sights|
      ensures SawSerial(exec, file, t, i)
    {
      assert SawSerial(exec, file, s, i);
    }
  }

  lemma OperationFinishes(exec: Executor, file: File, s: State, t: State)
    requires Ordered(exec, file, s) && Seen(exec, file, s) && |s.errors| + 1 == |s.order|
    requires t.order == s.order && t.sights == s.sights
    requires var after := exec(s.file, s.file, s.order[|s.errors|]);
             t.file == after.file && t.errors == s.errors + [after.error]
    ensures Ordered(exec, file, t) && Seen(exec, file, t)
  {
    forall i | 0 <= i < |t.errors|
      ensures t.errors[i] == Reported(exec, file, t.order, i)
    {
      if i < |s.errors| {
        assert t.errors[i] == s.errors[i];
      }
    }
    forall i | 0 <= i < |t.sights|
      ensures SawSerial(exec, file, t, i)
    {
      assert SawSerial(exec, file, s, i);
    }
  }

  // A killed operation is the last one in the order, and stays there as a failed one.
  lemma KillExclusive(exec: Executor, s: State, p: Pid)
    requires Exclusive(s) && Current(s) && (PhaseOf(s, p).Locked? || PhaseOf(s, p).HasRead?)
    ensures var t := Next(exec, s, Kill(p));
            && Exclusive(t) && Current(t)
            && |s.errors| + 1 == |s.order| == |t.order|
            && (forall k :: 0 <= k < |s.errors| ==> t.order[k] == s.order[k])
            && t.order[|s.errors|] == Killed(PhaseOf(s, p).op)
  {
    assert s.holder == Some(p) && InProgress(s);
    var t := Next(exec, s, Kill(p));
    forall q: Pid
      ensures !Critical(PhaseOf(t, q))
    {
      assert q != p ==> PhaseOf(t, q) == PhaseOf(s, q);
    }
  }

  lemma KillInProgress(exec: Executor, file: File, s: State, p: Pid)
    requires Inv(exec, file, s) && (PhaseOf(s, p).Locked? || PhaseOf(s, p).HasRead?) && HarmlessWhenKilled(exec)
    ensures Inv(exec, file, Next(exec, s, Kill(p)))
  {
    var t := Next(exec, s, Kill(p));
    KillExclusive(exec, s, p);
    var mid := s.(order := t.order);
    OrderGrows(exec, file, s, mid);
    assert exec(s.file, s.file, Killed(PhaseOf(s, p).op)).file == s.file;
    OperationFinishes(exec, file, mid, t);
  }

  lemma AcquireKeepsInv(exec: Executor, file: File, s: State, p: Pid)
    requires Inv(exec, file, s) && PhaseOf(s, p).Waiting? && s.holder == None
    ensures Inv(exec, file, Next(exec, s, Acquire(p)))
  {
    OrderGrows(exec, file, s, Next(exec, s, Acquire(p)));
  }

  lemma WriteKeepsInv(exec: Executor, file: File, s: State, p: Pid)
    requires Inv(exec, file, s) && PhaseOf(s, p).HasRead?
    ensures Inv(exec, file, Next(exec, s, Write(p)))
  {
    assert s.holder == Some(p);
    OperationFinishes(exec, file, s, Next(exec, s, Write(p)));
  }

  // Steps that leave the file, the order and the errors alone.
  lemma QuietStepKeepsInv(exec: Executor, file: File, s: State, step: Step)
    requires Inv(exec, file, s) && (step.Ask? || step.Read? || step.Release?)
    ensures Inv(exec, file, Next(exec, s, step))
  {
    OrderGrows(exec, file, s, Next(exec, s, step));
  }

  lemma KillQuietly(exec: Executor, file: File, s: State, p: Pid)
    requires Inv(exec, file, s) && !PhaseOf(s, p).Locked? && !PhaseOf(s, p).HasRead?
    ensures Inv(exec, file, Next(exec, s, Kill(p)))
  {
    OrderGrows(exec, file, s, Next(exec, s, Kill(p)));
  }

  lemma LoadKeepsInv(exec: Executor, file: File, s: State)
    requires Inv(exec, file, s)
    ensures Inv(exec, file, Next(exec, s, Load))
  {
    var t := Next(exec, s, Load);
    assert forall p: Pid :: PhaseOf(t, p) == PhaseOf(s, p);
    forall i | 0 <= i < |t.sights|
      ensures SawSerial(exec, file, t, i) && t.sights[i].at <= |s.errors|
    {
      assert i < |s.sights| ==> t.sights[i] == s.sights[i] && SawSerial(exec, file, s, i);
    }
    assert t.sights[|s.sights|].at == |s.errors|;
  }

  lemma StepKeepsInv(exec: Executor, file: File, s: State, step: Step)
    requires Inv(exec, file, s) && HarmlessWhenKilled(exec)
    ensures Inv(exec, file, Next(exec, s, step))
  {
    match step
    case Acquire(p) =>
      if PhaseOf(s, p).Waiting? && s.holder == None {
        AcquireKeepsInv(exec, file, s, p);
      }
    case Write(p) =>
      if PhaseOf(s, p).HasRead? {
        WriteKeepsInv(exec, file, s, p);
      }
    case Kill(p) =>
      if PhaseOf(s, p).Locked? || PhaseOf(s, p).HasRead? {
        KillInProgress(exec, file, s, p);
      } else {
        KillQuietly(exec, file, s, p);
      }
    case Load => LoadKeepsInv(exec, file, s);
    case Ask(_, _) => QuietStepKeepsInv(exec, file, s, step);
    case Read(_) => QuietStepKeepsInv(exec, file, s, step);
    case Release(_) => QuietStepKeepsInv(exec, file, s, step);
  }

  lemma RunWithKeepsInv(exec: Executor, file: File, steps: seq<Step>)
    requires HarmlessWhenKilled(exec)
    ensures Inv(exec, file, Runs.RunTo(Start(file), Steps(exec), steps, |steps|))
  {
    var inv := (s: State) => Inv(exec, file, s);
    forall s: State, step: Step | inv(s)
      ensures inv(Steps(exec)(s, step))
    {
      StepKeepsInv(exec, file, s, step);
    }
    Runs.Kept(Start(file), Steps(exec), steps, |steps|, inv);
  }

  lemma RunKeepsInv(file: File, steps: seq<Step>)
    ensures Inv(Execute(), file, Run(file, steps))
  {
    RunWithKeepsInv(Execute(), file, steps);
  }

  // ---------- theorems ----------

  // In every interleaving: whenever the lock is free the document is what the updates
  // and migrations give one after the other in lock order, each reported what it would
  // have reported alone, and each Load saw the document between two of them, never
  // going back.
  lemma Serialisable(file: File, steps: seq<Step>)
    ensures var s := Run(file, steps);
            && |s.errors| <= |s.order| && s.file == DoTo(file, s.order, |s.errors|)
            && (s.holder == None ==> |s.errors| == |s.order|)
            && (forall i :: 0 <= i < |s.errors| ==> s.errors[i] == Do(DoTo(file, s.order, i), s.order[i]).error)
            && (forall i :: 0 <= i < |s.sights| ==>
                  s.sights[i].at <= |s.errors| && s.sights[i].seen == DoTo(file, s.order, s.sights[i].at))
            && (forall i, j :: 0 <= i < j < |s.sights| ==> s.sights[i].at <= s.sights[j].at)
  {
    RunKeepsInv(file, steps);
    var s := Run(file, steps);
    SerialIsDoing(file, s.order, |s.errors|);
    forall i | 0 <= i < |s.errors|
      ensures s.errors[i] == Do(DoTo(file, s.order, i), s.order[i]).error
    {
      SerialIsDoing(file, s.order, i);
      OverwriteAlone(DoTo(file, s.order, i), s.order[i]);
      assert s.errors[i] == Reported(Execute(), file, s.order, i);
    }
    forall i | 0 <= i < |s.sights|
      ensures s.sights[i].at <= |s.errors| && s.sights[i].seen == DoTo(file, s.order, s.sights[i].at)
    {
      assert SawSerial(Execute(), file, s, i);
      SerialIsDoing(file, s.order, s.sights[i].at);
    }
  }

  // At most one process is between taking and dropping the lock.
  lemma OneWriter(file: File, steps: seq<Step>, p: Pid, q: Pid)
    requires Critical(PhaseOf(Run(file, steps), p)) && Critical(PhaseOf(Run(file, steps), q))
    ensures p == q
  {
    RunKeepsInv(file, steps);
  }

  lemma SightIs(file: File, steps: seq<Step>, i: nat, j: nat)
    requires i <= j < |Run(file, steps).sights|
    ensures var s := Run(file, steps);
            && s.sights[i].at <= s.sights[j].at <= |s.errors| <= |s.order|
            && s.sights[i].seen == DoTo(file, s.order, s.sights[i].at)
            && s.sights[j].seen == DoTo(file, s.order, s.sights[j].at)
  {
    RunSeen(file, steps);
    var s := Run(file, steps);
    assert SawSerial(Execute(), file, s, i) && SawSerial(Execute(), file, s, j);
    SerialIsDoing(file, s.order, s.sights[i].at);
    SerialIsDoing(file, s.order, s.sights[j].at);
  }

  lemma RunSeen(file: File, steps: seq<Step>)
    ensures Seen(Execute(), file, Run(file, steps))
  {
    RunKeepsInv(file, steps);
  }

  lemma SightsRise(file: File, order: seq<Op>, q: Path, n: nat, a: nat, b: nat)
    requires VersionAt(file, q).Some? && a <= b <= n <= |order| && AllKeep(file, order, q, n)
    ensures NotLowered(VersionAt(DoTo(file, order, a), q), VersionAt(DoTo(file, order, b), q))
  {
    FewerKeep(file, order, q, b, n);
    VersionsAcross(file, order, q, a, b);
  }

  // In every interleaving in which every write keeps a section's version, one Load after
  // the other sees it not decrease.
  lemma VersionsInInterleavings(file: File, steps: seq<Step>, q: Path, i: nat, j: nat)
    requires VersionAt(file, q).Some? && i <= j < |Run(file, steps).sights|
    requires var s := Run(file, steps);
             |s.errors| <= |s.order| && AllKeep(file, s.order, q, |s.errors|)
    ensures NotLowered(VersionAt(Run(file, steps).sights[i].seen, q), VersionAt(Run(file, steps).sights[j].seen, q))
  {
    var s := Run(file, steps);
    SightIs(file, steps, i, j);
    SightsRise(file, s.order, q, |s.errors|, s.sights[i].at, s.sights[j].at);
  }

  // And in lock order it never decreases if and only if every write keeps it.
  lemma VersionsInLockOrderIff(file: File, steps: seq<Step>, q: Path)
    requires VersionAt(file, q).Some?
    ensures var s := Run(file, steps);
            && |s.errors| <= |s.order|
            && (NeverLowered(file, s.order, q, |s.errors|) <==> AllKeep(file, s.order, q, |s.errors|))
  {
    Serialisable(file, steps);
    VersionsNeverDecreaseIff(file, Run(file, steps).order, q, |Run(file, steps).errors|);
  }

  lemma FewerKeep(file: File, ops: seq<Op>, q: Path, k: nat, n: nat)
    requires k <= n <= |ops| && AllKeep(file, ops, q, n)
    ensures AllKeep(file, ops, q, k)
  {
  }

  // ---------- no lost update ----------

  lemma OperationElsewhere(f: File, op: Op, path: Path, schema: GoInt)
    requires Apart(OpPath(op), path)
    ensures Loaded(Do(f, op).file, path, schema) == Loaded(f, path, schema)
  {
    match op
    case DoUpdate(u, io) =>
      if Planned(f, u).Ok? {
        UpdateThenLoad(f, u, path, schema);
      }
    case DoMigrate(at, rt, io) =>
      if Migrates(f, at, rt) {
        MigrationElsewhere(f, at, rt, path, schema);
      }
  }

  ghost predicate ApartFrom(order: seq<Op>, k: nat, n: nat, path: Path)
    requires n <= |order|
  {
    forall j :: k <= j < n ==> Apart(OpPath(order[j]), path)
  }

  lemma {:induction false} LaterElsewhere(file: File, order: seq<Op>, k: nat, n: nat, path: Path, schema: GoInt)
    requires k <= n <= |order| && ApartFrom(order, k, n, path)
    ensures Loaded(DoTo(file, order, n), path, schema) == Loaded(DoTo(file, order, k), path, schema)
    decreases n
  {
    if k < n {
      LaterElsewhere(file, order, k, n - 1, path, schema);
      OperationElsewhere(DoTo(file, order, n - 1), order[n - 1], path, schema);
    }
  }

  lemma WrittenIsLoaded(f: File, u: Update, io: WriteOutcome)
    requires Updated(f, u, io).error == None
    ensures Planned(f, u).Ok?
    ensures Loaded(Updated(f, u, io).file, u.path, u.schema) == Ok(Some(Edited(f, u)))
  {
    var record := u.edit(Loaded(f, u.path, u.schema).value).value;
    LoadAfterWrite(ReadDoc(f).value, u.path, record, u.schema);
  }

  // No update is lost: what a successful update wrote is still there when only
  // sections apart from it were written after it.
  lemma SuccessSurvives(file: File, steps: seq<Step>, i: nat)
    requires var s := Run(file, steps);
             && i < |s.errors| <= |s.order| && s.errors[i] == None && s.order[i].DoUpdate?
             && ApartFrom(s.order, i + 1, |s.errors|, s.order[i].u.path)
    ensures var s := Run(file, steps);
            var u := s.order[i].u;
            && Planned(DoTo(file, s.order, i), u).Ok?
            && Loaded(s.file, u.path, u.schema) == Ok(Some(Edited(DoTo(file, s.order, i), u)))
  {
    Serialisable(file, steps);
    var s := Run(file, steps);
    var u := s.order[i].u;
    WrittenIsLoaded(DoTo(file, s.order, i), u, s.order[i].io);
    LaterElsewhere(file, s.order, i + 1, |s.errors|, u.path, u.schema);
  }

  // ---------- progress ----------

  // From a free lock an operation that nobody disturbs takes it, and leaves the file and
  // the report that carrying it out alone does.
  lemma OperationAlone(s: State, p: Pid, op: Op)
    requires s.holder == None && PhaseOf(s, p).Idle?
    ensures var s1 := Next(Execute(), s, Ask(p, op));
            var s2 := Next(Execute(), s1, Acquire(p));
            var s3 := Next(Execute(), s2, Read(p));
            var s4 := Next(Execute(), s3, Write(p));
            var t := Next(Execute(), s4, Release(p));
            && s2.holder == Some(p)
            && t.file == Do(s.file, op).file && t.errors == s.errors + [Do(s.file, op).error]
            && t.order == s.order + [op] && t.holder == None && PhaseOf(t, p).Idle? && t.sights == s.sights
  {
    OverwriteAlone(s.file, op);
  }

  // A second process waits while the first is at work.
  lemma LockExcludes(s: State, p: Pid)
    requires s.holder.Some?
    ensures Next(Execute(), s, Acquire(p)) == s
  {
  }

  // A load sees the file as it is, lock or no lock.
  lemma LoadSees(s: State)
    ensures Next(Execute(), s, Load) == s.(sights := s.sights + [Sight(s.file, |s.errors|)])
  {
  }

  // A process that dies gives up its place and, if it had it, the lock; the file stays.
  lemma KillFrees(s: State, p: Pid)
    requires Exclusive(s)
    ensures var t := Next(Execute(), s, Kill(p));
            && PhaseOf(t, p).Idle? && t.file == s.file && t.sights == s.sights
            && t.holder == (if s.holder == Some(p) then None else s.holder)
  {
  }
}
