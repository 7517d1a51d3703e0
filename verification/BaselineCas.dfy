/**
 Compare-and-swap moves of the diff baselines kept in one shared record
 (copyflow/baseline.go). Movers on any directories of a sandbox run
 concurrently; each holds the sandbox lock while it loads the whole record,
 compares, and saves the whole record back.
 */
module BaselineCas {
  import opened Results
  import opened EnvironmentRecord
  import Runs

  datatype SaveOutcome = Saved | NotSaved | SavedButReportedFailed

  // A request to move a baseline. `expected` is None on the apply path, which
  // does not compare; `target` is what git resolves to, None when it fails.
  datatype Mover = Mover(hostPath: string, expected: Option<string>, target: Option<string>, io: SaveOutcome)

  datatype Refusal = NoSuchDir | WrongMode | Conflict(expected: string, actual: string) | Unresolved | SaveError

  // A write to the record: the directory, its baseline before and after.
  datatype Move = Move(dir: nat, from: string, to: string, expected: Option<string>, reported: bool)

  datatype Attempt = Attempt(dirs: seq<DirEntry>, move: Option<Move>, refusal: Option<Refusal>)

  predicate ModeRefused(mode: Mode) {
    mode.ReadWrite? || mode.Overlay?
  }

  function Refused(dirs: seq<DirEntry>, why: Refusal): Attempt {
    Attempt(dirs, None, Some(why))
  }

  // What a mover does to the record it loaded. On the apply path a missing or
  // live directory is silently skipped.
  function Tried(dirs: seq<DirEntry>, m: Mover): Attempt {
    match DirIndex(dirs, m.hostPath)
    case None => if m.expected.None? then Attempt(dirs, None, None) else Refused(dirs, NoSuchDir)
    case Some(i) =>
      var dir := dirs[i];
      if m.expected.None? && dir.mode.ReadWrite? then Attempt(dirs, None, None)
      else if m.expected.Some? && ModeRefused(dir.mode) then Refused(dirs, WrongMode)
      else if m.expected.Some? && dir.baseline != m.expected.value then
        Refused(dirs, Conflict(m.expected.value, dir.baseline))
      else if m.target.None? then Refused(dirs, Unresolved)
      else if m.io.NotSaved? then Refused(dirs, SaveError)
      else
        var reported := m.io.Saved?;
        Attempt(dirs[i := dir.(baseline := m.target.value)],
                Some(Move(i, dir.baseline, m.target.value, m.expected, reported)),
                if reported then None else Some(SaveError))
  }

  // commitBaseline with mutateBaseline's checks, on the loaded record: the
  // baseline is assigned through the entry found, then the record is saved.
  class LoadedRecord {
    var dirs: seq<DirEntry>

    constructor (dirs: seq<DirEntry>)
      ensures this.dirs == dirs
    {
      this.dirs := dirs;
    }

    method CommitBaseline(m: Mover) returns (saved: Option<seq<DirEntry>>, refusal: Option<Refusal>)
      modifies this
      ensures refusal == Tried(old(dirs), m).refusal
      ensures saved == if Tried(old(dirs), m).move.Some? then Some(Tried(old(dirs), m).dirs) else None
      ensures saved.Some? ==> dirs == saved.value
    {
      var at := Dir(dirs, m.hostPath);
      if at.None? {
        return None, if m.expected.None? then None else Some(NoSuchDir);
      }
      var i := at.value;
      if m.expected.None? {
        if dirs[i].mode.ReadWrite? {
          return None, None;
        }
      } else {
        if ModeRefused(dirs[i].mode) {
          return None, Some(WrongMode);
        }
        if dirs[i].baseline != m.expected.value {
          return None, Some(Conflict(m.expected.value, dirs[i].baseline));
        }
      }
      if m.target.None? {
        return None, Some(Unresolved);
      }
      dirs := dirs[i := dirs[i].(baseline := m.target.value)];
      if m.io.NotSaved? {
        return None, Some(SaveError);
      }
      return Some(dirs), if m.io.Saved? then None else Some(SaveError);
    }
  }

  // ---------- interleavings ----------

  type Pid = nat

  datatype Phase =
    | Idle
    | Waiting(m: Mover)
    | Locked(m: Mover)
    | HasLoaded(m: Mover, record: seq<DirEntry>)
    | Finished(refusal: Option<Refusal>)

  datatype State = State(
    record: seq<DirEntry>,
    holder: Option<Pid>,
    phases: map<Pid, Phase>,
    log: seq<Move>)

  datatype Step =
    | Ask(p: Pid, m: Mover)
    | Acquire(p: Pid)
    | Load(p: Pid)
    | Commit(p: Pid)
    | Release(p: Pid)
    | Kill(p: Pid)

  function PhaseOf(s: State, p: Pid): Phase {
    if p in s.phases then s.phases[p] else Idle
  }

  predicate Critical(phase: Phase) {
    phase.Locked? || phase.HasLoaded? || phase.Finished?
  }

  function Next(s: State, step: Step): State {
    match step
    case Ask(p, m) =>
      if PhaseOf(s, p).Idle? then s.(phases := s.phases[p := Waiting(m)]) else s
    case Acquire(p) =>
      if PhaseOf(s, p).Waiting? && s.holder == None then
        s.(holder := Some(p), phases := s.phases[p := Locked(PhaseOf(s, p).m)])
      else s
    case Load(p) =>
      if PhaseOf(s, p).Locked? then s.(phases := s.phases[p := HasLoaded(PhaseOf(s, p).m, s.record)]) else s
    case Commit(p) =>
      if PhaseOf(s, p).HasLoaded? then
        var attempt := Tried(PhaseOf(s, p).record, PhaseOf(s, p).m);
        var done := s.(phases := s.phases[p := Finished(attempt.refusal)]);
        if attempt.move.Some? then
          done.(record := attempt.dirs, log := s.log + [attempt.move.value])
        else done
      else s
    case Release(p) =>
      if PhaseOf(s, p).Finished? then s.(holder := None, phases := s.phases[p := Idle]) else s
    case Kill(p) =>
      if Critical(PhaseOf(s, p)) then s.(holder := None, phases := s.phases[p := Idle])
      else s.(phases := s.phases[p := Idle])
  }

  function Start(record: seq<DirEntry>): State {
    State(record, None, map[], [])
  }

  ghost function Steps(): (State, Step) -> State {
    (s: State, step: Step) => Next(s, step)
  }

  ghost function Run(record: seq<DirEntry>, steps: seq<Step>): State {
    Runs.RunTo(Start(record), Steps(), steps, |steps|)
  }

  // The baseline of one directory after the logged moves.
  function BaselineAfter(record: seq<DirEntry>, log: seq<Move>, i: nat): string
    requires i < |record|
  {
    if log == [] then record[i].baseline
    else if log[|log| - 1].dir == i then log[|log| - 1].to
    else BaselineAfter(record, log[..|log| - 1], i)
  }

  // Each move starts from the baseline its directory had right before it, and
  // equals what the mover expected.
  ghost predicate Chained(record: seq<DirEntry>, log: seq<Move>) {
    forall k :: 0 <= k < |log| ==>
      && log[k].dir < |record|
      && log[k].from == BaselineAfter(record, log[..k], log[k].dir)
      && (log[k].expected.Some? ==> log[k].expected.value == log[k].from)
  }

  // The record differs from the first one in the baselines alone, and those are
  // the ends of the chains.
  ghost predicate Replayed(record: seq<DirEntry>, log: seq<Move>, now: seq<DirEntry>) {
    && |now| == |record|
    && forall i :: 0 <= i < |record| ==>
         now[i] == record[i].(baseline := BaselineAfter(record, log, i))
  }

  ghost predicate Inv(record: seq<DirEntry>, s: State) {
    && (forall p: Pid :: Critical(PhaseOf(s, p)) <==> s.holder == Some(p))
    && (forall p: Pid :: PhaseOf(s, p).HasLoaded? ==> PhaseOf(s, p).record == s.record)
    && Chained(record, s.log)
    && Replayed(record, s.log, s.record)
  }

  lemma MoveReplays(record: seq<DirEntry>, log: seq<Move>, now: seq<DirEntry>, m: Mover)
    requires Replayed(record, log, now) && Tried(now, m).move.Some?
    ensures Replayed(record, log + [Tried(now, m).move.value], Tried(now, m).dirs)
  {
    assert (log + [Tried(now, m).move.value])[..|log|] == log;
  }

  lemma ChainGrows(record: seq<DirEntry>, log: seq<Move>, move: Move)
    requires Chained(record, log) && move.dir < |record| && move.from == BaselineAfter(record, log, move.dir)
    requires move.expected.Some? ==> move.expected.value == move.from
    ensures Chained(record, log + [move])
  {
    var longer := log + [move];
    assert longer[..|log|] == log;
    forall k | 0 <= k < |log|
      ensures longer[k] == log[k] && longer[..k] == log[..k]
    {
    }
  }

  lemma MoveExtendsChain(record: seq<DirEntry>, log: seq<Move>, now: seq<DirEntry>, m: Mover)
    requires Chained(record, log) && Replayed(record, log, now) && Tried(now, m).move.Some?
    ensures Chained(record, log + [Tried(now, m).move.value])
    ensures Replayed(record, log + [Tried(now, m).move.value], Tried(now, m).dirs)
  {
    var move := Tried(now, m).move.value;
    assert now[move.dir].baseline == BaselineAfter(record, log, move.dir);
    ChainGrows(record, log, move);
    MoveReplays(record, log, now, m);
  }

  lemma CommitKeepsInv(record: seq<DirEntry>, s: State, p: Pid)
    requires Inv(record, s) && PhaseOf(s, p).HasLoaded?
    ensures Inv(record, Next(s, Commit(p)))
  {
    var t := Next(s, Commit(p));
    var m := PhaseOf(s, p).m;
    if Tried(s.record, m).move.Some? {
      MoveExtendsChain(record, s.log, s.record, m);
    }
    forall q: Pid
      ensures q != p ==> PhaseOf(t, q) == PhaseOf(s, q)
      ensures q != p ==> !PhaseOf(t, q).HasLoaded?
    {
    }
  }

  lemma StepKeepsInv(record: seq<DirEntry>, s: State, step: Step)
    requires Inv(record, s)
    ensures Inv(record, Next(s, step))
  {
    match step
    case Commit(p) =>
      if PhaseOf(s, p).HasLoaded? {
        CommitKeepsInv(record, s, p);
      }
    case _ =>
  }

  lemma RunKeepsInv(record: seq<DirEntry>, steps: seq<Step>)
    ensures Inv(record, Run(record, steps))
  {
    var inv := (s: State) => Inv(record, s);
    forall s: State, step: Step | inv(s)
      ensures inv(Steps()(s, step))
    {
      StepKeepsInv(record, s, step);
    }
    Runs.Kept(Start(record), Steps(), steps, |steps|, inv);
  }

  // In every interleaving the moves of each directory form a chain from its first
  // baseline to its present one, every compared move starts from the value its
  // caller expected, and moves of different directories all survive although each
  // mover rewrites the whole record.
  lemma MovesFormChains(record: seq<DirEntry>, steps: seq<Step>)
    ensures var s := Run(record, steps);
            Chained(record, s.log) && Replayed(record, s.log, s.record)
  {
    RunKeepsInv(record, steps);
  }

  // A mover succeeds only from the baseline it expected, and a conflict, like any
  // refusal that is not a failed save, writes nothing.
  lemma CommitIsCompareAndSwap(record: seq<DirEntry>, steps: seq<Step>, p: Pid)
    requires PhaseOf(Run(record, steps), p).HasLoaded?
    requires PhaseOf(Run(record, steps), p).m.expected.Some?
    ensures var s := Run(record, steps);
            var m := PhaseOf(s, p).m;
            var t := Next(s, Commit(p));
            var refusal := PhaseOf(t, p).refusal;
            && (refusal == None ==>
                  && DirIndex(s.record, m.hostPath).Some?
                  && var i := DirIndex(s.record, m.hostPath).value;
                  && s.record[i].baseline == m.expected.value
                  && t.record == s.record[i := s.record[i].(baseline := m.target.value)])
            && (refusal.Some? && refusal != Some(SaveError) ==> t.record == s.record && t.log == s.log)
            && (refusal == Some(SaveError) && t.record != s.record ==> m.io == SavedButReportedFailed)
  {
    RunKeepsInv(record, steps);
  }

  // Two moves of one directory with no move of it between them meet.
  lemma {:induction false} ConsecutiveMovesMeet(record: seq<DirEntry>, log: seq<Move>, j: nat, k: nat)
    requires Chained(record, log) && j < k < |log| && log[j].dir == log[k].dir
    requires forall i :: j < i < k ==> log[i].dir != log[k].dir
    ensures log[k].from == log[j].to
  {
    NoMoveBetween(record, log, j, k);
  }

  lemma {:induction false} NoMoveBetween(record: seq<DirEntry>, log: seq<Move>, j: nat, k: nat)
    requires j < k <= |log| && log[j].dir < |record|
    requires forall i :: j < i < k ==> log[i].dir != log[j].dir
    ensures BaselineAfter(record, log[..k], log[j].dir) == log[j].to
    decreases k
  {
    assert log[..k][..k - 1] == log[..k - 1];
    if k > j + 1 {
      NoMoveBetween(record, log, j, k - 1);
    }
  }

  // ---------- what a mover achieves ----------

  // A compared move goes through exactly when the path leads to a directory whose mode
  // is copy, read-only or unset, whose baseline is the expected one, the target
  // resolves and the save succeeds; then that directory's baseline is the target and
  // nothing else changes.
  lemma ComparedMoveIff(dirs: seq<DirEntry>, m: Mover)
    requires m.expected.Some?
    ensures Tried(dirs, m).refusal == None
       <==> exists i: nat :: Addresses(dirs, m.hostPath, i) && Accepted(dirs[i], m)
    ensures forall i: nat :: Addresses(dirs, m.hostPath, i) && Accepted(dirs[i], m) ==>
              Tried(dirs, m).dirs == dirs[i := dirs[i].(baseline := m.target.value)]
  {
    DirIndexExactly(dirs, m.hostPath);
  }

  predicate Accepted(dir: DirEntry, m: Mover) {
    && dir.mode in [Copy, ReadOnly, Unset]
    && m.expected == Some(dir.baseline) && m.target.Some? && m.io == Saved
  }

  // Why a compared move is refused, in the order the checks are made.
  lemma ComparedMoveRefusals(dirs: seq<DirEntry>, m: Mover, i: nat)
    requires m.expected.Some? && Addresses(dirs, m.hostPath, i)
    ensures dirs[i].mode in [ReadWrite, Overlay] ==> Tried(dirs, m) == Attempt(dirs, None, Some(WrongMode))
    ensures dirs[i].mode in [Copy, ReadOnly, Unset] && dirs[i].baseline != m.expected.value ==>
              Tried(dirs, m) == Attempt(dirs, None, Some(Conflict(m.expected.value, dirs[i].baseline)))
    ensures dirs[i].mode in [Copy, ReadOnly, Unset] && dirs[i].baseline == m.expected.value && m.target.None? ==>
              Tried(dirs, m) == Attempt(dirs, None, Some(Unresolved))
  {
    DirIndexExactly(dirs, m.hostPath);
  }

  // The apply path compares nothing: it moves any directory but a live one, and passes
  // over a missing or live one in silence.
  lemma ApplyMoveIff(dirs: seq<DirEntry>, m: Mover)
    requires m.expected.None?
    ensures Tried(dirs, m).move.Some?
       <==> exists i: nat :: Addresses(dirs, m.hostPath, i) && Movable(dirs[i], m)
    ensures forall i: nat :: Addresses(dirs, m.hostPath, i) && Movable(dirs[i], m) ==>
              Tried(dirs, m).dirs == dirs[i := dirs[i].(baseline := m.target.value)]
    ensures (forall i: nat :: Addresses(dirs, m.hostPath, i) ==> dirs[i].mode == ReadWrite) ==>
              Tried(dirs, m) == Attempt(dirs, None, None)
  {
    DirIndexExactly(dirs, m.hostPath);
  }

  predicate Movable(dir: DirEntry, m: Mover) {
    dir.mode != ReadWrite && m.target.Some? && m.io != NotSaved
  }

  // From a free lock a mover that nobody disturbs loads the record and commits to it.
  lemma MoverAlone(s: State, p: Pid, m: Mover)
    requires s.holder == None && PhaseOf(s, p).Idle?
    ensures var t := Next(Next(Next(Next(s, Ask(p, m)), Acquire(p)), Load(p)), Commit(p));
            && t.holder == Some(p)
            && PhaseOf(t, p) == Finished(Tried(s.record, m).refusal)
            && t.record == Tried(s.record, m).dirs
            && PhaseOf(Next(t, Release(p)), p).Idle? && Next(t, Release(p)).holder == None
  {
  }

  // A mover that dies gives up its place and, if it had it, the lock; the record stays.
  lemma KillFrees(record: seq<DirEntry>, s: State, p: Pid)
    requires Inv(record, s)
    ensures var t := Next(s, Kill(p));
            && PhaseOf(t, p).Idle? && t.record == s.record && t.log == s.log
            && t.holder == (if s.holder == Some(p) then None else s.holder)
  {
  }
}
