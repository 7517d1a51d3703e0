/**
 Crash-safe replacement of the document file: temp file, fsync, rename,
 directory fsync (store/handle.go). The disk is a cache in front of durable
 storage. Data written but not synced may reach durable storage at any time,
 whole or torn; a rename not yet synced may too. Every write attempt has its own
 temp file, so attempts number the inodes. Any step may be followed by a crash,
 and runs continue after it.
 */
module AtomicWrite {
  import opened Results
  import Runs

  // What an inode holds: all the bytes of its document, or anything less.
  datatype Content = Torn | Whole

  // Where the running call is; `k` is its attempt.
  datatype At =
    | Idle
    | Created(k: nat)
    | Filled(k: nat)
    | Synced(k: nat)
    | Renamed(k: nat)

  datatype Disk<D> = Disk(
    attempts: seq<D>,
    cached: seq<Content>,
    stable: seq<Content>,
    entry: Option<nat>,
    stableEntry: Option<nat>,
    pending: set<nat>,
    at: At,
    lastSuccess: Option<nat>)

  datatype Step<D> =
    | Begin(d: D)
    | WriteData
    | FsyncFile
    | Rename
    | FsyncDir
    | Fail
    | FlushData(inode: nat, whole: bool)
    | FlushEntry(inode: nat)
    | Crash

  function Fresh<D>(): Disk<D> {
    Disk([], [], [], None, None, {}, Idle, None)
  }

  function Next<D>(s: Disk<D>, step: Step<D>): Disk<D> {
    match step
    case Begin(d) =>
      if s.at.Idle? then
        s.(attempts := s.attempts + [d], cached := s.cached + [Torn], stable := s.stable + [Torn],
           at := Created(|s.attempts|))
      else s
    case WriteData =>
      if s.at.Created? && s.at.k < |s.cached| then s.(cached := s.cached[s.at.k := Whole], at := Filled(s.at.k))
      else s
    case FsyncFile =>
      if s.at.Filled? && s.at.k < |s.stable| && s.at.k < |s.cached| then
        s.(stable := s.stable[s.at.k := s.cached[s.at.k]], at := Synced(s.at.k))
      else s
    case Rename =>
      if s.at.Synced? then
        s.(entry := Some(s.at.k), pending := s.pending + {s.at.k}, at := Renamed(s.at.k))
      else s
    case FsyncDir =>
      if s.at.Renamed? then
        s.(stableEntry := s.entry, pending := {}, at := Idle, lastSuccess := Some(s.at.k))
      else s
    case Fail =>
      // Any call may fail; the temp file is removed if it was not renamed yet.
      s.(at := Idle)
    case FlushData(i, whole) =>
      if i < |s.stable| && i < |s.cached| && s.stable[i].Torn? && whole then
        s.(stable := s.stable[i := s.cached[i]])
      else s
    case FlushEntry(i) =>
      if i in s.pending then s.(stableEntry := Some(i)) else s
    case Crash =>
      s.(cached := s.stable, entry := s.stableEntry, pending := {}, at := Idle)
  }

  ghost function Steps<D>(): (Disk<D>, Step<D>) -> Disk<D> {
    (s: Disk<D>, step: Step<D>) => Next(s, step)
  }

  // The disk after the first n steps.
  ghost function RunTo<D>(steps: seq<Step<D>>, n: nat): Disk<D>
    requires n <= |steps|
  {
    Runs.RunTo(Fresh(), Steps(), steps, n)
  }

  ghost function Run<D>(steps: seq<Step<D>>): Disk<D> {
    RunTo(steps, |steps|)
  }

  // What a reader finds at the document's path.
  datatype Reading<D> = Missing | TornDocument | Document(d: D)

  function Read<D>(s: Disk<D>): Reading<D> {
    match s.entry
    case None => Missing
    case Some(k) =>
      if k < |s.attempts| && k < |s.cached| && s.cached[k].Whole? then Document(s.attempts[k])
      else TornDocument
  }

  // ---------- invariant ----------

  // The attempt k may stand at the document's path: its bytes are stable, and no
  // later write had returned success.
  predicate Sound<D>(s: Disk<D>, k: nat) {
    && k < |s.attempts| && k < |s.stable| && k < |s.cached|
    && s.stable[k].Whole? && s.cached[k].Whole?
    && (s.lastSuccess.Some? ==> s.lastSuccess.value <= k)
  }

  ghost predicate Inv<D>(s: Disk<D>) {
    && |s.cached| == |s.stable| == |s.attempts|
    && (forall k :: 0 <= k < |s.stable| && s.stable[k].Whole? ==> s.cached[k].Whole?)
    && (s.entry.Some? ==> Sound(s, s.entry.value))
    && (s.stableEntry.Some? ==> Sound(s, s.stableEntry.value))
    && (forall k: nat :: k in s.pending ==> Sound(s, k))
    && (s.lastSuccess.Some? ==> s.stableEntry.Some?)
    && (s.stableEntry.Some? || s.pending != {} ==> s.entry.Some?)
    && (s.at.Created? || s.at.Filled? || s.at.Synced? || s.at.Renamed? ==>
          && s.at.k + 1 == |s.attempts|
          && (!s.at.Created? ==> s.cached[s.at.k].Whole?)
          && (s.at.Synced? || s.at.Renamed? ==> s.stable[s.at.k].Whole?)
          && (s.lastSuccess.Some? ==> s.lastSuccess.value < s.at.k)
          && (s.at.Renamed? ==> s.entry == Some(s.at.k)))
  }

  // Steps on file contents: they lose no bytes and touch no directory entry.
  lemma BeginKeepsInv<D>(s: Disk<D>, d: D)
    requires Inv(s)
    ensures Inv(Next(s, Begin(d)))
  {
    forall k: nat | Sound(s, k)
      ensures Sound(Next(s, Begin(d)), k)
    {
    }
  }

  lemma DataStepKeepsInv<D>(s: Disk<D>, step: Step<D>)
    requires Inv(s) && (step.WriteData? || step.FsyncFile? || step.FlushData?)
    ensures Inv(Next(s, step))
  {
    var t := Next(s, step);
    forall k: nat | Sound(s, k)
      ensures Sound(t, k)
    {
    }
  }

  lemma EntryStepKeepsInv<D>(s: Disk<D>, step: Step<D>)
    requires Inv(s) && (step.Rename? || step.Fail? || step.FlushEntry? || step.Crash?)
    ensures Inv(Next(s, step))
  {
  }

  lemma FsyncDirKeepsInv<D>(s: Disk<D>)
    requires Inv(s)
    ensures Inv(Next(s, FsyncDir))
  {
  }

  lemma StepKeepsInv<D>(s: Disk<D>, step: Step<D>)
    requires Inv(s)
    ensures Inv(Next(s, step))
  {
    if step.Begin? {
      BeginKeepsInv(s, step.d);
    } else if step.WriteData? || step.FsyncFile? || step.FlushData? {
      DataStepKeepsInv(s, step);
    } else if step.FsyncDir? {
      FsyncDirKeepsInv(s);
    } else {
      EntryStepKeepsInv(s, step);
    }
  }

  lemma RunKeepsInv<D(!new)>(steps: seq<Step<D>>, n: nat)
    requires n <= |steps|
    ensures Inv(RunTo(steps, n))
  {
    var inv := (s: Disk<D>) => Inv(s);
    forall s: Disk<D>, step: Step<D> | inv(s)
      ensures inv(Steps()(s, step))
    {
      StepKeepsInv(s, step);
    }
    Runs.Kept(Fresh(), Steps(), steps, n, inv);
  }

  // ---------- theorems ----------

  // The reading is one complete attempted document, not older than the last write
  // that returned success; it is missing only when no write ever did.
  predicate CompleteAndRecent<D(==)>(s: Disk<D>, r: Reading<D>) {
    && (r.Missing? ==> s.lastSuccess == None)
    && !r.TornDocument?
    && (r.Document? ==>
          exists k: nat :: k < |s.attempts| && s.attempts[k] == r.d
                           && (s.lastSuccess.Some? ==> s.lastSuccess.value <= k))
  }

  // After any run, with crashes anywhere in it: both what a running reader sees
  // and what the next crash would leave.
  lemma CrashSafe<D(!new)>(steps: seq<Step<D>>)
    ensures CompleteAndRecent(Run(steps), Read(Run(steps)))
    ensures CompleteAndRecent(Run(steps), Read(Next(Run(steps), Crash)))
  {
    RunKeepsInv(steps, |steps|);
    StepKeepsInv(Run(steps), Crash);
    var s := Run(steps);
    if s.entry.Some? {
      assert s.attempts[s.entry.value] == Read(s).d;
    }
    if s.stableEntry.Some? {
      assert s.attempts[s.stableEntry.value] == Read(Next(s, Crash)).d;
    }
  }

  // Once the document exists on stable storage, nothing that follows makes it missing:
  // not to a reader, and not after a crash.
  lemma NeverMissingAgain<D(!new)>(steps: seq<Step<D>>, k: nat, n: nat)
    requires k <= n <= |steps| && RunTo(steps, k).stableEntry.Some?
    ensures RunTo(steps, n).stableEntry.Some? && RunTo(steps, n).entry.Some?
    ensures !Read(RunTo(steps, n)).Missing? && !Read(Next(RunTo(steps, n), Crash)).Missing?
  {
    RunKeepsInv(steps, k);
    var linked := (s: Disk<D>) => Inv(s) && s.stableEntry.Some? && s.entry.Some?;
    forall s: Disk<D>, step: Step<D> | linked(s)
      ensures linked(Steps()(s, step))
    {
      StepKeepsInv(s, step);
      StaysLinked(s, step);
    }
    Runs.KeptOnce(Fresh(), Steps(), steps, k, n, linked);
  }

  lemma StaysLinked<D>(s: Disk<D>, step: Step<D>)
    requires Inv(s) && s.stableEntry.Some? && s.entry.Some?
    ensures Next(s, step).stableEntry.Some? && Next(s, step).entry.Some?
  {
  }

  // Which system call of a write fails, if any.
  datatype Fault = NoFault | AtCreate | AtWrite | AtSync | AtRename | AtDirSync

  class Storage<D(!new)> {
    var disk: Disk<D>

    constructor ()
      ensures disk == Fresh()
    {
      disk := Fresh();
    }

    // atomicWriteJSON, one system call after another. A write that succeeds is what
    // readers see and what a crash leaves; one that fails before the rename leaves the
    // document alone; one whose directory fsync fails has replaced it all the same.
    method AtomicWriteJson(d: D, fault: Fault) returns (ok: bool)
      requires Inv(disk) && disk.at.Idle?
      modifies this
      ensures Inv(disk) && disk.at.Idle?
      ensures ok <==> fault.NoFault?
      ensures ok ==> Read(disk) == Document(d) && Read(Next(disk, Crash)) == Document(d)
      ensures ok ==> disk.lastSuccess == Some(|old(disk).attempts|)
      ensures !ok ==> disk.lastSuccess == old(disk).lastSuccess
      ensures !ok ==> Read(disk) == if fault.AtDirSync? then Document(d) else Read(old(disk))
      ensures !ok ==> disk.stableEntry == old(disk).stableEntry
    {
      ghost var s := disk;
      var ready := Prepare(d, fault);
      if !ready {
        SameReading(s, disk);
        return false;
      }
      if fault.AtRename? {
        SameReading(s, disk);
        Failing(disk);
        disk := Next(disk, Fail);
        return false;
      }
      Renaming(disk, d);
      disk := Next(disk, Rename);
      if fault.AtDirSync? {
        Failing(disk);
        disk := Next(disk, Fail);
        return false;
      }
      Finishing(disk, d);
      disk := Next(disk, FsyncDir);
      return true;
    }

    // The temporary file: created, written, synced.
    method Prepare(d: D, fault: Fault) returns (ready: bool)
      requires Inv(disk) && disk.at.Idle?
      modifies this
      ensures Inv(disk) && OldDocument(old(disk), disk)
      ensures ready <==> !fault.AtCreate? && !fault.AtWrite? && !fault.AtSync?
      ensures !ready ==> disk.at.Idle?
      ensures ready ==> disk.at == Synced(|old(disk).attempts|) && disk.attempts == old(disk).attempts + [d]
    {
      if fault.AtCreate? {
        return false;
      }
      Preparing(disk, d);
      disk := Next(disk, Begin(d));
      if fault.AtWrite? {
        disk := Next(disk, Fail);
        return false;
      }
      disk := Next(disk, WriteData);
      if fault.AtSync? {
        disk := Next(disk, Fail);
        return false;
      }
      disk := Next(disk, FsyncFile);
      return true;
    }
  }

  lemma Creating<D>(s: Disk<D>, d: D)
    requires Inv(s) && s.at.Idle?
    ensures var t := Next(s, Begin(d));
            && OldDocument(s, t) && t.at == Created(|s.attempts|) && t.attempts == s.attempts + [d]
            && Inv(t) && Inv(Next(t, Fail))
  {
    StepKeepsInv(s, Begin(d));
    StepKeepsInv(Next(s, Begin(d)), Fail);
  }

  lemma Filling<D>(s: Disk<D>, k: nat)
    requires Inv(s) && s.at == Created(k)
    ensures var t := Next(s, WriteData);
            && OldDocument(s, t) && t.at == Filled(k) && t.attempts == s.attempts && Inv(t) && Inv(Next(t, Fail))
  {
    StepKeepsInv(s, WriteData);
    StepKeepsInv(Next(s, WriteData), Fail);
  }

  lemma Syncing<D>(s: Disk<D>, k: nat)
    requires Inv(s) && s.at == Filled(k)
    ensures var t := Next(s, FsyncFile);
            && OldDocument(s, t) && t.at == Synced(k) && t.attempts == s.attempts && Inv(t)
  {
    StepKeepsInv(s, FsyncFile);
  }

  lemma Preparing<D>(s: Disk<D>, d: D)
    requires Inv(s) && s.at.Idle?
    ensures var t1 := Next(s, Begin(d));
            var t2 := Next(t1, WriteData);
            var t3 := Next(t2, FsyncFile);
            && OldDocument(s, Next(t1, Fail)) && Inv(Next(t1, Fail))
            && OldDocument(s, Next(t2, Fail)) && Inv(Next(t2, Fail))
            && OldDocument(s, t3) && Inv(t3)
            && t3.at == Synced(|s.attempts|) && t3.attempts == s.attempts + [d]
  {
    Creating(s, d);
    var t1 := Next(s, Begin(d));
    Filling(t1, |s.attempts|);
    var t2 := Next(t1, WriteData);
    Syncing(t2, |s.attempts|);
  }

  lemma Failing<D>(s: Disk<D>)
    requires Inv(s)
    ensures Inv(Next(s, Fail)) && Read(Next(s, Fail)) == Read(s)
  {
    StepKeepsInv(s, Fail);
  }

  lemma SameReading<D>(s: Disk<D>, t: Disk<D>)
    requires Inv(s) && OldDocument(s, t)
    ensures Read(t) == Read(s)
  {
  }

  lemma Renaming<D>(s: Disk<D>, d: D)
    requires Inv(s) && s.at.Synced? && s.attempts != [] && s.attempts[|s.attempts| - 1] == d
    ensures var t := Next(s, Rename);
            && Inv(t) && t.at == Renamed(s.at.k) && t.attempts == s.attempts && Read(t) == Document(d)
  {
    StepKeepsInv(s, Rename);
  }

  lemma Finishing<D>(s: Disk<D>, d: D)
    requires Inv(s) && s.at.Renamed? && Read(s) == Document(d)
    ensures var t := Next(s, FsyncDir);
            && Inv(t) && t.at.Idle? && Read(t) == Document(d) && Read(Next(t, Crash)) == Document(d)
  {
    StepKeepsInv(s, FsyncDir);
    StepKeepsInv(Next(s, FsyncDir), Crash);
  }

  // The document at the path, and what a crash would leave there, is the old one.
  ghost predicate OldDocument<D>(s: Disk<D>, t: Disk<D>) {
    && t.entry == s.entry && t.stableEntry == s.stableEntry && t.lastSuccess == s.lastSuccess
    && s.attempts <= t.attempts
    && (s.entry.Some? && s.entry.value < |s.cached| && s.cached[s.entry.value].Whole? ==>
          s.entry.value < |t.cached| && t.cached[s.entry.value].Whole?)
  }

  // What a failing call leaves: after a failure before the rename the document is
  // untouched; after a failing directory fsync the new document is in place.
  lemma FailureLeavesOldOrNew<D>(s: Disk<D>)
    requires Inv(s) && !s.at.Idle?
    ensures Read(Next(s, Fail)) == Read(s)
    ensures s.at.Renamed? ==> Read(Next(s, Fail)) == Document(s.attempts[s.at.k])
    ensures Next(s, Fail).lastSuccess == s.lastSuccess
  {
  }

  // Why an error may hide a landed write: after a failing directory fsync readers
  // see the new document, the caller was told the write failed, and a crash
  // brings the earlier document back.
  lemma FailedWriteMayLandAndVanish<D>(s: Disk<D>, d: D)
    requires Inv(s) && s.at.Idle?
    ensures var renamed := Next(Next(Next(Next(s, Begin(d)), WriteData), FsyncFile), Rename);
            var t := Next(renamed, Fail);
            && t.lastSuccess == s.lastSuccess
            && Read(t) == Document(d)
            && Read(Next(t, Crash)) == Read(Next(s, Crash))
  {
  }

  // ---------- what the disk may do ----------

  // A rename that was never synced may be there after a crash, or not.
  lemma UnsyncedRenameMayPersist<D>(s: Disk<D>, d: D)
    requires Inv(s) && s.at.Idle?
    ensures var renamed := Next(Next(Next(Next(s, Begin(d)), WriteData), FsyncFile), Rename);
            && Read(Next(Next(renamed, FlushEntry(|s.attempts|)), Crash)) == Document(d)
            && Read(Next(renamed, Crash)) == Read(Next(s, Crash))
  {
  }

  // Bytes that were never synced may be lost in a crash, or not.
  lemma UnsyncedBytesMayBeLost<D>(s: Disk<D>, d: D)
    requires Inv(s) && s.at.Idle?
    ensures var k := |s.attempts|;
            var filled := Next(Next(s, Begin(d)), WriteData);
            && k < |filled.cached| && filled.cached[k].Whole?
            && Next(filled, Crash).cached[k].Torn?
            && Next(Next(filled, FlushData(k, true)), Crash).cached[k].Whole?
  {
  }
}
