/**
 The detached credential injectors (internal/broker/host.go, internal/broker/reap.go)
 and the sweep for leaked ones (system.go): one injector per sandbox, found again
 through the sandbox's record file. Calls run one after the other, a process id is
 not used twice, and the CLI may die inside a call.
 */
module InjectorHost {
  import opened Results
  import Runs

  type Pid = nat

  datatype Addr = Addr(host: string, port: nat)

  // injector.json. It is rewritten in place, so a write can leave it torn: present
  // and unparsable.
  datatype RecordFile = Torn | Good(pid: Pid, addr: Addr)

  datatype Host = Host(
    records: map<string, RecordFile>,
    loadable: set<string>,
    running: set<Pid>,
    nextPid: Pid)

  const CLEAN := Host(map[], {}, {}, 1)

  datatype CallError = ReadRecord | StartSidecar | SendConfig | Handshake | SaveRecord | RemoveRecord | Died

  // What a failing save leaves: the old record if it could not write, a torn one if the
  // write broke off, the new one if only the change of owner after it failed.
  datatype Left = OldRecord | TornRecord | NewRecord

  // How a spawn goes. A CLI that dies leaves the child it started.
  datatype Fate =
    | StartFails
    | SendFails
    | HandshakeFails
    | SaveFails(left: Left)
    | Spawned
    | DiesStarted(childLives: bool)
    | DiesSaving
    | DiesSaved

  datatype StopFate = Stopped | RemoveFails | DiesBeforeRemove

  datatype Op =
    | Ensure(sandbox: string, fate: Fate, bindHost: string, ephemeral: nat)
    | Stop(sandbox: string, how: StopFate)
    | InjectorDies(pid: Pid)
    | Reap(dryRun: bool, listed: bool, enumerated: bool)
    | MetadataChanges(sandbox: string, loads: bool)
    | Delete(sandbox: string)

  // loadRecord: no record, an error, or the record.
  predicate Readable(h: Host, sandbox: string) {
    sandbox in h.records && h.records[sandbox].Good?
  }

  predicate Alive(h: Host, sandbox: string) {
    Readable(h, sandbox) && h.records[sandbox].pid in h.running
  }

  // respawnBindPort: Ensure ignores the error of a torn record.
  function BindPort(h: Host, sandbox: string): nat {
    if Readable(h, sandbox) then h.records[sandbox].addr.port else 0
  }

  function BoundAddr(h: Host, op: Op): Addr
    requires op.Ensure?
  {
    Addr(op.bindHost, if BindPort(h, op.sandbox) == 0 then op.ephemeral else BindPort(h, op.sandbox))
  }

  function AfterEnsure(h: Host, op: Op): Host
    requires op.Ensure?
  {
    if Alive(h, op.sandbox) || op.fate.StartFails? then h
    else
      var pid := h.nextPid;
      var started := h.(nextPid := pid + 1);
      var good := Good(pid, BoundAddr(h, op));
      match op.fate
      case StartFails => h
      case SendFails => started
      case HandshakeFails => started
      case SaveFails(left) =>
        if left.OldRecord? then started
        else started.(records := h.records[op.sandbox := if left.TornRecord? then Torn else good])
      case Spawned => started.(running := h.running + {pid}, records := h.records[op.sandbox := good])
      case DiesStarted(childLives) => if childLives then started.(running := h.running + {pid}) else started
      case DiesSaving => started.(running := h.running + {pid}, records := h.records[op.sandbox := Torn])
      case DiesSaved => started.(running := h.running + {pid}, records := h.records[op.sandbox := good])
  }

  function EnsureResult(h: Host, op: Op): Result<Addr, CallError>
    requires op.Ensure?
  {
    if Alive(h, op.sandbox) then Ok(h.records[op.sandbox].addr)
    else
      match op.fate
      case StartFails => Err(StartSidecar)
      case SendFails => Err(SendConfig)
      case HandshakeFails => Err(Handshake)
      case SaveFails(_) => Err(SaveRecord)
      case Spawned => Ok(BoundAddr(h, op))
      case DiesStarted(_) => Err(Died)
      case DiesSaving => Err(Died)
      case DiesSaved => Err(Died)
  }

  function AfterStop(h: Host, sandbox: string, how: StopFate): Host {
    if !Readable(h, sandbox) then h
    else
      var killed := h.(running := h.running - {h.records[sandbox].pid});
      if how.Stopped? then killed.(records := h.records - {sandbox}) else killed
  }

  // The process ids a sweep keeps: those recorded by sandboxes whose metadata loads.
  ghost predicate Recorded(h: Host, pid: Pid) {
    exists s: string :: Records(h, s, pid)
  }

  predicate Records(h: Host, s: string, pid: Pid) {
    Readable(h, s) && h.records[s].pid == pid
  }

  ghost predicate Kept(h: Host, pid: Pid) {
    exists s: string :: s in h.loadable && Records(h, s, pid)
  }

  function KeepSet(h: Host): set<Pid> {
    set s | s in h.loadable && Readable(h, s) :: h.records[s].pid
  }

  // A failing listing of the sandboxes leaves the keep set empty.
  function AfterReap(h: Host, dryRun: bool, listed: bool, enumerated: bool): Host {
    if dryRun || !enumerated then h
    else h.(running := h.running * (if listed then KeepSet(h) else {}))
  }

  function Next(h: Host, op: Op): Host {
    match op
    case Ensure(_, _, _, _) => AfterEnsure(h, op)
    case Stop(sandbox, how) => AfterStop(h, sandbox, how)
    case InjectorDies(pid) => h.(running := h.running - {pid})
    case Reap(dryRun, listed, enumerated) => AfterReap(h, dryRun, listed, enumerated)
    case MetadataChanges(sandbox, loads) =>
      h.(loadable := if loads then h.loadable + {sandbox} else h.loadable - {sandbox})
    case Delete(sandbox) => h.(records := h.records - {sandbox}, loadable := h.loadable - {sandbox})
  }

  ghost function Steps(): (Host, Op) -> Host {
    (h: Host, op: Op) => Next(h, op)
  }

  // The host after the first n operations.
  ghost function RunTo(h: Host, ops: seq<Op>, n: nat): Host
    requires n <= |ops|
  {
    Runs.RunTo(h, Steps(), ops, n)
  }

  ghost function Run(h: Host, ops: seq<Op>): Host {
    RunTo(h, ops, |ops|)
  }

  // ---------- the calls ----------

  class SidecarHost {
    var host: Host

    // spawn: every failure after the start kills the child.
    method Spawn(op: Op, bindPort: nat) returns (r: Result<Addr, CallError>)
      requires op.Ensure? && !Alive(host, op.sandbox) && bindPort == BindPort(host, op.sandbox)
      requires host.nextPid !in host.running
      modifies this
      ensures host == AfterEnsure(old(host), op) && r == EnsureResult(old(host), op)
    {
      if op.fate.StartFails? {
        return Err(StartSidecar);
      }
      var pid := host.nextPid;
      var was := host.running;
      host := host.(nextPid := pid + 1, running := host.running + {pid});
      assert host.running - {pid} == was;
      if op.fate.DiesStarted? {
        if !op.fate.childLives {
          Kill(pid);
        }
        return Err(Died);
      }
      if op.fate.SendFails? {
        Kill(pid);
        return Err(SendConfig);
      }
      if op.fate.HandshakeFails? {
        Kill(pid);
        return Err(Handshake);
      }
      var addr := Addr(op.bindHost, if bindPort == 0 then op.ephemeral else bindPort);
      if op.fate.SaveFails? {
        if op.fate.left.TornRecord? {
          host := host.(records := host.records[op.sandbox := Torn]);
        } else if op.fate.left.NewRecord? {
          host := host.(records := host.records[op.sandbox := Good(pid, addr)]);
        }
        Kill(pid);
        return Err(SaveRecord);
      }
      if op.fate.DiesSaving? {
        host := host.(records := host.records[op.sandbox := Torn]);
        return Err(Died);
      }
      host := host.(records := host.records[op.sandbox := Good(pid, addr)]);
      if op.fate.DiesSaved? {
        return Err(Died);
      }
      return Ok(addr);
    }

    method Ensure(op: Op) returns (r: Result<Addr, CallError>)
      requires op.Ensure? && host.nextPid !in host.running
      modifies this
      ensures host == AfterEnsure(old(host), op) && r == EnsureResult(old(host), op)
    {
      if op.sandbox in host.records {
        var file := host.records[op.sandbox];
        if file.Good? && file.pid in host.running {
          return Ok(file.addr);
        }
      }
      r := Spawn(op, BindPort(host, op.sandbox));
    }

    method Stop(sandbox: string, how: StopFate) returns (r: Result<(), CallError>)
      modifies this
      ensures host == AfterStop(old(host), sandbox, how)
      ensures r.Ok? ==> sandbox !in host.records
      ensures sandbox in old(host).records && old(host).records[sandbox].Torn? ==> r == Err(ReadRecord)
    {
      if sandbox !in host.records {
        return Ok(());
      }
      if host.records[sandbox].Torn? {
        return Err(ReadRecord);
      }
      Kill(host.records[sandbox].pid);
      if how.Stopped? {
        host := host.(records := host.records - {sandbox});
        return Ok(());
      }
      return Err(if how.RemoveFails? then RemoveRecord else Died);
    }

    method Kill(pid: Pid)
      modifies this
      ensures host == old(host).(running := old(host).running - {pid})
    {
      host := host.(running := host.running - {pid});
    }

    // liveInjectorPIDs over a listing of the sandboxes directory, if it could be read.
    method LiveInjectorPids(entries: Option<seq<string>>) returns (keep: set<Pid>)
      requires entries.Some? ==> forall s :: s in host.loadable ==> s in entries.value
      ensures keep == if entries.Some? then KeepSet(host) else {}
    {
      keep := {};
      if entries.None? {
        return;
      }
      var k := 0;
      while k < |entries.value|
        invariant 0 <= k <= |entries.value|
        invariant keep == set s | s in entries.value[..k] && s in host.loadable && Readable(host, s)
                            :: host.records[s].pid
      {
        var s := entries.value[k];
        assert entries.value[..k + 1] == entries.value[..k] + [s];
        if s in host.loadable && s in host.records && host.records[s].Good? {
          keep := keep + {host.records[s].pid};
        }
        k := k + 1;
      }
      assert entries.value[..k] == entries.value;
    }

    // ReapOrphanInjectors over the injectors found running; the caller is not one.
    method ReapOrphanInjectors(pids: seq<Pid>, keep: set<Pid>, self: Pid, dryRun: bool) returns (reaped: seq<Pid>)
      requires (forall p :: p in pids <==> p in host.running) && self !in host.running
      modifies this
      ensures forall p :: p in reaped <==> p in old(host).running && p !in keep
      ensures host == if dryRun then old(host) else old(host).(running := old(host).running * keep)
    {
      reaped := [];
      var k := 0;
      while k < |pids|
        invariant 0 <= k <= |pids|
        invariant forall p :: p in reaped <==> p in pids[..k] && p !in keep
        invariant host == if dryRun then old(host)
                          else old(host).(running := set p | p in old(host).running && (p in keep || p !in pids[..k]))
      {
        var pid := pids[k];
        assert pids[..k + 1] == pids[..k] + [pid];
        if pid != self && pid !in keep {
          if !dryRun {
            Kill(pid);
          }
          reaped := reaped + [pid];
        }
        k := k + 1;
      }
      assert pids[..k] == pids;
    }
  }

  // ---------- invariant ----------

  // Process ids come from spawns, and no two sandboxes record the same one.
  ghost predicate Inv(h: Host) {
    && (forall p :: p in h.running ==> 0 < p < h.nextPid)
    && 0 < h.nextPid
    && (forall s: string :: Readable(h, s) ==> 0 < h.records[s].pid < h.nextPid)
    && (forall s: string, t: string ::
          Readable(h, s) && Readable(h, t) && h.records[s].pid == h.records[t].pid ==> s == t)
  }

  // A readable record was there before, or is the one just written.
  lemma RecordOrigin(h: Host, op: Op, s: string)
    requires Readable(Next(h, op), s)
    ensures h.nextPid <= Next(h, op).nextPid
    ensures (Readable(h, s) && h.records[s] == Next(h, op).records[s])
         || (op.Ensure? && s == op.sandbox && Next(h, op).records[s].pid == h.nextPid
             && Next(h, op).nextPid == h.nextPid + 1)
  {
  }

  lemma StepKeepsInv(h: Host, op: Op)
    requires Inv(h)
    ensures Inv(Next(h, op))
  {
    var t := Next(h, op);
    assert h.nextPid <= t.nextPid && forall p :: p in t.running ==> 0 < p < t.nextPid;
    forall s: string | Readable(t, s)
      ensures 0 < t.records[s].pid < t.nextPid
    {
      RecordOrigin(h, op, s);
    }
    forall s: string, u: string | Readable(t, s) && Readable(t, u) && t.records[s].pid == t.records[u].pid
      ensures s == u
    {
      RecordOrigin(h, op, s);
      RecordOrigin(h, op, u);
    }
  }

  lemma RunKeepsInv(h: Host, ops: seq<Op>, n: nat)
    requires Inv(h) && n <= |ops|
    ensures Inv(RunTo(h, ops, n))
  {
    var inv := (t: Host) => Inv(t);
    forall t: Host, op: Op | inv(t)
      ensures inv(Steps()(t, op))
    {
      StepKeepsInv(t, op);
    }
    Runs.Kept(h, Steps(), ops, n, inv);
  }

  // ---------- the port ----------

  // The sandbox's base URL points at port p.
  predicate Pinned(h: Host, sandbox: string, p: nat) {
    p > 0 && Readable(h, sandbox) && h.records[sandbox].addr.port == p
  }

  // A spawn whose write of the record was cut short.
  predicate Tears(h: Host, op: Op, sandbox: string) {
    op.Ensure? && op.sandbox == sandbox && !Alive(h, sandbox)
    && (op.fate.DiesSaving? || (op.fate.SaveFails? && op.fate.left.TornRecord?))
  }

  predicate Unpins(op: Op, sandbox: string) {
    (op.Stop? && op.sandbox == sandbox && op.how.Stopped?) || (op.Delete? && op.sandbox == sandbox)
  }

  lemma StepPinnedIff(h: Host, op: Op, sandbox: string, p: nat)
    requires Pinned(h, sandbox, p)
    ensures Pinned(Next(h, op), sandbox, p) <==> !Tears(h, op, sandbox) && !Unpins(op, sandbox)
  {
  }

  ghost function PinnedTo(sandbox: string, p: nat): Host -> bool {
    (h: Host) => Pinned(h, sandbox, p)
  }

  // The operation tears the sandbox's record, stops its injector or deletes it.
  ghost function Loosens(sandbox: string): (Host, Op) -> bool {
    (h: Host, op: Op) => Tears(h, op, sandbox) || Unpins(op, sandbox)
  }

  // From any moment on, the record keeps the port through a whole run if and only if
  // no operation of the run is one of those.
  lemma PortStableIff(h: Host, ops: seq<Op>, n: nat, sandbox: string, p: nat)
    requires Pinned(h, sandbox, p) && n <= |ops|
    ensures Runs.AlwaysGood(h, Steps(), ops, n, PinnedTo(sandbox, p))
       <==> Runs.NeverBad(h, Steps(), ops, n, Loosens(sandbox))
  {
    forall t: Host, op: Op | PinnedTo(sandbox, p)(t)
      ensures PinnedTo(sandbox, p)(Steps()(t, op)) <==> !Loosens(sandbox)(t, op)
    {
      StepPinnedIff(t, op, sandbox, p);
    }
    Runs.KeptIff(h, Steps(), ops, n, t => true, PinnedTo(sandbox, p), Loosens(sandbox));
  }

  // Then every Ensure of the sandbox that succeeds, at any later moment, returns it.
  lemma PortStable(h: Host, ops: seq<Op>, n: nat, sandbox: string, p: nat, next: Op)
    requires Pinned(h, sandbox, p) && n <= |ops|
    requires Runs.NeverBad(h, Steps(), ops, n, Loosens(sandbox))
    requires next.Ensure? && next.sandbox == sandbox
    ensures Pinned(RunTo(h, ops, n), sandbox, p)
    ensures EnsureResult(RunTo(h, ops, n), next).Ok? ==> EnsureResult(RunTo(h, ops, n), next).value.port == p
  {
    PortStableIff(h, ops, n, sandbox, p);
    assert PinnedTo(sandbox, p)(RunTo(h, ops, n));
  }

  // One torn write loses it: the next successful Ensure takes whatever port the system
  // offers, Stop refuses, and a child that outlived its CLI stays behind.
  lemma TornRecordLosesPort(h: Host, op: Op, sandbox: string, p: nat, next: Op)
    requires Inv(h) && Pinned(h, sandbox, p) && Tears(h, op, sandbox)
    requires next.Ensure? && next.sandbox == sandbox && next.fate.Spawned?
    ensures !Readable(Next(h, op), sandbox)
    ensures EnsureResult(Next(h, op), next).value.port == next.ephemeral
    ensures AfterStop(Next(h, op), sandbox, Stopped) == Next(h, op)
    ensures op.fate.DiesSaving? ==>
              h.nextPid in Next(h, op).running && !Recorded(Next(h, op), h.nextPid)
  {
    var t := Next(h, op);
    forall s: string
      ensures !Records(t, s, h.nextPid)
    {
    }
  }

  // Ensuring twice is ensuring once.
  lemma EnsureAgain(h: Host, op: Op, again: Op)
    requires Inv(h) && op.Ensure? && again.Ensure? && again.sandbox == op.sandbox
    requires EnsureResult(h, op).Ok?
    ensures AfterEnsure(AfterEnsure(h, op), again) == AfterEnsure(h, op)
    ensures EnsureResult(AfterEnsure(h, op), again) == EnsureResult(h, op)
  {
  }

  // ---------- leaks ----------

  // A running injector no record leads to.
  ghost predicate Leaked(h: Host, pid: Pid) {
    pid in h.running && !Recorded(h, pid)
  }

  // What makes a running injector unreachable: a CLI dying between the start and the
  // end of the record write, or the deletion of a live injector's sandbox.
  ghost predicate Leaks(h: Host, op: Op, pid: Pid) {
    || (op.Ensure? && !Alive(h, op.sandbox) && pid == h.nextPid
        && (op.fate == DiesStarted(true) || op.fate.DiesSaving?))
    || (op.Delete? && Alive(h, op.sandbox) && h.records[op.sandbox].pid == pid)
  }

  lemma RecordedForwards(h: Host, op: Op, pid: Pid)
    requires Inv(h) && Recorded(h, pid) && pid in Next(h, op).running
    requires !(op.Delete? && Alive(h, op.sandbox) && h.records[op.sandbox].pid == pid)
    ensures Recorded(Next(h, op), pid)
  {
    var s: string :| Records(h, s, pid);
    assert Records(Next(h, op), s, pid);
  }

  lemma LeakIsUnrecorded(h: Host, op: Op, pid: Pid, s: string)
    requires Inv(h) && Leaks(h, op, pid)
    ensures pid in Next(h, op).running && !Records(Next(h, op), s, pid)
  {
  }

  // A step leaks an injector exactly when it is one of those.
  lemma StepLeaksIff(h: Host, op: Op, pid: Pid)
    requires Inv(h) && !Leaked(h, pid)
    ensures Leaked(Next(h, op), pid) <==> Leaks(h, op, pid)
  {
    var t := Next(h, op);
    if Leaks(h, op, pid) {
      forall s: string
        ensures pid in t.running && !Records(t, s, pid)
      {
        LeakIsUnrecorded(h, op, pid, s);
      }
    } else if pid in t.running {
      if pid in h.running {
        RecordedForwards(h, op, pid);
      } else {
        assert Records(t, op.sandbox, pid);
      }
    }
  }

  // In particular a spawn that fails while the CLI lives leaves nothing running.
  lemma FailedSpawnLeavesNothing(h: Host, op: Op)
    requires Inv(h) && op.Ensure? && EnsureResult(h, op).Err? && EnsureResult(h, op).error != Died
    ensures Next(h, op).running == h.running
    ensures forall pid: Pid :: Leaked(Next(h, op), pid) ==> Leaked(h, pid)
  {
    forall pid: Pid | Leaked(Next(h, op), pid)
      ensures Leaked(h, pid)
    {
      if !Leaked(h, pid) {
        StepLeaksIff(h, op, pid);
      }
    }
  }

  ghost function Traced(pid: Pid): Host -> bool {
    (h: Host) => !Leaked(h, pid)
  }

  ghost function Leaker(pid: Pid): (Host, Op) -> bool {
    (h: Host, op: Op) => Leaks(h, op, pid)
  }

  lemma LeakStep(h: Host, op: Op, pid: Pid)
    requires Inv(h)
    ensures Inv(Steps()(h, op))
    ensures Traced(pid)(h) ==> (Traced(pid)(Steps()(h, op)) <==> !Leaker(pid)(h, op))
  {
    StepKeepsInv(h, op);
    if !Leaked(h, pid) {
      StepLeaksIff(h, op, pid);
    }
  }

  // Over a whole run, whatever fails, no process is ever a running injector without a
  // record, if and only if no step leaks it: no CLI dies between its start and its
  // record, and its sandbox is not deleted while it lives.
  lemma NothingLeaksIff(ops: seq<Op>, n: nat, pid: Pid)
    requires n <= |ops|
    ensures Runs.AlwaysGood(CLEAN, Steps(), ops, n, Traced(pid))
       <==> Runs.NeverBad(CLEAN, Steps(), ops, n, Leaker(pid))
  {
    var inv := (h: Host) => Inv(h);
    forall h: Host, op: Op | inv(h)
      ensures inv(Steps()(h, op))
      ensures Traced(pid)(h) ==> (Traced(pid)(Steps()(h, op)) <==> !Leaker(pid)(h, op))
    {
      LeakStep(h, op, pid);
    }
    Runs.KeptIff(CLEAN, Steps(), ops, n, inv, Traced(pid), Leaker(pid));
  }

  // Stopping a sandbox leaves every other sandbox's injector as it was.
  lemma StopIsLocal(ops: seq<Op>, sandbox: string, how: StopFate, other: string)
    requires other != sandbox
    ensures Alive(AfterStop(Run(CLEAN, ops), sandbox, how), other) <==> Alive(Run(CLEAN, ops), other)
  {
    RunKeepsInv(CLEAN, ops, |ops|);
  }

  // ---------- the sweep ----------

  lemma KeepSetIsKept(h: Host, pid: Pid)
    ensures pid in KeepSet(h) <==> Kept(h, pid)
  {
    if pid in KeepSet(h) {
      var s :| s in h.loadable && Readable(h, s) && h.records[s].pid == pid;
      assert Records(h, s, pid);
    }
  }

  // After a sweep that could list the sandboxes, what runs is exactly what ran before
  // and is recorded by a sandbox whose metadata loads.
  lemma ReapIsExact(h: Host, pid: Pid)
    ensures pid in Next(h, Reap(false, true, true)).running <==> pid in h.running && Kept(h, pid)
    ensures !Leaked(Next(h, Reap(false, true, true)), pid)
  {
    KeepSetIsKept(h, pid);
    if Kept(h, pid) {
      var s: string :| s in h.loadable && Records(h, s, pid);
      assert Records(Next(h, Reap(false, true, true)), s, pid);
    }
  }

  // A sweep spares every running injector it should keep if and only if it was a dry
  // run, could not enumerate, could list the sandboxes, or there was none to keep.
  lemma ReapSparesIff(h: Host, dryRun: bool, listed: bool, enumerated: bool)
    ensures (forall pid: Pid :: pid in h.running && Kept(h, pid) ==>
               pid in Next(h, Reap(dryRun, listed, enumerated)).running)
       <==> (dryRun || !enumerated || listed || !exists pid: Pid :: pid in h.running && Kept(h, pid))
  {
    forall pid: Pid
      ensures pid in KeepSet(h) <==> Kept(h, pid)
    {
      KeepSetIsKept(h, pid);
    }
  }

  // ---------- witnesses ----------

  const RECORDED: Host := Host(map["a" := Good(1, Addr("h", 7))], {"a"}, {1}, 2)

  // One Ensure, and a sweep that cannot list the sandboxes kills its injector.
  lemma UnlistedSweepKillsRecorded()
    ensures Run(CLEAN, [MetadataChanges("a", true), Ensure("a", Spawned, "h", 7)]) == RECORDED
    ensures Kept(RECORDED, 1) && Next(RECORDED, Reap(false, false, true)).running == {}
  {
    var ops := [MetadataChanges("a", true), Ensure("a", Spawned, "h", 7)];
    assert RunTo(CLEAN, ops, 1) == CLEAN.(loadable := {"a"});
    assert Records(RECORDED, "a", 1);
  }

  // The injector dies and the CLI dies while saving its successor: the port is gone,
  // and the successor runs on unrecorded.
  lemma TornRecordLosesPortWitness()
    ensures var h := Next(Next(RECORDED, InjectorDies(1)), Ensure("a", DiesSaving, "h", 8));
            h.records["a"] == Torn && h.running == {2}
            && EnsureResult(h, Ensure("a", Spawned, "h", 9)) == Ok(Addr("h", 9))
  {
  }

  // ---------- what the calls achieve ----------

  // A first Ensure starts an injector on a port of the system's choice and records it; a
  // dead one is started again on its recorded port; a live one is left as it is.
  lemma EnsureStarts(h: Host, op: Op)
    requires op.Ensure? && op.fate.Spawned?
    ensures op.sandbox !in h.records ==>
              && EnsureResult(h, op) == Ok(Addr(op.bindHost, op.ephemeral))
              && Next(h, op) == Host(h.records[op.sandbox := Good(h.nextPid, Addr(op.bindHost, op.ephemeral))],
                                     h.loadable, h.running + {h.nextPid}, h.nextPid + 1)
    ensures op.sandbox in h.records && h.records[op.sandbox].Good? && h.records[op.sandbox].pid !in h.running
            && h.records[op.sandbox].addr.port > 0 ==>
              var addr := Addr(op.bindHost, h.records[op.sandbox].addr.port);
              && EnsureResult(h, op) == Ok(addr)
              && Next(h, op) == Host(h.records[op.sandbox := Good(h.nextPid, addr)],
                                     h.loadable, h.running + {h.nextPid}, h.nextPid + 1)
    ensures op.sandbox in h.records && h.records[op.sandbox].Good? && h.records[op.sandbox].pid in h.running ==>
              EnsureResult(h, op) == Ok(h.records[op.sandbox].addr) && Next(h, op) == h
  {
  }

  // How a spawn that does not succeed is reported.
  lemma EnsureReports(h: Host, op: Op)
    requires op.Ensure?
    requires op.sandbox in h.records && h.records[op.sandbox].Good? ==> h.records[op.sandbox].pid !in h.running
    ensures op.fate.StartFails? ==> EnsureResult(h, op) == Err(StartSidecar) && Next(h, op) == h
    ensures op.fate.SendFails? ==> EnsureResult(h, op) == Err(SendConfig)
    ensures op.fate.HandshakeFails? ==> EnsureResult(h, op) == Err(Handshake)
    ensures op.fate.SaveFails? ==> EnsureResult(h, op) == Err(SaveRecord)
    ensures op.fate.SendFails? || op.fate.HandshakeFails? || op.fate == SaveFails(OldRecord) ==>
              Next(h, op).records == h.records
    ensures EnsureResult(h, op).Ok? <==> op.fate.Spawned?
  {
  }

  // Stop kills the recorded injector, and forgets it when the record can be removed; it
  // does nothing without a record or with a torn one.
  lemma StopKills(h: Host, sandbox: string, how: StopFate)
    ensures sandbox in h.records && h.records[sandbox].Good? ==>
              && AfterStop(h, sandbox, how).running == h.running - {h.records[sandbox].pid}
              && AfterStop(h, sandbox, how).records == (if how.Stopped? then h.records - {sandbox} else h.records)
    ensures sandbox !in h.records || h.records[sandbox].Torn? ==> AfterStop(h, sandbox, how) == h
    ensures AfterStop(h, sandbox, how).loadable == h.loadable && AfterStop(h, sandbox, how).nextPid == h.nextPid
  {
  }

  // A sweep changes which injectors run, and nothing else; a dry one nothing at all.
  lemma ReapOnlyKills(h: Host, dryRun: bool, listed: bool, enumerated: bool)
    ensures var t := Next(h, Reap(dryRun, listed, enumerated));
            && t == h.(running := t.running) && t.running <= h.running
            && (dryRun || !enumerated ==> t == h)
            && (!dryRun && enumerated && !listed ==> t.running == {})
  {
  }
}
