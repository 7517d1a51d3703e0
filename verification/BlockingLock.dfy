/**
 Opening a lock file and taking its flock as two steps (internal/locking/flock.go):
 a caller may block, or lose the race, on a file that has been unlinked in between.
 This is the grain below LockProtocol, and what an Update waiting for a document's
 lock goes through. Each caller locks one name.
 */
module BlockingLock {
  import Runs

  type Pid = nat
  type Inode = nat

  datatype Phase =
    | Idle
    | Opened(name: string, inode: Inode)
    | Holding(name: string, inode: Inode, unlinked: bool)

  // `born` gives each inode the name it was created under; there is no other link.
  datatype State = State(
    paths: map<string, Inode>,
    born: seq<string>,
    flocks: map<Inode, Pid>,
    phases: map<Pid, Phase>)

  datatype Step =
    | Open(p: Pid, name: string)
    | Flock(p: Pid)
    | Unlink(p: Pid)
    | Release(p: Pid)
    | Crash(p: Pid)

  function PhaseOf(s: State, p: Pid): Phase {
    if p in s.phases then s.phases[p] else Idle
  }

  function Set(s: State, p: Pid, phase: Phase): State {
    s.(phases := s.phases[p := phase])
  }

  function Next(s: State, step: Step): State {
    var phase := PhaseOf(s, step.p);
    match step
    case Open(p, name) =>
      if !phase.Idle? then s
      else if name in s.paths then Set(s, p, Opened(name, s.paths[name]))
      else
        // O_CREATE.
        Set(s, p, Opened(name, |s.born|)).(paths := s.paths[name := |s.born|], born := s.born + [name])
    case Flock(p) =>
      // On a locked inode the caller blocks; trying without blocking and giving up is
      // a Crash of the caller, which closes the file.
      if phase.Opened? && phase.inode !in s.flocks then
        Set(s, p, Holding(phase.name, phase.inode, false)).(flocks := s.flocks[phase.inode := p])
      else s
    case Unlink(p) =>
      // os.Remove takes a path: it removes whatever file is there.
      if phase.Holding? && !phase.unlinked then
        Set(s, p, phase.(unlinked := true)).(paths := s.paths - {phase.name})
      else s
    case Release(p) =>
      if phase.Holding? then Set(s, p, Idle).(flocks := s.flocks - {phase.inode}) else s
    case Crash(p) =>
      if phase.Holding? then Set(s, p, Idle).(flocks := s.flocks - {phase.inode}) else Set(s, p, Idle)
  }

  const NO_LOCKS := State(map[], [], map[], map[])

  ghost function Steps(): (State, Step) -> State {
    (s: State, step: Step) => Next(s, step)
  }

  ghost function RunFrom(s: State, steps: seq<Step>): State {
    Runs.RunTo(s, Steps(), steps, |steps|)
  }

  ghost function Run(steps: seq<Step>): State {
    RunFrom(NO_LOCKS, steps)
  }

  // ---------- invariant ----------

  predicate PathsBorn(s: State) {
    forall n :: n in s.paths ==> s.paths[n] < |s.born| && s.born[s.paths[n]] == n
  }

  // A caller's inode was created under its name; once it has unlinked its lock file,
  // that inode is linked nowhere.
  predicate PhaseBorn(s: State, p: Pid) {
    var phase := PhaseOf(s, p);
    && (!phase.Idle? ==> phase.inode < |s.born| && s.born[phase.inode] == phase.name)
    && (phase.Holding? && phase.unlinked && phase.name in s.paths ==> s.paths[phase.name] != phase.inode)
  }

  predicate HoldsFlock(s: State, p: Pid, i: Inode) {
    PhaseOf(s, p).Holding? && PhaseOf(s, p).inode == i
  }

  ghost predicate FlocksHeld(s: State) {
    forall p: Pid, i: Inode :: HoldsFlock(s, p, i) <==> i in s.flocks && s.flocks[i] == p
  }

  ghost predicate Inv(s: State) {
    PathsBorn(s) && (forall p: Pid :: PhaseBorn(s, p)) && FlocksHeld(s)
  }

  lemma StepKeepsPaths(s: State, step: Step)
    requires PathsBorn(s)
    ensures PathsBorn(Next(s, step))
  {
  }

  lemma StepKeepsPhase(s: State, step: Step, p: Pid)
    requires PathsBorn(s) && PhaseBorn(s, p)
    ensures PhaseBorn(Next(s, step), p)
  {
  }

  lemma StepKeepsFlocks(s: State, step: Step)
    requires FlocksHeld(s)
    ensures FlocksHeld(Next(s, step))
  {
    var t := Next(s, step);
    forall p: Pid, i: Inode
      ensures HoldsFlock(t, p, i) <==> i in t.flocks && t.flocks[i] == p
    {
      assert HoldsFlock(s, p, i) <==> i in s.flocks && s.flocks[i] == p;
      var phase := PhaseOf(s, step.p);
      assert phase.Holding? ==> HoldsFlock(s, step.p, phase.inode);
    }
  }

  lemma StepKeepsInv(s: State, step: Step)
    requires Inv(s)
    ensures Inv(Next(s, step))
  {
    StepKeepsPaths(s, step);
    StepKeepsFlocks(s, step);
    forall p: Pid
      ensures PhaseBorn(Next(s, step), p)
    {
      StepKeepsPhase(s, step, p);
    }
  }

  lemma RunKeepsInv(s: State, steps: seq<Step>)
    requires Inv(s)
    ensures Inv(RunFrom(s, steps))
  {
    var inv := (t: State) => Inv(t);
    forall t: State, step: Step | inv(t)
      ensures inv(Steps()(t, step))
    {
      StepKeepsInv(t, step);
    }
    Runs.Kept(s, Steps(), steps, |steps|, inv);
  }

  // ---------- stale callers ----------

  predicate InCharge(s: State, p: Pid, name: string) {
    PhaseOf(s, p).Holding? && PhaseOf(s, p).name == name && !PhaseOf(s, p).unlinked
  }

  ghost predicate Exclusive(s: State) {
    forall p: Pid, q: Pid, name: string :: InCharge(s, p, name) && InCharge(s, q, name) ==> p == q
  }

  predicate Linked(s: State, name: string, i: Inode) {
    name in s.paths && s.paths[name] == i
  }

  // The caller has a lock file open, or holds it, that somebody else unlinked.
  predicate Stale(s: State, q: Pid) {
    var phase := PhaseOf(s, q);
    (phase.Opened? || (phase.Holding? && !phase.unlinked)) && !Linked(s, phase.name, phase.inode)
  }

  ghost predicate NoneStale(s: State) {
    forall q: Pid :: !Stale(s, q)
  }

  // With nobody stale at most one caller is in charge of each name.
  lemma NoneStaleExcludes(s: State)
    requires Inv(s) && NoneStale(s)
    ensures Exclusive(s)
  {
    forall p: Pid, q: Pid, name: string | InCharge(s, p, name) && InCharge(s, q, name)
      ensures p == q
    {
      assert !Stale(s, p) && !Stale(s, q);
      assert HoldsFlock(s, p, s.paths[name]) && HoldsFlock(s, q, s.paths[name]);
    }
  }

  // An unlink that falls between another caller's open and its flock.
  ghost predicate FallsBetween(s: State, step: Step) {
    && step.Unlink? && PhaseOf(s, step.p).Holding? && !PhaseOf(s, step.p).unlinked
    && exists q: Pid :: WaitsOn(s, q, PhaseOf(s, step.p).inode)
  }

  predicate WaitsOn(s: State, q: Pid, i: Inode) {
    PhaseOf(s, q).Opened? && PhaseOf(s, q).inode == i
  }

  lemma StaleAfter(s: State, step: Step, q: Pid)
    requires Inv(s) && NoneStale(s)
    ensures Stale(Next(s, step), q)
       <==> && step.Unlink? && PhaseOf(s, step.p).Holding? && !PhaseOf(s, step.p).unlinked
            && WaitsOn(s, q, PhaseOf(s, step.p).inode)
  {
    assert !Stale(s, q) && !Stale(s, step.p) && PhaseBorn(s, q) && PhaseBorn(s, step.p);
    var mine := PhaseOf(s, step.p);
    if step.Unlink? && mine.Holding? && PhaseOf(s, q).Holding? && PhaseOf(s, q).inode == mine.inode {
      assert HoldsFlock(s, step.p, mine.inode) && HoldsFlock(s, q, mine.inode);
    }
  }

  // Somebody becomes stale exactly by such an unlink.
  lemma StepStaleIff(s: State, step: Step)
    requires Inv(s) && NoneStale(s)
    ensures NoneStale(Next(s, step)) <==> !FallsBetween(s, step)
  {
    forall q: Pid
      ensures Stale(Next(s, step), q)
         <==> && step.Unlink? && PhaseOf(s, step.p).Holding? && !PhaseOf(s, step.p).unlinked
              && WaitsOn(s, q, PhaseOf(s, step.p).inode)
    {
      StaleAfter(s, step, q);
    }
    if FallsBetween(s, step) {
      var q: Pid :| WaitsOn(s, q, PhaseOf(s, step.p).inode);
      assert Stale(Next(s, step), q);
    }
  }

  // ---------- exclusion over runs ----------

  ghost function Between(): (State, Step) -> bool {
    (s: State, step: Step) => FallsBetween(s, step)
  }

  ghost predicate NoneFallsBetween(steps: seq<Step>) {
    Runs.NeverBad(NO_LOCKS, Steps(), steps, |steps|, Between())
  }

  ghost function Unstale(): State -> bool {
    (s: State) => NoneStale(s)
  }

  lemma StaleStep(s: State, step: Step)
    requires Inv(s)
    ensures Inv(Steps()(s, step))
    ensures Unstale()(s) ==> (Unstale()(Steps()(s, step)) <==> !Between()(s, step))
  {
    StepKeepsInv(s, step);
    if NoneStale(s) {
      StepStaleIff(s, step);
    }
  }

  // At every moment of a run nobody is stale, if and only if no unlink of it falls
  // between another caller's open and its flock.
  lemma NeverStaleIff(steps: seq<Step>)
    ensures Runs.AlwaysGood(NO_LOCKS, Steps(), steps, |steps|, Unstale()) <==> NoneFallsBetween(steps)
    ensures NoneFallsBetween(steps) ==> NoneStale(Run(steps)) && Inv(Run(steps))
  {
    var inv := (s: State) => Inv(s);
    forall s: State, step: Step | inv(s)
      ensures inv(Steps()(s, step))
      ensures Unstale()(s) ==> (Unstale()(Steps()(s, step)) <==> !Between()(s, step))
    {
      StaleStep(s, step);
    }
    Runs.KeptIff(NO_LOCKS, Steps(), steps, |steps|, inv, Unstale(), Between());
    RunKeepsInv(NO_LOCKS, steps);
    if NoneFallsBetween(steps) {
      assert Unstale()(Runs.RunTo(NO_LOCKS, Steps(), steps, |steps|));
    }
  }

  // In every run in which no unlink falls between another caller's open and its flock,
  // at most one caller is in charge of each name.
  lemma ExclusionHolds(steps: seq<Step>)
    requires NoneFallsBetween(steps)
    ensures Exclusive(Run(steps))
  {
    NeverStaleIff(steps);
    NoneStaleExcludes(Run(steps));
  }

  predicate UnlinksNothing(steps: seq<Step>) {
    forall k :: 0 <= k < |steps| ==> !steps[k].Unlink?
  }

  lemma StaysUnstale(s: State, more: seq<Step>)
    requires Inv(s) && NoneStale(s) && UnlinksNothing(more)
    ensures NoneStale(RunFrom(s, more)) && Inv(RunFrom(s, more))
  {
    var good := (t: State) => Inv(t) && NoneStale(t);
    var bad := (t: State, step: Step) => step.Unlink?;
    forall t: State, step: Step | good(t) && !bad(t, step)
      ensures good(Steps()(t, step))
    {
      StepKeepsInv(t, step);
      StepStaleIff(t, step);
    }
    Runs.KeptUnless(s, Steps(), more, |more|, good, bad);
  }

  // ---------- a stale caller breaks it ----------

  lemma {:induction false} Bound(pids: set<Pid>) returns (r: Pid)
    ensures r !in pids && forall p :: p in pids ==> p < r
    decreases |pids|
  {
    if pids == {} {
      r := 0;
    } else {
      var p :| p in pids;
      var above := Bound(pids - {p});
      r := if p < above then above else p + 1;
      assert forall x :: x in pids ==> x == p || x in pids - {p};
    }
  }

  // Whoever holds the stale file lets go, and the stale caller takes it.
  lemma StaleTakesOver(s: State, q: Pid, idle: Pid) returns (gone: Pid, t: State)
    requires Inv(s) && Stale(s, q) && idle !in s.phases
    ensures t == Next(Next(s, Crash(gone)), Flock(q)) && Inv(t)
    ensures InCharge(t, q, PhaseOf(s, q).name) && Stale(t, q)
    ensures PhaseOf(t, idle).Idle? && idle != q
  {
    var phase := PhaseOf(s, q);
    gone := if phase.inode in s.flocks && s.flocks[phase.inode] != q then s.flocks[phase.inode] else idle;
    var s1 := Next(s, Crash(gone));
    StepKeepsInv(s, Crash(gone));
    StepKeepsInv(s1, Flock(q));
    t := Next(s1, Flock(q));
    if phase.inode in s.flocks {
      assert HoldsFlock(s, s.flocks[phase.inode], phase.inode);
    }
    assert PhaseOf(s1, q) == phase;
    assert phase.inode in s1.flocks ==> s1.flocks[phase.inode] == q && HoldsFlock(s1, q, phase.inode);
  }

  // A newcomer opens the file now at the path, and takes it unless its holder already
  // is in charge.
  lemma NewcomerTakes(t: State, q: Pid, idle: Pid, name: string)
    requires Inv(t) && InCharge(t, q, name) && Stale(t, q) && PhaseOf(t, idle).Idle? && idle != q
    ensures !Exclusive(Next(Next(t, Open(idle, name)), Flock(idle)))
  {
    var t1 := Next(t, Open(idle, name));
    StepKeepsInv(t, Open(idle, name));
    var t2 := Next(t1, Flock(idle));
    var i := PhaseOf(t1, idle).inode;
    assert PhaseBorn(t, q);
    assert InCharge(t1, q, name) && InCharge(t2, q, name);
    assert Linked(t1, name, i) && i != PhaseOf(t, q).inode;
    if i in t1.flocks {
      var h := t1.flocks[i];
      assert HoldsFlock(t1, h, i);
      assert PhaseBorn(t1, h);
      assert InCharge(t2, h, name) && h != q;
    } else {
      assert InCharge(t2, idle, name);
    }
  }

  // From any state a stale caller leads, without a further unlink, to two callers in
  // charge of one name.
  lemma StaleBreaks(s: State, q: Pid) returns (more: seq<Step>)
    requires Inv(s) && Stale(s, q)
    ensures UnlinksNothing(more) && !Exclusive(RunFrom(s, more))
  {
    var idle := Bound(s.phases.Keys);
    var name := PhaseOf(s, q).name;
    var gone, t := StaleTakesOver(s, q, idle);
    NewcomerTakes(t, q, idle, name);
    more := [Crash(gone), Flock(q), Open(idle, name), Flock(idle)];
    FourSteps(s, more);
  }

  lemma FourSteps(s: State, more: seq<Step>)
    requires |more| == 4
    ensures RunFrom(s, more) == Next(Next(Next(Next(s, more[0]), more[1]), more[2]), more[3])
  {
    assert Runs.RunTo(s, Steps(), more, 1) == Next(s, more[0]);
    assert Runs.RunTo(s, Steps(), more, 2) == Next(Next(s, more[0]), more[1]);
    assert Runs.RunTo(s, Steps(), more, 3) == Next(Runs.RunTo(s, Steps(), more, 2), more[2]);
  }

  // A step after which two callers may come to be in charge of one name, nobody
  // unlinking anything more, is exactly an unlink between another's open and flock.
  lemma ExclusionLostIff(steps: seq<Step>, step: Step)
    requires NoneFallsBetween(steps)
    ensures (exists more: seq<Step> :: UnlinksNothing(more) && !Exclusive(RunFrom(Next(Run(steps), step), more)))
       <==> FallsBetween(Run(steps), step)
  {
    var s := Run(steps);
    var t := Next(s, step);
    NeverStaleIff(steps);
    StepKeepsInv(s, step);
    StepStaleIff(s, step);
    if FallsBetween(s, step) {
      var q: Pid :| Stale(t, q);
      var more := StaleBreaks(t, q);
    } else {
      forall more: seq<Step> | UnlinksNothing(more)
        ensures Exclusive(RunFrom(t, more))
      {
        StaysUnstale(t, more);
        NoneStaleExcludes(RunFrom(t, more));
      }
    }
  }

  // A holder removes the lock file while a second caller waits with it open: the
  // second and a third may then both be in charge.
  lemma UnlinkWhileAnotherWaits()
    ensures FallsBetween(Run([Open(0, "a"), Flock(0), Open(1, "a")]), Unlink(0))
  {
    var steps := [Open(0, "a"), Flock(0), Open(1, "a")];
    var s1 := State(map["a" := 0], ["a"], map[], map[0 := Opened("a", 0)]);
    assert Runs.RunTo(NO_LOCKS, Steps(), steps, 1) == s1;
    var s2 := State(map["a" := 0], ["a"], map[0 := 0], map[0 := Holding("a", 0, false)]);
    assert Runs.RunTo(NO_LOCKS, Steps(), steps, 2) == Next(s1, Flock(0)) == s2;
    assert Run(steps) == Next(s2, Open(1, "a"));
    assert WaitsOn(Run(steps), 1, 0);
  }

  // A release gives up the flock and nothing else; a caller blocks while another has it.
  lemma ReleaseFrees(s: State, p: Pid)
    requires PhaseOf(s, p).Holding?
    ensures var t := Next(s, Release(p));
            && t.flocks == s.flocks - {PhaseOf(s, p).inode} && PhaseOf(t, p).Idle?
            && t.paths == s.paths && t.born == s.born
  {
  }

  lemma FlockBlocks(s: State, p: Pid)
    requires PhaseOf(s, p).Opened?
    ensures PhaseOf(s, p).inode in s.flocks ==> Next(s, Flock(p)) == s
    ensures PhaseOf(s, p).inode !in s.flocks ==> InCharge(Next(s, Flock(p)), p, PhaseOf(s, p).name)
  {
  }

  // A caller that dies, or gives up, closes its file and drops its flock.
  lemma CrashFrees(s: State, p: Pid)
    ensures var t := Next(s, Crash(p));
            && PhaseOf(t, p).Idle? && t.paths == s.paths && t.born == s.born
            && t.flocks == (if PhaseOf(s, p).Holding? then s.flocks - {PhaseOf(s, p).inode} else s.flocks)
  {
  }
}
