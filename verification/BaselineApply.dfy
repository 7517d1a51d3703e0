/**
 The apply protocol and the diff baseline (copyflow/apply.go). History is an
 append-only line of commits, named by position; the agent may commit between
 any two steps of an apply. A commit has landed when its patch has been applied
 to the host in full, or is empty.
 */
module BaselineApply {
  import Runs

  // ---------- contiguous prefix ----------

  // Length of the longest prefix whose members were all applied.
  function PrefixLength<T(==)>(all: seq<T>, applied: set<T>): (n: nat)
    ensures n <= |all|
    ensures forall i :: 0 <= i < n ==> all[i] in applied
    ensures n < |all| ==> all[n] !in applied
  {
    if all == [] || all[0] !in applied then 0 else 1 + PrefixLength(all[1..], applied)
  }

  // git.ContiguousPrefixEnd: index of the last commit of that prefix, -1 if none.
  method ContiguousPrefixEnd<T(==)>(all: seq<T>, applied: set<T>) returns (end: int)
    ensures end == PrefixLength(all, applied) - 1
  {
    end := -1;
    assert all[0..] == all;
    for i := 0 to |all|
      invariant end == i - 1
      invariant PrefixLength(all, applied) == i + PrefixLength(all[i..], applied)
    {
      assert all[i..][1..] == all[i + 1..];
      if all[i] in applied {
        end := i;
      } else {
        break;
      }
    }
  }

  lemma {:induction false} PrefixIgnoresLaterCommits<T>(all: seq<T>, later: seq<T>, applied: set<T>)
    requires forall c :: c in later ==> c !in applied
    ensures PrefixLength(all + later, applied) == PrefixLength(all, applied)
  {
    if all == [] {
      assert all + later == later;
    } else {
      assert (all + later)[1..] == all[1..] + later;
      PrefixIgnoresLaterCommits(all[1..], later, applied);
    }
  }

  // ---------- the protocol ----------

  // What an apply was asked to do. `squash` is the single net diff of ApplyAll;
  // `filtered` says that a path filter is set.
  datatype Job =
    | Full(squash: bool, filtered: bool)
    | Selective(chosen: set<nat>, filtered: bool)

  // Where a running apply is: it has listed the commits, written the patches of
  // everything up to `upTo`, or landed them on the host.
  datatype Phase =
    | Idle
    | Listed(job: Job)
    | Generated(job: Job, upTo: nat)
    | Landed(job: Job, upTo: nat)

  // Position i of `empty` tells whether commit i has an empty patch; positions up
  // to `origin` are the history the sandbox was created with.
  datatype State = State(
    origin: nat,
    empty: seq<bool>,
    baseline: nat,
    applied: set<nat>,
    phase: Phase)

  datatype Step =
    | AgentCommit(emptyPatch: bool)
    | Begin(job: Job, dryRun: bool)
    | Generate(fails: bool, nothing: bool)
    | Am(ok: bool)
    | Advance(saved: bool)
    | Kill

  function Head(s: State): int {
    |s.empty| - 1
  }

  // ListCommitsBeyondBaseline.
  function Beyond(baseline: nat, head: int): (r: seq<nat>)
    ensures baseline <= head ==> |r| == head - baseline
    ensures head <= baseline ==> r == []
    ensures forall k :: 0 <= k < |r| ==> r[k] == baseline + 1 + k
  {
    if head <= baseline then [] else seq(head - baseline, k requires 0 <= k => baseline + 1 + k)
  }

  function Positions(after: nat, last: int): (r: set<nat>)
    ensures forall i: nat :: i in r <==> after < i <= last
    decreases last - after
  {
    if last <= after then {} else Positions(after, last - 1) + {last}
  }

  predicate AllEmpty(s: State, commits: set<nat>) {
    forall i :: i in commits && i < |s.empty| ==> s.empty[i]
  }

  // The commits whose patches a generated job carries.
  function Carried(s: State, job: Job, upTo: int): set<nat> {
    match job
    case Full(_, _) => Positions(s.baseline, upTo)
    case Selective(chosen, _) => chosen
  }

  function Next(s: State, step: Step): State {
    match step
    case AgentCommit(emptyPatch) => s.(empty := s.empty + [emptyPatch])
    case Begin(job, dryRun) =>
      // Nothing beyond the baseline, or a dry run: the call returns at once.
      // Resolved refs name commits beyond the baseline.
      if !s.phase.Idle? || dryRun || Head(s) <= s.baseline then s
      else if job.Selective? && (job.chosen == {} || !(job.chosen <= Positions(s.baseline, Head(s)))) then s
      else s.(phase := Listed(job))
    case Generate(fails, nothing) =>
      if !s.phase.Listed? || Head(s) < 0 then s
      else
        var job := s.phase.job;
        // A series without a filter has nothing to apply when all patches are
        // empty; a filter or a net diff may come out empty in its own way.
        var none := if job.filtered || (job.Full? && job.squash) then nothing
                    else AllEmpty(s, Carried(s, job, Head(s)));
        if fails || none then s.(phase := Idle) else s.(phase := Generated(job, Head(s)))
    case Am(ok) =>
      if !s.phase.Generated? then s
      else if !ok then s.(phase := Idle)
      else
        var job := s.phase.job;
        // Filtered patches land only in part.
        var landed := if job.filtered then {} else Carried(s, job, s.phase.upTo);
        s.(applied := s.applied + landed, phase := Landed(job, s.phase.upTo))
    case Advance(saved) =>
      if !s.phase.Landed? then s
      else if s.phase.job.filtered || !saved || Head(s) < 0 then s.(phase := Idle)
      else if s.phase.job.Full? then s.(baseline := Head(s), phase := Idle)
      else
        s.(baseline := s.baseline + PrefixLength(Beyond(s.baseline, Head(s)), s.phase.job.chosen), phase := Idle)
    case Kill => s.(phase := Idle)
  }

  function Start(origin: nat): State {
    State(origin, seq(origin + 1, _ => false), origin, {}, Idle)
  }

  ghost function Steps(): (State, Step) -> State {
    (s: State, step: Step) => Next(s, step)
  }

  // The state after the first n steps.
  ghost function RunTo(origin: nat, steps: seq<Step>, n: nat): State
    requires n <= |steps|
  {
    Runs.RunTo(Start(origin), Steps(), steps, n)
  }

  ghost function Run(origin: nat, steps: seq<Step>): State {
    RunTo(origin, steps, |steps|)
  }

  // ---------- safety ----------

  predicate HasLanded(s: State, i: nat)
    requires i < |s.empty|
  {
    s.empty[i] || i in s.applied
  }

  // Every commit at or before the baseline has landed.
  ghost predicate Safe(s: State) {
    forall i :: s.origin < i <= s.baseline && i < |s.empty| ==> HasLanded(s, i)
  }

  // Between writing the patches of a full apply and reading HEAD again.
  predicate InWindow(s: State) {
    (s.phase.Generated? || s.phase.Landed?) && s.phase.job.Full? && !s.phase.job.filtered
  }

  ghost predicate Inv(s: State) {
    && s.origin <= s.baseline <= Head(s)
    && (forall i :: i in s.applied ==> i <= Head(s))
    && (!s.phase.Idle? && s.phase.job.Selective? ==> s.phase.job.chosen <= Positions(s.baseline, Head(s)))
    && ((s.phase.Generated? || s.phase.Landed?) && s.phase.job.Full? ==>
          && s.baseline <= s.phase.upTo <= Head(s)
          && forall i :: i in s.applied ==> i <= s.phase.upTo)
    && (s.phase.Landed? && !s.phase.job.filtered ==>
          Carried(s, s.phase.job, s.phase.upTo) <= s.applied)
  }

  lemma StepKeepsInv(s: State, step: Step)
    requires Inv(s)
    ensures Inv(Next(s, step)) && s.baseline <= Next(s, step).baseline
  {
    match step
    case Advance(saved) =>
    case Am(ok) =>
    case _ =>
  }

  // A full apply that advances is safe exactly when every commit made after its
  // patches were written has an empty patch; any other is skipped for good.
  lemma FullAdvanceSafeIff(s: State)
    requires Inv(s) && Safe(s) && s.phase.Landed? && InWindow(s)
    ensures Safe(Next(s, Advance(true)))
       <==> forall i :: s.phase.upTo < i <= Head(s) ==> s.empty[i]
  {
    var t := Next(s, Advance(true));
    if Safe(t) {
      forall i | s.phase.upTo < i <= Head(s)
        ensures s.empty[i]
      {
        assert HasLanded(t, i);
      }
    }
    if forall i :: s.phase.upTo < i <= Head(s) ==> s.empty[i] {
      forall i | t.origin < i <= t.baseline
        ensures HasLanded(t, i)
      {
        assert i <= s.baseline ==> HasLanded(s, i);
      }
    }
  }

  // A selective apply advances over exactly the leading commits it applied: it
  // stops before the first one it was not asked for, and commits the agent adds
  // meanwhile make no difference.
  lemma SelectiveAdvance(s: State, later: seq<bool>)
    requires Inv(s) && s.phase.Landed? && s.phase.job.Selective? && !s.phase.job.filtered
    ensures var t := Next(s, Advance(true));
            var chosen := s.phase.job.chosen;
            && s.baseline <= t.baseline <= Head(s)
            && (forall i: nat :: s.baseline < i <= t.baseline ==> i in chosen)
            && (t.baseline < Head(s) ==> t.baseline + 1 !in chosen)
            && Next(s.(empty := s.empty + later), Advance(true)).baseline == t.baseline
  {
    StopsAt(s.baseline, Head(s), s.phase.job.chosen);
    LaterCommitsIgnored(s.baseline, Head(s), |later|, s.phase.job.chosen);
  }

  // The position the contiguous prefix of chosen commits reaches.
  lemma StopsAt(baseline: nat, head: nat, chosen: set<nat>)
    requires baseline <= head
    ensures var end := baseline + PrefixLength(Beyond(baseline, head), chosen);
            && baseline <= end <= head
            && (forall i: nat :: baseline < i <= end ==> i in chosen)
            && (end < head ==> end + 1 !in chosen)
  {
    var all := Beyond(baseline, head);
    var n := PrefixLength(all, chosen);
    forall i: nat | baseline < i <= baseline + n
      ensures i in chosen
    {
      assert all[i - baseline - 1] == i;
    }
  }

  lemma LaterCommitsIgnored(baseline: nat, head: nat, more: nat, chosen: set<nat>)
    requires baseline <= head && forall i :: i in chosen ==> i <= head
    ensures PrefixLength(Beyond(baseline, head + more), chosen) == PrefixLength(Beyond(baseline, head), chosen)
  {
    var all, longer := Beyond(baseline, head), Beyond(baseline, head + more);
    assert longer == all + longer[|all|..];
    PrefixIgnoresLaterCommits(all, longer[|all|..], chosen);
  }

  lemma SameBaselineSafe(s: State, t: State)
    requires Inv(s) && Safe(s) && t.origin == s.origin && t.baseline == s.baseline
    requires s.empty <= t.empty && s.applied <= t.applied
    ensures Safe(t)
  {
    forall i | t.origin < i <= t.baseline && i < |t.empty|
      ensures HasLanded(t, i)
    {
      assert HasLanded(s, i);
    }
  }

  lemma SelectiveAdvanceSafe(s: State)
    requires Inv(s) && Safe(s) && s.phase.Landed? && s.phase.job.Selective? && !s.phase.job.filtered
    ensures Safe(Next(s, Advance(true)))
  {
    var t := Next(s, Advance(true));
    SelectiveAdvance(s, []);
    forall i | t.origin < i <= t.baseline
      ensures HasLanded(t, i)
    {
      assert i <= s.baseline ==> HasLanded(s, i);
    }
  }

  // An advance of a full apply past a commit that was made after its patches were
  // written, and is not empty.
  ghost predicate SkipsCommit(s: State, step: Step) {
    && step == Advance(true) && s.phase.Landed? && InWindow(s)
    && exists i: nat :: s.phase.upTo < i <= Head(s) && !s.empty[i]
  }

  lemma StepSafeIff(s: State, step: Step)
    requires Inv(s) && Safe(s)
    ensures Safe(Next(s, step)) <==> !SkipsCommit(s, step)
  {
    if step == Advance(true) && s.phase.Landed? && !s.phase.job.filtered {
      if s.phase.job.Selective? {
        SelectiveAdvanceSafe(s);
      } else {
        FullAdvanceSafeIff(s);
      }
    } else {
      SameBaselineSafe(s, Next(s, step));
    }
  }

  ghost function Safely(): State -> bool {
    (s: State) => Safe(s)
  }

  ghost function Skipper(): (State, Step) -> bool {
    (s: State, step: Step) => SkipsCommit(s, step)
  }

  lemma SafeStep(s: State, step: Step)
    requires Inv(s)
    ensures Inv(Steps()(s, step))
    ensures Safely()(s) ==> (Safely()(Steps()(s, step)) <==> !Skipper()(s, step))
  {
    StepKeepsInv(s, step);
    if Safe(s) {
      StepSafeIff(s, step);
    }
  }

  // In every run of commits, dry runs and applies of all kinds: every commit at or
  // before the baseline has landed at every moment, if and only if no full apply
  // advances past a commit made while it ran.
  lemma BaselineSafeIff(origin: nat, steps: seq<Step>, n: nat)
    requires n <= |steps|
    ensures Runs.AlwaysGood(Start(origin), Steps(), steps, n, Safely())
       <==> Runs.NeverBad(Start(origin), Steps(), steps, n, Skipper())
  {
    var inv := (s: State) => Inv(s);
    forall s: State, step: Step | inv(s)
      ensures inv(Steps()(s, step))
      ensures Safely()(s) ==> (Safely()(Steps()(s, step)) <==> !Skipper()(s, step))
    {
      SafeStep(s, step);
    }
    Runs.KeptIff(Start(origin), Steps(), steps, n, inv, Safely(), Skipper());
  }

  // A commit of the agent while a full apply is between writing its patches and reading
  // HEAD.
  predicate Disturbs(s: State, step: Step) {
    step.AgentCommit? && InWindow(s)
  }

  ghost function Disturber(): (State, Step) -> bool {
    (s: State, step: Step) => Disturbs(s, step)
  }

  // The agent commits at other moments only.
  ghost predicate Undisturbed(origin: nat, steps: seq<Step>) {
    Runs.NeverBad(Start(origin), Steps(), steps, |steps|, Disturber())
  }

  lemma RunKeepsInv(origin: nat, steps: seq<Step>, n: nat)
    requires n <= |steps|
    ensures Inv(RunTo(origin, steps, n)) && RunTo(origin, steps, n).origin == origin
  {
    var inv := (s: State) => Inv(s) && s.origin == origin;
    forall s: State, step: Step | inv(s)
      ensures inv(Steps()(s, step))
    {
      StepKeepsInv(s, step);
    }
    Runs.Kept(Start(origin), Steps(), steps, n, inv);
  }

  ghost predicate SafeAndUpToDate(s: State) {
    Inv(s) && Safe(s) && (InWindow(s) ==> s.phase.upTo == Head(s))
  }

  lemma UndisturbedStep(s: State, step: Step)
    requires SafeAndUpToDate(s) && !Disturbs(s, step)
    ensures SafeAndUpToDate(Next(s, step))
  {
    StepKeepsInv(s, step);
    StepSafeIff(s, step);
  }

  lemma UndisturbedRunSafe(origin: nat, steps: seq<Step>)
    requires Undisturbed(origin, steps)
    ensures Safe(Run(origin, steps))
  {
    var good := (s: State) => SafeAndUpToDate(s);
    forall s: State, step: Step | good(s) && !Disturber()(s, step)
      ensures good(Steps()(s, step))
    {
      UndisturbedStep(s, step);
    }
    Runs.KeptUnless(Start(origin), Steps(), steps, |steps|, good, Disturber());
  }

  // In every undisturbed run of commits, dry runs and applies of all kinds, every
  // commit at or before the baseline has landed on the host.
  lemma BaselineSafe(origin: nat, steps: seq<Step>, i: nat)
    requires Undisturbed(origin, steps)
    requires origin < i <= Run(origin, steps).baseline
    ensures i < |Run(origin, steps).empty| && HasLanded(Run(origin, steps), i)
  {
    UndisturbedRunSafe(origin, steps);
    RunKeepsInv(origin, steps, |steps|);
  }

  // In every run whatsoever the baseline never moves back.
  lemma BaselineNeverBack(origin: nat, steps: seq<Step>, k: nat, n: nat)
    requires k <= n <= |steps|
    ensures RunTo(origin, steps, k).baseline <= RunTo(origin, steps, n).baseline
  {
    var inv := (s: State) => Inv(s);
    var baseline := (s: State) => s.baseline as int;
    forall s: State, step: Step | inv(s)
      ensures inv(Steps()(s, step)) && baseline(s) <= baseline(Steps()(s, step))
    {
      StepKeepsInv(s, step);
    }
    Runs.NeverLess(Start(origin), Steps(), steps, k, n, inv, baseline);
  }

  // One commit while a full apply runs, and it is passed over: it has not landed,
  // and it is no longer beyond the baseline.
  lemma CommitDuringFullApplyIsSkipped(s: State)
    requires Inv(s) && s.phase == Listed(Full(false, false)) && !AllEmpty(s, Positions(s.baseline, Head(s)))
    ensures var missed := Head(s) + 1;
            var steps := [Generate(false, false), Am(true), AgentCommit(false), Advance(true)];
            var t := Next(Next(Next(Next(s, steps[0]), steps[1]), steps[2]), steps[3]);
            && t.baseline == missed && missed < |t.empty| && !HasLanded(t, missed)
  {
  }

  // ---------- where a selective apply stops ----------

  // A commit beyond the baseline that was not asked for but has landed, right after a
  // stretch of commits that were.
  ghost predicate CountedOut(s: State, k: nat)
    requires s.phase.Landed? && s.phase.job.Selective?
  {
    && s.baseline < k <= Head(s) && k !in s.phase.job.chosen && HasLanded(s, k)
    && forall i: nat :: s.baseline < i < k ==> i in s.phase.job.chosen
  }

  // The baseline stands right before the first commit that has not landed.
  ghost predicate AtFirstUnlanded(s: State) {
    && Safe(s)
    && (s.baseline < Head(s) ==> !HasLanded(s, s.baseline + 1))
  }

  // A selective apply ends exactly before the first commit that has not landed if and
  // only if no commit counted out stands where it stops.
  lemma SelectiveStopsAtUnlandedIff(s: State)
    requires Inv(s) && Safe(s) && s.phase.Landed? && s.phase.job.Selective? && !s.phase.job.filtered
    ensures AtFirstUnlanded(Next(s, Advance(true))) <==> !exists k: nat :: CountedOut(s, k)
  {
    var t := Next(s, Advance(true));
    SelectiveAdvance(s, []);
    SelectiveAdvanceSafe(s);
    if t.baseline < Head(s) && HasLanded(t, t.baseline + 1) {
      assert CountedOut(s, t.baseline + 1);
    }
    if k: nat :| CountedOut(s, k) {
      assert t.baseline < k by {
        assert k !in s.phase.job.chosen;
      }
      assert t.baseline + 1 == k;
    }
  }

  // The same at any moment of any undisturbed run.
  lemma SelectiveStopsInRunsIff(origin: nat, steps: seq<Step>)
    requires Undisturbed(origin, steps)
    requires var s := Run(origin, steps);
             s.phase.Landed? && s.phase.job.Selective? && !s.phase.job.filtered
    ensures AtFirstUnlanded(Next(Run(origin, steps), Advance(true)))
       <==> !exists k: nat :: CountedOut(Run(origin, steps), k)
  {
    RunKeepsInv(origin, steps, |steps|);
    UndisturbedRunSafe(origin, steps);
    SelectiveStopsAtUnlandedIff(Run(origin, steps));
  }

  // A commit landed by an earlier selective apply does not count in a later one:
  // the baseline stops before it although it is on the host.
  lemma EarlierSelectionNotCounted(s: State)
    requires Inv(s) && s.phase.Idle? && Head(s) == s.baseline + 2 && s.applied == {s.baseline + 2}
    requires !s.empty[s.baseline + 1]
    ensures var one := Begin(Selective({s.baseline + 1}, false), false);
            var t := Next(Next(Next(Next(s, one), Generate(false, false)), Am(true)), Advance(true));
            t.baseline == s.baseline + 1 && t.empty == s.empty && HasLanded(t, s.baseline + 2)
  {
    var b := s.baseline;
    var one := Begin(Selective({b + 1}, false), false);
    var listed := Next(s, one);
    assert listed.phase.Listed?;
    var landed := Next(Next(listed, Generate(false, false)), Am(true));
    assert landed.phase.Landed?;
    var all := Beyond(b, b + 2);
    assert all[0] == b + 1 && all[1] == b + 2;
    assert PrefixLength(all, {b + 1}) == 1;
  }

  lemma RunStep(origin: nat, steps: seq<Step>, k: nat, s: State, t: State)
    requires k < |steps| && RunTo(origin, steps, k) == s && Next(s, steps[k]) == t
    ensures RunTo(origin, steps, k + 1) == t
  {
  }

  // Two commits, then a selective apply of the second alone.
  const SECOND_FIRST: seq<Step> :=
    [AgentCommit(false), AgentCommit(false), Begin(Selective({2}, false), false), Generate(false, false),
     Am(true), Advance(true)]

  const TWO_COMMITS: State := State(0, [false, false, false], 0, {}, Idle)

  lemma SecondFirstBegins()
    ensures RunTo(0, SECOND_FIRST, 3) == TWO_COMMITS.(phase := Listed(Selective({2}, false)))
  {
    var s0 := State(0, [false], 0, {}, Idle);
    assert RunTo(0, SECOND_FIRST, 0) == s0;
    var s1 := s0.(empty := [false, false]);
    RunStep(0, SECOND_FIRST, 0, s0, s1);
    RunStep(0, SECOND_FIRST, 1, s1, TWO_COMMITS);
    RunStep(0, SECOND_FIRST, 2, TWO_COMMITS, TWO_COMMITS.(phase := Listed(Selective({2}, false))));
  }

  lemma SecondFirstGenerates()
    ensures RunTo(0, SECOND_FIRST, 4) == TWO_COMMITS.(phase := Generated(Selective({2}, false), 2))
  {
    SecondFirstBegins();
    var s3 := TWO_COMMITS.(phase := Listed(Selective({2}, false)));
    assert Carried(s3, s3.phase.job, 2) == {2} && !s3.empty[2];
    assert !AllEmpty(s3, {2});
    RunStep(0, SECOND_FIRST, 3, s3, TWO_COMMITS.(phase := Generated(Selective({2}, false), 2)));
  }

  lemma SecondFirstRun()
    ensures Run(0, SECOND_FIRST) == TWO_COMMITS.(applied := {2})
  {
    SecondFirstGenerates();
    var s4 := TWO_COMMITS.(phase := Generated(Selective({2}, false), 2));
    var s5 := TWO_COMMITS.(phase := Landed(Selective({2}, false), 2), applied := {2});
    assert {} + {2} == {2};
    RunStep(0, SECOND_FIRST, 4, s4, s5);
    assert Beyond(0, 2)[0] == 1 && PrefixLength(Beyond(0, 2), {2}) == 0;
    RunStep(0, SECOND_FIRST, 5, s5, s5.(phase := Idle));
  }

  // Then a selective apply of the first leaves the baseline before the second, which
  // is on the host already.
  lemma SecondFirstStopsShort()
    ensures var one := [Begin(Selective({1}, false), false), Generate(false, false), Am(true), Advance(true)];
            var s := Run(0, SECOND_FIRST);
            var t := Next(Next(Next(Next(s, one[0]), one[1]), one[2]), one[3]);
            t.baseline == 1 && 2 < |t.empty| && HasLanded(t, 2)
  {
    SecondFirstRun();
    RunKeepsInv(0, SECOND_FIRST, |SECOND_FIRST|);
    EarlierSelectionNotCounted(Run(0, SECOND_FIRST));
  }

  // One commit, a full apply, and a second commit while it runs: the baseline ends at
  // the second, which never landed.
  const COMMIT_MEANWHILE: seq<Step> :=
    [AgentCommit(false), Begin(Full(false, false), false), Generate(false, false), Am(true), AgentCommit(false),
     Advance(true)]

  const ONE_COMMIT: State := State(0, [false, false], 0, {}, Idle)

  lemma MeanwhileBegins()
    ensures RunTo(0, COMMIT_MEANWHILE, 2) == ONE_COMMIT.(phase := Listed(Full(false, false)))
  {
    var s0 := State(0, [false], 0, {}, Idle);
    assert RunTo(0, COMMIT_MEANWHILE, 0) == s0;
    RunStep(0, COMMIT_MEANWHILE, 0, s0, ONE_COMMIT);
    RunStep(0, COMMIT_MEANWHILE, 1, ONE_COMMIT, ONE_COMMIT.(phase := Listed(Full(false, false))));
  }

  lemma MeanwhileGenerates()
    ensures RunTo(0, COMMIT_MEANWHILE, 3) == ONE_COMMIT.(phase := Generated(Full(false, false), 1))
  {
    MeanwhileBegins();
    var s2 := ONE_COMMIT.(phase := Listed(Full(false, false)));
    assert 1 in Carried(s2, Full(false, false), 1) && !s2.empty[1];
    RunStep(0, COMMIT_MEANWHILE, 2, s2, ONE_COMMIT.(phase := Generated(Full(false, false), 1)));
  }

  lemma MeanwhileLands()
    ensures RunTo(0, COMMIT_MEANWHILE, 4)
         == ONE_COMMIT.(phase := Landed(Full(false, false), 1), applied := {1})
  {
    MeanwhileGenerates();
    var s3 := ONE_COMMIT.(phase := Generated(Full(false, false), 1));
    assert Positions(0, 1) == {1} && {} + {1} == {1};
    RunStep(0, COMMIT_MEANWHILE, 3, s3, ONE_COMMIT.(phase := Landed(Full(false, false), 1), applied := {1}));
  }

  lemma CommitMeanwhileIsSkipped()
    ensures Run(0, COMMIT_MEANWHILE) == State(0, [false, false, false], 2, {1}, Idle)
    ensures !HasLanded(Run(0, COMMIT_MEANWHILE), 2)
  {
    MeanwhileLands();
    var s4 := ONE_COMMIT.(phase := Landed(Full(false, false), 1), applied := {1});
    var s5 := s4.(empty := [false, false, false]);
    RunStep(0, COMMIT_MEANWHILE, 4, s4, s5);
    RunStep(0, COMMIT_MEANWHILE, 5, s5, s5.(baseline := 2, phase := Idle));
  }

  // ---------- dry runs ----------

  predicate IsDryRun(step: Step) {
    step.Begin? && step.dryRun
  }

  // A dry run leaves everything as it was.
  lemma DryRunChangesNothing(s: State, step: Step)
    requires IsDryRun(step)
    ensures Next(s, step) == s
  {
  }

  function WithoutDryRuns(steps: seq<Step>): seq<Step> {
    if steps == [] then []
    else
      var last := steps[|steps| - 1];
      WithoutDryRuns(steps[..|steps| - 1]) + (if IsDryRun(last) then [] else [last])
  }

  lemma RunSnoc(origin: nat, steps: seq<Step>, step: Step)
    ensures Run(origin, steps + [step]) == Next(Run(origin, steps), step)
  {
    var longer := steps + [step];
    Runs.SameRun(Start(origin), Steps(), longer, Steps(), steps, |steps|);
    assert RunTo(origin, longer, |steps|) == Run(origin, steps);
  }

  // Over whole runs: taking the dry runs out of any sequence of steps leads to the same
  // state.
  lemma {:induction false} DryRunsInvisible(origin: nat, steps: seq<Step>)
    ensures Run(origin, WithoutDryRuns(steps)) == Run(origin, steps)
  {
    if steps != [] {
      var init, last := steps[..|steps| - 1], steps[|steps| - 1];
      assert steps == init + [last];
      DryRunsInvisible(origin, init);
      RunSnoc(origin, init, last);
      if IsDryRun(last) {
        assert WithoutDryRuns(init) + [] == WithoutDryRuns(init);
        DryRunChangesNothing(Run(origin, init), last);
      } else {
        RunSnoc(origin, WithoutDryRuns(init), last);
      }
    }
  }

  // ---------- what an apply lands ----------

  // The agent's commit is added to the history and nothing else happens.
  lemma CommitAppends(s: State, emptyPatch: bool)
    ensures Next(s, AgentCommit(emptyPatch)) == s.(empty := s.empty + [emptyPatch])
  {
  }

  // The steps of an apply that nothing disturbs.
  function ApplyAlone(s: State, job: Job, nothing: bool): State {
    Next(Next(Next(Next(s, Begin(job, false)), Generate(false, nothing)), Am(true)), Advance(true))
  }

  // A full series lands every commit beyond the baseline and moves it to HEAD; when all
  // their patches are empty it does nothing.
  lemma FullSeriesLands(s: State, nothing: bool)
    requires Inv(s) && s.phase.Idle?
    ensures var t := ApplyAlone(s, Full(false, false), nothing);
            if exists i :: s.baseline < i <= Head(s) && !s.empty[i]
            then && t.baseline == Head(s) && t.phase.Idle? && t.empty == s.empty
                 && forall i: nat :: i in t.applied <==> i in s.applied || s.baseline < i <= Head(s)
            else t == s
  {
  }

  // The net diff does too, unless it comes out empty.
  lemma SquashLands(s: State, nothing: bool)
    requires Inv(s) && s.phase.Idle?
    ensures var t := ApplyAlone(s, Full(true, false), nothing);
            if s.baseline < Head(s) && !nothing
            then && t.baseline == Head(s) && t.phase.Idle? && t.empty == s.empty
                 && forall i: nat :: i in t.applied <==> i in s.applied || s.baseline < i <= Head(s)
            else t == s
  {
  }

  // A selection of commits beyond the baseline lands exactly those.
  lemma SelectionLands(s: State, chosen: set<nat>, nothing: bool)
    requires Inv(s) && s.phase.Idle?
    requires forall i :: i in chosen ==> s.baseline < i <= Head(s)
    ensures var t := ApplyAlone(s, Selective(chosen, false), nothing);
            if exists i :: i in chosen && !s.empty[i]
            then && t.applied == s.applied + chosen && t.phase.Idle? && t.empty == s.empty
                 && s.baseline <= t.baseline <= Head(s)
                 && (forall i: nat :: s.baseline < i <= t.baseline ==> i in chosen)
                 && (t.baseline < Head(s) ==> t.baseline + 1 !in chosen)
            else t == s
  {
    if exists i :: i in chosen && !s.empty[i] {
      SelectionGenerates(s, chosen, nothing);
      SelectionAdvances(s, chosen);
    } else {
      SelectionOfNothing(s, chosen, nothing);
    }
  }

  lemma SelectionOfNothing(s: State, chosen: set<nat>, nothing: bool)
    requires Inv(s) && s.phase.Idle? && forall i :: i in chosen ==> s.baseline < i <= Head(s)
    requires forall i :: i in chosen ==> s.empty[i]
    ensures ApplyAlone(s, Selective(chosen, false), nothing) == s
  {
    assert AllEmpty(s, chosen);
    var listed := Next(s, Begin(Selective(chosen, false), false));
    assert Next(listed, Generate(false, nothing)) == s;
  }

  lemma SelectionGenerates(s: State, chosen: set<nat>, nothing: bool)
    requires Inv(s) && s.phase.Idle? && forall i :: i in chosen ==> s.baseline < i <= Head(s)
    requires exists i :: i in chosen && !s.empty[i]
    ensures var job := Selective(chosen, false);
            Next(Next(s, Begin(job, false)), Generate(false, nothing)) == s.(phase := Generated(job, Head(s)))
  {
    var job := Selective(chosen, false);
    var i :| i in chosen && !s.empty[i];
    assert chosen <= Positions(s.baseline, Head(s));
    assert Next(s, Begin(job, false)) == s.(phase := Listed(job));
    assert !AllEmpty(s, chosen);
  }

  lemma SelectionAdvances(s: State, chosen: set<nat>)
    requires Inv(s)
    ensures var t := Next(Next(s.(phase := Generated(Selective(chosen, false), Head(s))), Am(true)), Advance(true));
            && t.applied == s.applied + chosen && t.phase.Idle? && t.empty == s.empty
            && s.baseline <= t.baseline <= Head(s)
            && (forall i: nat :: s.baseline < i <= t.baseline ==> i in chosen)
            && (t.baseline < Head(s) ==> t.baseline + 1 !in chosen)
  {
    StopsAt(s.baseline, Head(s), chosen);
  }

  // A path filter lands nothing for good: no step of such an apply counts a commit as
  // landed or moves the baseline.
  lemma FilteredCountsNothing(s: State, step: Step)
    requires !s.phase.Idle? && s.phase.job.filtered
    ensures Next(s, step).applied == s.applied && Next(s, step).baseline == s.baseline
  {
  }

  // Nor does a step that fails, or the death of the process.
  lemma FailureLandsNothing(s: State, step: Step)
    requires step.Kill? || step == Am(false) || step == Advance(false) || (step.Generate? && step.fails)
    ensures Next(s, step).applied == s.applied && Next(s, step).baseline == s.baseline
    ensures Next(s, step).empty == s.empty
    ensures step.Kill? ==> Next(s, step).phase.Idle?
  {
  }

  // With nothing beyond the baseline, or a selection of commits that are not, an apply
  // returns at once.
  lemma NothingToApply(s: State, job: Job)
    requires Inv(s)
    requires Head(s) == s.baseline || (job.Selective? && exists i :: i in job.chosen && !(s.baseline < i <= Head(s)))
    ensures Next(s, Begin(job, false)) == s
  {
  }
}
