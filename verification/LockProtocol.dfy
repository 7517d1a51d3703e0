/**
 The per-sandbox lock files (store/lock_unix.go): sorted multi-lock, bounded
 retry, unlinking while holding, the stale sweep and process crashes, as steps
 of processes over inodes. Opening the lock file and taking its flock is one step.
 */
module LockProtocol {
  import Runs

  // ---------- the order of names ----------

  // strings are compared by code point, as sort.Strings does.
  predicate Before(a: string, b: string) {
    b != "" && (a == "" || a[0] < b[0] || (a[0] == b[0] && Before(a[1..], b[1..])))
  }

  lemma {:induction false} BeforeIrreflexive(a: string)
    ensures !Before(a, a)
  {
    if a != "" {
      BeforeIrreflexive(a[1..]);
    }
  }

  lemma {:induction false} BeforeTransitive(a: string, b: string, c: string)
    requires Before(a, b) && Before(b, c)
    ensures Before(a, c)
  {
    if a != "" && a[0] == b[0] && b[0] == c[0] {
      BeforeTransitive(a[1..], b[1..], c[1..]);
    }
  }

  lemma NotBothBefore(a: string, b: string)
    ensures !(Before(a, b) && Before(b, a))
  {
    BeforeIrreflexive(a);
    if Before(a, b) && Before(b, a) {
      BeforeTransitive(a, b, a);
    }
  }

  lemma {:induction false} BeforeTotal(a: string, b: string)
    ensures a == b || Before(a, b) || Before(b, a)
  {
    if a != "" && b != "" && a[0] == b[0] {
      BeforeTotal(a[1..], b[1..]);
      assert a == [a[0]] + a[1..] && b == [b[0]] + b[1..];
    }
  }

  predicate Sorted(s: seq<string>) {
    forall i, j :: 0 <= i < j < |s| ==> !Before(s[j], s[i])
  }

  predicate Distinct(s: seq<string>) {
    forall i, j :: 0 <= i < j < |s| ==> s[i] != s[j]
  }

  function Insert(n: string, s: seq<string>): seq<string> {
    if s == [] || !Before(s[0], n) then [n] + s else [s[0]] + Insert(n, s[1..])
  }

  // sort.Strings.
  function Sort(s: seq<string>): seq<string> {
    if s == [] then [] else Insert(s[0], Sort(s[1..]))
  }

  lemma Prepend(x: string, s: seq<string>)
    requires Sorted(s) && forall k :: 0 <= k < |s| ==> !Before(s[k], x)
    ensures Sorted([x] + s)
  {
  }

  lemma {:induction false} InsertKeeps(n: string, s: seq<string>)
    ensures multiset(Insert(n, s)) == multiset(s) + multiset{n}
    ensures forall k :: 0 <= k < |Insert(n, s)| ==> Insert(n, s)[k] == n || Insert(n, s)[k] in s
  {
    if s != [] && Before(s[0], n) {
      InsertKeeps(n, s[1..]);
      assert s == [s[0]] + s[1..];
    }
  }

  lemma NoneBefore(n: string, s: seq<string>, k: nat)
    requires Sorted(s) && k < |s| && !Before(s[0], n)
    ensures !Before(s[k], n)
  {
    if k > 0 && Before(s[k], n) {
      BeforeTotal(s[0], s[k]);
      if Before(s[0], s[k]) {
        BeforeTransitive(s[0], s[k], n);
      }
    }
  }

  lemma {:induction false} InsertSorts(n: string, s: seq<string>)
    requires Sorted(s)
    ensures Sorted(Insert(n, s))
  {
    if s == [] || !Before(s[0], n) {
      forall k | 0 <= k < |s|
        ensures !Before(s[k], n)
      {
        NoneBefore(n, s, k);
      }
      Prepend(n, s);
    } else {
      var rest := Insert(n, s[1..]);
      InsertSorts(n, s[1..]);
      InsertKeeps(n, s[1..]);
      forall k | 0 <= k < |rest|
        ensures !Before(rest[k], s[0])
      {
        if rest[k] == n && Before(n, s[0]) {
          BeforeTransitive(n, s[0], n);
          BeforeIrreflexive(n);
        }
      }
      Prepend(s[0], rest);
    }
  }

  lemma {:induction false} SortSorts(s: seq<string>)
    ensures Sorted(Sort(s)) && multiset(Sort(s)) == multiset(s)
  {
    if s != [] {
      SortSorts(s[1..]);
      InsertSorts(s[0], Sort(s[1..]));
      InsertKeeps(s[0], Sort(s[1..]));
      assert s == [s[0]] + s[1..];
    }
  }

  // Sorting distinct names lists them strictly increasing.
  lemma SortedDistinctIncreases(s: seq<string>, i: nat, j: nat)
    requires Sorted(s) && Distinct(s) && i < j < |s|
    ensures Before(s[i], s[j])
  {
    BeforeTotal(s[i], s[j]);
  }

  // ---------- the state ----------

  type Pid = nat
  type Inode = nat

  // A lock taken: the inode whose flock is held, and whether its holder has
  // already unlinked the file.
  datatype Hold = Hold(name: string, inode: Inode, unlinked: bool)

  datatype Phase = Idle | Acquiring(tries: nat) | Holding | Releasing

  datatype Process = Process(names: seq<string>, held: seq<Hold>, phase: Phase)

  datatype State = State(
    paths: map<string, Inode>,
    flocks: map<Inode, Pid>,
    unused: Inode,
    processes: map<Pid, Process>)

  const RETRIES: nat := 30

  datatype Step =
    // AcquireMultiLock with RETRIES tries, AcquireLock with one name, the sweep
    // with one name and one try.
    | Start(p: Pid, names: seq<string>, tries: nat)
    | Try(p: Pid)
    | Abort(p: Pid)
    | Unlink(p: Pid, k: nat)
    | Release(p: Pid)
    | Crash(p: Pid)

  const NOBODY := Process([], [], Idle)

  function ProcessOf(s: State, p: Pid): Process {
    if p in s.processes then s.processes[p] else NOBODY
  }

  // The name an acquiring process tries next.
  predicate WantsNext(q: Process) {
    q.phase.Acquiring? && |q.held| < |q.names|
  }

  function Wanted(q: Process): string
    requires WantsNext(q)
  {
    q.names[|q.held|]
  }

  function Set(s: State, p: Pid, q: Process): State {
    s.(processes := s.processes[p := q])
  }

  function WithHold(q: Process, hold: Hold): Process {
    var held := q.held + [hold];
    q.(held := held, phase := if |held| == |q.names| then Holding else Acquiring(RETRIES))
  }

  function Next(s: State, step: Step): State {
    var q := ProcessOf(s, step.p);
    match step
    case Start(p, names, tries) =>
      if !q.phase.Idle? || names == [] || tries == 0 then s
      else Set(s, p, Process(Sort(names), [], Acquiring(tries)))
    case Try(p) =>
      if !WantsNext(q) then s
      else if Wanted(q) !in s.paths then
        // The open creates the file; nobody else can hold the new inode.
        var i := s.unused;
        Set(s, p, WithHold(q, Hold(Wanted(q), i, false)))
          .(paths := s.paths[Wanted(q) := i], flocks := s.flocks[i := p], unused := i + 1)
      else
        var i := s.paths[Wanted(q)];
        if i !in s.flocks then
          Set(s, p, WithHold(q, Hold(Wanted(q), i, false))).(flocks := s.flocks[i := p])
        else if q.phase.tries <= 1 then Set(s, p, q.(phase := Releasing))
        else Set(s, p, q.(phase := Acquiring(q.phase.tries - 1)))
    case Abort(p) =>
      // An error other than contention.
      if q.phase.Acquiring? then Set(s, p, q.(phase := Releasing)) else s
    case Unlink(p, k) =>
      // RemoveLockFile by the holder, or the sweep's removal.
      if q.phase.Holding? && k < |q.held| && !q.held[k].unlinked then
        Set(s, p, q.(held := q.held[k := q.held[k].(unlinked := true)]))
          .(paths := s.paths - {q.held[k].name})
      else s
    case Release(p) =>
      if !q.phase.Holding? && !q.phase.Releasing? then s
      else if q.held == [] then Set(s, p, NOBODY)
      else
        Set(s, p, q.(held := q.held[1..], phase := Releasing))
          .(flocks := s.flocks - {q.held[0].inode})
    case Crash(p) =>
      Set(s, p, NOBODY).(flocks := s.flocks - (set h | h in q.held :: h.inode))
  }

  const NO_LOCKS := State(map[], map[], 0, map[])

  ghost function Steps(): (State, Step) -> State {
    (s: State, step: Step) => Next(s, step)
  }

  ghost function Run(steps: seq<Step>): State {
    Runs.RunTo(NO_LOCKS, Steps(), steps, |steps|)
  }

  // ---------- invariant ----------

  predicate Has(s: State, p: Pid, h: Hold) {
    h in ProcessOf(s, p).held
  }

  // A hold is backed by the flock of its process; unless its holder unlinked it,
  // the file it was taken on is still the one at the path.
  predicate Backed(s: State, p: Pid, h: Hold) {
    && h.inode in s.flocks && s.flocks[h.inode] == p && h.inode < s.unused
    && (!h.unlinked ==> h.name in s.paths && s.paths[h.name] == h.inode)
    && (forall n :: n in s.paths && s.paths[n] == h.inode ==> n == h.name)
  }

  predicate InodesDistinct(held: seq<Hold>) {
    forall i, j :: 0 <= i < j < |held| ==> held[i].inode != held[j].inode
  }

  ghost predicate WellFormed(q: Process) {
    && Sorted(q.names)
    && InodesDistinct(q.held)
    && |q.held| <= |q.names|
    && (q.phase.Idle? ==> q.held == [])
    && (q.phase.Acquiring? ==>
          forall k :: 0 <= k < |q.held| ==> q.held[k].name == q.names[k] && !q.held[k].unlinked)
  }

  ghost predicate AllWellFormed(s: State) {
    forall p: Pid :: WellFormed(ProcessOf(s, p))
  }

  ghost predicate AllBacked(s: State) {
    forall p: Pid, h: Hold :: Has(s, p, h) ==> Backed(s, p, h)
  }

  // The flock's process has a hold on it.
  ghost predicate Owned(s: State, i: Inode)
    requires i in s.flocks
  {
    exists h: Hold :: h.inode == i && Has(s, s.flocks[i], h)
  }

  ghost predicate AllOwned(s: State) {
    forall i: Inode :: i in s.flocks ==> Owned(s, i)
  }

  predicate PathsSound(s: State) {
    && (forall n :: n in s.paths ==> s.paths[n] < s.unused)
    && (forall m, n :: m in s.paths && n in s.paths && s.paths[m] == s.paths[n] ==> m == n)
  }

  ghost predicate Inv(s: State) {
    AllWellFormed(s) && AllBacked(s) && AllOwned(s) && PathsSound(s)
  }

  // The step changes no process but p.
  ghost predicate OnlyProcess(s: State, t: State, p: Pid) {
    forall q: Pid :: q != p ==> ProcessOf(t, q) == ProcessOf(s, q)
  }

  lemma OneWellFormed(s: State, t: State, p: Pid)
    requires AllWellFormed(s) && OnlyProcess(s, t, p) && WellFormed(ProcessOf(t, p))
    ensures AllWellFormed(t)
  {
    forall q: Pid
      ensures WellFormed(ProcessOf(t, q))
    {
      assert WellFormed(ProcessOf(s, q));
    }
  }

  // Two holds on one inode are one hold.
  lemma OneHoldPerInode(s: State, p: Pid, g: Hold, q: Pid, h: Hold)
    requires AllWellFormed(s) && AllBacked(s) && Has(s, p, g) && Has(s, q, h) && g.inode == h.inode
    ensures p == q && g == h
  {
    assert Backed(s, p, g) && Backed(s, q, h);
    assert WellFormed(ProcessOf(s, p));
  }

  lemma SameHolds(s: State, t: State, p: Pid)
    requires OnlyProcess(s, t, p) && ProcessOf(t, p).held == ProcessOf(s, p).held
    ensures forall q: Pid, h: Hold :: Has(t, q, h) <==> Has(s, q, h)
  {
    forall q: Pid, h: Hold
      ensures Has(t, q, h) <==> Has(s, q, h)
    {
      assert q != p ==> ProcessOf(t, q) == ProcessOf(s, q);
    }
  }

  lemma QuietKeepsInv(s: State, t: State, p: Pid)
    requires Inv(s) && t.paths == s.paths && t.flocks == s.flocks && t.unused == s.unused
    requires OnlyProcess(s, t, p)
    requires ProcessOf(t, p).held == ProcessOf(s, p).held && WellFormed(ProcessOf(t, p))
    ensures Inv(t)
  {
    OneWellFormed(s, t, p);
    SameHolds(s, t, p);
    forall q: Pid, h: Hold | Has(t, q, h)
      ensures Backed(t, q, h)
    {
      assert Has(s, q, h);
      assert Backed(s, q, h);
    }
    forall i: Inode | i in t.flocks
      ensures Owned(t, i)
    {
      assert Owned(s, i);
      var h: Hold :| h.inode == i && Has(s, s.flocks[i], h);
      assert Has(t, t.flocks[i], h);
    }
  }

  lemma StartKeepsInv(s: State, p: Pid, names: seq<string>, tries: nat)
    requires Inv(s)
    ensures Inv(Next(s, Start(p, names, tries)))
  {
    SortSorts(names);
    assert WellFormed(ProcessOf(s, p));
    var t := Next(s, Start(p, names, tries));
    if t != s {
      QuietKeepsInv(s, t, p);
    }
  }

  // Taking a free flock on the inode linked at the wanted name: `t` is `s` after it.
  ghost predicate Takes(s: State, t: State, p: Pid, name: string, i: Inode) {
    && WantsNext(ProcessOf(s, p)) && name == Wanted(ProcessOf(s, p)) && i !in s.flocks
    && OnlyProcess(s, t, p)
    && ProcessOf(t, p) == WithHold(ProcessOf(s, p), Hold(name, i, false))
    && t.flocks == s.flocks[i := p]
    && t.paths == s.paths[name := i]
    && ((name in s.paths && s.paths[name] == i && t.unused == s.unused)
        || (name !in s.paths && i == s.unused && t.unused == i + 1))
  }

  lemma TakeBackedMine(s: State, t: State, p: Pid, name: string, i: Inode)
    requires PathsSound(s) && Takes(s, t, p, name, i)
    ensures Backed(t, p, Hold(name, i, false))
  {
  }

  lemma TakeBackedOther(s: State, t: State, p: Pid, name: string, i: Inode, r: Pid, h: Hold)
    requires Takes(s, t, p, name, i) && Backed(s, r, h)
    ensures Backed(t, r, h)
  {
  }

  lemma TakeHas(s: State, t: State, p: Pid, name: string, i: Inode, r: Pid, h: Hold)
    requires Takes(s, t, p, name, i)
    ensures Has(t, r, h) <==> Has(s, r, h) || (r == p && h == Hold(name, i, false))
  {
    assert r != p ==> ProcessOf(t, r) == ProcessOf(s, r);
  }

  lemma TakeKeepsBacked(s: State, t: State, p: Pid, name: string, i: Inode)
    requires AllBacked(s) && PathsSound(s) && Takes(s, t, p, name, i)
    ensures AllBacked(t)
  {
    forall r: Pid, h: Hold | Has(t, r, h)
      ensures Backed(t, r, h)
    {
      TakeHas(s, t, p, name, i, r, h);
      if Has(s, r, h) {
        assert Backed(s, r, h);
        TakeBackedOther(s, t, p, name, i, r, h);
      } else {
        TakeBackedMine(s, t, p, name, i);
      }
    }
  }

  lemma TakeKeepsWellFormed(s: State, t: State, p: Pid, name: string, i: Inode)
    requires AllWellFormed(s) && AllBacked(s) && Takes(s, t, p, name, i)
    ensures AllWellFormed(t)
  {
    var q := ProcessOf(s, p);
    assert WellFormed(q);
    forall k | 0 <= k < |q.held|
      ensures q.held[k].inode != i
    {
      assert Has(s, p, q.held[k]);
      assert Backed(s, p, q.held[k]);
    }
    OneWellFormed(s, t, p);
  }

  lemma TakeKeepsOwned(s: State, t: State, p: Pid, name: string, i: Inode)
    requires AllOwned(s) && Takes(s, t, p, name, i)
    ensures AllOwned(t)
  {
    forall j: Inode | j in t.flocks
      ensures Owned(t, j)
    {
      if j == i {
        TakeHas(s, t, p, name, i, p, Hold(name, i, false));
      } else {
        assert Owned(s, j);
        var h: Hold :| h.inode == j && Has(s, s.flocks[j], h);
        TakeHas(s, t, p, name, i, s.flocks[j], h);
      }
    }
  }

  lemma TakeKeepsInv(s: State, t: State, p: Pid, name: string, i: Inode)
    requires Inv(s) && Takes(s, t, p, name, i)
    ensures Inv(t)
  {
    TakeKeepsWellFormed(s, t, p, name, i);
    TakeKeepsBacked(s, t, p, name, i);
    TakeKeepsOwned(s, t, p, name, i);
  }

  // A new inode is nobody's.
  lemma UnusedIsFree(s: State)
    requires AllBacked(s) && AllOwned(s)
    ensures s.unused !in s.flocks
  {
  }

  // A try on a free name takes its inode, creating the file if there is none.
  lemma TryTakes(s: State, p: Pid)
    requires AllBacked(s) && AllOwned(s) && WantsNext(ProcessOf(s, p))
    requires Wanted(ProcessOf(s, p)) in s.paths ==> s.paths[Wanted(ProcessOf(s, p))] !in s.flocks
    ensures var name := Wanted(ProcessOf(s, p));
            Takes(s, Next(s, Try(p)), p, name, if name in s.paths then s.paths[name] else s.unused)
  {
    var name := Wanted(ProcessOf(s, p));
    UnusedIsFree(s);
    assert name in s.paths ==> s.paths[name := s.paths[name]] == s.paths;
  }

  lemma TryKeepsInv(s: State, p: Pid)
    requires Inv(s)
    ensures Inv(Next(s, Try(p)))
  {
    var q := ProcessOf(s, p);
    if WantsNext(q) {
      var name := Wanted(q);
      if name in s.paths && s.paths[name] in s.flocks {
        assert WellFormed(q);
        QuietKeepsInv(s, Next(s, Try(p)), p);
      } else {
        TryTakes(s, p);
        TakeKeepsInv(s, Next(s, Try(p)), p, name, if name in s.paths then s.paths[name] else s.unused);
      }
    }
  }

  predicate CanUnlink(s: State, p: Pid, k: nat) {
    ProcessOf(s, p).phase.Holding? && k < |ProcessOf(s, p).held| && !ProcessOf(s, p).held[k].unlinked
  }

  // `t` is `s` after p unlinked the file of its hold k.
  ghost predicate Unlinks(s: State, t: State, p: Pid, k: nat) {
    && CanUnlink(s, p, k) && OnlyProcess(s, t, p)
    && var q, gone := ProcessOf(s, p), ProcessOf(s, p).held[k];
       && ProcessOf(t, p) == q.(held := q.held[k := gone.(unlinked := true)])
       && t.paths == s.paths - {gone.name} && t.flocks == s.flocks && t.unused == s.unused
  }

  lemma UnlinkHas(s: State, t: State, p: Pid, k: nat, r: Pid, h: Hold)
    requires AllWellFormed(s) && Unlinks(s, t, p, k)
    ensures var gone := ProcessOf(s, p).held[k];
            Has(t, r, h) <==> if r == p && h.inode == gone.inode then h == gone.(unlinked := true) else Has(s, r, h)
  {
    var held, gone := ProcessOf(s, p).held, ProcessOf(s, p).held[k];
    assert WellFormed(ProcessOf(s, p));
    if r == p {
      HeldUpdated(held, k, h);
    } else {
      assert ProcessOf(t, r) == ProcessOf(s, r);
    }
  }

  lemma HeldUpdated(held: seq<Hold>, k: nat, h: Hold)
    requires InodesDistinct(held) && k < |held|
    ensures h in held[k := held[k].(unlinked := true)]
       <==> if h.inode == held[k].inode then h == held[k].(unlinked := true) else h in held
  {
    var now := held[k := held[k].(unlinked := true)];
    assert now[k] == held[k].(unlinked := true);
    if h in held && h.inode != held[k].inode {
      var m :| 0 <= m < |held| && held[m] == h;
      assert now[m] == h;
    }
  }

  lemma UnlinkKeepsBacked(s: State, t: State, p: Pid, k: nat)
    requires AllWellFormed(s) && AllBacked(s) && PathsSound(s) && Unlinks(s, t, p, k)
    ensures AllBacked(t)
  {
    var gone := ProcessOf(s, p).held[k];
    assert Has(s, p, gone) && Backed(s, p, gone);
    forall r: Pid, h: Hold | Has(t, r, h)
      ensures Backed(t, r, h)
    {
      UnlinkHas(s, t, p, k, r, h);
      var was := if r == p && h.inode == gone.inode then gone else h;
      assert Backed(s, r, was);
      if h.inode == gone.inode {
        OneHoldPerInode(s, p, gone, r, was);
      }
    }
  }

  lemma UnlinkKeepsOwned(s: State, t: State, p: Pid, k: nat)
    requires AllWellFormed(s) && AllOwned(s) && Unlinks(s, t, p, k)
    ensures AllOwned(t)
  {
    var gone := ProcessOf(s, p).held[k];
    forall j: Inode | j in t.flocks
      ensures Owned(t, j)
    {
      assert Owned(s, j);
      var h: Hold :| h.inode == j && Has(s, s.flocks[j], h);
      var now := if s.flocks[j] == p && j == gone.inode then gone.(unlinked := true) else h;
      UnlinkHas(s, t, p, k, s.flocks[j], now);
      assert Has(t, t.flocks[j], now);
    }
  }

  lemma UnlinkKeepsInv(s: State, t: State, p: Pid, k: nat)
    requires Inv(s) && Unlinks(s, t, p, k)
    ensures Inv(t)
  {
    assert WellFormed(ProcessOf(s, p));
    OneWellFormed(s, t, p);
    UnlinkKeepsBacked(s, t, p, k);
    UnlinkKeepsOwned(s, t, p, k);
  }

  // Dropping some of a process's locks.
  ghost predicate Drops(s: State, t: State, p: Pid, dropped: set<Inode>) {
    && t.paths == s.paths && t.unused == s.unused && t.flocks == s.flocks - dropped
    && OnlyProcess(s, t, p) && WellFormed(ProcessOf(t, p))
    && (forall h: Hold :: Has(t, p, h) <==> Has(s, p, h) && h.inode !in dropped)
    && (forall i :: i in dropped ==> exists h: Hold :: Has(s, p, h) && h.inode == i)
  }

  lemma DroppedIsGone(s: State, p: Pid, dropped: set<Inode>, r: Pid, h: Hold)
    requires AllWellFormed(s) && AllBacked(s) && Has(s, r, h)
    requires forall i :: i in dropped ==> exists g: Hold :: Has(s, p, g) && g.inode == i
    ensures h.inode in dropped ==> r == p
  {
    if h.inode in dropped {
      var g: Hold :| Has(s, p, g) && g.inode == h.inode;
      OneHoldPerInode(s, p, g, r, h);
    }
  }

  lemma DropKeepsBacked(s: State, t: State, p: Pid, dropped: set<Inode>)
    requires AllWellFormed(s) && AllBacked(s) && Drops(s, t, p, dropped)
    ensures AllBacked(t)
  {
    forall r: Pid, h: Hold | Has(t, r, h)
      ensures Backed(t, r, h)
    {
      assert r != p ==> ProcessOf(t, r) == ProcessOf(s, r);
      assert Has(s, r, h);
      assert Backed(s, r, h);
      DroppedIsGone(s, p, dropped, r, h);
    }
  }

  lemma DropKeepsOwned(s: State, t: State, p: Pid, dropped: set<Inode>)
    requires AllOwned(s) && Drops(s, t, p, dropped)
    ensures AllOwned(t)
  {
    forall j: Inode | j in t.flocks
      ensures Owned(t, j)
    {
      assert Owned(s, j);
      var h: Hold :| h.inode == j && Has(s, s.flocks[j], h);
      assert s.flocks[j] != p ==> ProcessOf(t, s.flocks[j]) == ProcessOf(s, s.flocks[j]);
      assert Has(t, t.flocks[j], h);
    }
  }

  lemma DropKeepsInv(s: State, t: State, p: Pid, dropped: set<Inode>)
    requires Inv(s) && Drops(s, t, p, dropped)
    ensures Inv(t)
  {
    OneWellFormed(s, t, p);
    DropKeepsBacked(s, t, p, dropped);
    DropKeepsOwned(s, t, p, dropped);
  }

  lemma DropFirst(held: seq<Hold>, h: Hold)
    requires held != [] && InodesDistinct(held)
    ensures h in held[1..] <==> h in held && h.inode != held[0].inode
    ensures InodesDistinct(held[1..])
  {
    assert held == [held[0]] + held[1..];
    if h in held[1..] {
      var m :| 0 <= m < |held[1..]| && held[1..][m] == h;
      assert held[m + 1] == h;
    }
  }

  lemma ReleaseDrops(s: State, p: Pid)
    requires WellFormed(ProcessOf(s, p)) && ProcessOf(s, p).held != []
    requires ProcessOf(s, p).phase.Holding? || ProcessOf(s, p).phase.Releasing?
    ensures Drops(s, Next(s, Release(p)), p, {ProcessOf(s, p).held[0].inode})
  {
    var held := ProcessOf(s, p).held;
    var t := Next(s, Release(p));
    forall h: Hold
      ensures Has(t, p, h) <==> Has(s, p, h) && h.inode != held[0].inode
    {
      DropFirst(held, h);
    }
    DropFirst(held, held[0]);
    assert Has(s, p, held[0]);
  }

  lemma ReleaseKeepsInv(s: State, p: Pid)
    requires Inv(s)
    ensures Inv(Next(s, Release(p)))
  {
    var q := ProcessOf(s, p);
    assert WellFormed(q);
    if q.phase.Holding? || q.phase.Releasing? {
      if q.held == [] {
        QuietKeepsInv(s, Next(s, Release(p)), p);
      } else {
        ReleaseDrops(s, p);
        DropKeepsInv(s, Next(s, Release(p)), p, {q.held[0].inode});
      }
    }
  }

  lemma CrashKeepsInv(s: State, p: Pid)
    requires Inv(s)
    ensures Inv(Next(s, Crash(p)))
  {
    var q := ProcessOf(s, p);
    var dropped := set h | h in q.held :: h.inode;
    forall i | i in dropped
      ensures exists h: Hold :: Has(s, p, h) && h.inode == i
    {
      var h: Hold :| h in q.held && h.inode == i;
      assert Has(s, p, h);
    }
    DropKeepsInv(s, Next(s, Crash(p)), p, dropped);
  }

  lemma StepKeepsInv(s: State, step: Step)
    requires Inv(s)
    ensures Inv(Next(s, step))
  {
    var q := ProcessOf(s, step.p);
    assert WellFormed(q);
    match step
    case Start(p, names, tries) => StartKeepsInv(s, p, names, tries);
    case Try(p) => TryKeepsInv(s, p);
    case Abort(p) =>
      if q.phase.Acquiring? {
        QuietKeepsInv(s, Next(s, step), p);
      }
    case Unlink(p, k) =>
      if CanUnlink(s, p, k) {
        UnlinkKeepsInv(s, Next(s, step), p, k);
      }
    case Release(p) => ReleaseKeepsInv(s, p);
    case Crash(p) => CrashKeepsInv(s, p);
  }

  lemma RunKeepsInv(steps: seq<Step>)
    ensures Inv(Run(steps))
  {
    var inv := (s: State) => Inv(s);
    forall s: State, step: Step | inv(s)
      ensures inv(Steps()(s, step))
    {
      StepKeepsInv(s, step);
    }
    Runs.Kept(NO_LOCKS, Steps(), steps, |steps|, inv);
  }

  // ---------- mutual exclusion ----------

  // The process is between taking the lock of a name and its own unlink or release.
  ghost predicate InCharge(s: State, p: Pid, name: string) {
    exists h: Hold :: Has(s, p, h) && h.name == name && !h.unlinked
  }

  lemma MutualExclusion(steps: seq<Step>, p: Pid, q: Pid, name: string)
    requires InCharge(Run(steps), p, name) && InCharge(Run(steps), q, name)
    ensures p == q
  {
    RunKeepsInv(steps);
    var s := Run(steps);
    var g: Hold :| Has(s, p, g) && g.name == name && !g.unlinked;
    var h: Hold :| Has(s, q, h) && h.name == name && !h.unlinked;
    assert Backed(s, p, g) && Backed(s, q, h);
  }

  // ---------- no wait cycle ----------

  // p retries on a lock that q holds.
  predicate WaitsFor(s: State, p: Pid, q: Pid) {
    && WantsNext(ProcessOf(s, p))
    && Wanted(ProcessOf(s, p)) in s.paths
    && s.paths[Wanted(ProcessOf(s, p))] in s.flocks
    && s.flocks[s.paths[Wanted(ProcessOf(s, p))]] == q
  }

  lemma WaitedNamesIncrease(s: State, p: Pid, q: Pid, r: Pid)
    requires Inv(s) && WaitsFor(s, p, q) && WaitsFor(s, q, r)
    requires Distinct(ProcessOf(s, q).names)
    ensures Before(Wanted(ProcessOf(s, p)), Wanted(ProcessOf(s, q)))
  {
    var name := Wanted(ProcessOf(s, p));
    var i := s.paths[name];
    assert Owned(s, i);
    var h: Hold :| h.inode == i && Has(s, q, h);
    assert Backed(s, q, h);
    var b := ProcessOf(s, q);
    assert WellFormed(b);
    var k :| 0 <= k < |b.held| && b.held[k] == h;
    SortedDistinctIncreases(b.names, k, |b.held|);
  }

  // A walk along the wait-for relation.
  ghost predicate WaitWalk(s: State, walk: seq<Pid>) {
    && |walk| >= 2
    && (forall k :: 0 <= k < |walk| - 1 ==> WaitsFor(s, walk[k], walk[k + 1]))
    && (forall k :: 0 <= k < |walk| ==> Distinct(ProcessOf(s, walk[k]).names))
  }

  lemma {:induction false} WalkIncreases(s: State, walk: seq<Pid>, k: nat)
    requires Inv(s) && WaitWalk(s, walk) && 0 < k < |walk| - 1
    ensures WaitsFor(s, walk[0], walk[1]) && WaitsFor(s, walk[k], walk[k + 1])
    ensures Before(Wanted(ProcessOf(s, walk[0])), Wanted(ProcessOf(s, walk[k])))
  {
    assert WaitsFor(s, walk[0], walk[0 + 1]);
    assert WaitsFor(s, walk[k - 1], walk[k - 1 + 1]);
    WaitedNamesIncrease(s, walk[k - 1], walk[k], walk[k + 1]);
    if k > 1 {
      WalkIncreases(s, walk, k - 1);
      BeforeTransitive(Wanted(ProcessOf(s, walk[0])), Wanted(ProcessOf(s, walk[k - 1])),
                       Wanted(ProcessOf(s, walk[k])));
    }
  }

  // In every reachable state no process that locks distinct names waits, however
  // indirectly, for itself.
  lemma NoWaitCycle(steps: seq<Step>, walk: seq<Pid>)
    requires WaitWalk(Run(steps), walk)
    ensures walk[0] != walk[|walk| - 1]
  {
    RunKeepsInv(steps);
    var s := Run(steps);
    var n := |walk| - 1;
    assert WaitsFor(s, walk[0], walk[0 + 1]);
    assert WaitsFor(s, walk[n - 1], walk[n - 1 + 1]);
    NotBothBefore(Wanted(ProcessOf(s, walk[0])), Wanted(ProcessOf(s, walk[n - 1])));
    if n > 1 {
      WalkIncreases(s, walk, n - 1);
    }
    if walk[0] == walk[n] {
      WaitedNamesIncrease(s, walk[n - 1], walk[0], walk[1]);
    }
  }

  // A name given twice makes a process wait for itself: the flock belongs to the
  // first open of the file, not to the process.
  lemma RepeatedNameWaitsForItself(s: State, p: Pid, k: nat)
    requires Inv(s) && ProcessOf(s, p).phase.Acquiring?
    requires 0 < k == |ProcessOf(s, p).held| < |ProcessOf(s, p).names|
    requires ProcessOf(s, p).names[k] == ProcessOf(s, p).names[k - 1]
    ensures WaitsFor(s, p, p)
  {
    var q := ProcessOf(s, p);
    assert WellFormed(q);
    assert Has(s, p, q.held[k - 1]);
    assert Backed(s, p, q.held[k - 1]);
  }

  // ---------- failure and frame ----------

  predicate Flocked(s: State, i: Inode, q: Pid) {
    i in s.flocks && s.flocks[i] == q
  }

  lemma SameHoldsSameFlocks(s: State, t: State, q: Pid, i: Inode)
    requires AllOwned(s) && AllBacked(t) && ProcessOf(t, q) == ProcessOf(s, q) && Flocked(s, i, q)
    ensures Flocked(t, i, q)
  {
    assert Owned(s, i);
    var h: Hold :| h.inode == i && Has(s, q, h);
    assert Has(t, q, h);
    assert Backed(t, q, h);
  }

  lemma StepIsLocal(s: State, step: Step)
    ensures OnlyProcess(s, Next(s, step), step.p)
  {
  }

  // A step leaves the locks of every other process alone.
  lemma StepsTouchOwnLocksOnly(s: State, step: Step, q: Pid, i: Inode)
    requires Inv(s) && q != step.p
    ensures ProcessOf(Next(s, step), q) == ProcessOf(s, q)
    ensures Flocked(s, i, q) <==> Flocked(Next(s, step), i, q)
  {
    StepKeepsInv(s, step);
    StepIsLocal(s, step);
    var t := Next(s, step);
    if Flocked(s, i, q) {
      SameHoldsSameFlocks(s, t, q, i);
    }
    if Flocked(t, i, q) {
      SameHoldsSameFlocks(t, s, q, i);
    }
  }

  // Once a process is idle again - its acquire failed and was undone, it released,
  // or it crashed - it holds nothing.
  lemma IdleHoldsNothing(steps: seq<Step>, p: Pid, i: Inode)
    requires ProcessOf(Run(steps), p).phase.Idle?
    ensures !Flocked(Run(steps), i, p)
  {
    RunKeepsInv(steps);
    assert WellFormed(ProcessOf(Run(steps), p));
  }

  // ---------- one caller at work ----------

  // The flocks of everyone but p are the same in both states.
  ghost predicate SameForOthers(s: State, t: State, p: Pid) {
    && (forall q: Pid :: q != p ==> ProcessOf(t, q) == ProcessOf(s, q))
    && (forall i: Inode, q: Pid :: q != p ==> (Flocked(s, i, q) <==> Flocked(t, i, q)))
  }

  lemma StepIsSameForOthers(s: State, step: Step)
    requires Inv(s)
    ensures SameForOthers(s, Next(s, step), step.p)
  {
    StepIsLocal(s, step);
    forall i: Inode, q: Pid | q != step.p
      ensures Flocked(s, i, q) <==> Flocked(Next(s, step), i, q)
    {
      StepsTouchOwnLocksOnly(s, step, q, i);
    }
  }

  lemma FlockOfOther(s: State, t: State, p: Pid, i: Inode)
    requires AllOwned(s) && SameForOthers(s, t, p) && ProcessOf(s, p).held == [] && i in s.flocks
    ensures Flocked(t, i, s.flocks[i])
  {
    assert Owned(s, i);
    assert Flocked(s, i, s.flocks[i]);
  }

  lemma IdleAgain(s: State, t: State, p: Pid)
    requires Inv(s) && Inv(t) && SameForOthers(s, t, p)
    requires ProcessOf(s, p).held == [] && ProcessOf(t, p).held == []
    ensures t.flocks == s.flocks
  {
    forall i: Inode
      ensures i in s.flocks ==> Flocked(t, i, s.flocks[i])
      ensures i in t.flocks ==> Flocked(s, i, t.flocks[i])
    {
      if i in s.flocks {
        FlockOfOther(s, t, p, i);
      }
      if i in t.flocks {
        FlockOfOther(t, s, p, i);
      }
    }
  }

  // A lock another operation can take at once.
  predicate Free(s: State, name: string) {
    name in s.paths ==> s.paths[name] !in s.flocks
  }

  // p has taken one more lock, on `name`: it, and no other, stops being free.
  ghost predicate TookOne(s: State, t: State, p: Pid, name: string) {
    && (forall m :: Free(t, m) <==> Free(s, m) && m != name)
    && (exists i: Inode :: ProcessOf(t, p).held == ProcessOf(s, p).held + [Hold(name, i, false)])
    && ProcessOf(t, p).names == ProcessOf(s, p).names
    && ProcessOf(t, p).phase
       == if |ProcessOf(t, p).held| == |ProcessOf(s, p).names| then Holding else Acquiring(RETRIES)
  }

  lemma TryTakesOne(s: State, p: Pid)
    requires Inv(s) && WantsNext(ProcessOf(s, p)) && Free(s, Wanted(ProcessOf(s, p)))
    ensures TookOne(s, Next(s, Try(p)), p, Wanted(ProcessOf(s, p)))
  {
    var name := Wanted(ProcessOf(s, p));
    var t := Next(s, Try(p));
    forall m
      ensures Free(t, m) <==> Free(s, m) && m != name
    {
      if name !in s.paths && m in s.paths {
        assert s.paths[m] < s.unused;
      }
    }
    var i := if name in s.paths then s.paths[name] else s.unused;
    assert ProcessOf(t, p).held == ProcessOf(s, p).held + [Hold(name, i, false)];
  }

  // Tries that found the name held cost budget and nothing else.
  predicate Retried(s: State, t: State, p: Pid) {
    && t.paths == s.paths && t.flocks == s.flocks
    && ProcessOf(t, p).names == ProcessOf(s, p).names && ProcessOf(t, p).held == ProcessOf(s, p).held
  }

  lemma FailedTry(s: State, p: Pid)
    requires Inv(s) && WantsNext(ProcessOf(s, p)) && !Free(s, Wanted(ProcessOf(s, p)))
    ensures Retried(s, Next(s, Try(p)), p)
    ensures ProcessOf(Next(s, Try(p)), p).phase
         == if ProcessOf(s, p).phase.tries <= 1 then Releasing else Acquiring(ProcessOf(s, p).phase.tries - 1)
  {
  }

  lemma RetriedThenTook(s: State, t: State, u: State, p: Pid, name: string)
    requires Retried(s, t, p) && TookOne(t, u, p, name)
    ensures TookOne(s, u, p, name)
  {
  }

  lemma SameForOthersTransitive(s: State, t: State, u: State, p: Pid)
    requires SameForOthers(s, t, p) && SameForOthers(t, u, p)
    ensures SameForOthers(s, u, p)
  {
  }

  lemma DistinctCons(x: string, rest: seq<string>)
    ensures Distinct([x] + rest) <==> x !in rest && Distinct(rest)
  {
    var s := [x] + rest;
    if Distinct(s) {
      forall j | 0 <= j < |rest|
        ensures rest[j] != x
      {
        assert s[j + 1] == rest[j] && s[0] == x;
      }
      forall i, j | 0 <= i < j < |rest|
        ensures rest[i] != rest[j]
      {
        assert s[i + 1] == rest[i] && s[j + 1] == rest[j];
      }
    }
  }

  lemma {:induction false} DistinctByCount(s: seq<string>)
    ensures Distinct(s) <==> forall x :: multiset(s)[x] <= 1
  {
    if s != [] {
      var rest := s[1..];
      DistinctByCount(rest);
      DistinctCons(s[0], rest);
      assert s == [s[0]] + rest;
      if s[0] in rest {
        assert multiset(s)[s[0]] > 1;
      } else if !Distinct(rest) {
        var x :| multiset(rest)[x] > 1;
        assert multiset(s)[x] > 1;
      }
    }
  }

  lemma SortKeepsDistinctness(s: seq<string>)
    ensures Distinct(Sort(s)) <==> Distinct(s)
    ensures forall n :: n in Sort(s) <==> n in s
  {
    SortSorts(s);
    DistinctByCount(s);
    DistinctByCount(Sort(s));
    forall n
      ensures n in Sort(s) <==> n in s
    {
      assert n in s <==> n in multiset(s);
      assert n in Sort(s) <==> n in multiset(Sort(s));
    }
  }

  predicate Obtainable(s: State, names: seq<string>) {
    Distinct(names) && forall n :: n in names ==> Free(s, n)
  }

  // p is in charge of the names, and nothing else changed hands.
  ghost predicate Obtained(s: State, t: State, p: Pid, names: seq<string>) {
    && (forall n :: n in names <==> InCharge(t, p, n))
    && (forall m :: Free(t, m) <==> Free(s, m) && m !in names)
  }

  lemma SortedOrNot(s: State, t: State, p: Pid, names: seq<string>)
    ensures Obtainable(s, Sort(names)) <==> Obtainable(s, names)
    ensures Obtained(s, t, p, Sort(names)) ==> Obtained(s, t, p, names)
  {
    SortKeepsDistinctness(names);
  }

  // p has taken the first k of the sorted names, starting from `s`.
  ghost predicate Partway(s: State, t: State, p: Pid, sorted: seq<string>, k: nat)
    requires k <= |sorted|
  {
    var q := ProcessOf(t, p);
    && q.names == sorted && |q.held| == k
    && q.phase == (if k == |sorted| then Holding else Acquiring(RETRIES))
    && (forall m :: 0 <= m < k ==> q.held[m].name == sorted[m] && !q.held[m].unlinked)
    && (forall m :: Free(t, m) <==> Free(s, m) && m !in sorted[..k])
    && Distinct(sorted[..k]) && (forall n :: n in sorted[..k] ==> Free(s, n))
  }

  lemma StartsPartway(s: State, p: Pid, names: seq<string>)
    requires Inv(s) && ProcessOf(s, p) == NOBODY && names != []
    ensures var t := Next(s, Start(p, names, RETRIES));
            Inv(t) && SameForOthers(s, t, p) && Partway(s, t, p, Sort(names), 0)
    ensures Sort(names) != []
  {
    SortKeepsDistinctness(names);
    assert names[0] in Sort(names);
    StepKeepsInv(s, Start(p, names, RETRIES));
    StepIsSameForOthers(s, Start(p, names, RETRIES));
  }

  lemma PartwayStep(s: State, t: State, u: State, p: Pid, sorted: seq<string>, k: nat)
    requires k < |sorted| && Partway(s, t, p, sorted, k)
    requires Free(t, sorted[k]) && TookOne(t, u, p, sorted[k])
    ensures Partway(s, u, p, sorted, k + 1)
  {
    assert sorted[..k + 1] == sorted[..k] + [sorted[k]];
    assert sorted[k] !in sorted[..k];
  }

  lemma AllTaken(s: State, t: State, p: Pid, sorted: seq<string>)
    requires Partway(s, t, p, sorted, |sorted|)
    ensures Obtainable(s, sorted) && Obtained(s, t, p, sorted)
  {
    assert sorted[..|sorted|] == sorted;
    var held := ProcessOf(t, p).held;
    forall n
      ensures n in sorted <==> InCharge(t, p, n)
    {
      if n in sorted {
        var m :| 0 <= m < |sorted| && sorted[m] == n;
        assert Has(t, p, held[m]);
      }
      if InCharge(t, p, n) {
        var h: Hold :| Has(t, p, h) && h.name == n && !h.unlinked;
        var m :| 0 <= m < |held| && held[m] == h;
        assert sorted[m] == n;
      }
    }
  }

  lemma StuckAt(s: State, t: State, p: Pid, sorted: seq<string>, k: nat)
    requires k < |sorted| && Partway(s, t, p, sorted, k) && !Free(t, sorted[k])
    ensures !Obtainable(s, sorted)
  {
    if sorted[k] in sorted[..k] {
      var m :| 0 <= m < k && sorted[m] == sorted[k];
      assert !Distinct(sorted);
    }
  }

  class LockDirectory {
    var state: State

    // acquireWithRetry for the caller's next name, nobody else moving meanwhile.
    method AcquireWithRetry(p: Pid) returns (ok: bool)
      requires Inv(state) && WantsNext(ProcessOf(state, p))
      modifies this
      ensures Inv(state) && SameForOthers(old(state), state, p)
      ensures ok <==> Free(old(state), Wanted(ProcessOf(old(state), p)))
      ensures ok ==> TookOne(old(state), state, p, Wanted(ProcessOf(old(state), p)))
      ensures !ok ==> Retried(old(state), state, p) && ProcessOf(state, p).phase.Releasing?
    {
      ok := false;
      while !ok && ProcessOf(state, p).phase.Acquiring?
        invariant Inv(state) && SameForOthers(old(state), state, p)
        invariant ok ==> Free(old(state), Wanted(ProcessOf(old(state), p)))
        invariant ok ==> TookOne(old(state), state, p, Wanted(ProcessOf(old(state), p)))
        invariant !ok ==> Retried(old(state), state, p)
        invariant !ok ==> ProcessOf(state, p).phase.Acquiring? || ProcessOf(state, p).phase.Releasing?
        invariant !ok && ProcessOf(state, p).phase.Releasing? ==>
                    !Free(old(state), Wanted(ProcessOf(old(state), p)))
        decreases !ok, if ProcessOf(state, p).phase.Acquiring? then ProcessOf(state, p).phase.tries + 1 else 0
      {
        var s := state;
        StepKeepsInv(s, Try(p));
        StepIsSameForOthers(s, Try(p));
        SameForOthersTransitive(old(state), s, Next(s, Try(p)), p);
        ok := Free(s, Wanted(ProcessOf(s, p)));
        if ok {
          TryTakesOne(s, p);
          RetriedThenTook(old(state), s, Next(s, Try(p)), p, Wanted(ProcessOf(s, p)));
        } else {
          FailedTry(s, p);
        }
        state := Next(s, Try(p));
      }
    }

    // The release function: every lock of the caller, in the order taken.
    method ReleaseAll(p: Pid)
      requires Inv(state)
      requires ProcessOf(state, p).phase.Holding? || ProcessOf(state, p).phase.Releasing?
      modifies this
      ensures Inv(state) && SameForOthers(old(state), state, p)
      ensures ProcessOf(state, p) == NOBODY && state.paths == old(state).paths
    {
      while ProcessOf(state, p).phase != Idle
        invariant Inv(state) && SameForOthers(old(state), state, p)
        invariant state.paths == old(state).paths
        invariant ProcessOf(state, p) == NOBODY
               || ProcessOf(state, p).phase.Holding? || ProcessOf(state, p).phase.Releasing?
        decreases ProcessOf(state, p).phase != Idle, |ProcessOf(state, p).held|
      {
        StepKeepsInv(state, Release(p));
        StepIsSameForOthers(state, Release(p));
        state := Next(state, Release(p));
      }
    }

    // Succeeds exactly when the names are distinct and all free; otherwise the
    // locks held, by anyone, are those held before.
    method AcquireMultiLock(p: Pid, names: seq<string>) returns (ok: bool)
      requires Inv(state) && ProcessOf(state, p) == NOBODY
      modifies this
      ensures Inv(state) && SameForOthers(old(state), state, p)
      ensures ok <==> Obtainable(old(state), names)
      ensures ok ==> Obtained(old(state), state, p, names)
      ensures !ok ==> state.flocks == old(state).flocks && ProcessOf(state, p) == NOBODY
    {
      if names == [] {
        return true;
      }
      var sorted := Sort(names);
      StartsPartway(state, p, names);
      state := Next(state, Start(p, names, RETRIES));
      var k := 0;
      ok := true;
      while ok && k < |sorted|
        invariant 0 <= k <= |sorted|
        invariant Inv(state) && SameForOthers(old(state), state, p)
        invariant ok ==> Partway(old(state), state, p, sorted, k)
        invariant !ok ==> ProcessOf(state, p).phase.Releasing?
        invariant !ok ==> !Obtainable(old(state), sorted)
      {
        ghost var s := state;
        ok := AcquireWithRetry(p);
        SameForOthersTransitive(old(state), s, state, p);
        if ok {
          PartwayStep(old(state), s, state, p, sorted, k);
          k := k + 1;
        } else {
          StuckAt(old(state), s, p, sorted, k);
        }
      }
      SortedOrNot(old(state), state, p, names);
      if ok {
        AllTaken(old(state), state, p, sorted);
      } else {
        ghost var s := state;
        ReleaseAll(p);
        SameForOthersTransitive(old(state), s, state, p);
        IdleAgain(old(state), state, p);
      }
    }

    method Do(step: Step)
      requires Inv(state)
      modifies this
      ensures state == Next(old(state), step) && Inv(state) && SameForOthers(old(state), state, step.p)
    {
      StepKeepsInv(state, step);
      StepIsSameForOthers(state, step);
      state := Next(state, step);
    }

    // One turn of SweepStaleLocks' loop: a try-acquire proves that nobody holds the
    // lock; the file is removed under it.
    method SweepOne(p: Pid, name: string, dryRun: bool, removes: bool) returns (removed: bool)
      requires Inv(state) && ProcessOf(state, p) == NOBODY && name in state.paths
      modifies this
      ensures Inv(state) && ProcessOf(state, p) == NOBODY
      ensures removed <==> Free(old(state), name) && (dryRun || removes)
      ensures state.flocks == old(state).flocks
      ensures state.paths == if removed && !dryRun then old(state).paths - {name} else old(state).paths
    {
      ghost var s := state;
      assert Sort([name]) == [name];
      Do(Start(p, [name], 1));
      Do(Try(p));
      removed := ProcessOf(state, p).phase.Holding?;
      ghost var tried := state;
      TryAlone(s, p, name);
      if removed && !dryRun {
        if removes {
          Do(Unlink(p, 0));
        } else {
          removed := false;
        }
      }
      ghost var mid := state;
      SameForOthersTransitive(s, tried, mid, p);
      ReleaseAll(p);
      SameForOthersTransitive(s, mid, state, p);
      IdleAgain(s, state, p);
    }

    // SweepStaleLocks over the lock files listed, beside the sandbox directories that
    // exist: it removes exactly the files without a sandbox that nobody holds, `stuck`
    // ones aside, touches no lock that is held, and a dry run reports those names and
    // removes nothing.
    method SweepStaleLocks(p: Pid, listed: seq<string>, sandboxes: set<string>, stuck: set<string>, dryRun: bool)
      returns (removed: seq<string>)
      requires Inv(state) && ProcessOf(state, p) == NOBODY
      requires Distinct(listed) && forall n :: n in listed ==> n in state.paths
      modifies this
      ensures Inv(state) && ProcessOf(state, p) == NOBODY && state.flocks == old(state).flocks
      ensures forall n :: n in removed <==>
                n in listed && n !in sandboxes && Free(old(state), n) && (dryRun || n !in stuck)
      ensures state.paths == if dryRun then old(state).paths else old(state).paths - (set n | n in removed)
    {
      removed := [];
      var k := 0;
      while k < |listed|
        invariant 0 <= k <= |listed|
        invariant Inv(state) && ProcessOf(state, p) == NOBODY && state.flocks == old(state).flocks
        invariant forall n :: n in removed <==>
                    n in listed[..k] && n !in sandboxes && Free(old(state), n) && (dryRun || n !in stuck)
        invariant state.paths == if dryRun then old(state).paths else old(state).paths - (set n | n in removed)
      {
        var name := listed[k];
        assert listed[..k + 1] == listed[..k] + [name];
        assert name !in listed[..k];
        if name !in sandboxes {
          var gone := SweepOne(p, name, dryRun, name !in stuck);
          if gone {
            removed := removed + [name];
          }
        }
        k := k + 1;
      }
      assert listed[..k] == listed;
    }
  }

  // A single try on an existing lock file.
  lemma TryAlone(s: State, p: Pid, name: string)
    requires Inv(s) && ProcessOf(s, p) == NOBODY && name in s.paths && Sort([name]) == [name]
    ensures var started := Next(s, Start(p, [name], 1));
            var tried := Next(started, Try(p));
            && SameForOthers(s, tried, p)
            && tried.paths == s.paths
            && (if Free(s, name) then ProcessOf(tried, p).phase.Holding? else ProcessOf(tried, p).phase.Releasing?)
            && (Free(s, name) ==> ProcessOf(tried, p).held == [Hold(name, s.paths[name], false)])
  {
    var started := Next(s, Start(p, [name], 1));
    StepKeepsInv(s, Start(p, [name], 1));
    StepIsSameForOthers(s, Start(p, [name], 1));
    StepIsSameForOthers(started, Try(p));
    SameForOthersTransitive(s, started, Next(started, Try(p)), p);
    assert s.paths[name := s.paths[name]] == s.paths;
  }

  // One process, one name given twice: it waits for itself.
  lemma RepeatedNameWitness()
    ensures WaitsFor(Run([Start(0, ["a", "a"], RETRIES), Try(0)]), 0, 0)
  {
    var steps := [Start(0, ["a", "a"], RETRIES), Try(0)];
    SortPair("a");
    var s1 := Set(NO_LOCKS, 0, Process(["a", "a"], [], Acquiring(RETRIES)));
    assert Runs.RunTo(NO_LOCKS, Steps(), steps, 1) == s1;
    var q := ProcessOf(Run(steps), 0);
    assert q == Process(["a", "a"], [Hold("a", 0, false)], Acquiring(RETRIES));
  }

  lemma SortPair(n: string)
    ensures Sort([n, n]) == [n, n]
  {
    BeforeIrreflexive(n);
    assert [n, n][1..] == [n] && [n][1..] == [];
    assert Sort([n]) == [n];
  }

  // ---------- what the steps achieve ----------

  // A dead process has nothing and holds nothing; the files stay.
  lemma CrashFrees(s: State, p: Pid, i: Inode)
    requires Inv(s)
    ensures var t := Next(s, Crash(p));
            && ProcessOf(t, p) == NOBODY && !Flocked(t, i, p) && t.paths == s.paths
  {
    CrashKeepsInv(s, p);
    var t := Next(s, Crash(p));
    if Flocked(t, i, p) {
      assert Owned(t, i);
    }
  }

  // An error other than contention makes the acquirer give back what it has.
  lemma AbortGivesBack(s: State, p: Pid)
    requires ProcessOf(s, p).phase.Acquiring?
    ensures ProcessOf(Next(s, Abort(p)), p) == ProcessOf(s, p).(phase := Releasing)
    ensures Next(s, Abort(p)).flocks == s.flocks && Next(s, Abort(p)).paths == s.paths
  {
  }

  // Each name has thirty tries of its own, and a refused try costs one.
  lemma TriesAre(s: State, p: Pid)
    requires Inv(s) && WantsNext(ProcessOf(s, p)) && |ProcessOf(s, p).held| + 1 < |ProcessOf(s, p).names|
    ensures Free(s, Wanted(ProcessOf(s, p))) ==> ProcessOf(Next(s, Try(p)), p).phase == Acquiring(30)
    ensures !Free(s, Wanted(ProcessOf(s, p))) ==>
              ProcessOf(Next(s, Try(p)), p).phase
              == if ProcessOf(s, p).phase.tries <= 1 then Releasing else Acquiring(ProcessOf(s, p).phase.tries - 1)
  {
    if Free(s, Wanted(ProcessOf(s, p))) {
      TryTakesOne(s, p);
    } else {
      FailedTry(s, p);
    }
  }

  // The holder's unlink takes the file off its path and leaves the flock.
  lemma UnlinkRemoves(s: State, p: Pid, k: nat)
    requires CanUnlink(s, p, k)
    ensures var t := Next(s, Unlink(p, k));
            && t.paths == s.paths - {ProcessOf(s, p).held[k].name} && t.flocks == s.flocks
            && ProcessOf(t, p).held[k].unlinked && ProcessOf(t, p).phase.Holding?
  {
  }
}
