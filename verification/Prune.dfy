/**
 What prune does with sandbox directories whose metadata does not load (system.go,
 store/paths.go): refuse, delete or quarantine, judged by a probe of their work
 directory (internal/orchestrator/status/status.go).
 */
module Prune {
  import opened Results

  // ---------- the directories ----------

  // A record that loads names the principal its sandbox was created under, "" for the
  // oldest ones.
  datatype Metadata = NoMetadata | Unloadable(bytes: string) | Loads(principal: string)

  // A directory's entries, and whether it can be listed.
  datatype Listing = Listing(readable: bool, names: set<string>)

  // git status in a work copy: no repository, no change, changes, or a failing git.
  datatype GitState = NoGit | Clean | Dirty | Unknown

  datatype WorkEntry =
    | LooseFile(bytes: string)
    | Payload(git: GitState, upper: Option<Listing>, readable: bool, others: set<string>)

  datatype Work = NoWork | Work(readable: bool, entries: map<string, WorkEntry>)

  datatype Sandbox = Sandbox(metadata: Metadata, work: Work, rest: map<string, string>)

  datatype TrashNode = Moved(sandbox: Sandbox) | TrashFile(bytes: string)

  datatype Disk = Disk(sandboxes: map<string, Sandbox>, trash: map<string, TrashNode>)

  // ---------- the probe ----------

  datatype WorkState = Nothing | Present | Ambiguous

  predicate HasEntries(l: Listing) {
    l.readable && l.names != {}
  }

  // A payload's own listing: its repository and its overlay layer are entries of it.
  function Own(e: WorkEntry): Listing
    requires e.Payload?
  {
    Listing(e.readable,
            e.others + (if e.git.NoGit? then {} else {".git"}) + (if e.upper.None? then {} else {"upper"}))
  }

  predicate UpperHasEntries(e: WorkEntry)
    requires e.Payload?
  {
    e.upper.Some? && HasEntries(e.upper.value)
  }

  predicate ShowsChanges(e: WorkEntry) {
    e.Payload? && (if e.git.NoGit? then UpperHasEntries(e) else e.git.Dirty?)
  }

  predicate ShowsContent(e: WorkEntry) {
    e.Payload? && (!e.git.NoGit? || HasEntries(Own(e)))
  }

  ghost predicate AnyEntry(w: Work, p: WorkEntry -> bool) {
    w.Work? && w.readable && exists n :: n in w.entries && p(w.entries[n])
  }

  ghost function Probed(w: Work): WorkState {
    if AnyEntry(w, ShowsChanges) then Present
    else if AnyEntry(w, ShowsContent) then Ambiguous
    else Nothing
  }

  // ProbeWorkData over a listing of the work directory, in any order.
  method ProbeWorkData(w: Work, names: seq<string>) returns (state: WorkState)
    requires w.Work? && w.readable ==> forall n :: n in names <==> n in w.entries
    ensures state == Probed(w)
  {
    if w.NoWork? || !w.readable {
      return Nothing;
    }
    state := Nothing;
    var k := 0;
    while k < |names|
      invariant 0 <= k <= |names|
      invariant forall j :: 0 <= j < k ==> !ShowsChanges(w.entries[names[j]])
      invariant state == Nothing || state == Ambiguous
      invariant state == Ambiguous <==> exists j :: 0 <= j < k && ShowsContent(w.entries[names[j]])
    {
      var e := w.entries[names[k]];
      if e.Payload? {
        if !e.git.NoGit? {
          if e.git.Dirty? {
            return Present;
          }
          state := Ambiguous;
        } else if UpperHasEntries(e) {
          return Present;
        } else if HasEntries(Own(e)) {
          state := Ambiguous;
        }
      }
      k := k + 1;
    }
    assert forall n :: n in w.entries ==> !ShowsChanges(w.entries[n]);
    if state == Ambiguous {
      var j :| 0 <= j < k && ShowsContent(w.entries[names[j]]);
      assert names[j] in w.entries;
    } else {
      assert forall n :: n in w.entries ==> !ShowsContent(w.entries[n]);
    }
  }

  // ---------- classification ----------

  datatype Action = Delete | Trash | Refuse

  // classifyBrokenSandbox.
  ghost function ActionFor(s: Sandbox): Action {
    if Probed(s.work) == Present then Refuse
    else if s.metadata.NoMetadata? && Probed(s.work) == Nothing then Delete
    else Trash
  }

  datatype Classified = Classified(name: string, action: Action)

  ghost function BrokenAmong(sandboxes: map<string, Sandbox>, names: seq<string>): seq<Classified> {
    if names == [] then []
    else
      var before := BrokenAmong(sandboxes, names[..|names| - 1]);
      var name := names[|names| - 1];
      if name !in sandboxes || sandboxes[name].metadata.Loads? then before
      else before + [Classified(name, ActionFor(sandboxes[name]))]
  }

  // liveInstanceNames: the instances a readable sandbox may own, the legacy one too
  // when it has no principal. `prefix` is the present principal's.
  function InstanceNames(prefix: string, name: string, principal: string): seq<string> {
    [prefix + name] + (if principal == "" then ["yoloai-" + name] else [])
  }

  // The instances of the listed sandboxes that load.
  function KnownAmong(sandboxes: map<string, Sandbox>, names: seq<string>, prefix: string): seq<string> {
    if names == [] then []
    else
      var before := KnownAmong(sandboxes, names[..|names| - 1], prefix);
      var name := names[|names| - 1];
      if name !in sandboxes || !sandboxes[name].metadata.Loads? then before
      else before + InstanceNames(prefix, name, sandboxes[name].metadata.principal)
  }

  // Every instance of a loadable sandbox, and no other, is known.
  lemma {:induction false} KnownExactly(sandboxes: map<string, Sandbox>, names: seq<string>, prefix: string,
                                        instance: string)
    ensures instance in KnownAmong(sandboxes, names, prefix)
       <==> exists n :: n in names && n in sandboxes && Owns(sandboxes[n], prefix, n, instance)
  {
    if names != [] {
      KnownExactly(sandboxes, names[..|names| - 1], prefix, instance);
      assert names == names[..|names| - 1] + [names[|names| - 1]];
    }
  }

  predicate Owns(s: Sandbox, prefix: string, name: string, instance: string) {
    s.metadata.Loads? && instance in InstanceNames(prefix, name, s.metadata.principal)
  }

  // classifyBrokenSandbox; `listing` is what listing the work directory returned.
  method ClassifyBroken(s: Sandbox, listing: seq<string>) returns (action: Action)
    requires Lists(listing, s.work)
    ensures action == ActionFor(s)
  {
    var state := ProbeWorkData(s.work, listing);
    if state == Present {
      return Refuse;
    }
    if s.metadata.NoMetadata? && state == Nothing {
      return Delete;
    }
    return Trash;
  }

  // classifySandboxes; a name that is not a directory is passed over.
  method ClassifySandboxes(sandboxes: map<string, Sandbox>, names: seq<string>, listings: map<string, seq<string>>,
                           prefix: string)
    returns (known: seq<string>, broken: seq<Classified>)
    requires forall s :: s in sandboxes ==> s in listings && Lists(listings[s], sandboxes[s].work)
    ensures broken == BrokenAmong(sandboxes, names)
    ensures known == KnownAmong(sandboxes, names, prefix)
  {
    known := [];
    broken := [];
    var k := 0;
    while k < |names|
      invariant 0 <= k <= |names|
      invariant broken == BrokenAmong(sandboxes, names[..k])
      invariant known == KnownAmong(sandboxes, names[..k], prefix)
    {
      var name := names[k];
      assert names[..k + 1][..k] == names[..k];
      if name in sandboxes {
        var s := sandboxes[name];
        if s.metadata.Loads? {
          known := known + InstanceNames(prefix, name, s.metadata.principal);
        } else {
          var action := ClassifyBroken(s, listings[name]);
          broken := broken + [Classified(name, action)];
        }
      }
      k := k + 1;
    }
    assert names[..k] == names;
  }

  ghost predicate Lists(names: seq<string>, w: Work) {
    w.Work? && w.readable ==> forall n :: n in names <==> n in w.entries
  }

  // ---------- carrying it out ----------

  // How an operation on one directory goes: the clock's digits for a quarantine, or a
  // failure, which for a removal may leave any part of the directory.
  datatype Fate = Works(suffix: string) | Fails(left: Option<Sandbox>)

  // os.Rename moves a directory to a name nothing stands at: it refuses an existing
  // directory, empty or not, and the system refuses a file.
  predicate RenameFits(trash: map<string, TrashNode>, dest: string) {
    dest !in trash
  }

  function TrashName(trash: map<string, TrashNode>, name: string, suffix: string): string {
    if name in trash then name + "." + suffix else name
  }

  function AfterDelete(d: Disk, name: string, fate: Fate): Disk {
    match fate
    case Works(_) => d.(sandboxes := d.sandboxes - {name})
    case Fails(left) =>
      if left.Some? then d.(sandboxes := d.sandboxes[name := left.value]) else d.(sandboxes := d.sandboxes - {name})
  }

  predicate Quarantines(d: Disk, name: string, fate: Fate) {
    name in d.sandboxes && fate.Works? && RenameFits(d.trash, TrashName(d.trash, name, fate.suffix))
  }

  function AfterQuarantine(d: Disk, name: string, fate: Fate): Disk {
    if !Quarantines(d, name, fate) then d
    else Disk(d.sandboxes - {name}, d.trash[TrashName(d.trash, name, fate.suffix) := Moved(d.sandboxes[name])])
  }

  function AfterOne(d: Disk, c: Classified, fate: Fate): Disk {
    match c.action
    case Refuse => d
    case Delete => AfterDelete(d, c.name, fate)
    case Trash => AfterQuarantine(d, c.name, fate)
  }

  function AfterAll(d: Disk, broken: seq<Classified>, fates: string -> Fate): Disk {
    if broken == [] then d
    else
      var c := broken[|broken| - 1];
      AfterOne(AfterAll(d, broken[..|broken| - 1], fates), c, fates(c.name))
  }

  // The names prune reports, by what became of them.
  datatype Report = Report(refused: seq<string>, removed: seq<string>, skipped: seq<string>, trashed: seq<string>)

  // The report on one directory, found on disk `d`.
  function ReportOne(r: Report, d: Disk, c: Classified, fate: Fate, dryRun: bool): Report {
    match c.action
    case Refuse => r.(refused := r.refused + [c.name])
    case Delete =>
      if dryRun || fate.Works? then r.(removed := r.removed + [c.name])
      else r.(skipped := r.skipped + [c.name])
    case Trash =>
      if dryRun || Quarantines(d, c.name, fate) then r.(trashed := r.trashed + [c.name]) else r
  }

  const NOTHING_DONE := Report([], [], [], [])

  function ReportAll(d: Disk, broken: seq<Classified>, fates: string -> Fate, dryRun: bool): Report {
    if broken == [] then NOTHING_DONE
    else
      var init, c := broken[..|broken| - 1], broken[|broken| - 1];
      ReportOne(ReportAll(d, init, fates, dryRun), AfterAll(d, init, fates), c, fates(c.name), dryRun)
  }

  class Pruner {
    var disk: Disk
    var report: Report

    constructor (d: Disk)
      ensures disk == d && report == NOTHING_DONE
    {
      disk := d;
      report := NOTHING_DONE;
    }

    method QuarantineSandbox(name: string, fate: Fate) returns (r: Result<string, string>)
      requires name in disk.sandboxes
      modifies this`disk
      ensures disk == AfterQuarantine(old(disk), name, fate)
      ensures r.Ok? <==> Quarantines(old(disk), name, fate)
      ensures r.Ok? ==> r.value in disk.trash && disk.trash[r.value] == Moved(old(disk).sandboxes[name])
    {
      if fate.Fails? {
        return Err("rename");
      }
      var dest := name;
      if dest in disk.trash {
        dest := name + "." + fate.suffix;
      }
      if dest in disk.trash {
        return Err("rename");
      }
      disk := Disk(disk.sandboxes - {name}, disk.trash[dest := Moved(disk.sandboxes[name])]);
      return Ok(dest);
    }

    // One turn of applyBrokenClassifications' loop.
    method ApplyOne(c: Classified, dryRun: bool, fate: Fate)
      requires c.name in disk.sandboxes
      modifies this
      ensures disk == if dryRun then old(disk) else AfterOne(old(disk), c, fate)
      ensures report == ReportOne(old(report), old(disk), c, fate, dryRun)
    {
      match c.action {
        case Refuse =>
          report := report.(refused := report.refused + [c.name]);
        case Delete =>
          if !dryRun {
            disk := AfterDelete(disk, c.name, fate);
            if fate.Fails? {
              report := report.(skipped := report.skipped + [c.name]);
              return;
            }
          }
          report := report.(removed := report.removed + [c.name]);
        case Trash =>
          if !dryRun {
            var r := QuarantineSandbox(c.name, fate);
            if r.Err? {
              return;
            }
          }
          report := report.(trashed := report.trashed + [c.name]);
      }
    }

    method ApplyBrokenClassifications(broken: seq<Classified>, dryRun: bool, fates: string -> Fate)
      requires report == NOTHING_DONE
      requires forall c :: c in broken ==> c.name in disk.sandboxes
      requires DistinctNames(broken)
      modifies this
      ensures disk == if dryRun then old(disk) else AfterAll(old(disk), broken, fates)
      ensures report == ReportAll(old(disk), broken, fates, dryRun)
    {
      var k := 0;
      while k < |broken|
        invariant 0 <= k <= |broken|
        invariant disk == if dryRun then old(disk) else AfterAll(old(disk), broken[..k], fates)
        invariant forall j :: k <= j < |broken| ==> broken[j].name in disk.sandboxes
        invariant report == ReportAll(old(disk), broken[..k], fates, dryRun)
      {
        assert broken[..k + 1][..k] == broken[..k];
        ghost var was := disk;
        ApplyOne(broken[k], dryRun, fates(broken[k].name));
        forall j | k < j < |broken|
          ensures broken[j].name in disk.sandboxes
        {
          assert broken[j].name in was.sandboxes;
        }
        k := k + 1;
      }
      assert broken[..k] == broken;
    }
  }

  predicate DistinctNames(broken: seq<Classified>) {
    forall i, j :: 0 <= i < j < |broken| ==> broken[i].name != broken[j].name
  }

  // A dry run, which leaves the disk alone, foretells the real one: the same refusals,
  // each directory it calls removed is removed or reported as failed, and of those it
  // calls trashed the real run reports exactly the ones that left their place.
  lemma {:induction false} DryRunForetells(d: Disk, broken: seq<Classified>, fates: string -> Fate,
                                           c: Classified)
    requires DistinctNames(broken) && c in broken
    requires forall b :: b in broken ==> b.name in d.sandboxes
    ensures var dry := ReportAll(d, broken, fates, true);
            var done := ReportAll(d, broken, fates, false);
            var after := AfterAll(d, broken, fates);
            && done.refused == dry.refused
            && (c.name in dry.refused <==> c.action.Refuse?)
            && (c.name in dry.removed <==> c.action.Delete?)
            && (c.name in dry.trashed <==> c.action.Trash?)
            && (c.name in done.removed || c.name in done.skipped <==> c.action.Delete?)
            && (c.name in done.removed ==> c.name !in after.sandboxes)
            && (c.name in done.trashed <==> c.action.Trash? && c.name !in after.sandboxes)
  {
    var init, last := broken[..|broken| - 1], broken[|broken| - 1];
    SameRefusals(d, broken, fates);
    if c == last {
      ForetellsLast(d, broken, fates);
    } else {
      var i :| 0 <= i < |broken| && broken[i] == c;
      assert init[i] == c;
      assert c.name != last.name;
      DryRunForetells(d, init, fates, c);
    }
  }

  lemma ForetellsLast(d: Disk, broken: seq<Classified>, fates: string -> Fate)
    requires DistinctNames(broken) && broken != [] && broken[|broken| - 1].name in d.sandboxes
    ensures var dry := ReportAll(d, broken, fates, true);
            var done := ReportAll(d, broken, fates, false);
            var c := broken[|broken| - 1];
            var gone := c.name !in AfterAll(d, broken, fates).sandboxes;
            && (c.name in dry.refused <==> c.action.Refuse?)
            && (c.name in dry.removed <==> c.action.Delete?)
            && (c.name in dry.trashed <==> c.action.Trash?)
            && (c.name in done.removed || c.name in done.skipped <==> c.action.Delete?)
            && (c.name in done.removed ==> gone)
            && (c.name in done.trashed <==> c.action.Trash? && gone)
  {
    var init, c := broken[..|broken| - 1], broken[|broken| - 1];
    ReportsOnlyThose(d, init, fates, true, c.name);
    ReportsOnlyThose(d, init, fates, false, c.name);
    UntouchedUntilTurn(d, init, fates, c.name);
    var was := ReportAll(d, init, fates, true);
    assert c.action.Refuse? ==> ReportAll(d, broken, fates, true).refused == was.refused + [c.name];
  }

  predicate Mentions(r: Report, n: string) {
    n in r.refused || n in r.removed || n in r.skipped || n in r.trashed
  }

  lemma {:induction false} ReportsOnlyThose(d: Disk, broken: seq<Classified>, fates: string -> Fate,
                                            dryRun: bool, n: string)
    requires forall i :: 0 <= i < |broken| ==> broken[i].name != n
    ensures !Mentions(ReportAll(d, broken, fates, dryRun), n)
  {
    if broken != [] {
      ReportsOnlyThose(d, broken[..|broken| - 1], fates, dryRun, n);
    }
  }

  lemma {:induction false} SameRefusals(d: Disk, broken: seq<Classified>, fates: string -> Fate)
    ensures ReportAll(d, broken, fates, true).refused == ReportAll(d, broken, fates, false).refused
  {
    if broken != [] {
      SameRefusals(d, broken[..|broken| - 1], fates);
    }
  }

  lemma {:induction false} UntouchedUntilTurn(d: Disk, broken: seq<Classified>, fates: string -> Fate, n: string)
    requires forall i :: 0 <= i < |broken| ==> broken[i].name != n
    ensures n in AfterAll(d, broken, fates).sandboxes <==> n in d.sandboxes
  {
    if broken != [] {
      UntouchedUntilTurn(d, broken[..|broken| - 1], fates, n);
    }
  }

  // ---------- what prune preserves ----------

  // The listing of the sandboxes directory names each directory once.
  ghost predicate FullListing(d: Disk, names: seq<string>) {
    && (forall i, j :: 0 <= i < j < |names| ==> names[i] != names[j])
    && (forall s :: s in d.sandboxes ==> s in names)
  }

  ghost function Pruned(d: Disk, names: seq<string>, fates: string -> Fate): Disk {
    AfterAll(d, BrokenAmong(d.sandboxes, names), fates)
  }

  // Where a sandbox's directory is afterwards.
  predicate InPlace(d: Disk, after: Disk, name: string)
    requires name in d.sandboxes
  {
    name in after.sandboxes && after.sandboxes[name] == d.sandboxes[name]
  }

  ghost predicate InTrash(d: Disk, after: Disk, name: string)
    requires name in d.sandboxes
  {
    exists dest :: TrashedAt(d, after, name, dest)
  }

  predicate TrashedAt(d: Disk, after: Disk, name: string, dest: string)
    requires name in d.sandboxes
  {
    && dest in after.trash && after.trash[dest] == Moved(d.sandboxes[name])
    && dest !in d.trash
  }

  // What is in the trash stays there.
  predicate TrashKept(d: Disk, after: Disk) {
    forall t :: t in d.trash ==> t in after.trash && after.trash[t] == d.trash[t]
  }

  ghost predicate Accounted(d: Disk, after: Disk, name: string)
    requires name in d.sandboxes
  {
    var s := d.sandboxes[name];
    if s.metadata.Loads? then InPlace(d, after, name)
    else
      match ActionFor(s)
      case Refuse => InPlace(d, after, name)
      case Trash => InPlace(d, after, name) || (name !in after.sandboxes && InTrash(d, after, name))
      case Delete => true
  }

  ghost predicate ClassifiedRight(sandboxes: map<string, Sandbox>, c: Classified) {
    && c.name in sandboxes && !sandboxes[c.name].metadata.Loads?
    && c.action == ActionFor(sandboxes[c.name])
  }

  lemma {:induction false} BrokenFacts(sandboxes: map<string, Sandbox>, names: seq<string>)
    requires forall i, j :: 0 <= i < j < |names| ==> names[i] != names[j]
    ensures var broken := BrokenAmong(sandboxes, names);
            && DistinctNames(broken)
            && (forall c :: c in broken ==> c.name in names && ClassifiedRight(sandboxes, c))
            && (forall n :: n in names && n in sandboxes && !sandboxes[n].metadata.Loads? ==>
                  Classified(n, ActionFor(sandboxes[n])) in broken)
  {
    if names != [] {
      var init, name := names[..|names| - 1], names[|names| - 1];
      BrokenFacts(sandboxes, init);
      assert names == init + [name];
      assert name !in init;
      BrokenDistinct(sandboxes, init, name);
    }
  }

  lemma BrokenDistinct(sandboxes: map<string, Sandbox>, init: seq<string>, name: string)
    requires name !in init && DistinctNames(BrokenAmong(sandboxes, init))
    requires forall c :: c in BrokenAmong(sandboxes, init) ==> c.name in init
    ensures DistinctNames(BrokenAmong(sandboxes, init + [name]))
  {
    assert (init + [name])[..|init|] == init;
    var before := BrokenAmong(sandboxes, init);
    assert forall i :: 0 <= i < |before| ==> before[i] in before && before[i].name != name;
  }

  ghost predicate Sound(d: Disk, broken: seq<Classified>) {
    && DistinctNames(broken)
    && (forall c :: c in broken ==> ClassifiedRight(d.sandboxes, c))
  }

  ghost predicate UntouchedBut(d: Disk, after: Disk, broken: seq<Classified>) {
    forall n :: n in d.sandboxes && !Names(broken, n) ==> InPlace(d, after, n)
  }

  predicate Names(broken: seq<Classified>, n: string) {
    exists c :: c in broken && c.name == n
  }

  ghost predicate AccountedAll(d: Disk, after: Disk, broken: seq<Classified>) {
    forall c :: c in broken && c.name in d.sandboxes ==> Accounted(d, after, c.name)
  }

  ghost predicate SoFar(d: Disk, after: Disk, broken: seq<Classified>) {
    UntouchedBut(d, after, broken) && AccountedAll(d, after, broken) && TrashKept(d, after)
  }

  lemma LastIsNew(d: Disk, was: Disk, broken: seq<Classified>, c: Classified)
    requires Sound(d, broken + [c]) && UntouchedBut(d, was, broken)
    ensures forall b :: b in broken ==> b.name != c.name && ClassifiedRight(d.sandboxes, b)
    ensures ClassifiedRight(d.sandboxes, c) && InPlace(d, was, c.name)
  {
    var all := broken + [c];
    assert c in all && all[|broken|] == c;
    forall b | b in broken
      ensures b.name != c.name && b in all
    {
      var i :| 0 <= i < |broken| && broken[i] == b;
      assert all[i] == b;
    }
  }

  // The sandboxes but one are the same.
  predicate Elsewhere(was: Disk, now: Disk, name: string) {
    forall n :: n in was.sandboxes && n != name ==> n in now.sandboxes && now.sandboxes[n] == was.sandboxes[n]
  }

  lemma UntouchedGrows(d: Disk, was: Disk, now: Disk, broken: seq<Classified>, c: Classified)
    requires UntouchedBut(d, was, broken) && Elsewhere(was, now, c.name)
    ensures UntouchedBut(d, now, broken + [c])
  {
    forall n | n in d.sandboxes && !Names(broken + [c], n)
      ensures InPlace(d, now, n)
    {
      assert c in broken + [c];
      assert forall b :: b in broken ==> b in broken + [c];
      assert InPlace(d, was, n);
    }
  }

  lemma QuarantineStep(d: Disk, was: Disk, broken: seq<Classified>, c: Classified, fate: Fate)
    requires Sound(d, broken + [c]) && SoFar(d, was, broken) && c.action.Trash?
    ensures SoFar(d, AfterOne(was, c, fate), broken + [c])
  {
    var now := AfterOne(was, c, fate);
    LastIsNew(d, was, broken, c);
    UntouchedGrows(d, was, now, broken, c);
    if Quarantines(was, c.name, fate) {
      var dest := TrashName(was.trash, c.name, fate.suffix);
      assert TrashedAt(d, now, c.name, dest);
      forall b | b in broken
        ensures Accounted(d, now, b.name)
      {
        QuarantineKeeps(d, was, now, c.name, dest, b.name);
      }
    }
  }

  lemma QuarantineKeeps(d: Disk, was: Disk, now: Disk, name: string, dest: string, n: string)
    requires n in d.sandboxes && n != name && name in was.sandboxes && Accounted(d, was, n)
    requires RenameFits(was.trash, dest)
    requires now == Disk(was.sandboxes - {name}, was.trash[dest := Moved(was.sandboxes[name])])
    ensures Accounted(d, now, n)
  {
    var s := d.sandboxes[n];
    if !s.metadata.Loads? && ActionFor(s).Trash? && !InPlace(d, was, n) {
      var t :| TrashedAt(d, was, n, t);
      assert t != dest;
      assert TrashedAt(d, now, n, t);
    }
  }

  lemma DeleteStep(d: Disk, was: Disk, broken: seq<Classified>, c: Classified, fate: Fate)
    requires Sound(d, broken + [c]) && SoFar(d, was, broken) && !c.action.Trash?
    ensures SoFar(d, AfterOne(was, c, fate), broken + [c])
  {
    var now := AfterOne(was, c, fate);
    LastIsNew(d, was, broken, c);
    UntouchedGrows(d, was, now, broken, c);
    forall b | b in broken
      ensures Accounted(d, now, b.name)
    {
      DeleteKeeps(d, was, now, b.name);
    }
  }

  lemma DeleteKeeps(d: Disk, was: Disk, now: Disk, n: string)
    requires n in d.sandboxes && Accounted(d, was, n)
    requires now.trash == was.trash
    requires n in now.sandboxes <==> n in was.sandboxes
    requires n in now.sandboxes ==> now.sandboxes[n] == was.sandboxes[n]
    ensures Accounted(d, now, n)
  {
    if InTrash(d, was, n) {
      var t :| TrashedAt(d, was, n, t);
      assert TrashedAt(d, now, n, t);
    }
  }

  lemma {:induction false} AllAccounted(d: Disk, broken: seq<Classified>, fates: string -> Fate)
    requires Sound(d, broken)
    ensures SoFar(d, AfterAll(d, broken, fates), broken)
  {
    if broken != [] {
      var init := broken[..|broken| - 1];
      var c := broken[|broken| - 1];
      assert broken == init + [c];
      AllAccounted(d, init, fates);
      if c.action.Trash? {
        QuarantineStep(d, AfterAll(d, init, fates), init, c, fates(c.name));
      } else {
        DeleteStep(d, AfterAll(d, init, fates), init, c, fates(c.name));
      }
    }
  }

  // For every tree and however each operation goes, after prune a sandbox directory is
  // in place unchanged, or in the trash unchanged under a name that was free, or it had
  // no metadata file and no work data the probe sees; one whose metadata loads or whose
  // work shows changes has not moved.
  lemma PrunePreservesData(d: Disk, names: seq<string>, fates: string -> Fate, name: string)
    requires FullListing(d, names) && name in d.sandboxes
    ensures var after := Pruned(d, names, fates);
            var s := d.sandboxes[name];
            && (|| InPlace(d, after, name)
                || (name !in after.sandboxes && InTrash(d, after, name))
                || (s.metadata.NoMetadata? && Probed(s.work) == Nothing))
            && (s.metadata.Loads? || Probed(s.work) == Present ==> InPlace(d, after, name))
            && TrashKept(d, after)
  {
    var broken := BrokenAmong(d.sandboxes, names);
    BrokenFacts(d.sandboxes, names);
    AllAccounted(d, broken, fates);
    var s := d.sandboxes[name];
    if s.metadata.Loads? {
      assert InPlace(d, Pruned(d, names, fates), name);
    } else {
      assert Classified(name, ActionFor(s)) in broken;
      assert Accounted(d, Pruned(d, names, fates), name);
    }
  }

  // Where each quarantined directory went.
  function Placements(d: Disk, broken: seq<Classified>, fates: string -> Fate): map<string, string> {
    if broken == [] then map[]
    else
      var init, c := broken[..|broken| - 1], broken[|broken| - 1];
      WithPlacement(AfterAll(d, init, fates), Placements(d, init, fates), c, fates(c.name))
  }

  // A directory that was in its place stands, unchanged, under a name that was free.
  predicate PlacedAt(d: Disk, after: Disk, n: string, dest: string) {
    && n in d.sandboxes && n !in after.sandboxes && dest !in d.trash
    && dest in after.trash && after.trash[dest] == Moved(d.sandboxes[n])
  }

  ghost predicate AllPlaced(d: Disk, after: Disk, placed: map<string, string>) {
    forall n :: n in placed ==> PlacedAt(d, after, n, placed[n])
  }

  predicate Apart(placed: map<string, string>) {
    forall n, o :: n in placed && o in placed && placed[n] == placed[o] ==> n == o
  }

  predicate IsPlace(placed: map<string, string>, t: string) {
    exists n :: n in placed && placed[n] == t
  }

  ghost predicate NothingElse(d: Disk, after: Disk, placed: map<string, string>) {
    forall t :: t in after.trash ==> t in d.trash || IsPlace(placed, t)
  }

  // The trash is what it was, and under free names, each its own, exactly the
  // quarantined directories, which are in their place no more.
  ghost predicate Gains(d: Disk, after: Disk, placed: map<string, string>) {
    AllPlaced(d, after, placed) && Apart(placed) && NothingElse(d, after, placed) && TrashKept(d, after)
  }

  lemma {:induction false} PlacementsAreNamed(d: Disk, broken: seq<Classified>, fates: string -> Fate, n: string)
    requires n in Placements(d, broken, fates)
    ensures Names(broken, n)
  {
    var init, c := broken[..|broken| - 1], broken[|broken| - 1];
    assert c in broken;
    if n != c.name {
      PlacementsAreNamed(d, init, fates, n);
      assert forall b :: b in init ==> b in broken;
    }
  }

  // `now` is `was` after a directory moved to a free name in the trash.
  predicate Moves(was: Disk, now: Disk, name: string, dest: string) {
    && name in was.sandboxes && dest !in was.trash
    && now == Disk(was.sandboxes - {name}, was.trash[dest := Moved(was.sandboxes[name])])
  }

  lemma PlacedStays(d: Disk, was: Disk, now: Disk, name: string, dest: string, n: string, at: string)
    requires PlacedAt(d, was, n, at) && Moves(was, now, name, dest)
    ensures PlacedAt(d, now, n, at) && at != dest
  {
  }

  lemma GainsOne(d: Disk, was: Disk, now: Disk, placed: map<string, string>, name: string, dest: string)
    requires Gains(d, was, placed) && name !in placed && name in d.sandboxes && InPlace(d, was, name)
    requires Moves(was, now, name, dest)
    ensures Gains(d, now, placed[name := dest])
  {
    var more := placed[name := dest];
    forall n | n in more
      ensures PlacedAt(d, now, n, more[n]) && (n != name ==> more[n] != dest)
    {
      if n != name {
        PlacedStays(d, was, now, name, dest, n, placed[n]);
      }
    }
    forall t | t in now.trash && t !in d.trash
      ensures IsPlace(more, t)
    {
      if t == dest {
        assert more[name] == t;
      } else {
        var n :| n in placed && placed[n] == t;
        assert more[n] == t;
      }
    }
  }

  function WithPlacement(was: Disk, placed: map<string, string>, c: Classified, fate: Fate): map<string, string> {
    if c.action.Trash? && Quarantines(was, c.name, fate)
    then placed[c.name := TrashName(was.trash, c.name, fate.suffix)]
    else placed
  }

  lemma GainsNext(d: Disk, was: Disk, placed: map<string, string>, c: Classified, fate: Fate)
    requires Gains(d, was, placed) && c.name !in placed && c.name in d.sandboxes && InPlace(d, was, c.name)
    ensures Gains(d, AfterOne(was, c, fate), WithPlacement(was, placed, c, fate))
  {
    var now := AfterOne(was, c, fate);
    if c.action.Trash? && Quarantines(was, c.name, fate) {
      GainsOne(d, was, now, placed, c.name, TrashName(was.trash, c.name, fate.suffix));
    } else {
      forall n | n in placed
        ensures PlacedAt(d, now, n, placed[n])
      {
        assert PlacedAt(d, was, n, placed[n]);
      }
    }
  }

  lemma {:induction false} GainsPlacements(d: Disk, broken: seq<Classified>, fates: string -> Fate)
    requires Sound(d, broken)
    ensures Gains(d, AfterAll(d, broken, fates), Placements(d, broken, fates))
  {
    if broken != [] {
      var init, c := broken[..|broken| - 1], broken[|broken| - 1];
      assert broken == init + [c];
      GainsPlacements(d, init, fates);
      AllAccounted(d, init, fates);
      LastIsNew(d, AfterAll(d, init, fates), init, c);
      if c.name in Placements(d, init, fates) {
        PlacementsAreNamed(d, init, fates, c.name);
      }
      GainsNext(d, AfterAll(d, init, fates), Placements(d, init, fates), c, fates(c.name));
    }
  }

  // However a prune goes, its trash gains exactly what it quarantined.
  lemma TrashGainsQuarantined(d: Disk, names: seq<string>, fates: string -> Fate)
    requires FullListing(d, names)
    ensures Gains(d, Pruned(d, names, fates), Placements(d, BrokenAmong(d.sandboxes, names), fates))
  {
    BrokenFacts(d.sandboxes, names);
    GainsPlacements(d, BrokenAmong(d.sandboxes, names), fates);
  }

  // A series of prunes, each from its own listing, the tree changing only by them.
  datatype PruneCall = PruneCall(names: seq<string>, fates: string -> Fate)

  ghost function PrunedAll(d: Disk, calls: seq<PruneCall>): Disk {
    if calls == [] then d
    else
      var was := PrunedAll(d, calls[..|calls| - 1]);
      var call := calls[|calls| - 1];
      if FullListing(was, call.names) then Pruned(was, call.names, call.fates) else was
  }

  // Over any number of prunes nothing in the trash is changed.
  lemma {:induction false} TrashIsForever(d: Disk, calls: seq<PruneCall>, t: string)
    requires t in d.trash
    ensures t in PrunedAll(d, calls).trash && PrunedAll(d, calls).trash[t] == d.trash[t]
  {
    if calls != [] {
      TrashIsForever(d, calls[..|calls| - 1], t);
      var was := PrunedAll(d, calls[..|calls| - 1]);
      var call := calls[|calls| - 1];
      if FullListing(was, call.names) {
        BrokenFacts(was.sandboxes, call.names);
        AllAccounted(was, BrokenAmong(was.sandboxes, call.names), call.fates);
      }
    }
  }

  // ---------- what the probe cannot see ----------

  predicate HoldsSomething(e: WorkEntry) {
    e.LooseFile? || Own(e).names != {}
  }

  ghost predicate HasWorkData(w: Work) {
    w.Work? && exists n :: n in w.entries && HoldsSomething(w.entries[n])
  }

  predicate Hidden(e: WorkEntry) {
    e.LooseFile? || (e.git.NoGit? && !e.readable && Own(e).names != {})
  }

  // A loose file in the work directory, a subdirectory that cannot be listed, or
  // anything at all in a work directory that cannot be listed.
  ghost predicate OutOfSight(w: Work) {
    w.Work? && exists n :: n in w.entries && HoldsSomething(w.entries[n]) && (!w.readable || Hidden(w.entries[n]))
  }

  // A directory prune deletes had no work data if and only if nothing was out of sight.
  lemma DeleteIsHarmlessIff(s: Sandbox)
    requires ActionFor(s).Delete?
    ensures !HasWorkData(s.work) <==> !OutOfSight(s.work)
  {
    var w := s.work;
    if HasWorkData(w) && w.readable {
      var n :| n in w.entries && HoldsSomething(w.entries[n]);
      assert !ShowsChanges(w.entries[n]) && !ShowsContent(w.entries[n]);
      assert Hidden(w.entries[n]);
    }
  }

  // A single file left directly under the work directory is deleted with it.
  lemma LooseFileIsDeleted(bytes: string)
    ensures var s := Sandbox(NoMetadata, Work(true, map["notes.txt" := LooseFile(bytes)]), map[]);
            ActionFor(s) == Delete && HasWorkData(s.work)
  {
    var w := Work(true, map["notes.txt" := LooseFile(bytes)]);
    assert "notes.txt" in w.entries && HoldsSomething(w.entries["notes.txt"]);
  }

  // ---------- the disposition matrix ----------

  // Uncommitted changes in a repository, or without one something in the overlay layer.
  predicate Changed(e: WorkEntry) {
    && e.Payload?
    && (|| e.git == Dirty
        || (e.git == NoGit && e.upper.Some? && e.upper.value.readable && e.upper.value.names != {}))
  }

  // A repository, or a directory that can be listed and is not empty.
  predicate Filled(e: WorkEntry) {
    e.Payload? && (e.git != NoGit || (e.readable && (e.others != {} || e.upper.Some?)))
  }

  // Some entry of a work directory that can be listed.
  ghost predicate Within(w: Work, e: WorkEntry) {
    w.Work? && w.readable && exists n :: n in w.entries && w.entries[n] == e
  }

  // A broken directory is refused when some entry shows changes; otherwise it is deleted
  // when it has no metadata file and no entry shows content, and quarantined in every
  // other case.
  lemma Disposition(s: Sandbox)
    ensures ActionFor(s) == Refuse <==> exists e :: Within(s.work, e) && Changed(e)
    ensures ActionFor(s) == Delete
       <==> s.metadata == NoMetadata && forall e :: Within(s.work, e) ==> !Changed(e) && !Filled(e)
    ensures ActionFor(s) == Trash
       <==> && (forall e :: Within(s.work, e) ==> !Changed(e))
            && (s.metadata != NoMetadata || exists e :: Within(s.work, e) && Filled(e))
  {
    forall e: WorkEntry
      ensures ShowsChanges(e) <==> Changed(e)
      ensures ShowsContent(e) <==> Filled(e)
    {
      OwnIsEmptyIff(e);
    }
    WithinIff(s.work, ShowsChanges);
    WithinIff(s.work, ShowsContent);
  }

  lemma OwnIsEmptyIff(e: WorkEntry)
    ensures e.Payload? ==> (Own(e).names == {} <==> e.others == {} && e.git == NoGit && e.upper == None)
  {
    if e.Payload? {
      assert e.git != NoGit ==> ".git" in Own(e).names;
      assert e.upper.Some? ==> "upper" in Own(e).names;
      assert forall n :: n in e.others ==> n in Own(e).names;
    }
  }

  lemma WithinIff(w: Work, p: WorkEntry -> bool)
    ensures AnyEntry(w, p) <==> exists e :: Within(w, e) && p(e)
  {
    if AnyEntry(w, p) {
      var n :| n in w.entries && p(w.entries[n]);
      assert Within(w, w.entries[n]);
    }
  }

  // Where a quarantine goes: the plain name when it is free, else the name with the
  // clock's digits when that is, and otherwise nothing moves.
  lemma QuarantineGoes(d: Disk, name: string, suffix: string)
    requires name in d.sandboxes
    ensures var now := AfterQuarantine(d, name, Works(suffix));
            var late := name + "." + suffix;
            && (name !in d.trash ==>
                  now == Disk(d.sandboxes - {name}, d.trash[name := Moved(d.sandboxes[name])]))
            && (name in d.trash && late !in d.trash ==>
                  now == Disk(d.sandboxes - {name}, d.trash[late := Moved(d.sandboxes[name])]))
            && (name in d.trash && late in d.trash ==> now == d)
    ensures forall left :: AfterQuarantine(d, name, Fails(left)) == d
  {
  }

  // A deletion that works removes the directory and nothing else.
  lemma DeletionRemoves(d: Disk, name: string, suffix: string)
    ensures AfterDelete(d, name, Works(suffix)) == d.(sandboxes := d.sandboxes - {name})
  {
  }

  // The instances a loadable sandbox may own.
  lemma InstancesAre(prefix: string, name: string, principal: string, instance: string)
    ensures instance in InstanceNames(prefix, name, principal)
       <==> instance == prefix + name || (principal == "" && instance == "yoloai-" + name)
  {
  }
}
