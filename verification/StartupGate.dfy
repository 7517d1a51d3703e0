/**
 The startup gate (internal/cli/gate.go): it builds an absent data directory,
 finishes a build that was interrupted, and refuses everything it did not make.
 The process may die after any single change to the disk.
 */
module StartupGate {
  import opened Results

  // ---------- the disk ----------

  datatype Stamp = NoStamp | Unparsable | Version(version: int)

  type Files = map<string, string>

  // A realm's directory: its version stamp, its other files, and the temporary
  // files that interrupted atomic writes left behind.
  datatype Realm = Absent | PlainFile | Unreadable | Directory(stamp: Stamp, files: Files, temps: nat)

  datatype Disk =
    | NoTop
    | TopIsFile
    | Top(sentinel: bool, cli: Realm, library: Realm, others: Files, temps: nat)

  const CLI_VERSION: int := 1
  const LIBRARY_VERSION: int := 6

  datatype Status = Fresh | Migrate | Current

  datatype GateError =
    | MigrationRequired(namespace: string)
    | InconsistentDataDir
    | NewerThanBuild
    | BadStamp
    | Unlistable
    | Died

  function RealmStatus(realm: Realm, current: int): Result<Status, GateError> {
    match realm
    case Absent => Ok(Fresh)
    case PlainFile => Ok(Migrate)
    case Unreadable => Err(Unlistable)
    case Directory(stamp, files, temps) =>
      if stamp == NoStamp && files == map[] && temps == 0 then Ok(Fresh)
      else if stamp == Unparsable then Err(BadStamp)
      else
        // An unstamped directory reads as version 0.
        var version := if stamp.Version? then stamp.version else 0;
        if version > current then Err(NewerThanBuild)
        else if version < current then Ok(Migrate)
        else Ok(Current)
  }

  function CliStatus(d: Disk): Result<Status, GateError>
    requires d.Top?
  {
    RealmStatus(d.cli, CLI_VERSION)
  }

  function LibraryStatus(d: Disk): Result<Status, GateError>
    requires d.Top?
  {
    RealmStatus(d.library, LIBRARY_VERSION)
  }

  // Nothing but, at most, the sentinel.
  predicate AbsentOrEmpty(d: Disk) {
    d.NoTop? || (d.Top? && d.cli.Absent? && d.library.Absent? && d.others == map[] && d.temps == 0)
  }

  // ---------- the build, one disk change at a time ----------

  datatype Change =
    | MakeTop
    | MarkTemp | MarkRename
    | MakeCli | CliTemp | CliStamp
    | MakeLibrary | LibraryTemp | LibraryStamp
    | ClearSentinel

  const BUILD: seq<Change> :=
    [MakeTop, MarkTemp, MarkRename, MakeCli, CliTemp, CliStamp, MakeLibrary, LibraryTemp, LibraryStamp,
     ClearSentinel]

  // A death before, between or after the calls of initFreshDataDir.
  predicate BetweenCalls(cut: nat) {
    cut == 0 || cut == 1 || cut == 3 || cut == 6 || cut == 9 || cut >= |BUILD|
  }

  function MakeDir(realm: Realm): Realm {
    if realm.Absent? then Directory(NoStamp, map[], 0) else realm
  }

  function AddTemp(realm: Realm): Realm {
    if realm.Directory? then realm.(temps := realm.temps + 1) else realm
  }

  function RenameStamp(realm: Realm, version: int): Realm {
    if realm.Directory? && realm.temps > 0 then realm.(stamp := Version(version), temps := realm.temps - 1)
    else realm
  }

  function Apply(d: Disk, change: Change): Disk {
    if change.MakeTop? then (if d.NoTop? then Top(false, Absent, Absent, map[], 0) else d)
    else if !d.Top? then d
    else
      match change
      case MakeTop => d
      case MarkTemp => d.(temps := d.temps + 1)
      case MarkRename => if d.temps > 0 then d.(sentinel := true, temps := d.temps - 1) else d
      case MakeCli => d.(cli := MakeDir(d.cli))
      case CliTemp => d.(cli := AddTemp(d.cli))
      case CliStamp => d.(cli := RenameStamp(d.cli, CLI_VERSION))
      case MakeLibrary => d.(library := MakeDir(d.library))
      case LibraryTemp => d.(library := AddTemp(d.library))
      case LibraryStamp => d.(library := RenameStamp(d.library, LIBRARY_VERSION))
      case ClearSentinel => d.(sentinel := false)
  }

  // The disk after the first k changes of a build.
  function Built(d: Disk, k: nat): Disk
    requires k <= |BUILD|
  {
    if k == 0 then d else Apply(Built(d, k - 1), BUILD[k - 1])
  }

  // ---------- the gate ----------

  datatype Decision = Build | Clear | Proceed | Refuse(error: GateError)

  predicate Resumable(d: Disk, cli: Status, library: Status)
    requires d.Top?
  {
    d.sentinel && !cli.Migrate? && !library.Migrate?
  }

  // migratingNamespace: the realm to migrate, "" when both are.
  function MigratingNamespace(cli: Status, library: Status): string {
    if cli.Migrate? && library.Migrate? then "" else if cli.Migrate? then "cli" else "library"
  }

  function CheckStatus(d: Disk): Decision
    requires d.Top?
  {
    if CliStatus(d).Err? then Refuse(CliStatus(d).error)
    else if LibraryStatus(d).Err? then Refuse(LibraryStatus(d).error)
    else
      var cli, library := CliStatus(d).value, LibraryStatus(d).value;
      if cli.Fresh? && library.Fresh? then Refuse(MigrationRequired(""))
      else if cli.Fresh? != library.Fresh? then
        if Resumable(d, cli, library) then Build else Refuse(InconsistentDataDir)
      else if cli.Migrate? || library.Migrate? then
        Refuse(MigrationRequired(MigratingNamespace(cli, library)))
      else if d.sentinel then Clear
      else Proceed
  }

  function Decide(d: Disk): Decision {
    if d.TopIsFile? then Refuse(Unlistable)
    else if AbsentOrEmpty(d) then Build
    else CheckStatus(d)
  }

  function AtMost(cut: nat, k: nat): nat {
    if cut < k then cut else k
  }

  // One gate run that dies after `cut` changes to the disk, or completes before that.
  function Gate(d: Disk, cut: nat): Disk {
    match Decide(d)
    case Build => Built(d, AtMost(cut, |BUILD|))
    case Clear => if cut == 0 then d else Apply(d, ClearSentinel)
    case Proceed => d
    case Refuse(_) => d
  }

  function Outcome(d: Disk, cut: nat): Result<(), GateError> {
    match Decide(d)
    case Build => if cut < |BUILD| then Err(Died) else Ok(())
    case Clear => if cut == 0 then Err(Died) else Ok(())
    case Proceed => Ok(())
    case Refuse(error) => Err(error)
  }

  // Gate runs one after the other, each with its own cut.
  function Gates(d: Disk, cuts: seq<nat>): Disk {
    if cuts == [] then d
    else Gate(Gates(d, cuts[..|cuts| - 1]), cuts[|cuts| - 1])
  }

  class DataDirectory {
    var disk: Disk

    // dirAbsentOrEmpty: every name listed against the sentinel's.
    method DirAbsentOrEmpty(listing: Listing) returns (r: Result<bool, GateError>)
      requires Lists(listing, disk)
      ensures listing.Failed? ==> r == Err(Unlistable)
      ensures !listing.Failed? ==> r == Ok(AbsentOrEmpty(disk))
    {
      if listing.Failed? {
        return Err(Unlistable);
      }
      if listing.NotExist? {
        return Ok(true);
      }
      var names := listing.names;
      var k := 0;
      while k < |names|
        invariant 0 <= k <= |names|
        invariant forall j :: 0 <= j < k ==> names[j] == SENTINEL
      {
        if names[k] != SENTINEL {
          assert names[k] in names;
          return Ok(false);
        }
        k := k + 1;
      }
      assert SENTINEL[1] != TEMP_PREFIX[1];
      assert forall n :: n in names ==> n == SENTINEL;
      assert disk.others == map[] by {
        assert forall n :: n !in disk.others;
      }
      return Ok(true);
    }

    // One change to the disk, by a process that may be dead by then.
    method Do(change: Change, lives: bool)
      modifies this
      ensures disk == if lives then Apply(old(disk), change) else old(disk)
    {
      if lives {
        disk := Apply(disk, change);
      }
    }

    // An atomic write is a temporary file and its rename into place.
    method MarkInitializing(ghost d: Disk, cut: nat)
      requires disk == Built(d, AtMost(cut, 1))
      modifies this
      ensures disk == Built(d, AtMost(cut, 3))
    {
      Advances(d, cut, 1);
      Do(MarkTemp, 1 < cut);
      Advances(d, cut, 2);
      Do(MarkRename, 2 < cut);
    }

    method CreateFreshCli(ghost d: Disk, cut: nat)
      requires disk == Built(d, AtMost(cut, 3))
      modifies this
      ensures disk == Built(d, AtMost(cut, 6))
    {
      Advances(d, cut, 3);
      Do(MakeCli, 3 < cut);
      Advances(d, cut, 4);
      Do(CliTemp, 4 < cut);
      Advances(d, cut, 5);
      Do(CliStamp, 5 < cut);
    }

    method CreateFreshLibrary(ghost d: Disk, cut: nat)
      requires disk == Built(d, AtMost(cut, 6))
      modifies this
      ensures disk == Built(d, AtMost(cut, 9))
    {
      Advances(d, cut, 6);
      Do(MakeLibrary, 6 < cut);
      Advances(d, cut, 7);
      Do(LibraryTemp, 7 < cut);
      Advances(d, cut, 8);
      Do(LibraryStamp, 8 < cut);
    }

    // initFreshDataDir, dying after `cut` changes.
    method InitFreshDataDir(cut: nat) returns (finished: bool)
      modifies this
      ensures disk == Built(old(disk), AtMost(cut, |BUILD|))
      ensures finished <==> cut >= |BUILD|
    {
      ghost var d := disk;
      Advances(d, cut, 0);
      Do(MakeTop, 0 < cut);
      MarkInitializing(d, cut);
      CreateFreshCli(d, cut);
      CreateFreshLibrary(d, cut);
      Advances(d, cut, 9);
      Do(ClearSentinel, 9 < cut);
      finished := cut >= |BUILD|;
    }

    // resumableInit.
    method ResumableInit(cli: Status, library: Status) returns (resumable: bool)
      requires disk.Top?
      ensures resumable <==> Resumable(disk, cli, library)
    {
      if !disk.sentinel {
        return false;
      }
      return cli != Migrate && library != Migrate;
    }

    // checkDataDirStatus.
    method CheckDataDirStatus(cut: nat) returns (r: Result<(), GateError>)
      requires disk.Top? && !AbsentOrEmpty(disk)
      modifies this
      ensures disk == Gate(old(disk), cut)
      ensures r == Outcome(old(disk), cut)
    {
      var cli := CliStatus(disk);
      if cli.Err? {
        return Err(cli.error);
      }
      var library := LibraryStatus(disk);
      if library.Err? {
        return Err(library.error);
      }
      var cliFresh, libraryFresh := cli.value == Fresh, library.value == Fresh;
      if cliFresh && libraryFresh {
        return Err(MigrationRequired(""));
      }
      if cliFresh != libraryFresh {
        var resumable := ResumableInit(cli.value, library.value);
        if resumable {
          var finished := InitFreshDataDir(cut);
          return if finished then Ok(()) else Err(Died);
        }
        return Err(InconsistentDataDir);
      }
      if cli.value == Migrate || library.value == Migrate {
        return Err(MigrationRequired(MigratingNamespace(cli.value, library.value)));
      }
      if disk.sentinel {
        if cut == 0 {
          return Err(Died);
        }
        disk := Apply(disk, ClearSentinel);
      }
      return Ok(());
    }

    // runMigrationGate, by a process that dies after `cut` changes: `command` is the
    // command with its ancestors, `listing` what reading TOP returned.
    method RunMigrationGate(command: seq<Command>, listing: Listing, cut: nat) returns (r: Result<(), GateError>)
      requires Lists(listing, disk)
      modifies this
      ensures Exempt(command) ==> r == Ok(()) && disk == old(disk)
      ensures !Exempt(command) && listing.Failed? ==> r == Err(Unlistable) && disk == old(disk)
      ensures !Exempt(command) && !listing.Failed? ==>
                r == Outcome(old(disk), cut) && disk == Gate(old(disk), cut)
    {
      var exempt := GateExempt(command);
      if exempt {
        return Ok(());
      }
      var empty := DirAbsentOrEmpty(listing);
      if empty.Err? {
        return Err(empty.error);
      }
      if empty.value {
        var finished := InitFreshDataDir(cut);
        return if finished then Ok(()) else Err(Died);
      }
      r := CheckDataDirStatus(cut);
    }
  }

  // How far a build that dies after `cut` changes is after its k-th.
  lemma Advances(d: Disk, cut: nat, k: nat)
    requires k < |BUILD|
    ensures Built(d, AtMost(cut, k + 1))
         == if k < cut then Apply(Built(d, AtMost(cut, k)), BUILD[k]) else Built(d, AtMost(cut, k))
  {
  }

  datatype Command = Command(name: string, skipsGate: bool)

  ghost predicate Exempt(command: seq<Command>) {
    exists k :: 0 <= k < |command| && ExemptAlone(command[k])
  }

  predicate ExemptAlone(c: Command) {
    c.skipsGate || c.name in ["__complete", "__completeNoDesc", "completion"]
  }

  // gateExempt: the command and then its ancestors.
  method GateExempt(command: seq<Command>) returns (exempt: bool)
    ensures exempt <==> Exempt(command)
  {
    for k := 0 to |command|
      invariant forall j :: 0 <= j < k ==> !ExemptAlone(command[j])
    {
      if ExemptAlone(command[k]) {
        return true;
      }
    }
    return false;
  }

  const SENTINEL := ".initializing"

  // The sentinel is written through a temporary file beside it.
  const TEMP_PREFIX := "..initializing.tmp-"

  datatype Listing = NotExist | Failed | Names(names: seq<string>)

  // What reading TOP may return. Reading a file fails; reading a directory may.
  ghost predicate Lists(listing: Listing, d: Disk) {
    match listing
    case NotExist => d.NoTop?
    case Failed => !d.NoTop?
    case Names(names) => d.Top? && ListsNames(names, d)
  }

  // Each entry's name, the temporary files under names of their own.
  ghost predicate ListsNames(names: seq<string>, d: Disk)
    requires d.Top?
  {
    && SENTINEL !in d.others && "cli" !in d.others && "library" !in d.others
    && (d.sentinel <==> SENTINEL in names)
    && (!d.cli.Absent? <==> "cli" in names)
    && (!d.library.Absent? <==> "library" in names)
    && (forall n :: n in d.others ==> n in names)
    && (d.temps > 0 <==> exists n :: n in names && IsTemp(d, n))
    && (forall n :: n in names ==> n in d.others || n in [SENTINEL, "cli", "library"] || IsTemp(d, n))
  }

  predicate IsTemp(d: Disk, n: string)
    requires d.Top?
  {
    TEMP_PREFIX <= n && n !in d.others
  }

  // ---------- what every run keeps ----------

  // A realm this build may not touch: to be converted first, or from a newer build.
  predicate Foreign(s: Result<Status, GateError>) {
    s.Err? || s.value.Migrate?
  }

  lemma RefusalIsForever(d: Disk, cuts: seq<nat>)
    requires Decide(d).Refuse?
    ensures Gates(d, cuts) == d
  {
    if cuts != [] {
      RefusalIsForever(d, cuts[..|cuts| - 1]);
    }
  }

  // In every run, complete or interrupted anywhere, a realm that needs migrating or
  // is unreadable keeps the whole disk as it was.
  lemma NeverWritesUnconverted(d: Disk, cuts: seq<nat>)
    requires d.Top? && (Foreign(CliStatus(d)) || Foreign(LibraryStatus(d)))
    ensures Gates(d, cuts) == d && (forall cut :: Outcome(d, cut).Err?)
  {
    RefusalIsForever(d, cuts);
  }

  // A directory holding anything, without the sentinel, is never written.
  lemma {:induction false} NeverWritesUnmarked(d: Disk, cuts: seq<nat>)
    requires d.TopIsFile? || (d.Top? && !d.sentinel && !AbsentOrEmpty(d))
    ensures Gates(d, cuts) == d
  {
    if cuts != [] {
      NeverWritesUnmarked(d, cuts[..|cuts| - 1]);
    }
  }

  // ---------- recovery ----------

  predicate Complete(d: Disk) {
    d.Top? && CliStatus(d) == Ok(Current) && LibraryStatus(d) == Ok(Current) && !d.sentinel
  }

  // What a user could look for: nothing there yet, both realms stamped, or the
  // sentinel with one realm stamped and the other missing or an empty directory.
  predicate Recoverable(d: Disk) {
    || AbsentOrEmpty(d)
    || (d.Top? && Stamped(d.cli, CLI_VERSION) && Stamped(d.library, LIBRARY_VERSION))
    || (d.Top? && d.sentinel && Stamped(d.cli, CLI_VERSION) && Empty(d.library))
    || (d.Top? && d.sentinel && Empty(d.cli) && Stamped(d.library, LIBRARY_VERSION))
  }

  predicate Stamped(realm: Realm, version: int) {
    realm.Directory? && realm.stamp == Version(version)
  }

  predicate Empty(realm: Realm) {
    realm.Absent? || realm == Directory(NoStamp, map[], 0)
  }

  // What the user had before the gate and must have after it: everything but the
  // marks of the build.
  predicate SameContent(d: Disk, e: Disk) {
    && e.Top?
    && e.others == (if d.Top? then d.others else map[])
    && e.temps == (if d.Top? then d.temps else 0)
    && SameFiles(if d.Top? then d.cli else Absent, e.cli)
    && SameFiles(if d.Top? then d.library else Absent, e.library)
  }

  predicate SameFiles(realm: Realm, now: Realm) {
    now.Directory? && now.files == (if realm.Directory? then realm.files else map[])
  }

  // An uninterrupted gate run succeeds exactly on the recoverable disks; it then ends
  // with both realms current, no sentinel and the user's files as they were, and
  // otherwise changes nothing.
  lemma GateSucceedsIff(d: Disk)
    ensures Outcome(d, |BUILD|).Ok? <==> Recoverable(d)
    ensures Recoverable(d) ==> Complete(Gate(d, |BUILD|)) && SameContent(d, Gate(d, |BUILD|))
    ensures !Recoverable(d) ==> Gate(d, |BUILD|) == d
  {
    if Decide(d).Build? {
      BuildCompletes(d);
    }
  }

  // TOP once it exists.
  function Base(d: Disk): (b: Disk)
    requires !d.TopIsFile?
    ensures b.Top?
  {
    if d.NoTop? then Top(false, Absent, Absent, map[], 0) else d
  }

  function Finished(realm: Realm, version: int): Realm
  {
    if realm.Directory? then realm.(stamp := Version(version)) else Directory(Version(version), map[], 0)
  }

  // TOP with the sentinel and a current cli realm.
  function CliDone(d: Disk): (c: Disk)
    requires !d.TopIsFile?
    ensures c.Top?
  {
    var b := Base(d);
    b.(sentinel := true, cli := Finished(b.cli, CLI_VERSION))
  }

  // What a build starts from: nothing, or the sentinel and one realm still to make.
  lemma BuildStarts(d: Disk)
    requires Decide(d).Build?
    ensures Recoverable(d) && !d.TopIsFile?
    ensures var b := Base(d);
            && (Stamped(b.cli, CLI_VERSION) || Empty(b.cli))
            && (Stamped(b.library, LIBRARY_VERSION) || Empty(b.library))
            && (Empty(b.cli) && Empty(b.library) ==> AbsentOrEmpty(d))
            && (!AbsentOrEmpty(d) ==> d.sentinel)
  {
  }

  lemma BuiltStep(d: Disk, k: nat, change: Change, was: Disk, now: Disk)
    requires k < |BUILD| && BUILD[k] == change && Built(d, k) == was && Apply(was, change) == now
    ensures Built(d, k + 1) == now
  {
  }

  lemma BuildFormsTop(d: Disk)
    requires !d.TopIsFile?
    ensures Built(d, 0) == d
    ensures Built(d, 1) == Base(d)
    ensures Built(d, 2) == Base(d).(temps := Base(d).temps + 1)
    ensures Built(d, 3) == Base(d).(sentinel := true)
  {
    var b := Base(d);
    BuiltStep(d, 0, MakeTop, d, b);
    BuiltStep(d, 1, MarkTemp, b, b.(temps := b.temps + 1));
    BuiltStep(d, 2, MarkRename, b.(temps := b.temps + 1), b.(sentinel := true));
  }

  lemma BuildFormsCli(d: Disk)
    requires !d.TopIsFile? && (Base(d).cli.Absent? || Base(d).cli.Directory?)
    ensures var b := Base(d).(sentinel := true);
            && Built(d, 4) == b.(cli := MakeDir(b.cli))
            && Built(d, 5) == b.(cli := AddTemp(MakeDir(b.cli)))
            && Built(d, 6) == b.(cli := Finished(b.cli, CLI_VERSION))
  {
    BuildFormsTop(d);
    var b := Base(d).(sentinel := true);
    var b4, b5 := b.(cli := MakeDir(b.cli)), b.(cli := AddTemp(MakeDir(b.cli)));
    BuiltStep(d, 3, MakeCli, b, b4);
    BuiltStep(d, 4, CliTemp, b4, b5);
    StampRealm(b.cli, CLI_VERSION);
    BuiltStep(d, 5, CliStamp, b5, b.(cli := Finished(b.cli, CLI_VERSION)));
  }

  lemma StampRealm(realm: Realm, version: int)
    requires realm.Absent? || realm.Directory?
    ensures RenameStamp(AddTemp(MakeDir(realm)), version) == Finished(realm, version)
  {
  }

  lemma BuildFormsLibraryDir(d: Disk, c: Disk)
    requires c.Top? && Built(d, 6) == c
    ensures Built(d, 7) == c.(library := MakeDir(c.library))
    ensures Built(d, 8) == c.(library := AddTemp(MakeDir(c.library)))
  {
    var c7, c8 := c.(library := MakeDir(c.library)), c.(library := AddTemp(MakeDir(c.library)));
    BuiltStep(d, 6, MakeLibrary, c, c7);
    BuiltStep(d, 7, LibraryTemp, c7, c8);
  }

  lemma BuildFormsLibrary(d: Disk, c: Disk)
    requires c.Top? && c.sentinel && (c.library.Absent? || c.library.Directory?)
    requires Built(d, 8) == c.(library := AddTemp(MakeDir(c.library)))
    ensures Built(d, 9) == c.(library := Finished(c.library, LIBRARY_VERSION))
  {
    StampRealm(c.library, LIBRARY_VERSION);
    BuiltStep(d, 8, LibraryStamp, c.(library := AddTemp(MakeDir(c.library))),
              c.(library := Finished(c.library, LIBRARY_VERSION)));
  }

  lemma BuildFormsEnd(d: Disk, c: Disk)
    requires c.Top? && Built(d, 9) == c
    ensures Built(d, 10) == c.(sentinel := false)
  {
    Advances(d, 10, 9);
    assert AtMost(10, 10) == 10 && AtMost(10, 9) == 9;
  }

  lemma BuildCompletes(d: Disk)
    requires Decide(d).Build?
    ensures Recoverable(d) && Complete(Built(d, 10)) && SameContent(d, Built(d, 10))
  {
    BuildStarts(d);
    BuildFormsCli(d);
    BuildFormsLibraryDir(d, CliDone(d));
    BuildFormsLibrary(d, CliDone(d));
    BuildFormsEnd(d, CliDone(d).(library := Finished(CliDone(d).library, LIBRARY_VERSION)));
    CompleteForm(d);
  }

  lemma CompleteForm(d: Disk)
    requires !d.TopIsFile?
    requires Stamped(Base(d).cli, CLI_VERSION) || Empty(Base(d).cli)
    requires Stamped(Base(d).library, LIBRARY_VERSION) || Empty(Base(d).library)
    ensures var c := CliDone(d);
            var e := c.(library := Finished(c.library, LIBRARY_VERSION), sentinel := false);
            Complete(e) && SameContent(d, e)
  {
  }

  // The changes after which a death leaves something the gate will refuse: a
  // temporary file or an empty cli directory beside the sentinel while no realm is
  // stamped, or a temporary file in a realm not yet stamped.
  predicate WedgePoint(cliStamped: bool, libraryStamped: bool, cut: nat) {
    || ((cut == 2 || cut == 4) && !cliStamped && !libraryStamped)
    || (cut == 5 && !cliStamped)
    || (cut == 8 && !libraryStamped)
  }

  predicate Wedges(d: Disk, cut: nat) {
    Decide(d).Build?
    && WedgePoint(d.Top? && Stamped(d.cli, CLI_VERSION), d.Top? && Stamped(d.library, LIBRARY_VERSION), cut)
  }

  // From a recoverable disk, a run cut short anywhere leaves a recoverable disk
  // except at exactly those points.
  lemma InterruptedRecoverableIff(d: Disk, cut: nat)
    requires Recoverable(d)
    ensures Recoverable(Gate(d, cut)) <==> !Wedges(d, cut)
  {
    if Decide(d).Build? {
      CutBuild(d, AtMost(cut, |BUILD|));
    }
  }

  lemma CutBuild(d: Disk, k: nat)
    requires Decide(d).Build? && k <= 10
    ensures Recoverable(Built(d, k)) <==> !Wedges(d, k)
  {
    BuildStarts(d);
    if k <= 3 {
      CutAtTop(d, k);
    } else if k <= 6 {
      CutAtCli(d, k);
    } else {
      CutAtLibrary(d, k);
    }
  }

  predicate CliStamped(d: Disk)
    requires !d.TopIsFile?
  {
    Stamped(Base(d).cli, CLI_VERSION)
  }

  predicate LibraryStamped(d: Disk)
    requires !d.TopIsFile?
  {
    Stamped(Base(d).library, LIBRARY_VERSION)
  }

  lemma CutAtTop(d: Disk, k: nat)
    requires Decide(d).Build? && k <= 3
    ensures !d.TopIsFile? && (Recoverable(Built(d, k)) <==> !WedgePoint(CliStamped(d), LibraryStamped(d), k))
  {
    CutForms(d);
  }

  lemma CutForms(d: Disk)
    requires Decide(d).Build?
    ensures !d.TopIsFile? && Recoverable(Built(d, 0)) && Recoverable(Built(d, 1)) && Recoverable(Built(d, 3))
    ensures Recoverable(Built(d, 2)) <==> CliStamped(d) || LibraryStamped(d)
  {
    CutBeforeRealms(d);
    BuildFormsTop(d);
  }

  lemma CutAtCli(d: Disk, k: nat)
    requires Decide(d).Build? && 4 <= k <= 6
    ensures !d.TopIsFile? && (Recoverable(Built(d, k)) <==> !WedgePoint(CliStamped(d), LibraryStamped(d), k))
  {
    BuildStarts(d);
    BuildFormsCli(d);
    CutInCli(Base(d).(sentinel := true));
  }

  lemma CutAtLibrary(d: Disk, k: nat)
    requires Decide(d).Build? && 7 <= k <= 10
    ensures !d.TopIsFile? && (Recoverable(Built(d, k)) <==> !WedgePoint(CliStamped(d), LibraryStamped(d), k))
  {
    BuildStarts(d);
    BuildFormsCli(d);
    BuildFormsLibraryDir(d, CliDone(d));
    BuildFormsLibrary(d, CliDone(d));
    BuildFormsEnd(d, CliDone(d).(library := Finished(CliDone(d).library, LIBRARY_VERSION)));
    CutInLibrary(CliDone(d));
  }

  lemma CutBeforeRealms(d: Disk)
    requires Decide(d).Build?
    ensures !d.TopIsFile? && Recoverable(d) && Recoverable(Base(d)) && Recoverable(Base(d).(sentinel := true))
    ensures Recoverable(Base(d).(temps := Base(d).temps + 1)) <==> CliStamped(d) || LibraryStamped(d)
  {
    BuildStarts(d);
  }

  lemma CutInCli(b: Disk)
    requires b.Top? && b.sentinel
    requires Stamped(b.cli, CLI_VERSION) || Empty(b.cli)
    requires Stamped(b.library, LIBRARY_VERSION) || Empty(b.library)
    ensures Recoverable(b.(cli := MakeDir(b.cli)))
       <==> Stamped(b.cli, CLI_VERSION) || Stamped(b.library, LIBRARY_VERSION)
    ensures Recoverable(b.(cli := AddTemp(MakeDir(b.cli)))) <==> Stamped(b.cli, CLI_VERSION)
    ensures Recoverable(b.(cli := Finished(b.cli, CLI_VERSION)))
  {
  }

  lemma CutInLibrary(c: Disk)
    requires c.Top? && Stamped(c.cli, CLI_VERSION) && c.sentinel
    requires Stamped(c.library, LIBRARY_VERSION) || Empty(c.library)
    ensures Recoverable(c.(library := MakeDir(c.library)))
    ensures Recoverable(c.(library := AddTemp(MakeDir(c.library)))) <==> Stamped(c.library, LIBRARY_VERSION)
    ensures Recoverable(c.(library := Finished(c.library, LIBRARY_VERSION)))
    ensures Recoverable(c.(library := Finished(c.library, LIBRARY_VERSION), sentinel := false))
  {
  }

  // Any run of gate runs interrupted between the calls of the build, then one
  // uninterrupted: both realms are current and the sentinel is gone.
  lemma GateRecovers(d: Disk, cuts: seq<nat>)
    requires Recoverable(d)
    requires forall k :: 0 <= k < |cuts| ==> BetweenCalls(cuts[k])
    ensures Complete(Gate(Gates(d, cuts), |BUILD|))
    ensures Outcome(Gates(d, cuts), |BUILD|).Ok?
  {
    StaysRecoverable(d, cuts);
    GateSucceedsIff(Gates(d, cuts));
  }

  lemma BetweenCallsIsSafe(d: Disk, cut: nat)
    requires Recoverable(d) && BetweenCalls(cut)
    ensures Recoverable(Gate(d, cut))
  {
    InterruptedRecoverableIff(d, cut);
  }

  lemma {:induction false} StaysRecoverable(d: Disk, cuts: seq<nat>)
    requires Recoverable(d)
    requires forall k :: 0 <= k < |cuts| ==> BetweenCalls(cuts[k])
    ensures Recoverable(Gates(d, cuts))
  {
    if cuts != [] {
      StaysRecoverable(d, cuts[..|cuts| - 1]);
      BetweenCallsIsSafe(Gates(d, cuts[..|cuts| - 1]), cuts[|cuts| - 1]);
    }
  }

  // A wedged directory is never freed by the gate: every later run refuses.
  lemma WedgeIsForever(d: Disk, cut: nat, cuts: seq<nat>)
    requires Recoverable(d) && Wedges(d, cut)
    ensures Gates(Gate(d, cut), cuts) == Gate(d, cut)
    ensures Outcome(Gate(d, cut), |BUILD|).Err?
  {
    InterruptedRecoverableIff(d, cut);
    GateSucceedsIff(Gate(d, cut));
    RefusalIsForever(Gate(d, cut), cuts);
  }

  // Dying between creating the cli directory of a first run and stamping it is one
  // such point, although the sentinel is in place.
  lemma EmptyCliDirectoryWedges()
    ensures Gate(NoTop, 4) == Top(true, Directory(NoStamp, map[], 0), Absent, map[], 0)
    ensures Decide(Gate(NoTop, 4)) == Refuse(MigrationRequired(""))
  {
    BuildFormsTop(NoTop);
    BuildFormsCli(NoTop);
  }

  // The directory a death at the second change leaves, as a later run lists it.
  lemma LeftoverIsListed()
    ensures Gate(NoTop, 2) == Top(false, Absent, Absent, map[], 1)
    ensures Lists(Names(["..initializing.tmp-1"]), Gate(NoTop, 2))
    ensures Decide(Gate(NoTop, 2)) == Refuse(MigrationRequired(""))
  {
    BuildFormsTop(NoTop);
    ListedTemp("..initializing.tmp-1");
  }

  lemma ListedTemp(n: string)
    requires TEMP_PREFIX <= n
    ensures ListsNames([n], Top(false, Absent, Absent, map[], 1))
  {
    var d := Top(false, Absent, Absent, map[], 1);
    assert n[1] == TEMP_PREFIX[1] == '.';
    assert n in [n] && IsTemp(d, n);
  }

  // ---------- what the gate says ----------

  // The status of a realm, from what is on disk.
  lemma StatusExactly(realm: Realm, current: int)
    requires current > 0
    ensures RealmStatus(realm, current) == Ok(Fresh)
       <==> realm == Absent || realm == Directory(NoStamp, map[], 0)
    ensures RealmStatus(realm, current) == Ok(Current)
       <==> realm.Directory? && realm.stamp == Version(current)
    ensures RealmStatus(realm, current) == Ok(Migrate)
       <==> || realm == PlainFile
            || (realm.Directory? && realm.stamp.Version? && realm.stamp.version < current)
            || (realm.Directory? && realm.stamp == NoStamp && (realm.files != map[] || realm.temps > 0))
    ensures RealmStatus(realm, current) == Err(NewerThanBuild)
       <==> realm.Directory? && realm.stamp.Version? && realm.stamp.version > current
    ensures RealmStatus(realm, current) == Err(BadStamp)
       <==> realm.Directory? && realm.stamp == Unparsable
    ensures RealmStatus(realm, current) == Err(Unlistable) <==> realm == Unreadable
  {
  }

  predicate Older(realm: Realm, current: int) {
    realm.Directory? && realm.stamp.Version? && realm.stamp.version < current
  }

  predicate Newer(realm: Realm, current: int) {
    realm.Directory? && realm.stamp.Version? && realm.stamp.version > current
  }

  // Which error a populated directory meets with: a newer realm asks for an upgrade, an
  // older one for a migration of that realm, and a realm missing beside a populated one
  // is an inconsistency unless a build left its sentinel and the other is current.
  lemma RefusalsAre(d: Disk, cut: nat)
    requires d.Top?
    ensures Newer(d.cli, 1) ==> Outcome(d, cut) == Err(NewerThanBuild)
    ensures Stamped(d.cli, 1) && Newer(d.library, 6) ==> Outcome(d, cut) == Err(NewerThanBuild)
    ensures Older(d.cli, 1) && Older(d.library, 6) ==> Outcome(d, cut) == Err(MigrationRequired(""))
    ensures Older(d.cli, 1) && Stamped(d.library, 6) ==> Outcome(d, cut) == Err(MigrationRequired("cli"))
    ensures Stamped(d.cli, 1) && Older(d.library, 6) ==> Outcome(d, cut) == Err(MigrationRequired("library"))
    ensures Empty(d.cli) && Older(d.library, 6) ==> Outcome(d, cut) == Err(InconsistentDataDir)
    ensures Older(d.cli, 1) && Empty(d.library) ==> Outcome(d, cut) == Err(InconsistentDataDir)
    ensures Stamped(d.cli, 1) && Empty(d.library) && !d.sentinel ==> Outcome(d, cut) == Err(InconsistentDataDir)
    ensures Empty(d.cli) && Stamped(d.library, 6) && !d.sentinel ==> Outcome(d, cut) == Err(InconsistentDataDir)
    ensures d.cli.Absent? && d.library.Absent? && d.others != map[] ==> Outcome(d, cut) == Err(MigrationRequired(""))
  {
  }

  // The commands that pass the gate unseen.
  lemma ExemptExactly(command: seq<Command>)
    ensures Exempt(command)
       <==> exists c :: c in command
              && (c.skipsGate || c.name == "__complete" || c.name == "__completeNoDesc" || c.name == "completion")
  {
    if Exempt(command) {
      var k :| 0 <= k < |command| && ExemptAlone(command[k]);
      assert command[k] in command;
    }
  }
}
