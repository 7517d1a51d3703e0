/**
 The versioned handle over one JSON document: Load, Update and Migrate
 (store/handle.go). A record is seen through its JSON fields; how a record type
 decodes, edits and migrates its fields is a parameter.
 */
module DocumentHandle {
  import opened Results
  import opened JsonDocument
  import Runs

  type GoInt = n: int | MIN_INT <= n <= MAX_INT

  datatype File = Absent | Unparsable | Holds(j: Json)

  datatype Error =
    | ReadFailed
    | BadSection(cause: ReadError)
    | NeedsMigration
    | TooNew
    | Undecodable
    | Refused
    | NilMapPanic
    | WriteFailed

  // How the atomic replacement of the file ends. A failing directory fsync
  // reports an error although the new document is already in place.
  datatype WriteOutcome = Written | FailedBeforeRename | FailedAfterRename

  // readDoc: a null document decodes to a nil map and so counts as absent.
  function ReadDoc(f: File): Result<Option<Fields>, Error> {
    match f
    case Absent => Ok(None)
    case Unparsable => Err(ReadFailed)
    case Holds(j) =>
      match AsMap(j)
      case Err(_) => Err(ReadFailed)
      case Ok(m) => Ok(m)
  }

  function CheckVersion(onDisk: int, schema: int): Option<Error> {
    if onDisk > schema then Some(TooNew)
    else if onDisk < schema then Some(NeedsMigration)
    else None
  }

  // stampVersion.
  function Stamp(record: Fields, schema: GoInt): Fields {
    record["version" := Int(schema)]
  }

  function Reached(doc: Option<Fields>, path: Path): Result<Found, Error> {
    if doc.None? then Ok(Found(None, 0))
    else
      match Extracted(doc, path)
      case Err(e) => Err(BadSection(e))
      case Ok(found) => Ok(found)
  }

  // setSection: the whole document after the section is written.
  function SetSection(doc: Option<Fields>, path: Path, section: Fields): Result<Fields, Error> {
    if path == [] then Ok(section)
    else
      match SetNested(Some(if doc.None? then map[] else doc.value), path, Obj(section))
      case Stored(fields) => Ok(fields)
      case Rejected => Err(BadSection(NotAnObject))
      case Panicked => Err(NilMapPanic)
  }

  // ---------- what each operation reads and writes ----------

  // Load, up to the final unmarshal of the section into the record.
  function Loaded(f: File, path: Path, schema: GoInt): Result<Option<Fields>, Error> {
    match ReadDoc(f)
    case Err(e) => Err(e)
    case Ok(doc) =>
      match Reached(doc, path)
      case Err(e) => Err(e)
      case Ok(found) =>
        if found.section.None? then Ok(None)
        else
          match CheckVersion(found.version, schema)
          case Some(e) => Err(e)
          case None => Ok(found.section)
  }

  // Load into a record type that accepts some sections.
  function LoadedInto(f: File, path: Path, schema: GoInt, decodes: Fields -> bool): Result<Option<Fields>, Error> {
    match Loaded(f, path, schema)
    case Ok(Some(section)) => if decodes(section) then Ok(Some(section)) else Err(Undecodable)
    case r => r
  }

  // An Update call: `edit` decodes the section it is handed (None when absent),
  // runs the caller's mutation and encodes the record again; None means that the
  // section does not decode or the mutation returned an error.
  datatype Update = Update(path: Path, schema: GoInt, edit: Option<Fields> -> Option<Fields>)

  // The document Update is about to write, or why it writes nothing.
  function Planned(f: File, u: Update): Result<Fields, Error> {
    match Loaded(f, u.path, u.schema)
    case Err(e) => Err(e)
    case Ok(section) =>
      match u.edit(section)
      case None => Err(Refused)
      case Some(record) => SetSection(ReadDoc(f).value, u.path, Stamp(record, u.schema))
  }

  datatype RecordType = RecordType(
    schema: GoInt,
    decodes: Fields -> bool,
    migrate: Fields -> Option<Fields>)

  // The document Migrate is about to write; Ok(None) when there is nothing to do.
  function PlannedMigration(f: File, path: Path, rt: RecordType): Result<Option<Fields>, Error> {
    match ReadDoc(f)
    case Err(e) => Err(e)
    case Ok(doc) =>
      match Reached(doc, path)
      case Err(e) => Err(e)
      case Ok(found) =>
        if found.section.None? || found.version == rt.schema then Ok(None)
        else if found.version > rt.schema then Err(TooNew)
        else if !rt.decodes(found.section.value) then Err(Undecodable)
        else
          match rt.migrate(found.section.value)
          case None => Err(Refused)
          case Some(record) =>
            match SetSection(doc, path, Stamp(record, rt.schema))
            case Err(e) => Err(e)
            case Ok(fields) => Ok(Some(fields))
  }

  datatype After = After(file: File, error: Option<Error>)

  // The file and the returned error once a planned document has been written.
  function Commit(f: File, fields: Fields, io: WriteOutcome): After {
    match io
    case Written => After(Holds(Obj(fields)), None)
    case FailedBeforeRename => After(f, Some(WriteFailed))
    case FailedAfterRename => After(Holds(Obj(fields)), Some(WriteFailed))
  }

  function Updated(f: File, u: Update, io: WriteOutcome): After {
    match Planned(f, u)
    case Err(e) => After(f, Some(e))
    case Ok(fields) => Commit(f, fields, io)
  }

  function Migrated(f: File, path: Path, rt: RecordType, io: WriteOutcome): After {
    match PlannedMigration(f, path, rt)
    case Err(e) => After(f, Some(e))
    case Ok(None) => After(f, None)
    case Ok(Some(fields)) => Commit(f, fields, io)
  }

  // The document on disk, which the operations rewrite.
  class StoredDocument {
    var file: File

    constructor (file: File)
      ensures this.file == file
    {
      this.file := file;
    }

    method Reach(doc: Option<Fields>, path: Path) returns (r: Result<Found, Error>)
      ensures r == Reached(doc, path)
    {
      if doc.None? {
        return Ok(Found(None, 0));
      }
      var found := ExtractSection(doc.value, path);
      return if found.Err? then Err(BadSection(found.error)) else Ok(found.value);
    }

    // setSection followed by atomicWriteJSON.
    method WriteSection(doc: Option<Fields>, path: Path, section: Fields, io: WriteOutcome)
      returns (error: Option<Error>)
      modifies this
      ensures After(file, error)
           == match SetSection(doc, path, section)
              case Err(e) => After(old(file), Some(e))
              case Ok(fields) => Commit(old(file), fields, io)
    {
      var fields := section;
      if path != [] {
        var m := new GoMap(if doc.None? then map[] else doc.value);
        var outcome := SetNestedInPlace(m, path, Obj(section));
        if outcome == Failed {
          return Some(BadSection(NotAnObject));
        }
        if outcome == Panic {
          return Some(NilMapPanic);
        }
        fields := m.entries;
      }
      if io != FailedBeforeRename {
        file := Holds(Obj(fields));
      }
      return if io == Written then None else Some(WriteFailed);
    }

    // Load: the section is unmarshalled into the record last.
    method Load(path: Path, schema: GoInt, decodes: Fields -> bool) returns (r: Result<Option<Fields>, Error>)
      ensures r == LoadedInto(file, path, schema, decodes)
    {
      r := Find(path, schema);
      if r.Ok? && r.value.Some? && !decodes(r.value.value) {
        return Err(Undecodable);
      }
    }

    method Find(path: Path, schema: GoInt) returns (r: Result<Option<Fields>, Error>)
      ensures r == Loaded(file, path, schema)
    {
      var doc := ReadDoc(file);
      if doc.Err? {
        return Err(doc.error);
      }
      var found := Reach(doc.value, path);
      if found.Err? {
        return Err(found.error);
      }
      if found.value.section.None? {
        return Ok(None);
      }
      var mismatch := CheckVersion(found.value.version, schema);
      return if mismatch.Some? then Err(mismatch.value) else Ok(found.value.section);
    }

    method Update(u: Update, io: WriteOutcome) returns (error: Option<Error>)
      modifies this
      ensures After(file, error) == Updated(old(file), u, io)
    {
      var doc := ReadDoc(file);
      if doc.Err? {
        return Some(doc.error);
      }
      var section := Find(u.path, u.schema);
      if section.Err? {
        return Some(section.error);
      }
      var record := u.edit(section.value);
      if record.None? {
        return Some(Refused);
      }
      error := WriteSection(doc.value, u.path, Stamp(record.value, u.schema), io);
    }

    method Migrate(path: Path, rt: RecordType, io: WriteOutcome) returns (error: Option<Error>)
      modifies this
      ensures After(file, error) == Migrated(old(file), path, rt, io)
    {
      var doc := ReadDoc(file);
      if doc.Err? {
        return Some(doc.error);
      }
      var found := Reach(doc.value, path);
      if found.Err? {
        return Some(found.error);
      }
      if found.value.section.None? || found.value.version == rt.schema {
        return None;
      }
      if found.value.version > rt.schema {
        return Some(TooNew);
      }
      if !rt.decodes(found.value.section.value) {
        return Some(Undecodable);
      }
      var record := rt.migrate(found.value.section.value);
      if record.None? {
        return Some(Refused);
      }
      error := WriteSection(doc.value, path, Stamp(record.value, rt.schema), io);
    }
  }

  // ---------- version discipline ----------

  // The version of the section at a path, when there is a readable one.
  function VersionIn(doc: Option<Fields>, q: Path): Option<int> {
    match Extracted(doc, q)
    case Ok(Found(Some(_), version)) => Some(version)
    case _ => None
  }

  function VersionAt(f: File, q: Path): Option<int> {
    match ReadDoc(f)
    case Err(_) => None
    case Ok(doc) => VersionIn(doc, q)
  }

  // q's version key is on the way to p.
  predicate ThroughVersionKey(p: Path, q: Path) {
    q + ["version"] <= p
  }

  predicate Inside(q: Path, p: Path) {
    p < q
  }

  // The version of an enclosing section after a write below it.
  lemma WriteBelow(m: Fields, q: Path, below: Path, section: Fields)
    requires below != [] && Traversable(m, q + below)
    ensures var now := Some(Put(m, q + below, Obj(section)));
            && (below[0] == "version" ==> VersionIn(now, q) == None)
            && (below[0] != "version" && VersionIn(Some(m), q).Some? ==> VersionIn(now, q) == VersionIn(Some(m), q))
  {
    PutInsideEnclosing(m, q, below, Obj(section));
    var found := Section(Some(m), q).value;
    var outer := if found.Some? then found.value else map[];
    PutIsLocal(outer, outer, below, Obj(section));
    if |below| > 1 {
      PutUnfolds(outer, below, Obj(section));
    }
  }

  lemma WriteOutside(m: Fields, p: Path, section: Fields, q: Path)
    requires p != [] && Traversable(m, p) && q != p && !Inside(q, p)
    ensures var now := Some(Put(m, p, Obj(section)));
            && (ThroughVersionKey(p, q) ==> VersionIn(now, q) == None)
            && (!ThroughVersionKey(p, q) && VersionIn(Some(m), q).Some? ==>
                  VersionIn(now, q) == VersionIn(Some(m), q))
  {
    if q <= p {
      var below := p[|q|..];
      assert q + below == p;
      assert ThroughVersionKey(p, q) <==> below[0] == "version";
      WriteBelow(m, q, below, section);
    } else {
      PutFrames(m, p, Obj(section), q);
      assert !ThroughVersionKey(p, q);
    }
  }

  lemma WrittenDocument(doc: Option<Fields>, p: Path, section: Fields)
    requires p != [] && SetSection(doc, p, section).Ok?
    ensures var m := if doc.None? then map[] else doc.value;
            Traversable(m, p) && SetSection(doc, p, section).value == Put(m, p, Obj(section))
  {
    StoresIffTraversable(if doc.None? then map[] else doc.value, p, Obj(section));
  }

  // What a written section does to the version of any section q.
  lemma WriteAndVersions(doc: Option<Fields>, p: Path, record: Fields, schema: GoInt, q: Path)
    requires SetSection(doc, p, Stamp(record, schema)).Ok?
    ensures var now := Some(SetSection(doc, p, Stamp(record, schema)).value);
            && VersionIn(now, p) == Some(schema)
            && (Inside(q, p) ==> VersionIn(now, q) == VersionIn(Some(Stamp(record, schema)), q[|p|..]))
            && (q != p && !Inside(q, p) && VersionIn(doc, q).Some? ==>
                  VersionIn(now, q) == if ThroughVersionKey(p, q) then None else VersionIn(doc, q))
  {
    var stamped := Stamp(record, schema);
    if p == [] {
      assert q[0..] == q;
    } else {
      WrittenDocument(doc, p, stamped);
      var m := if doc.None? then map[] else doc.value;
      PutThenGet(m, p, stamped, []);
      if Inside(q, p) {
        assert p + q[|p|..] == q;
        PutThenGet(m, p, stamped, q[|p|..]);
      } else if q != p && VersionIn(doc, q).Some? {
        assert doc.Some? || q == [];
        WriteOutside(m, p, stamped, q);
      }
    }
  }

  predicate NotLowered(before: Option<int>, after: Option<int>) {
    before.Some? && after.Some? && before.value <= after.value
  }

  // The write neither passes through q's version key nor replaces q, by way of an
  // enclosing section, with a record that lacks it or has it at a lower version.
  predicate KeepsVersion(f: File, path: Path, stamped: Fields, q: Path) {
    && !ThroughVersionKey(path, q)
    && (Inside(q, path) ==> NotLowered(VersionAt(f, q), VersionIn(Some(stamped), q[|path|..])))
  }

  // What an update or a migration is about to write at its path.
  function Edited(f: File, u: Update): Fields
    requires Planned(f, u).Ok?
  {
    Stamp(u.edit(Loaded(f, u.path, u.schema).value).value, u.schema)
  }

  predicate Migrates(f: File, path: Path, rt: RecordType) {
    PlannedMigration(f, path, rt).Ok? && PlannedMigration(f, path, rt).value.Some?
  }

  function Climbed(f: File, path: Path, rt: RecordType): Fields
    requires Migrates(f, path, rt)
  {
    Stamp(rt.migrate(Reached(ReadDoc(f).value, path).value.section.value).value, rt.schema)
  }

  // The section at q keeps a readable version that is not lower, exactly then.
  lemma UpdateKeepsVersionIff(f: File, u: Update, q: Path)
    requires Planned(f, u).Ok? && VersionAt(f, q).Some?
    ensures NotLowered(VersionAt(f, q), VersionAt(Holds(Obj(Planned(f, u).value)), q))
       <==> KeepsVersion(f, u.path, Edited(f, u), q)
  {
    var doc := ReadDoc(f).value;
    var record := u.edit(Loaded(f, u.path, u.schema).value).value;
    WriteAndVersions(doc, u.path, record, u.schema, q);
  }

  lemma MigrationKeepsVersionIff(f: File, path: Path, rt: RecordType, q: Path)
    requires Migrates(f, path, rt) && VersionAt(f, q).Some?
    ensures NotLowered(VersionAt(f, q), VersionAt(Holds(Obj(PlannedMigration(f, path, rt).value.value)), q))
       <==> KeepsVersion(f, path, Climbed(f, path, rt), q)
  {
    var doc := ReadDoc(f).value;
    var found := Reached(doc, path).value;
    WriteAndVersions(doc, path, rt.migrate(found.section.value).value, rt.schema, q);
  }

  // ---------- runs of Update and Migrate ----------

  datatype Op =
    | DoUpdate(u: Update, io: WriteOutcome)
    | DoMigrate(path: Path, rt: RecordType, io: WriteOutcome)

  function OpPath(op: Op): Path {
    match op
    case DoUpdate(u, _) => u.path
    case DoMigrate(path, _, _) => path
  }

  function Do(f: File, op: Op): After {
    match op
    case DoUpdate(u, io) => Updated(f, u, io)
    case DoMigrate(path, rt, io) => Migrated(f, path, rt, io)
  }

  ghost function Doing(): (File, Op) -> File {
    (f: File, op: Op) => Do(f, op).file
  }

  // The file after the first n operations, one after the other.
  ghost function DoTo(f: File, ops: seq<Op>, n: nat): File
    requires n <= |ops|
  {
    Runs.RunTo(f, Doing(), ops, n)
  }

  // The operation writes nothing, or a record that keeps q's version.
  predicate OpKeeps(f: File, op: Op, q: Path) {
    op.io.FailedBeforeRename? ||
    match op
    case DoUpdate(u, _) => Planned(f, u).Ok? ==> KeepsVersion(f, u.path, Edited(f, u), q)
    case DoMigrate(path, rt, _) => Migrates(f, path, rt) ==> KeepsVersion(f, path, Climbed(f, path, rt), q)
  }

  lemma OpKeepsVersionIff(f: File, op: Op, q: Path)
    requires VersionAt(f, q).Some?
    ensures NotLowered(VersionAt(f, q), VersionAt(Do(f, op).file, q)) <==> OpKeeps(f, op, q)
  {
    match op
    case DoUpdate(u, io) =>
      if Planned(f, u).Ok? {
        UpdateKeepsVersionIff(f, u, q);
      }
    case DoMigrate(path, rt, io) =>
      if Migrates(f, path, rt) {
        MigrationKeepsVersionIff(f, path, rt, q);
      }
  }

  ghost function Versioned(q: Path): File -> bool {
    (f: File) => VersionAt(f, q).Some?
  }

  ghost function VersionOr0(q: Path): File -> int {
    (f: File) => if VersionAt(f, q).Some? then VersionAt(f, q).value else 0
  }

  ghost function Lowers(q: Path): (File, Op) -> bool {
    (f: File, op: Op) => !OpKeeps(f, op, q)
  }

  // No step of the run up to n loses or lowers q's version.
  ghost predicate NeverLowered(f: File, ops: seq<Op>, q: Path, n: nat)
    requires n <= |ops|
  {
    Runs.AlwaysRises(f, Doing(), ops, n, Versioned(q), VersionOr0(q))
  }

  ghost predicate AllKeep(f: File, ops: seq<Op>, q: Path, n: nat)
    requires n <= |ops|
  {
    Runs.NeverBad(f, Doing(), ops, n, Lowers(q))
  }

  // Over every run of updates and migrations, through any handles, whatever fails on
  // the way, a section's version never decreases, if and only if every write of the
  // run keeps it.
  lemma VersionsNeverDecreaseIff(f: File, ops: seq<Op>, q: Path, n: nat)
    requires VersionAt(f, q).Some? && n <= |ops|
    ensures NeverLowered(f, ops, q, n) <==> AllKeep(f, ops, q, n)
  {
    forall g: File, op: Op | Versioned(q)(g)
      ensures Runs.Rises(g, Doing()(g, op), Versioned(q), VersionOr0(q)) <==> !Lowers(q)(g, op)
    {
      OpKeepsVersionIff(g, op, q);
    }
    Runs.RisesIff(f, Doing(), ops, n, Versioned(q), VersionOr0(q), Lowers(q));
  }

  // Between any two moments of such a run it has not decreased.
  lemma VersionsAcross(f: File, ops: seq<Op>, q: Path, k: nat, n: nat)
    requires VersionAt(f, q).Some? && k <= n <= |ops| && AllKeep(f, ops, q, n)
    ensures NotLowered(VersionAt(DoTo(f, ops, k), q), VersionAt(DoTo(f, ops, n), q))
  {
    VersionsNeverDecreaseIff(f, ops, q, n);
    Runs.RisesAcross(f, Doing(), ops, k, n, Versioned(q), VersionOr0(q));
  }

  // In particular when no operation is at a path enclosing q or through its version key.
  lemma VersionsNeverDecrease(f: File, ops: seq<Op>, q: Path)
    requires VersionAt(f, q).Some?
    requires forall k :: 0 <= k < |ops| ==>
               !Inside(q, OpPath(ops[k])) && !ThroughVersionKey(OpPath(ops[k]), q)
    ensures NotLowered(VersionAt(f, q), VersionAt(DoTo(f, ops, |ops|), q))
  {
    VersionsAcross(f, ops, q, 0, |ops|);
  }

  // A refused operation leaves the file as it was; only a failing directory
  // fsync reports an error over a changed file.
  lemma RefusalChangesNothing(f: File, op: Op)
    ensures var after := Do(f, op);
            after.error.Some? && after.file != f ==>
              after.error == Some(WriteFailed) && op.io == FailedAfterRename
  {
  }

  // A child handle named "version" makes the version of its parent unreadable.
  lemma ChildNamedVersionHidesVersion()
    ensures var f := Holds(Obj(map[]));
            var u := Update(["version"], 1, s => Some(map[]));
            && VersionAt(f, []) == Some(0)
            && Updated(f, u, Written).error == None
            && VersionAt(Updated(f, u, Written).file, []) == None
  {
    var u := Update(["version"], 1, s => Some(map[]));
    assert Planned(Holds(Obj(map[])), u) == Ok(map["version" := Obj(Stamp(map[], 1))]);
  }

  // ---------- migration ----------

  lemma LoadAfterWrite(doc: Option<Fields>, p: Path, record: Fields, schema: GoInt)
    requires SetSection(doc, p, Stamp(record, schema)).Ok?
    ensures var now := Holds(Obj(SetSection(doc, p, Stamp(record, schema)).value));
            Loaded(now, p, schema) == Ok(Some(Stamp(record, schema)))
  {
    if p != [] {
      WrittenDocument(doc, p, Stamp(record, schema));
      PutThenGet(if doc.None? then map[] else doc.value, p, Stamp(record, schema), []);
    }
  }

  // After a migration that reported success, Load accepts the record (or finds
  // none, when there was none) and a second migration is a no-op. Records of the
  // type are assumed to decode again once encoded and stamped.
  lemma MigrateThenLoad(f: File, path: Path, rt: RecordType, io: WriteOutcome)
    requires forall s :: rt.migrate(s).Some? ==> rt.decodes(Stamp(rt.migrate(s).value, rt.schema))
    requires Migrated(f, path, rt, io).error == None
    ensures var now := Migrated(f, path, rt, io).file;
            && Loaded(now, path, rt.schema).Ok?
            && (now != f ==>
                  && Loaded(now, path, rt.schema).value.Some?
                  && rt.decodes(Loaded(now, path, rt.schema).value.value))
            && forall io' :: Migrated(now, path, rt, io') == After(now, None)
  {
    var planned := PlannedMigration(f, path, rt);
    if planned.value.Some? {
      var doc := ReadDoc(f).value;
      var section := Reached(doc, path).value.section.value;
      LoadAfterWrite(doc, path, rt.migrate(section).value, rt.schema);
      var now := Migrated(f, path, rt, io).file;
      assert Reached(ReadDoc(now).value, path).value.version == rt.schema;
    }
  }

  // A written section leaves those apart from it as they load.
  lemma WriteElsewhere(f: File, path: Path, section: Fields, other: Path, schema: GoInt)
    requires ReadDoc(f).Ok? && Apart(path, other) && SetSection(ReadDoc(f).value, path, section).Ok?
    ensures Loaded(Holds(Obj(SetSection(ReadDoc(f).value, path, section).value)), other, schema)
         == Loaded(f, other, schema)
  {
    var doc := ReadDoc(f).value;
    WrittenDocument(doc, path, section);
    PutFrames(if doc.None? then map[] else doc.value, path, Obj(section), other);
    if doc.None? {
      EmptyHasNoSections(other);
    }
  }

  // Update reads back what it wrote, and edits on sections apart from each other
  // do not see one another.
  lemma UpdateThenLoad(f: File, u: Update, other: Path, schema: GoInt)
    requires Planned(f, u).Ok? && Apart(u.path, other)
    ensures var now := Updated(f, u, Written).file;
            && Loaded(now, u.path, u.schema) == Ok(Some(Edited(f, u)))
            && Loaded(now, other, schema) == Loaded(f, other, schema)
  {
    LoadAfterWrite(ReadDoc(f).value, u.path, u.edit(Loaded(f, u.path, u.schema).value).value, u.schema);
    WriteElsewhere(f, u.path, Edited(f, u), other, schema);
  }

  lemma MigrationElsewhere(f: File, path: Path, rt: RecordType, other: Path, schema: GoInt)
    requires Migrates(f, path, rt) && Apart(path, other)
    ensures Loaded(Migrated(f, path, rt, Written).file, other, schema) == Loaded(f, other, schema)
  {
    WriteElsewhere(f, path, Climbed(f, path, rt), other, schema);
  }

  // Once the section has been found, the only thing that can stop the write is a
  // null standing for an intermediate object, and then it panics.
  lemma NullIntermediatePanics(f: File, u: Update)
    requires Loaded(f, u.path, u.schema).Ok? && u.edit(Loaded(f, u.path, u.schema).value).Some?
    ensures Planned(f, u).Err? ==> Planned(f, u).error == NilMapPanic
    ensures Planned(f, u).Err?
       <==> ReadDoc(f).value.Some? && u.path != [] && NullBlocks(ReadDoc(f).value.value, u.path)
  {
    if u.path != [] {
      var doc := ReadDoc(f).value;
      var m := if doc.None? then map[] else doc.value;
      var stamped := Stamp(u.edit(Loaded(f, u.path, u.schema).value).value, u.schema);
      StoresIffTraversable(m, u.path, Obj(stamped));
      if doc.Some? {
        ReachableIsTraversable(m, u.path);
      }
    }
  }

  lemma {:induction false} ReachableIsTraversable(m: Fields, path: Path)
    requires path != [] && Section(Some(m), path).Ok?
    ensures Traversable(m, path) || NullBlocks(m, path)
    decreases |path|
  {
    if |path| > 1 && path[0] in m && m[path[0]].Obj? {
      ReachableIsTraversable(m[path[0]].fields, path[1..]);
    }
  }

  // A document with a null where an object belongs loads as absent, and an update of
  // the section below panics.
  lemma NullIntermediateWitness(u: Update)
    requires u.path == ["a", "b"] && u.edit(None).Some?
    ensures var f := Holds(Obj(map["a" := Null]));
            Loaded(f, u.path, u.schema) == Ok(None) && Planned(f, u) == Err(NilMapPanic)
  {
    var f := Holds(Obj(map["a" := Null]));
    assert u.path[1..] == ["b"] && Section(None, ["b"]) == Ok(None);
    NullIntermediatePanics(f, u);
  }

  // ---------- what the operations answer ----------

  // Loading a section with a readable version: too new above the schema, in need of
  // migration below it, and the section itself exactly at it.
  lemma LoadGate(f: File, path: Path, schema: GoInt, v: int)
    requires VersionAt(f, path) == Some(v)
    ensures Loaded(f, path, schema) == Err(TooNew) <==> v > schema
    ensures Loaded(f, path, schema) == Err(NeedsMigration) <==> v < schema
    ensures Loaded(f, path, schema).Ok? <==> v == schema
    ensures v == schema ==> Loaded(f, path, schema).value.Some?
                            && Section(ReadDoc(f).value, path) == Ok(Loaded(f, path, schema).value)
  {
  }

  // Nothing is found exactly in an absent file, a null document, and a document without
  // the section; a file that is neither JSON object nor null cannot be read.
  lemma LoadAbsentIff(f: File, path: Path, schema: GoInt)
    ensures Loaded(f, path, schema) == Ok(None)
       <==> || f.Absent? || f == Holds(Null)
            || (f.Holds? && f.j.Obj? && Section(Some(f.j.fields), path) == Ok(None))
    ensures Loaded(f, path, schema) == Err(ReadFailed)
       <==> f.Unparsable? || (f.Holds? && !f.j.Obj? && !f.j.Null?)
  {
  }

  // The version of a section: its integer, 0 when the key is missing or null, and an
  // error for anything else or beyond 64 bits.
  lemma VersionOfSection(doc: Fields, path: Path, m: Fields, schema: GoInt)
    requires Section(Some(doc), path) == Ok(Some(m))
    ensures var f := Holds(Obj(doc));
            && ("version" !in m || m["version"].Null? ==> VersionAt(f, path) == Some(0))
            && (forall n: int :: "version" in m && m["version"] == Int(n) ==>
                  if -0x8000_0000_0000_0000 <= n < 0x8000_0000_0000_0000 then VersionAt(f, path) == Some(n)
                  else Loaded(f, path, schema) == Err(BadSection(BadVersion)))
            && ("version" in m && (m["version"].Other? || m["version"].Obj?) ==>
                  Loaded(f, path, schema) == Err(BadSection(BadVersion)))
  {
  }

  // An update of a section at another version reports why and writes nothing.
  lemma UpdateGate(f: File, u: Update, io: WriteOutcome, v: int)
    requires VersionAt(f, u.path) == Some(v) && v != u.schema
    ensures Updated(f, u, io) == After(f, Some(if v > u.schema then TooNew else NeedsMigration))
  {
    LoadGate(f, u.path, u.schema, v);
  }

  // What is written at the path: the record's fields, and the schema as its version.
  lemma UpdateWrites(f: File, u: Update, k: string)
    requires Planned(f, u).Ok?
    ensures var record := u.edit(Loaded(f, u.path, u.schema).value);
            var now := Loaded(Updated(f, u, Written).file, u.path, u.schema);
            && record.Some? && now.Ok? && now.value.Some?
            && "version" in now.value.value && now.value.value["version"] == Int(u.schema)
            && (k != "version" ==>
                  && (k in now.value.value <==> k in record.value)
                  && (k in record.value ==> now.value.value[k] == record.value[k]))
  {
    LoadAfterWrite(ReadDoc(f).value, u.path, u.edit(Loaded(f, u.path, u.schema).value).value, u.schema);
  }

  // An accepted update with each end of the write; a refused mutation writes nothing.
  lemma UpdateOutcome(f: File, u: Update)
    ensures Loaded(f, u.path, u.schema).Ok? && u.edit(Loaded(f, u.path, u.schema).value).None? ==>
              forall io :: Updated(f, u, io) == After(f, Some(Refused))
    ensures Updated(f, u, Written).error == None <==> Planned(f, u).Ok?
    ensures Planned(f, u).Ok? ==>
              && Updated(f, u, FailedBeforeRename) == After(f, Some(WriteFailed))
              && Updated(f, u, FailedAfterRename) == After(Updated(f, u, Written).file, Some(WriteFailed))
              && Updated(f, u, Written).file == Holds(Obj(Planned(f, u).value))
  {
  }

  // A migration does nothing to a section that is absent or current, refuses a newer
  // one, and brings an older one that decodes and migrates to the schema.
  lemma MigrateGate(f: File, path: Path, rt: RecordType, v: int)
    requires VersionAt(f, path) == Some(v)
    ensures v == rt.schema ==> forall io :: Migrated(f, path, rt, io) == After(f, None)
    ensures v > rt.schema ==> forall io :: Migrated(f, path, rt, io) == After(f, Some(TooNew))
    ensures v < rt.schema ==>
              var section := Section(ReadDoc(f).value, path).value.value;
              && (!rt.decodes(section) ==> forall io :: Migrated(f, path, rt, io) == After(f, Some(Undecodable)))
              && (rt.decodes(section) && rt.migrate(section).None? ==>
                    forall io :: Migrated(f, path, rt, io) == After(f, Some(Refused)))
              && (rt.decodes(section) && rt.migrate(section).Some? && path == [] ==>
                    Migrated(f, path, rt, Written)
                    == After(Holds(Obj(rt.migrate(section).value["version" := Int(rt.schema)])), None))
  {
  }

  lemma MigrateAbsent(f: File, path: Path, rt: RecordType, io: WriteOutcome)
    requires Loaded(f, path, rt.schema) == Ok(None)
    ensures Migrated(f, path, rt, io) == After(f, None)
  {
  }

  // Load refuses a section its record does not decode, and is the gate otherwise.
  lemma LoadDecodes(f: File, path: Path, schema: GoInt, decodes: Fields -> bool)
    ensures forall section :: Loaded(f, path, schema) == Ok(Some(section)) ==>
              LoadedInto(f, path, schema, decodes)
              == if decodes(section) then Ok(Some(section)) else Err(Undecodable)
    ensures Loaded(f, path, schema).Err? || Loaded(f, path, schema) == Ok(None) ==>
              LoadedInto(f, path, schema, decodes) == Loaded(f, path, schema)
  {
  }
}
