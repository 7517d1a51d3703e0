/**
 The per-sandbox environment record: addressing its directories and the
 migration ladder (store/environment.go).
 */
module EnvironmentRecord {
  import opened Results

  datatype Mode = Unset | Copy | ReadOnly | ReadWrite | Overlay

  datatype DirEntry = DirEntry(hostPath: string, mode: Mode, baseline: string)

  // ---------- directory addressing ----------

  // Dir: "" is the first entry, anything else the first entry with that path. The
  // source returns a pointer into the list; the index plays that part.
  function DirIndex(dirs: seq<DirEntry>, hostPath: string): (i: Option<nat>)
    ensures i.Some? ==> i.value < |dirs|
  {
    if dirs == [] then None
    else if hostPath == "" || dirs[0].hostPath == hostPath then Some(0)
    else
      match DirIndex(dirs[1..], hostPath)
      case None => None
      case Some(k) => Some(k + 1)
  }

  // Position i is where a path leads: the first entry for "", else the first with it.
  predicate Addresses(dirs: seq<DirEntry>, hostPath: string, i: nat) {
    && i < |dirs|
    && (hostPath == "" ==> i == 0)
    && (hostPath != "" ==> dirs[i].hostPath == hostPath && forall j :: 0 <= j < i ==> dirs[j].hostPath != hostPath)
  }

  // The index is that position, and there is none only when no entry qualifies.
  lemma {:induction false} DirIndexExactly(dirs: seq<DirEntry>, hostPath: string)
    ensures forall i: nat :: DirIndex(dirs, hostPath) == Some(i) <==> Addresses(dirs, hostPath, i)
    ensures DirIndex(dirs, hostPath) == None
       <==> dirs == [] || (hostPath != "" && forall k :: 0 <= k < |dirs| ==> dirs[k].hostPath != hostPath)
  {
    if dirs != [] && hostPath != "" && dirs[0].hostPath != hostPath {
      DirIndexExactly(dirs[1..], hostPath);
      forall i: nat
        ensures DirIndex(dirs, hostPath) == Some(i) <==> Addresses(dirs, hostPath, i)
      {
        if i > 0 {
          IndexBelow(dirs, hostPath, i);
        }
      }
    }
  }

  lemma IndexBelow(dirs: seq<DirEntry>, hostPath: string, i: nat)
    requires dirs != [] && hostPath != "" && dirs[0].hostPath != hostPath && i > 0
    ensures Addresses(dirs, hostPath, i) <==> Addresses(dirs[1..], hostPath, i - 1)
  {
    if Addresses(dirs[1..], hostPath, i - 1) {
      forall j | 0 <= j < i
        ensures dirs[j].hostPath != hostPath
      {
        assert j > 0 ==> dirs[j] == dirs[1..][j - 1];
      }
    }
    if Addresses(dirs, hostPath, i) {
      forall j | 0 <= j < i - 1
        ensures dirs[1..][j].hostPath != hostPath
      {
        assert dirs[1..][j] == dirs[j + 1];
      }
    }
  }

  method Dir(dirs: seq<DirEntry>, hostPath: string) returns (i: Option<nat>)
    ensures i == DirIndex(dirs, hostPath)
    ensures hostPath == "" ==> i == if dirs == [] then None else Some(0)
    ensures i.Some? ==> Addresses(dirs, hostPath, i.value)
    ensures hostPath != "" && i.None? ==> forall k :: 0 <= k < |dirs| ==> dirs[k].hostPath != hostPath
  {
    if hostPath == "" {
      return if |dirs| == 0 then None else Some(0);
    }
    assert dirs[0..] == dirs;
    for k := 0 to |dirs|
      invariant forall j :: 0 <= j < k ==> dirs[j].hostPath != hostPath
      invariant DirIndex(dirs, hostPath)
             == match DirIndex(dirs[k..], hostPath) { case None => None case Some(j) => Some(k + j) }
    {
      assert dirs[k..][1..] == dirs[k + 1..];
      if dirs[k].hostPath == hostPath {
        return Some(k);
      }
    }
    return None;
  }

  // Rewriting an entry's baseline does not change which entry a path addresses.
  lemma {:induction false} AddressingIgnoresBaselines(dirs: seq<DirEntry>, other: seq<DirEntry>, hostPath: string)
    requires |dirs| == |other|
    requires forall k :: 0 <= k < |dirs| ==> dirs[k].hostPath == other[k].hostPath
    ensures DirIndex(dirs, hostPath) == DirIndex(other, hostPath)
  {
    if dirs != [] {
      AddressingIgnoresBaselines(dirs[1..], other[1..], hostPath);
    }
  }

  // ---------- the migration ladder ----------

  const META_VERSION := 3

  datatype Environment = Environment(
    version: int,
    backend: string,
    imageRef: string,
    hostFilesystem: bool,
    dirs: seq<DirEntry>,
    legacyWorkdir: Option<DirEntry>,
    legacyDirectories: seq<DirEntry>)

  // v0 to v1. `hostFs` is the backend descriptor's capability, None when the
  // backend is not registered on this platform.
  function Backfill(e: Environment, hostFs: string -> Option<bool>): Environment {
    if e.version >= 1 then e
    else
      var backend := if e.backend == "" then "docker" else e.backend;
      var imageRef := if e.imageRef == "" then "yoloai-base" else e.imageRef;
      var known := hostFs(backend);
      e.(backend := backend, imageRef := imageRef, version := 1,
         hostFilesystem := if known.Some? then known.value else e.hostFilesystem)
  }

  // v1 to v2.
  function Collapse(e: Environment): Environment {
    if e.version >= 2 then e
    else
      var dirs := if e.dirs == [] && e.legacyWorkdir.Some?
                  then [e.legacyWorkdir.value] + e.legacyDirectories else e.dirs;
      e.(dirs := dirs, legacyWorkdir := None, legacyDirectories := [], version := 2)
  }

  // The record after migrate; None for a version newer than this program knows.
  function Migrated(e: Environment, hostFs: string -> Option<bool>): Option<Environment> {
    if e.version > META_VERSION then None else Some(Collapse(Backfill(e, hostFs)))
  }

  class EnvironmentObject {
    var version: int
    var backend: string
    var imageRef: string
    var hostFilesystem: bool
    var dirs: seq<DirEntry>
    var legacyWorkdir: Option<DirEntry>
    var legacyDirectories: seq<DirEntry>

    function Value(): Environment
      reads this
    {
      Environment(version, backend, imageRef, hostFilesystem, dirs, legacyWorkdir, legacyDirectories)
    }

    // migrate: each rung changes the record in place.
    method Migrate(hostFs: string -> Option<bool>) returns (ok: bool)
      modifies this
      ensures ok <==> Migrated(old(Value()), hostFs).Some?
      ensures Value() == if ok then Migrated(old(Value()), hostFs).value else old(Value())
    {
      if version > META_VERSION {
        return false;
      }
      if version < 1 {
        if backend == "" {
          backend := "docker";
        }
        if imageRef == "" {
          imageRef := "yoloai-base";
        }
        var known := hostFs(backend);
        if known.Some? {
          hostFilesystem := known.value;
        }
        version := 1;
      }
      if version < 2 {
        if |dirs| == 0 && legacyWorkdir.Some? {
          dirs := [legacyWorkdir.value] + legacyDirectories;
        }
        legacyWorkdir := None;
        legacyDirectories := [];
        version := 2;
      }
      return true;
    }
  }

  // Running the ladder on its own result changes nothing, and the result never
  // has a lower version.
  lemma LadderIdempotent(e: Environment, hostFs: string -> Option<bool>)
    requires Migrated(e, hostFs).Some?
    ensures Migrated(Migrated(e, hostFs).value, hostFs) == Migrated(e, hostFs)
    ensures e.version <= Migrated(e, hostFs).value.version && 2 <= Migrated(e, hostFs).value.version
  {
  }

  // Every directory the record names, in old and new fields.
  function AllDirs(e: Environment): seq<DirEntry> {
    (if e.legacyWorkdir.Some? then [e.legacyWorkdir.value] else []) + e.legacyDirectories + e.dirs
  }

  // The ladder keeps every directory, the workdir first and then the auxiliary
  // ones in their order, exactly when the record is past the collapse, has only a
  // legacy workdir with its directories, or has no legacy entry at all. Otherwise
  // directories are dropped: legacy directories without a legacy workdir, or any
  // legacy entry beside a non-empty new list.
  lemma LadderKeepsDirsIff(e: Environment, hostFs: string -> Option<bool>)
    requires Migrated(e, hostFs).Some?
    ensures AllDirs(Migrated(e, hostFs).value) == AllDirs(e)
       <==> || e.version >= 2
            || (e.legacyWorkdir.Some? && e.dirs == [])
            || (e.legacyWorkdir.None? && e.legacyDirectories == [])
    ensures e.version < 2 && e.legacyWorkdir.Some? && e.dirs == [] ==>
              Migrated(e, hostFs).value.dirs == [e.legacyWorkdir.value] + e.legacyDirectories
  {
    var after := Migrated(e, hostFs).value;
    if e.version < 2 {
      assert AllDirs(after) == after.dirs;
      if e.legacyWorkdir.Some? && e.dirs == [] {
        assert AllDirs(e) == after.dirs;
      } else if e.legacyWorkdir.None? && e.legacyDirectories == [] {
        assert AllDirs(e) == e.dirs;
      } else {
        assert after.dirs == e.dirs;
        assert |AllDirs(e)| > |e.dirs|;
      }
    }
  }

  // An auxiliary directory of a record without a legacy workdir is lost.
  lemma LegacyDirectoryIsDropped(aux: DirEntry, hostFs: string -> Option<bool>)
    ensures var e := Environment(1, "docker", "yoloai-base", false, [], None, [aux]);
            AllDirs(e) == [aux] && Migrated(e, hostFs).Some? && AllDirs(Migrated(e, hostFs).value) == []
  {
    var e := Environment(1, "docker", "yoloai-base", false, [], None, [aux]);
    LadderKeepsDirsIff(e, hostFs);
  }

  // What the first rung fills in: an unversioned record without a backend is a docker
  // one, without an image the base one, and takes the host file system of its backend
  // where that is known. Everything else, and every later record, keeps its fields.
  lemma LadderBackfills(e: Environment, hostFs: string -> Option<bool>)
    ensures Migrated(e, hostFs) == None <==> e.version > 3
    ensures e.version <= 3 ==>
              var now := Migrated(e, hostFs).value;
              && now.version == (if e.version < 2 then 2 else e.version)
              && now.backend == (if e.version < 1 && e.backend == "" then "docker" else e.backend)
              && now.imageRef == (if e.version < 1 && e.imageRef == "" then "yoloai-base" else e.imageRef)
              && now.hostFilesystem == (if e.version < 1 && hostFs(now.backend).Some? then hostFs(now.backend).value
                                        else e.hostFilesystem)
              && (e.version < 2 ==> now.legacyWorkdir == None && now.legacyDirectories == [])
              && (e.version >= 2 ==> now == e)
  {
  }
}
