/**
 The nested JSON document behind a storage handle: reading the section at a
 sub-path and writing one (store/handle.go). A JSON object is a map; a decoded
 `map[string]json.RawMessage` is an optional map, None being Go's nil map, which
 is what decoding a JSON null yields.
 */
module JsonDocument {
  import opened Results

  // Other stands for every value that is neither an object, null nor an integer.
  datatype Json = Null | Int(n: int) | Other(text: string) | Obj(fields: map<string, Json>)

  type Fields = map<string, Json>

  type Path = seq<string>

  datatype ReadError = NotAnObject | BadVersion

  // json.Unmarshal of a value into a map.
  function AsMap(j: Json): Result<Option<Fields>, ReadError> {
    match j
    case Obj(fields) => Ok(Some(fields))
    case Null => Ok(None)
    case _ => Err(NotAnObject)
  }

  // The section at a path: None when a key is missing or null on the way.
  function Section(m: Option<Fields>, path: Path): Result<Option<Fields>, ReadError>
    decreases |path|
  {
    if path == [] then Ok(m)
    else if m.None? || path[0] !in m.value then Ok(None)
    else
      match AsMap(m.value[path[0]])
      case Err(e) => Err(e)
      case Ok(nested) => Section(nested, path[1..])
  }

  const MIN_INT := -0x8000_0000_0000_0000
  const MAX_INT := 0x7FFF_FFFF_FFFF_FFFF

  // extractVersion: 0 when the key is absent or null.
  function Version(m: Option<Fields>): Result<int, ReadError> {
    if m.None? || "version" !in m.value then Ok(0)
    else
      match m.value["version"]
      case Int(n) => if MIN_INT <= n <= MAX_INT then Ok(n) else Err(BadVersion)
      case Null => Ok(0)
      case _ => Err(BadVersion)
  }

  datatype Found = Found(section: Option<Fields>, version: int)

  function Extracted(doc: Option<Fields>, path: Path): Result<Found, ReadError> {
    match Section(doc, path)
    case Err(e) => Err(e)
    case Ok(section) =>
      match Version(section)
      case Err(e) => Err(e)
      case Ok(version) => Ok(Found(section, version))
  }

  // extractSection: walks the sub-path one key at a time.
  method ExtractSection(doc: Fields, subPath: Path) returns (r: Result<Found, ReadError>)
    ensures r == Extracted(Some(doc), subPath)
  {
    var current := Some(doc);
    assert subPath[0..] == subPath;
    for i := 0 to |subPath|
      invariant Section(current, subPath[i..]) == Section(Some(doc), subPath)
    {
      assert subPath[i..][1..] == subPath[i + 1..];
      var key := subPath[i];
      if current.None? || key !in current.value {
        return Ok(Found(None, 0));
      }
      var nested := AsMap(current.value[key]);
      if nested.Err? {
        return Err(nested.error);
      }
      current := nested.value;
    }
    var version := Version(current);
    return if version.Err? then Err(version.error) else Ok(Found(current, version.value));
  }

  // ---------- writing ----------

  // Panicked: an assignment into a nil map.
  datatype Stored = Stored(fields: Fields) | Rejected | Panicked

  // What setNested leaves in the map m.
  function SetNested(m: Option<Fields>, keys: Path, value: Json): Stored
    requires keys != []
    decreases |keys|
  {
    if |keys| == 1 then
      if m.None? then Panicked else Stored(m.value[keys[0] := value])
    else
      var nested := if m.Some? && keys[0] in m.value then AsMap(m.value[keys[0]]) else Ok(Some(map[]));
      match nested
      case Err(_) => Rejected
      case Ok(inner) =>
        match SetNested(inner, keys[1..], value)
        case Stored(fields) => if m.None? then Panicked else Stored(m.value[keys[0] := Obj(fields)])
        case failed => failed
  }

  // A Go map as setNested receives it: changed in place, null standing for nil.
  class GoMap {
    var entries: Fields

    constructor (entries: Fields)
      ensures this.entries == entries
    {
      this.entries := entries;
    }
  }

  datatype Outcome = Done | Failed | Panic

  // setNested: decodes the nested map, sets the rest of the path in it, and only
  // then stores it back.
  method SetNestedInPlace(m: GoMap?, keys: Path, value: Json) returns (outcome: Outcome)
    requires keys != []
    modifies m
    ensures var r := SetNested(if m == null then None else Some(old(m.entries)), keys, value);
            && outcome == (match r case Stored(_) => Done case Rejected => Failed case Panicked => Panic)
            && (m != null ==> m.entries == if r.Stored? then r.fields else old(m.entries))
    decreases |keys|
  {
    if |keys| == 1 {
      if m == null {
        return Panic;
      }
      m.entries := m.entries[keys[0] := value];
      return Done;
    }
    var nested: GoMap?;
    if m != null && keys[0] in m.entries {
      match AsMap(m.entries[keys[0]])
      case Err(_) => return Failed;
      case Ok(None) => nested := null;
      case Ok(Some(fields)) => nested := new GoMap(fields);
    } else {
      nested := new GoMap(map[]);
    }
    NilMapPanics(keys[1..], value);
    outcome := SetNestedInPlace(nested, keys[1..], value);
    if outcome != Done {
      return outcome;
    }
    if m == null {
      return Panic;
    }
    m.entries := m.entries[keys[0] := Obj(nested.entries)];
  }

  lemma {:induction false} NilMapPanics(keys: Path, value: Json)
    requires keys != []
    ensures SetNested(None, keys, value) == Panicked
  {
    if |keys| > 1 {
      FreshMapStores(keys[1..], value);
    }
  }

  lemma {:induction false} FreshMapStores(keys: Path, value: Json)
    requires keys != []
    ensures SetNested(Some(map[]), keys, value).Stored?
  {
    if |keys| > 1 {
      FreshMapStores(keys[1..], value);
    }
  }

  // Every key before the last is missing or holds an object.
  predicate Traversable(m: Fields, keys: Path)
    requires keys != []
    decreases |keys|
  {
    || |keys| == 1
    || keys[0] !in m
    || (m[keys[0]].Obj? && Traversable(m[keys[0]].fields, keys[1..]))
  }

  // Walking the keys before the last, the first value that is not an object is null.
  predicate NullBlocks(m: Fields, keys: Path)
    requires keys != []
    decreases |keys|
  {
    && |keys| > 1 && keys[0] in m
    && (m[keys[0]].Null? || (m[keys[0]].Obj? && NullBlocks(m[keys[0]].fields, keys[1..])))
  }

  // The write goes through exactly on traversable paths; it panics exactly when a
  // null stands where an intermediate object belongs.
  lemma {:induction false} StoresIffTraversable(m: Fields, keys: Path, value: Json)
    requires keys != []
    ensures SetNested(Some(m), keys, value).Stored? <==> Traversable(m, keys)
    ensures SetNested(Some(m), keys, value).Panicked? <==> NullBlocks(m, keys)
    decreases |keys|
  {
    if |keys| > 1 {
      if keys[0] !in m {
        FreshMapStores(keys[1..], value);
      } else if m[keys[0]].Obj? {
        StoresIffTraversable(m[keys[0]].fields, keys[1..], value);
      } else if m[keys[0]].Null? {
        NilMapPanics(keys[1..], value);
      }
    }
  }

  // ---------- get/put laws ----------

  // The document after writing a section at a path it can be written at.
  function Put(m: Fields, keys: Path, value: Json): Fields
    requires keys != [] && Traversable(m, keys)
  {
    StoresIffTraversable(m, keys, value);
    SetNested(Some(m), keys, value).fields
  }

  // The object Put descends into.
  function Child(m: Fields, key: string): Fields {
    if key in m && m[key].Obj? then m[key].fields else map[]
  }

  lemma PutUnfolds(m: Fields, keys: Path, value: Json)
    requires |keys| > 1 && Traversable(m, keys)
    ensures Traversable(Child(m, keys[0]), keys[1..])
    ensures Put(m, keys, value) == m[keys[0] := Obj(Put(Child(m, keys[0]), keys[1..], value))]
  {
    var inner := Child(m, keys[0]);
    if keys[0] !in m {
      FreshMapStores(keys[1..], value);
      StoresIffTraversable(inner, keys[1..], value);
    }
    StoresIffTraversable(m, keys, value);
  }

  // Reading below the written path reads the written section.
  lemma {:induction false} PutThenGet(m: Fields, keys: Path, section: Fields, below: Path)
    requires keys != [] && Traversable(m, keys)
    ensures Section(Some(Put(m, keys, Obj(section))), keys + below) == Section(Some(section), below)
    ensures Section(Some(Put(m, keys, Obj(section))), keys) == Ok(Some(section))
    decreases |keys|
  {
    assert (keys + below)[1..] == keys[1..] + below;
    if |keys| == 1 {
      assert keys[1..] + below == below;
    } else {
      PutUnfolds(m, keys, Obj(section));
      PutThenGet(Child(m, keys[0]), keys[1..], section, below);
    }
  }

  predicate Apart(p: Path, q: Path) {
    !(p <= q) && !(q <= p)
  }

  // Sections elsewhere are not touched.
  lemma {:induction false} PutFrames(m: Fields, keys: Path, value: Json, other: Path)
    requires keys != [] && Traversable(m, keys) && Apart(keys, other)
    ensures Section(Some(Put(m, keys, value)), other) == Section(Some(m), other)
    decreases |keys|
  {
    if |keys| > 1 {
      PutUnfolds(m, keys, value);
      if other[0] == keys[0] {
        var inner := Child(m, keys[0]);
        PutFrames(inner, keys[1..], value, other[1..]);
        if keys[0] !in m {
          EmptyHasNoSections(other[1..]);
        }
      }
    }
  }

  lemma EmptyHasNoSections(path: Path)
    requires path != []
    ensures Section(Some(map[]), path) == Ok(None)
  {
  }

  // An enclosing section sees the write, and only the write, at the remaining path.
  lemma {:induction false} PutInsideEnclosing(m: Fields, above: Path, keys: Path, value: Json)
    requires keys != [] && Traversable(m, above + keys)
    ensures var before := Section(Some(m), above);
            && before.Ok?
            && var outer := if before.value.Some? then before.value.value else map[];
            && Traversable(outer, keys)
            && Section(Some(Put(m, above + keys, value)), above) == Ok(Some(Put(outer, keys, value)))
    decreases |above|
  {
    if above == [] {
      assert above + keys == keys;
    } else {
      var path := above + keys;
      PutUnfolds(m, path, value);
      assert path[1..] == above[1..] + keys;
      PutInsideEnclosing(Child(m, above[0]), above[1..], keys, value);
      if above[0] !in m && above[1..] != [] {
        EmptyHasNoSections(above[1..]);
      }
    }
  }

  // Writing back what is there changes nothing.
  lemma {:induction false} GetThenPut(m: Fields, keys: Path)
    requires keys != [] && Section(Some(m), keys).Ok? && Section(Some(m), keys).value.Some?
    ensures Traversable(m, keys)
    ensures Put(m, keys, Obj(Section(Some(m), keys).value.value)) == m
    decreases |keys|
  {
    var section := Section(Some(m), keys).value.value;
    if |keys| == 1 {
      assert Section(AsMap(m[keys[0]]).value, []) == AsMap(m[keys[0]]);
      assert m[keys[0]] == Obj(section);
    } else {
      assert m[keys[0]].Obj?;
      GetThenPut(m[keys[0]].fields, keys[1..]);
      PutUnfolds(m, keys, Obj(section));
    }
    assert m[keys[0] := m[keys[0]]] == m;
  }

  lemma {:induction false} PutKeepsTraversable(m: Fields, keys: Path, value: Json, other: Path)
    requires keys != [] && other != [] && Traversable(m, keys)
    requires Apart(keys, other)
    ensures Traversable(Put(m, keys, value), other) <==> Traversable(m, other)
    decreases |keys|
  {
    if |keys| > 1 && other[0] == keys[0] {
      PutUnfolds(m, keys, value);
      PutKeepsTraversable(Child(m, keys[0]), keys[1..], value, other[1..]);
      if keys[0] !in m {
        FreshMapStores(other[1..], value);
        StoresIffTraversable(map[], other[1..], value);
      }
    } else if |keys| > 1 {
      PutUnfolds(m, keys, value);
    }
  }

  // Put replaces one key, by a value that depends on the old one alone.
  lemma PutIsLocal(m: Fields, n: Fields, keys: Path, value: Json)
    requires keys != [] && Traversable(m, keys)
    requires (keys[0] in m <==> keys[0] in n) && (keys[0] in m ==> m[keys[0]] == n[keys[0]])
    ensures Traversable(n, keys)
    ensures keys[0] in Put(m, keys, value) && keys[0] in Put(n, keys, value)
    ensures Put(m, keys, value)[keys[0]] == Put(n, keys, value)[keys[0]]
    ensures Put(m, keys, value) == m[keys[0] := Put(m, keys, value)[keys[0]]]
    ensures Put(n, keys, value) == n[keys[0] := Put(m, keys, value)[keys[0]]]
  {
    if |keys| > 1 {
      PutUnfolds(m, keys, value);
      PutUnfolds(n, keys, value);
      assert Child(m, keys[0]) == Child(n, keys[0]);
    }
  }

  // Writes at two paths apart from each other commute.
  lemma {:induction false} PutsCommute(m: Fields, p: Path, v: Json, q: Path, w: Json)
    requires p != [] && q != [] && Apart(p, q) && Traversable(m, p) && Traversable(m, q)
    ensures Traversable(Put(m, p, v), q) && Traversable(Put(m, q, w), p)
    ensures Put(Put(m, p, v), q, w) == Put(Put(m, q, w), p, v)
    decreases |p|
  {
    PutKeepsTraversable(m, p, v, q);
    PutKeepsTraversable(m, q, w, p);
    if p[0] == q[0] {
      PutsCommuteBelow(m, p, v, q, w);
    } else {
      PutIsLocal(m, m, p, v);
      PutIsLocal(m, m, q, w);
      PutIsLocal(m, Put(m, q, w), p, v);
      PutIsLocal(m, Put(m, p, v), q, w);
    }
  }

  lemma {:induction false} PutsCommuteBelow(m: Fields, p: Path, v: Json, q: Path, w: Json)
    requires p != [] && q != [] && p[0] == q[0]
    requires Apart(p, q) && Traversable(m, p) && Traversable(m, q)
    requires Traversable(Put(m, p, v), q) && Traversable(Put(m, q, w), p)
    ensures Put(Put(m, p, v), q, w) == Put(Put(m, q, w), p, v)
    decreases |p|, 0
  {
    PutUnfolds(m, p, v);
    PutUnfolds(m, q, w);
    PutUnfolds(Put(m, q, w), p, v);
    PutUnfolds(Put(m, p, v), q, w);
    PutsCommute(Child(m, p[0]), p[1..], v, q[1..], w);
  }

  // A later write at the same path replaces the earlier one.
  lemma {:induction false} LastPutWins(m: Fields, keys: Path, v: Json, w: Json)
    requires keys != [] && Traversable(m, keys)
    ensures Traversable(Put(m, keys, v), keys)
    ensures Put(Put(m, keys, v), keys, w) == Put(m, keys, w)
    decreases |keys|
  {
    if |keys| > 1 {
      PutUnfolds(m, keys, v);
      LastPutWins(Child(m, keys[0]), keys[1..], v, w);
      PutUnfolds(Put(m, keys, v), keys, w);
      PutUnfolds(m, keys, w);
    }
  }
}
