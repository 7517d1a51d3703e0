/**
 The buffered writer that turns a subprocess's byte stream into progress records
 (feedback/progress.go). The reference it is compared with is a batch split of
 the whole stream, in which a Flush call acts as one more terminator.
 */
module ProgressWriter {
  type Byte = b: int | 0 <= b < 256

  const LF: Byte := 10
  const CR: Byte := 13

  datatype Progress = Progress(event: string, message: seq<Byte>)

  // ---------- the batch reference ----------

  datatype Item = Data(b: Byte) | Flushed

  predicate Ends(item: Item) {
    item.Flushed? || item.b == LF || item.b == CR
  }

  predicate Open(bytes: seq<Byte>) {
    LF !in bytes && CR !in bytes
  }

  function Lift(bytes: seq<Byte>): (items: seq<Item>)
    ensures |items| == |bytes|
    ensures forall k :: 0 <= k < |bytes| ==> items[k] == Data(bytes[k])
  {
    seq(|bytes|, k requires 0 <= k < |bytes| => Data(bytes[k]))
  }

  // The bytes after the last terminator.
  function Rest(stream: seq<Item>): seq<Byte> {
    if stream == [] || Ends(Last(stream)) then []
    else Rest(Init(stream)) + [Last(stream).b]
  }

  // The terminated segments, in order.
  function Segments(stream: seq<Item>): seq<seq<Byte>> {
    if stream == [] then []
    else if Ends(Last(stream)) then Segments(Init(stream)) + [Rest(Init(stream))]
    else Segments(Init(stream))
  }

  function Last<T>(s: seq<T>): T
    requires s != []
  {
    s[|s| - 1]
  }

  function Init<T>(s: seq<T>): seq<T>
    requires s != []
  {
    s[..|s| - 1]
  }

  // Length of the UTF-8 encoded Unicode space at the front of line, 0 if there is none.
  function SpaceLength(line: seq<Byte>): (n: nat)
    ensures n <= |line|
  {
    if |line| >= 1 && (9 <= line[0] <= 13 || line[0] == 0x20) then 1
    else if |line| >= 2 && line[0] == 0xC2 && (line[1] == 0x85 || line[1] == 0xA0) then 2
    else if |line| >= 3 && line[..3] == [0xE1, 0x9A, 0x80] then 3
    else if |line| >= 3 && line[..2] == [0xE2, 0x80]
            && (0x80 <= line[2] <= 0x8A || line[2] == 0xA8 || line[2] == 0xA9 || line[2] == 0xAF) then 3
    else if |line| >= 3 && (line[..3] == [0xE2, 0x81, 0x9F] || line[..3] == [0xE3, 0x80, 0x80]) then 3
    else 0
  }

  // strings.TrimSpace(line) == "": the line is nothing but Unicode spaces.
  predicate Blank(line: seq<Byte>)
    decreases |line|
  {
    line == [] || (SpaceLength(line) > 0 && Blank(line[SpaceLength(line)..]))
  }

  function NonBlank(segments: seq<seq<Byte>>): seq<seq<Byte>> {
    if segments == [] then []
    else NonBlank(Init(segments)) + (if Blank(Last(segments)) then [] else [Last(segments)])
  }

  lemma {:induction false} NonBlankConcat(a: seq<seq<Byte>>, b: seq<seq<Byte>>)
    ensures NonBlank(a + b) == NonBlank(a) + NonBlank(b)
  {
    if b == [] {
      assert a + b == a;
    } else {
      NonBlankConcat(a, Init(b));
      assert Init(a + b) == a + Init(b);
    }
  }

  lemma NonBlankOne(line: seq<Byte>)
    ensures NonBlank([line]) == if Blank(line) then [] else [line]
  {
    assert Init([line]) == [];
  }

  // Splitting a longer stream continues from the open tail of the shorter one.
  lemma {:induction false} SplitContinues(x: seq<Item>, y: seq<Item>)
    ensures Segments(x + y) == Segments(x) + Segments(Lift(Rest(x)) + y)
    ensures Rest(x + y) == Rest(Lift(Rest(x)) + y)
  {
    if y == [] {
      assert x + y == x && Lift(Rest(x)) + y == Lift(Rest(x));
      RestIsOpen(x);
      OpenSplit(Rest(x));
    } else {
      SplitContinues(x, Init(y));
      var z := Lift(Rest(x));
      SnocSplits(x, y);
      SnocSplits(z, y);
      if Ends(Last(y)) {
        var end := [Rest(z + Init(y))];
        assert (Segments(x) + Segments(z + Init(y))) + end == Segments(x) + (Segments(z + Init(y)) + end);
      }
    }
  }

  lemma SnocSplits(x: seq<Item>, y: seq<Item>)
    requires y != []
    ensures Ends(Last(y)) ==>
              Segments(x + y) == Segments(x + Init(y)) + [Rest(x + Init(y))] && Rest(x + y) == []
    ensures !Ends(Last(y)) ==>
              Segments(x + y) == Segments(x + Init(y)) && Rest(x + y) == Rest(x + Init(y)) + [Last(y).b]
  {
    assert Init(x + y) == x + Init(y) && Last(x + y) == Last(y);
  }

  lemma {:induction false} RestIsOpen(x: seq<Item>)
    ensures Open(Rest(x))
  {
    if x != [] && !Ends(Last(x)) {
      RestIsOpen(Init(x));
    }
  }

  lemma {:induction false} OpenSplit(bytes: seq<Byte>)
    requires Open(bytes)
    ensures Segments(Lift(bytes)) == [] && Rest(Lift(bytes)) == bytes
  {
    if bytes != [] {
      OpenSplit(Init(bytes));
      assert Init(Lift(bytes)) == Lift(Init(bytes));
    }
  }

  // A terminated open segment at the front is the first segment.
  lemma HeadSegment(head: seq<Byte>, end: Item, tail: seq<Item>)
    requires Open(head) && Ends(end)
    ensures Segments(Lift(head) + [end] + tail) == [head] + Segments(tail)
    ensures Rest(Lift(head) + [end] + tail) == Rest(tail)
  {
    var x := Lift(head) + [end];
    OpenSplit(head);
    assert Init(x) == Lift(head);
    SplitContinues(x, tail);
    assert Lift(Rest(x)) + tail == tail;
  }

  lemma FirstSegment(done: seq<seq<Byte>>, buf: seq<Byte>, i: nat)
    requires i < |buf| && Open(buf[..i]) && Ends(Data(buf[i]))
    ensures done + Segments(Lift(buf)) == (done + [buf[..i]]) + Segments(Lift(buf[i + 1..]))
    ensures Rest(Lift(buf)) == Rest(Lift(buf[i + 1..]))
  {
    var head, tail := buf[..i], buf[i + 1..];
    assert Lift(buf) == Lift(head) + [Data(buf[i])] + Lift(tail);
    HeadSegment(head, Data(buf[i]), Lift(tail));
    assert done + ([head] + Segments(Lift(tail))) == (done + [head]) + Segments(Lift(tail));
  }

  // `done` has been split off the whole, and `buf` is left.
  ghost predicate Split(done: seq<seq<Byte>>, buf: seq<Byte>, whole: seq<Item>) {
    done + Segments(Lift(buf)) == Segments(whole) && Rest(Lift(buf)) == Rest(whole)
  }

  lemma SplitOff(done: seq<seq<Byte>>, buf: seq<Byte>, whole: seq<Item>, i: nat)
    requires i < |buf| && Open(buf[..i]) && Ends(Data(buf[i])) && Split(done, buf, whole)
    ensures Split(done + [buf[..i]], buf[i + 1..], whole)
  {
    FirstSegment(done, buf, i);
  }

  lemma AllSplit(done: seq<seq<Byte>>, buf: seq<Byte>, whole: seq<Item>)
    requires Open(buf) && Split(done, buf, whole)
    ensures Segments(whole) == done && Rest(whole) == buf
    ensures [] + NonBlank(done) == NonBlank(done)
  {
    OpenSplit(buf);
    assert done + [] == done;
  }

  // The stream with its segments and terminators put back together.
  function Rejoin(segments: seq<seq<Byte>>, ends: seq<Item>, rest: seq<Byte>): seq<Item>
    requires |segments| == |ends|
  {
    if segments == [] then Lift(rest)
    else Lift(segments[0]) + [ends[0]] + Rejoin(segments[1..], ends[1..], rest)
  }

  // The split is the only way to cut the stream into open segments, each closed by
  // one terminator, followed by an open tail: nothing is dropped, merged or moved.
  lemma {:induction false} SplitIsUnique(segments: seq<seq<Byte>>, ends: seq<Item>, rest: seq<Byte>)
    requires |segments| == |ends| && Open(rest)
    requires forall k :: 0 <= k < |segments| ==> Open(segments[k]) && Ends(ends[k])
    ensures Segments(Rejoin(segments, ends, rest)) == segments
    ensures Rest(Rejoin(segments, ends, rest)) == rest
  {
    if segments == [] {
      OpenSplit(rest);
    } else {
      SplitIsUnique(segments[1..], ends[1..], rest);
      HeadSegment(segments[0], ends[0], Rejoin(segments[1..], ends[1..], rest));
    }
  }

  // ---------- the writer ----------

  datatype Call = Write(p: seq<Byte>) | Flush

  datatype Writer = Writer(buf: seq<Byte>, messages: seq<seq<Byte>>)

  // What one call does to the writer, as the methods below establish.
  function Apply(w: Writer, call: Call): Writer {
    match call
    case Write(p) =>
      var stream := Lift(w.buf + p);
      Writer(Rest(stream), w.messages + NonBlank(Segments(stream)))
    case Flush => Writer([], w.messages + NonBlank([w.buf]))
  }

  class LineWriter {
    const event: string
    var buf: seq<Byte>
    var sink: seq<Progress>

    constructor (event: string)
      ensures this.event == event && buf == [] && sink == []
    {
      this.event := event;
      buf, sink := [], [];
    }

    method EmitLine(line: seq<Byte>)
      modifies this`sink
      ensures sink == old(sink) + Records(event, NonBlank([line]))
    {
      NonBlankOne(line);
      if Blank(line) {
        return;
      }
      sink := sink + [Progress(event, line)];
    }

    method Write(p: seq<Byte>) returns (n: nat)
      modifies this
      ensures n == |p|
      ensures var w := Apply(Writer(old(buf), []), Call.Write(p));
              buf == w.buf && sink == old(sink) + Records(event, w.messages)
    {
      buf := buf + p;
      ghost var done: seq<seq<Byte>> := [];
      ghost var whole := Lift(buf);
      assert Split(done, buf, whole);
      while true
        invariant Split(done, buf, whole)
        invariant sink == old(sink) + Records(event, NonBlank(done))
        decreases |buf|
      {
        var i := IndexTerminator(buf);
        if i == |buf| {
          break;
        }
        SplitOff(done, buf, whole, i);
        RecordsGrow(event, done, buf[..i]);
        done := done + [buf[..i]];
        EmitLine(buf[..i]);
        buf := buf[i + 1..];
      }
      AllSplit(done, buf, whole);
      return |p|;
    }

    method Flush()
      modifies this
      ensures var w := Apply(Writer(old(buf), []), Call.Flush);
              buf == w.buf && sink == old(sink) + Records(event, w.messages)
    {
      NonBlankOne(buf);
      if |buf| == 0 {
        return;
      }
      var line := buf;
      buf := [];
      EmitLine(line);
    }
  }

  // The records that carry the given messages under one event.
  function Records(event: string, messages: seq<seq<Byte>>): seq<Progress> {
    seq(|messages|, k requires 0 <= k < |messages| => Progress(event, messages[k]))
  }

  lemma RecordsGrow(event: string, done: seq<seq<Byte>>, line: seq<Byte>)
    ensures Records(event, NonBlank(done + [line]))
         == Records(event, NonBlank(done)) + Records(event, NonBlank([line]))
  {
    NonBlankConcat(done, [line]);
  }

  // bytes.IndexAny(buf, "\n\r"), with |buf| standing for -1.
  method IndexTerminator(buf: seq<Byte>) returns (i: nat)
    ensures i <= |buf| && Open(buf[..i])
    ensures i < |buf| ==> buf[i] == LF || buf[i] == CR
    ensures i == |buf| ==> Open(buf)
  {
    i := 0;
    while i < |buf| && buf[i] != LF && buf[i] != CR
      invariant i <= |buf| && Open(buf[..i])
    {
      i := i + 1;
    }
    assert i == |buf| ==> buf[..i] == buf;
  }

  // ---------- runs ----------

  function Run(calls: seq<Call>): Writer {
    if calls == [] then Writer([], []) else Apply(Run(Init(calls)), Last(calls))
  }

  function CallItems(call: Call): seq<Item> {
    match call
    case Write(p) => Lift(p)
    case Flush => [Flushed]
  }

  // Everything the calls deliver, chunk boundaries forgotten.
  function Stream(calls: seq<Call>): seq<Item> {
    if calls == [] then [] else Stream(Init(calls)) + CallItems(Last(calls))
  }

  // The writer that has split all of a stream.
  function SplitAll(stream: seq<Item>): Writer {
    Writer(Rest(stream), NonBlank(Segments(stream)))
  }

  lemma WriteContinues(stream: seq<Item>, p: seq<Byte>)
    ensures Apply(SplitAll(stream), Write(p)) == SplitAll(stream + Lift(p))
  {
    SplitContinues(stream, Lift(p));
    assert Lift(Rest(stream)) + Lift(p) == Lift(Rest(stream) + p);
    NonBlankConcat(Segments(stream), Segments(Lift(Rest(stream) + p)));
  }

  lemma FlushContinues(stream: seq<Item>)
    ensures Apply(SplitAll(stream), Flush) == SplitAll(stream + [Flushed])
  {
    assert Init(stream + [Flushed]) == stream;
    NonBlankConcat(Segments(stream), [Rest(stream)]);
  }

  // For every sequence of calls, the records are the non-blank segments of the
  // stream and the buffer is its open tail.
  lemma {:induction false} RunIsBatchSplit(calls: seq<Call>)
    ensures Run(calls) == Writer(Rest(Stream(calls)), NonBlank(Segments(Stream(calls))))
  {
    if calls != [] {
      RunIsBatchSplit(Init(calls));
      match Last(calls)
      case Write(p) => WriteContinues(Stream(Init(calls)), p);
      case Flush => FlushContinues(Stream(Init(calls)));
    }
  }

  // Two call sequences that deliver the same stream leave the same records and
  // the same buffer, wherever their chunks were cut.
  lemma ChunkingIndependence(a: seq<Call>, b: seq<Call>)
    requires Stream(a) == Stream(b)
    ensures Run(a) == Run(b)
  {
    RunIsBatchSplit(a);
    RunIsBatchSplit(b);
  }

  function CrlfBytes(p: seq<Byte>): seq<Byte> {
    if p == [] then [] else CrlfBytes(Init(p)) + (if Last(p) == LF then [CR, LF] else [Last(p)])
  }

  function CrlfCalls(calls: seq<Call>): seq<Call> {
    if calls == [] then []
    else
      CrlfCalls(Init(calls))
      + [match Last(calls) { case Write(p) => Write(CrlfBytes(p)) case Flush => Flush }]
  }

  // Two streams that leave the same records and the same open tail.
  predicate Same(x: seq<Item>, y: seq<Item>) {
    Rest(x) == Rest(y) && NonBlank(Segments(x)) == NonBlank(Segments(y))
  }

  lemma AfterItem(x: seq<Item>, item: Item)
    ensures Ends(item) ==>
              Rest(x + [item]) == []
              && NonBlank(Segments(x + [item])) == NonBlank(Segments(x)) + NonBlank([Rest(x)])
    ensures !Ends(item) ==>
              Rest(x + [item]) == Rest(x) + [item.b] && Segments(x + [item]) == Segments(x)
  {
    assert Init(x + [item]) == x && Last(x + [item]) == item;
    if Ends(item) {
      NonBlankConcat(Segments(x), [Rest(x)]);
    }
  }

  lemma SameAfterItem(x: seq<Item>, y: seq<Item>, i: Item, j: Item)
    requires Same(x, y) && (i == j || (Ends(i) && Ends(j)))
    ensures Same(x + [i], y + [j])
  {
    AfterItem(x, i);
    AfterItem(y, j);
  }

  // A terminator right after another adds a blank segment.
  lemma ExtraEnd(z: seq<Item>, item: Item)
    requires Rest(z) == [] && Ends(item)
    ensures Same(z, z + [item])
  {
    AfterItem(z, item);
    NonBlankOne([]);
  }

  lemma CrlfOne(y: seq<Item>, b: Byte)
    ensures y + Lift(CrlfBytes([b])) == if b == LF then (y + [Data(CR)]) + [Data(LF)] else y + [Data(b)]
  {
    assert Init([b]) == [] && CrlfBytes([b]) == if b == LF then [CR, LF] else [b];
  }

  lemma SameAfterByte(x: seq<Item>, y: seq<Item>, b: Byte)
    requires Same(x, y)
    ensures Same(x + [Data(b)], y + Lift(CrlfBytes([b])))
  {
    CrlfOne(y, b);
    if b == LF {
      SameAfterItem(x, y, Data(LF), Data(CR));
      AfterItem(y, Data(CR));
      ExtraEnd(y + [Data(CR)], Data(LF));
    } else {
      SameAfterItem(x, y, Data(b), Data(b));
    }
  }

  lemma {:induction false} SameAfterChunk(x: seq<Item>, y: seq<Item>, p: seq<Byte>)
    requires Same(x, y)
    ensures Same(x + Lift(p), y + Lift(CrlfBytes(p)))
  {
    if p == [] {
      assert x + Lift(p) == x && y + Lift(CrlfBytes(p)) == y;
    } else {
      var b := Last(p);
      SameAfterChunk(x, y, Init(p));
      SameAfterByte(x + Lift(Init(p)), y + Lift(CrlfBytes(Init(p))), b);
      LiftLast(x, p);
      CrlfLast(p);
      LiftSnoc(y, CrlfBytes(Init(p)), CrlfBytes([b]));
    }
  }

  lemma LiftLast(x: seq<Item>, p: seq<Byte>)
    requires p != []
    ensures x + Lift(p) == (x + Lift(Init(p))) + [Data(Last(p))]
  {
    LiftSnoc(x, Init(p), [Last(p)]);
    assert Init(p) + [Last(p)] == p;
    assert Lift([Last(p)]) == [Data(Last(p))];
  }

  lemma CrlfLast(p: seq<Byte>)
    requires p != []
    ensures CrlfBytes(p) == CrlfBytes(Init(p)) + CrlfBytes([Last(p)])
  {
    assert Init([Last(p)]) == [];
  }

  lemma LiftSnoc(x: seq<Item>, p: seq<Byte>, q: seq<Byte>)
    ensures x + Lift(p + q) == (x + Lift(p)) + Lift(q)
  {
  }

  lemma {:induction false} CrlfStreamsSame(calls: seq<Call>)
    ensures Same(Stream(calls), Stream(CrlfCalls(calls)))
  {
    if calls != [] {
      var before := Init(calls);
      CrlfStreamsSame(before);
      var x, y := Stream(before), Stream(CrlfCalls(before));
      assert Init(CrlfCalls(calls)) == CrlfCalls(before);
      match Last(calls)
      case Write(p) => SameAfterChunk(x, y, p);
      case Flush => SameAfterItem(x, y, Flushed, Flushed);
    }
  }

  // Writing every line feed as CR LF changes neither the records nor the buffer.
  lemma CrlfIsInvisible(calls: seq<Call>)
    ensures Run(CrlfCalls(calls)) == Run(calls)
  {
    CrlfStreamsSame(calls);
    RunIsBatchSplit(calls);
    RunIsBatchSplit(CrlfCalls(calls));
  }

  // ---------- blank lines ----------

  // The code points Unicode counts as white space.
  predicate IsSpace(cp: nat) {
    || 9 <= cp <= 13 || cp == 0x20 || cp == 0x85 || cp == 0xA0 || cp == 0x1680 || 0x2000 <= cp <= 0x200A
    || cp == 0x2028 || cp == 0x2029 || cp == 0x202F || cp == 0x205F || cp == 0x3000
  }

  type Space = cp: nat | IsSpace(cp) witness 0x20

  function Utf8(cp: Space): seq<Byte> {
    assert IsSpace(cp) && cp <= 0x3000;
    if cp < 0x80 then [cp]
    else if cp < 0x800 then [0xC0 + cp / 64, 0x80 + cp % 64]
    else [0xE0 + cp / 4096, 0x80 + cp / 64 % 64, 0x80 + cp % 64]
  }

  // The bytes of a text of white space.
  function SpaceBytes(cps: seq<Space>): seq<Byte> {
    if cps == [] then [] else Utf8(cps[0]) + SpaceBytes(cps[1..])
  }

  lemma SpaceIsRead(cp: Space, rest: seq<Byte>)
    ensures SpaceLength(Utf8(cp) + rest) == |Utf8(cp)|
  {
    var line := Utf8(cp) + rest;
    assert line[..|Utf8(cp)|] == Utf8(cp);
    assert IsSpace(cp);
    if cp == 0x1680 {
      assert Utf8(cp) == [0xE1, 0x9A, 0x80];
    } else if cp == 0x3000 {
      assert Utf8(cp) == [0xE3, 0x80, 0x80];
    } else if cp == 0x205F {
      assert Utf8(cp) == [0xE2, 0x81, 0x9F];
    } else if cp >= 0x800 {
      assert Utf8(cp) == [0xE2, 0x80, cp - 0x2000 + 0x80];
      assert line[..2] == [0xE2, 0x80];
    }
  }

  lemma FrontIsSpace(line: seq<Byte>) returns (cp: Space)
    requires SpaceLength(line) > 0
    ensures line[..SpaceLength(line)] == Utf8(cp)
  {
    if SpaceLength(line) == 1 {
      cp := line[0];
    } else if SpaceLength(line) == 2 {
      cp := line[1];
    } else if line[..3] == [0xE1, 0x9A, 0x80] {
      cp := 0x1680;
    } else if line[..3] == [0xE3, 0x80, 0x80] {
      cp := 0x3000;
    } else if line[..3] == [0xE2, 0x81, 0x9F] {
      cp := 0x205F;
    } else {
      var low: int := line[2];
      cp := 0x2000 + low - 0x80;
      assert line[..3] == line[..2] + [line[2]];
    }
  }

  lemma {:induction false} BlankIsSpaces(line: seq<Byte>) returns (cps: seq<Space>)
    requires Blank(line)
    ensures SpaceBytes(cps) == line
    decreases |line|
  {
    if line == [] {
      cps := [];
    } else {
      var cp := FrontIsSpace(line);
      var rest := BlankIsSpaces(line[SpaceLength(line)..]);
      cps := [cp] + rest;
      assert cps[1..] == rest;
    }
  }

  lemma {:induction false} SpacesAreBlank(cps: seq<Space>)
    ensures Blank(SpaceBytes(cps))
  {
    if cps != [] {
      SpacesAreBlank(cps[1..]);
      SpaceIsRead(cps[0], SpaceBytes(cps[1..]));
      var line := SpaceBytes(cps);
      assert line[|Utf8(cps[0])|..] == SpaceBytes(cps[1..]);
    }
  }

  // A line is skipped exactly when it is the UTF-8 text of white space and nothing else.
  lemma BlankExactly(line: seq<Byte>)
    ensures Blank(line) <==> exists cps: seq<Space> :: SpaceBytes(cps) == line
  {
    if Blank(line) {
      var cps := BlankIsSpaces(line);
    }
    if cps: seq<Space> :| SpaceBytes(cps) == line {
      SpacesAreBlank(cps);
    }
  }

  // Line feed and carriage return end a line, and no other byte does.
  lemma TerminatorsAre(b: Byte)
    ensures Ends(Data(b)) <==> b == 10 || b == 13
    ensures Segments([Data(b)]) == if b == 10 || b == 13 then [[]] else []
    ensures Rest([Data(b)]) == if b == 10 || b == 13 then [] else [b]
  {
    assert Init([Data(b)]) == [];
  }

  // A record carries its line as it came, under the writer's event.
  lemma RecordsCarryLines(event: string, messages: seq<seq<Byte>>)
    ensures |Records(event, messages)| == |messages|
    ensures forall k :: 0 <= k < |messages| ==> Records(event, messages)[k] == Progress(event, messages[k])
  {
  }
}
