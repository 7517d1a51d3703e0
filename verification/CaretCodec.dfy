/**
 The caret codec that turns host paths into directory names
 (internal/config/encode.go). A Dafny `char` is a Unicode scalar value, so a
 `string` is a sequence of scalar values.
 */
module CaretCodec {
  import opened Results

  datatype DecodeError =
    | TruncatedCaret
    | TruncatedHex(need: nat)
    | InvalidHexDigit
    | InvalidCodepoint(codepoint: nat)

  // ---------- tables ----------

  predicate SafeAscii(c: char) {
    || '0' <= c <= '9' || 'A' <= c <= 'Z' || 'a' <= c <= 'z'
    || c in "-_`{}.~"
  }

  function EncodeShortcut(c: char): Option<char> {
    match c
    case '^' => Some('^') case ' ' => Some('_') case '=' => Some('-') case '+' => Some('`')
    case '(' => Some('{') case ')' => Some('}') case '>' => Some('g') case '#' => Some('h')
    case '!' => Some('i') case '\'' => Some('j') case ':' => Some('k') case '<' => Some('l')
    case '%' => Some('m') case '&' => Some('n') case '@' => Some('o') case '|' => Some('p')
    case '?' => Some('q') case '\\' => Some('r') case '/' => Some('s') case '*' => Some('t')
    case '\"' => Some('u') case '$' => Some('v')
    case _ => None
  }

  // What the letters g to v, in either case, stand for after a caret.
  const LETTER_SHORTCUTS: string := ">#!':<%&@|?\\/*\"$"

  function DecodeShortcut(c: char): Option<char> {
    if 'g' <= c <= 'v' then Some(LETTER_SHORTCUTS[c as nat - 'g' as nat])
    else if 'G' <= c <= 'V' then Some(LETTER_SHORTCUTS[c as nat - 'G' as nat])
    else
      match c
      case '^' => Some('^') case '_' => Some(' ') case '-' => Some('=')
      case '`' => Some('+') case '{' => Some('(') case '}' => Some(')')
      case _ => None
  }

  // ---------- hexadecimal ----------

  function Pow16(n: nat): nat {
    if n == 0 then 1 else 16 * Pow16(n - 1)
  }

  function HexDigit(d: nat): char
    requires d < 16
  {
    "0123456789ABCDEF"[d]
  }

  function HexValue(c: char): Option<nat> {
    if '0' <= c <= '9' then Some(c as nat - '0' as nat)
    else if 'a' <= c <= 'f' then Some(c as nat - 'a' as nat + 10)
    else if 'A' <= c <= 'F' then Some(c as nat - 'A' as nat + 10)
    else None
  }

  // The `%0<width>X` rendering of n; exact because callers keep n below 16^width.
  function HexString(n: nat, width: nat): (h: string)
    ensures |h| == width
  {
    if width == 0 then "" else HexString(n / 16, width - 1) + [HexDigit(n % 16)]
  }

  // The number a hexadecimal string denotes, or None when a character is not a digit.
  function HexNumber(h: string): Option<nat> {
    if h == "" then Some(0)
    else
      match (HexNumber(h[..|h| - 1]), HexValue(h[|h| - 1]))
      case (Some(n), Some(d)) => Some(16 * n + d)
      case _ => None
  }

  // parseHex. The source shifts left by four and ors the digit in, which is
  // 16 * result + digit; the bound shows that the six digits the decoder passes
  // at most stay inside a uint32.
  method ParseHex(h: string) returns (r: Result<nat, DecodeError>)
    ensures r == match HexNumber(h) { case Some(n) => Ok(n) case None => Err(InvalidHexDigit) }
    ensures r.Ok? ==> r.value < Pow16(|h|)
  {
    var result := 0;
    for i := 0 to |h|
      invariant HexNumber(h[..i]) == Some(result)
      invariant result < Pow16(i)
    {
      assert h[..i + 1][..i] == h[..i];
      match HexValue(h[i])
      case Some(d) => result := 16 * result + d;
      case None =>
        BadDigitSpoils(h, i);
        return Err(InvalidHexDigit);
    }
    assert h[..|h|] == h;
    return Ok(result);
  }

  lemma {:induction false} BadDigitSpoils(h: string, i: nat)
    requires i < |h| && HexValue(h[i]) == None
    ensures HexNumber(h) == None
  {
    if i < |h| - 1 {
      BadDigitSpoils(h[..|h| - 1], i);
    }
  }

  lemma DigitRoundTrip(d: nat)
    requires d < 16
    ensures HexValue(HexDigit(d)) == Some(d)
  {
  }

  lemma HexSnoc(h: string, c: char)
    ensures HexNumber(h + [c])
         == match (HexNumber(h), HexValue(c)) { case (Some(n), Some(d)) => Some(16 * n + d) case _ => None }
  {
    assert (h + [c])[..|h|] == h;
  }

  lemma {:induction false} HexRoundTrip(n: nat, width: nat)
    requires n < Pow16(width)
    ensures HexNumber(HexString(n, width)) == Some(n)
  {
    if width > 0 {
      var high, low := n / 16, n % 16;
      assert n == 16 * high + low;
      HexRoundTrip(high, width - 1);
      DigitRoundTrip(low);
      HexSnoc(HexString(high, width - 1), HexDigit(low));
    }
  }

  lemma {:induction false} HexNumberBound(h: string)
    ensures HexNumber(h).Some? ==> HexNumber(h).value < Pow16(|h|)
  {
    if h != "" {
      HexNumberBound(h[..|h| - 1]);
    }
  }

  lemma {:induction false} HexStringDigits(n: nat, width: nat, k: nat)
    requires k < width
    ensures exists d: nat :: d < 16 && HexString(n, width)[k] == HexDigit(d)
  {
    if k == width - 1 {
      assert HexString(n, width)[k] == HexDigit(n % 16);
    } else {
      HexStringDigits(n / 16, width - 1, k);
    }
  }

  lemma Pow16Values()
    ensures Pow16(2) == 0x100 && Pow16(3) == 0x1000 && Pow16(4) == 0x1_0000
    ensures Pow16(5) == 0x10_0000 && Pow16(6) == 0x100_0000
  {
    assert Pow16(1) == 16;
    assert Pow16(2) == 16 * Pow16(1);
    assert Pow16(3) == 16 * Pow16(2);
    assert Pow16(4) == 16 * Pow16(3);
    assert Pow16(5) == 16 * Pow16(4);
    assert Pow16(6) == 16 * Pow16(5);
  }

  // ---------- encoding ----------

  function HexWidth(c: char): nat {
    var cp := c as nat;
    if cp <= 0xFF then 2 else if cp <= 0xFFF then 3 else if cp <= 0xFFFF then 4
    else if cp <= 0xF_FFFF then 5 else 6
  }

  function WidthPrefix(width: nat): string
    requires 2 <= width <= 6
  {
    ["^", "^w", "^x", "^y", "^z"][width - 2]
  }

  // encodeRune: the hexadecimal caret form.
  function EncodeRune(c: char): string {
    WidthPrefix(HexWidth(c)) + HexString(c as nat, HexWidth(c))
  }

  // The caret form EncodePath picks for a character it does not copy.
  function CaretForm(c: char): string {
    match EncodeShortcut(c)
    case Some(sc) => ['^', sc]
    case None => EncodeRune(c)
  }

  // A dot that ends a path component, which Windows would strip.
  predicate TrailingDot(s: string, i: nat)
    requires i < |s|
  {
    s[i] == '.' && (i + 1 >= |s| || s[i + 1] == '/')
  }

  function EncodeAt(s: string, i: nat): string
    requires i < |s|
  {
    if TrailingDot(s, i) then EncodeRune(s[i])
    else if SafeAscii(s[i]) then [s[i]]
    else CaretForm(s[i])
  }

  function Encode(s: string, i: nat): string
    requires i <= |s|
    decreases |s| - i
  {
    if i == |s| then "" else EncodeAt(s, i) + Encode(s, i + 1)
  }

  lemma Associates(a: string, b: string, c: string)
    ensures a + (b + c) == (a + b) + c
  {
  }

  lemma EncodeExtends(built: string, s: string, i: nat)
    requires i < |s|
    ensures built + Encode(s, i) == (built + EncodeAt(s, i)) + Encode(s, i + 1)
  {
    Associates(built, EncodeAt(s, i), Encode(s, i + 1));
  }

  // The body of EncodePath's loop.
  method EncodeOne(hostPath: string, i: nat) returns (piece: string)
    requires i < |hostPath|
    ensures piece == EncodeAt(hostPath, i)
  {
    var r := hostPath[i];
    if r == '.' && (i + 1 >= |hostPath| || hostPath[i + 1] == '/') {
      return EncodeRune(r);
    }
    if SafeAscii(r) {
      return [r];
    }
    var sc := EncodeShortcut(r);
    return if sc.Some? then ['^', sc.value] else EncodeRune(r);
  }

  // EncodePath.
  method EncodePath(hostPath: string) returns (encoded: string)
    ensures encoded == Encode(hostPath, 0)
  {
    var builder := "";
    ghost var whole := Encode(hostPath, 0);
    for i := 0 to |hostPath|
      invariant builder + Encode(hostPath, i) == whole
    {
      EncodeExtends(builder, hostPath, i);
      var piece := EncodeOne(hostPath, i);
      builder := builder + piece;
    }
    return builder;
  }

  // ---------- decoding ----------

  // Number of hexadecimal digits announced by the character after the caret, and
  // where they start.
  function HexWindow(modifier: char): (w: (nat, nat))
    ensures 2 <= w.0 <= 6 && 1 <= w.1 <= 2
  {
    if modifier in "wW" then (3, 2)
    else if modifier in "xX" then (4, 2)
    else if modifier in "yY" then (5, 2)
    else if modifier in "zZ" then (6, 2)
    else (2, 1)
  }

  predicate ValidRune(n: nat) {
    n < 0xD800 || 0xE000 <= n < 0x11_0000
  }

  function Utf8Width(c: char): nat {
    var cp := c as nat;
    if cp < 0x80 then 1 else if cp < 0x800 then 2 else if cp < 0x1_0000 then 3 else 4
  }

  // Length in bytes, which is what the decoder measures the rest of its input in. A
  // rest with enough bytes but too few characters has some that are no hex digits.
  function Utf8Length(s: string): (n: nat)
    ensures n >= |s|
  {
    if s == "" then 0 else Utf8Width(s[0]) + Utf8Length(s[1..])
  }

  datatype Step = Step(c: char, consumed: nat)

  // The hexadecimal form whose digits start at `start`.
  function DecodeHex(e: string, start: nat, digits: nat): (r: Result<Step, DecodeError>)
    requires start <= |e| && digits > 0
    ensures r.Ok? ==> 0 < r.value.consumed <= |e|
  {
    if Utf8Length(e[start..]) < digits then Err(TruncatedHex(digits))
    else if start + digits > |e| then Err(InvalidHexDigit)
    else
      match HexNumber(e[start..start + digits])
      case None => Err(InvalidHexDigit)
      case Some(n) =>
        if ValidRune(n) then Ok(Step(n as char, start + digits)) else Err(InvalidCodepoint(n))
  }

  // One turn of the decoding loop at the front of e.
  function DecodeStep(e: string): (r: Result<Step, DecodeError>)
    requires e != ""
    ensures r.Ok? ==> 0 < r.value.consumed <= |e|
  {
    if e[0] != '^' then Ok(Step(e[0], 1))
    else if |e| == 1 then Err(TruncatedCaret)
    else
      match DecodeShortcut(e[1])
      case Some(c) => Ok(Step(c, 2))
      case None =>
        var (digits, start) := HexWindow(e[1]);
        DecodeHex(e, start, digits)
  }

  // How the front of the input is read: the character and the length it takes.
  type Reader = string -> Result<Step, DecodeError>

  function ReadFront(): Reader {
    (e: string) => if e == "" then Err(TruncatedCaret) else DecodeStep(e)
  }

  function DecodeWith(read: Reader, e: string): Result<string, DecodeError>
    decreases |e|
  {
    if e == "" then Ok("")
    else
      match read(e)
      case Err(err) => Err(err)
      case Ok(step) =>
        if !(0 < step.consumed <= |e|) then Err(TruncatedCaret)
        else
          match DecodeWith(read, e[step.consumed..])
          case Err(err) => Err(err)
          case Ok(rest) => Ok([step.c] + rest)
  }

  // Step by step until nothing is left, or a step fails.
  function Decode(e: string): Result<string, DecodeError> {
    DecodeWith(ReadFront(), e)
  }

  // What is decoded once `built` has been produced and `rest` is still to read.
  function Resume(read: Reader, built: string, rest: string): Result<string, DecodeError> {
    match DecodeWith(read, rest)
    case Err(err) => Err(err)
    case Ok(tail) => Ok(built + tail)
  }

  lemma ResumeEnds(read: Reader, built: string, e: string)
    ensures Resume(read, "", e) == DecodeWith(read, e) && Resume(read, built, "") == Ok(built)
  {
    assert built + "" == built;
    match DecodeWith(read, e)
    case Err(_) =>
    case Ok(tail) => assert "" + tail == tail;
  }

  // The decoder's state after one turn, `step` being what it read.
  lemma ResumeStep(read: Reader, built: string, encoded: string, at: nat, step: Result<Step, DecodeError>)
    requires at < |encoded| && step == read(encoded[at..])
    requires step.Ok? ==> 0 < step.value.consumed <= |encoded| - at
    ensures step.Err? ==> Resume(read, built, encoded[at..]) == Err(step.error)
    ensures step.Ok? ==>
              Resume(read, built, encoded[at..])
              == Resume(read, built + [step.value.c], encoded[at + step.value.consumed..])
  {
    if step.Ok? {
      var rest := encoded[at + step.value.consumed..];
      assert encoded[at..][step.value.consumed..] == rest;
      match DecodeWith(read, rest)
      case Err(_) =>
      case Ok(tail) => assert built + ([step.value.c] + tail) == built + [step.value.c] + tail;
    }
  }

  // The switch on the width modifier: digits to read, and whether it is skipped.
  method ReadWidth(modifier: char) returns (hexDigits: nat, start: nat)
    ensures (hexDigits, start) == HexWindow(modifier)
  {
    if modifier in "wW" { return 3, 2; }
    if modifier in "xX" { return 4, 2; }
    if modifier in "yY" { return 5, 2; }
    if modifier in "zZ" { return 6, 2; }
    return 2, 1;
  }

  // The hex digits announced at `from`.
  method ReadHex(rest: string, from: nat, hexDigits: nat) returns (r: Result<Step, DecodeError>)
    requires from <= |rest| && 2 <= hexDigits <= 6
    ensures r == DecodeHex(rest, from, hexDigits)
  {
    if Utf8Length(rest[from..]) < hexDigits {
      return Err(TruncatedHex(hexDigits));
    }
    if from + hexDigits > |rest| {
      return Err(InvalidHexDigit);
    }
    var codepoint := ParseHex(rest[from..from + hexDigits]);
    if codepoint.Err? {
      return Err(InvalidHexDigit);
    }
    if !ValidRune(codepoint.value) {
      return Err(InvalidCodepoint(codepoint.value));
    }
    return Ok(Step(codepoint.value as char, from + hexDigits));
  }

  // One turn of DecodePath's loop: the character or caret sequence at `at`.
  method ReadCaret(encoded: string, at: nat) returns (r: Result<Step, DecodeError>)
    requires at < |encoded|
    ensures r == DecodeStep(encoded[at..])
  {
    var rest := encoded[at..];
    if rest[0] != '^' {
      return Ok(Step(rest[0], 1));
    }
    if |rest| == 1 {
      return Err(TruncatedCaret);
    }
    var shortcut := DecodeShortcut(rest[1]);
    if shortcut.Some? {
      return Ok(Step(shortcut.value, 2));
    }
    var hexDigits, start := ReadWidth(rest[1]);
    r := ReadHex(rest, start, hexDigits);
  }

  // `read` is what ReadCaret does.
  ghost predicate ReadsFront(read: Reader) {
    forall e: string {:trigger DecodeStep(e)} :: e != "" ==> read(e) == DecodeStep(e)
  }

  method ReadStep(encoded: string, at: nat, ghost read: Reader) returns (r: Result<Step, DecodeError>)
    requires at < |encoded| && ReadsFront(read)
    ensures r == read(encoded[at..])
    ensures r.Ok? ==> 0 < r.value.consumed <= |encoded| - at
  {
    r := ReadCaret(encoded, at);
  }

  // DecodePath's loop, over a reader of the front.
  method DecodeLoop(encoded: string, ghost read: Reader) returns (r: Result<string, DecodeError>)
    requires ReadsFront(read)
    ensures r == DecodeWith(read, encoded)
  {
    var builder := "";
    var i := 0;
    assert encoded[0..] == encoded;
    ResumeEnds(read, "", encoded);
    while i < |encoded|
      invariant 0 <= i <= |encoded|
      invariant Resume(read, builder, encoded[i..]) == DecodeWith(read, encoded)
    {
      var step := ReadStep(encoded, i, read);
      ResumeStep(read, builder, encoded, i, step);
      if step.Err? {
        return Err(step.error);
      }
      builder := builder + [step.value.c];
      i := i + step.value.consumed;
    }
    assert encoded[i..] == "";
    ResumeEnds(read, builder, encoded);
    return Ok(builder);
  }

  // DecodePath.
  method DecodePath(encoded: string) returns (r: Result<string, DecodeError>)
    ensures r == Decode(encoded)
  {
    r := DecodeLoop(encoded, ReadFront());
  }

  // ---------- round trip ----------

  lemma ShortcutsInvert(c: char)
    ensures EncodeShortcut(c).Some? ==> DecodeShortcut(EncodeShortcut(c).value) == Some(c)
  {
  }

  lemma DecimalsAreNoModifiers(c: char)
    requires '0' <= c <= '9'
    ensures DecodeShortcut(c) == None && HexWindow(c) == (2, 1)
  {
  }

  lemma LettersAreNoModifiers(c: char)
    requires 'A' <= c <= 'F'
    ensures DecodeShortcut(c) == None && HexWindow(c) == (2, 1)
  {
  }

  lemma HexDigitRange(d: nat)
    requires d < 16
    ensures '0' <= HexDigit(d) <= '9' || 'A' <= HexDigit(d) <= 'F'
  {
  }

  lemma HexDigitsAreNoModifiers(d: nat)
    requires d < 16
    ensures DecodeShortcut(HexDigit(d)) == None && HexWindow(HexDigit(d)) == (2, 1)
  {
    HexDigitRange(d);
    if HexDigit(d) <= '9' {
      DecimalsAreNoModifiers(HexDigit(d));
    } else {
      LettersAreNoModifiers(HexDigit(d));
    }
  }

  lemma HexFormDecodes(e: string, width: nat, start: nat, n: nat)
    requires |e| >= start + width && |e| > 1 && e[0] == '^'
    requires DecodeShortcut(e[1]) == None && HexWindow(e[1]) == (width, start)
    requires HexNumber(e[start..start + width]) == Some(n) && ValidRune(n)
    ensures DecodeStep(e) == Ok(Step(n as char, start + width))
  {
  }

  lemma RuneModifier(c: char, rest: string)
    ensures var e := EncodeRune(c) + rest;
            && |e| > 1 && e[0] == '^' && DecodeShortcut(e[1]) == None
            && HexWindow(e[1]) == (HexWidth(c), |WidthPrefix(HexWidth(c))|)
  {
    var width := HexWidth(c);
    var e := EncodeRune(c) + rest;
    if width == 2 {
      HexStringDigits(c as nat, 2, 0);
      var d: nat :| d < 16 && HexString(c as nat, 2)[0] == HexDigit(d);
      assert e[1] == HexDigit(d);
      HexDigitsAreNoModifiers(d);
    } else {
      assert e[1] == WidthPrefix(width)[1];
    }
  }

  lemma RuneDecodes(c: char, rest: string)
    ensures DecodeStep(EncodeRune(c) + rest) == Ok(Step(c, |EncodeRune(c)|))
  {
    var width := HexWidth(c);
    var start := |WidthPrefix(width)|;
    var e := EncodeRune(c) + rest;
    Pow16Values();
    HexRoundTrip(c as nat, width);
    assert e[start..start + width] == HexString(c as nat, width);
    RuneModifier(c, rest);
    HexFormDecodes(e, width, start, c as nat);
  }

  lemma EncodedCharDecodes(s: string, i: nat, rest: string)
    requires i < |s|
    ensures DecodeStep(EncodeAt(s, i) + rest) == Ok(Step(s[i], |EncodeAt(s, i)|))
  {
    var c := s[i];
    if TrailingDot(s, i) || (!SafeAscii(c) && EncodeShortcut(c).None?) {
      RuneDecodes(c, rest);
    } else if SafeAscii(c) {
      assert c != '^';
    } else {
      ShortcutsInvert(c);
      assert (EncodeAt(s, i) + rest)[1] == EncodeShortcut(c).value;
    }
  }

  // The pieces joined from position i on.
  function Joined(pieces: seq<string>, i: nat): string
    requires i <= |pieces|
    decreases |pieces| - i
  {
    if i == |pieces| then "" else pieces[i] + Joined(pieces, i + 1)
  }

  // Each piece is read, whatever follows it, as its character.
  ghost predicate ReadsAs(read: Reader, piece: string, c: char) {
    piece != "" && forall rest: string :: read(piece + rest) == Ok(Step(c, |piece|))
  }

  lemma {:induction false} DecodesJoined(read: Reader, pieces: seq<string>, s: string, i: nat)
    requires i <= |s| == |pieces| && forall k :: 0 <= k < |s| ==> ReadsAs(read, pieces[k], s[k])
    ensures DecodeWith(read, Joined(pieces, i)) == Ok(s[i..])
    decreases |s| - i
  {
    if i < |s| {
      DecodesJoined(read, pieces, s, i + 1);
      var rest := Joined(pieces, i + 1);
      assert ReadsAs(read, pieces[i], s[i]);
      assert (pieces[i] + rest)[|pieces[i]|..] == rest;
      assert s[i..] == [s[i]] + s[i + 1..];
    } else {
      assert s[i..] == "";
    }
  }

  function Pieces(s: string): seq<string> {
    seq(|s|, i requires 0 <= i < |s| => EncodeAt(s, i))
  }

  lemma {:induction false} EncodeJoins(s: string, i: nat)
    requires i <= |s|
    ensures Encode(s, i) == Joined(Pieces(s), i)
    decreases |s| - i
  {
    if i < |s| {
      EncodeJoins(s, i + 1);
      assert Pieces(s)[i] == EncodeAt(s, i);
    }
  }

  lemma PieceReads(s: string, i: nat)
    requires i < |s|
    ensures ReadsAs(ReadFront(), EncodeAt(s, i), s[i])
  {
    forall rest: string
      ensures ReadFront()(EncodeAt(s, i) + rest) == Ok(Step(s[i], |EncodeAt(s, i)|))
    {
      EncodedCharDecodes(s, i, rest);
    }
    EncodedCharIsSafe(s, i);
  }

  // DecodePath(EncodePath(s)) succeeds and returns s.
  lemma RoundTrip(s: string)
    ensures Decode(Encode(s, 0)) == Ok(s)
  {
    forall k | 0 <= k < |s|
      ensures ReadsAs(ReadFront(), Pieces(s)[k], s[k])
    {
      PieceReads(s, k);
    }
    EncodeJoins(s, 0);
    DecodesJoined(ReadFront(), Pieces(s), s, 0);
    assert s[0..] == s;
  }

  // No two host paths share a directory name.
  lemma EncodeInjective(s: string, t: string)
    requires Encode(s, 0) == Encode(t, 0)
    ensures s == t
  {
    RoundTrip(s);
    RoundTrip(t);
  }

  // ---------- safe and tight names ----------

  predicate SafeName(e: string) {
    forall k :: 0 <= k < |e| ==> SafeAscii(e[k]) || e[k] == '^'
  }

  lemma RuneIsSafe(c: char)
    ensures SafeName(EncodeRune(c)) && EncodeRune(c)[|EncodeRune(c)| - 1] != '.'
  {
    var width := HexWidth(c);
    var prefix := WidthPrefix(width);
    forall k | 0 <= k < |EncodeRune(c)|
      ensures SafeAscii(EncodeRune(c)[k]) || EncodeRune(c)[k] == '^'
      ensures k >= |prefix| ==> EncodeRune(c)[k] != '.'
    {
      if k >= |prefix| {
        HexStringDigits(c as nat, width, k - |prefix|);
      }
    }
  }

  lemma ShortcutIsSafe(c: char)
    ensures EncodeShortcut(c).Some? ==>
              var sc := EncodeShortcut(c).value;
              (SafeAscii(sc) || sc == '^') && sc != '.' && SafeName(['^', sc])
  {
  }

  lemma EncodedCharIsSafe(s: string, i: nat)
    requires i < |s|
    ensures var e := EncodeAt(s, i);
            && e != "" && SafeName(e) && (e[|e| - 1] == '.' ==> i + 1 < |s|)
  {
    RuneIsSafe(s[i]);
    ShortcutIsSafe(s[i]);
  }

  // A safe, non-empty name that is allowed to sit at the end of a path.
  predicate SafeEnding(e: string) {
    SafeName(e) && e != "" && e[|e| - 1] != '.'
  }

  lemma SafeConcat(a: string, b: string)
    requires SafeName(a) && SafeEnding(b)
    ensures SafeEnding(a + b)
  {
  }

  lemma {:induction false} EncodedSuffixIsSafe(s: string, i: nat)
    requires i < |s|
    ensures SafeEnding(Encode(s, i))
    decreases |s| - i
  {
    EncodedCharIsSafe(s, i);
    if i + 1 < |s| {
      EncodedSuffixIsSafe(s, i + 1);
      SafeConcat(EncodeAt(s, i), Encode(s, i + 1));
    } else {
      assert Encode(s, i) == EncodeAt(s, i);
    }
  }

  // Every name is built from safe ASCII and carets, holds no separator, never
  // ends in a dot (so is never "." or ".."), and is empty only for the empty path.
  lemma EncodedNameIsSafe(s: string)
    ensures var e := Encode(s, 0);
            && SafeName(e)
            && '/' !in e
            && (e != "" ==> e[|e| - 1] != '.')
            && e != "." && e != ".."
            && (e == "" <==> s == "")
  {
    if s != "" {
      EncodedSuffixIsSafe(s, 0);
    }
  }

  lemma DecodedShortcutHasForm(m: char)
    ensures DecodeShortcut(m).Some? ==> |CaretForm(DecodeShortcut(m).value)| == 2
  {
  }

  // No caret sequence the decoder accepts for a character is shorter than the
  // caret form the encoder uses for it.
  lemma CaretFormIsShortest(e: string)
    requires e != "" && e[0] == '^' && DecodeStep(e).Ok?
    ensures |CaretForm(DecodeStep(e).value.c)| <= DecodeStep(e).value.consumed
  {
    if DecodeShortcut(e[1]).Some? {
      DecodedShortcutHasForm(e[1]);
    } else {
      var (digits, start) := HexWindow(e[1]);
      HexNumberBound(e[start..start + digits]);
      Pow16Values();
    }
  }

  // ---------- which form each character takes ----------

  // A letter, a digit, one of six marks, or a dot that neither ends the path nor stands
  // before a slash.
  predicate Plain(s: string, i: nat)
    requires i < |s|
  {
    || '0' <= s[i] <= '9' || 'A' <= s[i] <= 'Z' || 'a' <= s[i] <= 'z'
    || s[i] in ['-', '_', '`', '{', '}', '~']
    || (s[i] == '.' && i + 1 < |s| && s[i + 1] != '/')
  }

  // Exactly those are copied; every other character takes its caret form.
  lemma CopiedExactly(s: string, i: nat)
    requires i < |s|
    ensures EncodeAt(s, i) == [s[i]] <==> Plain(s, i)
    ensures !Plain(s, i) ==> EncodeAt(s, i) == CaretForm(s[i])
    ensures Encode(s, i) == EncodeAt(s, i) + Encode(s, i + 1)
  {
    CaretFormIsLong(s[i]);
  }

  lemma CaretFormIsLong(c: char)
    ensures |CaretForm(c)| >= 2 && CaretForm(c)[0] == '^'
  {
  }

  // The characters with a shortcut, and their codes.
  const SHORT: string := " =+()>#!':<%&@|?\\/*\"$^"
  const CODES: string := "_-`{}ghijklmnopqrstuv^"

  // The caret form is the shortcut where there is one, and hexadecimal elsewhere. The
  // decoder reads the codes in either case.
  lemma ShortcutTable(k: nat)
    requires k < |SHORT|
    ensures |CODES| == |SHORT| && CaretForm(SHORT[k]) == ['^', CODES[k]]
  {
    if k < 11 {
      ShortcutTableLow(k);
    } else {
      ShortcutTableHigh(k);
    }
  }

  lemma ShortcutTableLow(k: nat)
    requires k < 11
    ensures EncodeShortcut(SHORT[k]) == Some(CODES[k])
  {
  }

  lemma ShortcutTableHigh(k: nat)
    requires 11 <= k < 22
    ensures EncodeShortcut(SHORT[k]) == Some(CODES[k])
  {
  }

  lemma ShortcutsRead(k: nat)
    requires k < |SHORT|
    ensures |CODES| == |SHORT| && DecodeStep(['^', CODES[k]]) == Ok(Step(SHORT[k], 2))
    ensures 'a' <= CODES[k] <= 'z' ==> DecodeStep(['^', CODES[k] - 32 as char]) == Ok(Step(SHORT[k], 2))
  {
    ShortcutTable(k);
    ShortcutsInvert(SHORT[k]);
    UpperShortcut(CODES[k]);
  }

  lemma UpperShortcut(c: char)
    requires 'g' <= c <= 'v' || !('a' <= c <= 'z')
    ensures 'a' <= c <= 'z' ==> DecodeShortcut(c - 32 as char) == DecodeShortcut(c)
  {
  }

  lemma HexElsewhere(c: char)
    requires c !in SHORT
    ensures CaretForm(c) == EncodeRune(c)
  {
    if EncodeShortcut(c).Some? {
      ShortcutHasPlace(c);
    }
  }

  lemma ShortcutHasPlace(c: char)
    requires EncodeShortcut(c).Some?
    ensures c in SHORT
  {
    assert SHORT[0] == ' ' && SHORT[1] == '=' && SHORT[2] == '+' && SHORT[3] == '(' && SHORT[4] == ')';
    assert SHORT[5] == '>' && SHORT[6] == '#' && SHORT[7] == '!' && SHORT[8] == '\'' && SHORT[9] == ':';
    assert SHORT[10] == '<' && SHORT[11] == '%' && SHORT[12] == '&' && SHORT[13] == '@' && SHORT[14] == '|';
    assert SHORT[15] == '?' && SHORT[16] == '\\' && SHORT[17] == '/' && SHORT[18] == '*' && SHORT[19] == '\"';
    assert SHORT[20] == '$' && SHORT[21] == '^';
  }

  // The hexadecimal form: a caret, a lower-case width letter above two digits, and as
  // few upper-case digits as hold the code point, which they denote.
  lemma RuneForm(c: char)
    ensures var cp := c as nat;
            var prefix := if cp < 0x100 then "^" else if cp < 0x1000 then "^w" else if cp < 0x1_0000 then "^x"
                          else if cp < 0x10_0000 then "^y" else "^z";
            var width := if cp < 0x100 then 2 else if cp < 0x1000 then 3 else if cp < 0x1_0000 then 4
                         else if cp < 0x10_0000 then 5 else 6;
            && |EncodeRune(c)| == |prefix| + width && EncodeRune(c)[..|prefix|] == prefix
            && HexNumber(EncodeRune(c)[|prefix|..]) == Some(cp)
            && forall k :: |prefix| <= k < |EncodeRune(c)| ==>
                 '0' <= EncodeRune(c)[k] <= '9' || 'A' <= EncodeRune(c)[k] <= 'F'
  {
    var prefix, width := WidthPrefix(HexWidth(c)), HexWidth(c);
    Pow16Values();
    HexRoundTrip(c as nat, width);
    assert EncodeRune(c)[|prefix|..] == HexString(c as nat, width);
    forall k | |prefix| <= k < |EncodeRune(c)|
      ensures '0' <= EncodeRune(c)[k] <= '9' || 'A' <= EncodeRune(c)[k] <= 'F'
    {
      HexStringDigits(c as nat, width, k - |prefix|);
      var d: nat :| d < 16 && HexString(c as nat, width)[k - |prefix|] == HexDigit(d);
      HexDigitRange(d);
    }
  }

  // The decoder copies everything but carets, and says what is wrong with a caret.
  lemma DecoderAnswers(e: string)
    requires e != ""
    ensures e[0] != '^' ==> DecodeStep(e) == Ok(Step(e[0], 1))
    ensures e == "^" ==> DecodeStep(e) == Err(TruncatedCaret)
    ensures e == "^4" ==> DecodeStep(e) == Err(TruncatedHex(2))
    ensures e == "^W41" ==> DecodeStep(e) == Err(TruncatedHex(3))
    ensures e == "^4~" ==> DecodeStep(e) == Err(InvalidHexDigit)
  {
    BytesOfDigits();
    if e == "^4" {
      assert e[1..] == "4";
    } else if e == "^W41" {
      assert e[2..] == "41";
    } else if e == "^4~" {
      assert e[1..3] == "4~";
      BadDigitSpoils("4~", 1);
    }
  }

  lemma BytesOfDigits()
    ensures Utf8Length("4") == 1 && Utf8Length("41") == 2
  {
    assert "4"[1..] == "" && "41"[1..] == "1" && "1"[1..] == "";
  }

  // A code point is refused exactly when it is a surrogate or beyond U+10FFFF.
  lemma DecoderRefusesCodepoint(e: string, start: nat, digits: nat, n: nat)
    requires start + digits <= |e| && 0 < digits && HexNumber(e[start..start + digits]) == Some(n)
    ensures DecodeHex(e, start, digits) == Err(InvalidCodepoint(n)) <==> 0xD800 <= n < 0xE000 || n >= 0x11_0000
    ensures !(0xD800 <= n < 0xE000 || n >= 0x11_0000) ==>
              DecodeHex(e, start, digits) == Ok(Step(n as char, start + digits))
  {
  }

  // ---------- the shortest safe name ----------

  // No dot of the name stands for one that ends a component of the path.
  predicate HoldsDots(e: string)
    decreases |e|
  {
    e == "" ||
    match DecodeStep(e)
    case Err(_) => true
    case Ok(step) =>
      var rest := e[step.consumed..];
      && (e[0] == '.' ==> rest != "" && (DecodeStep(rest).Ok? ==> DecodeStep(rest).value.c != '/'))
      && HoldsDots(rest)
  }

  // What one read and the rest of a name say about the path it decodes to.
  lemma FirstRead(e: string, s: string, i: nat)
    requires e != "" && i <= |s| && Decode(e) == Ok(s[i..])
    ensures i < |s| && DecodeStep(e).Ok? && DecodeStep(e).value.c == s[i]
    ensures Decode(e[DecodeStep(e).value.consumed..]) == Ok(s[i + 1..])
  {
    var step := DecodeStep(e).value;
    var tail := Decode(e[step.consumed..]).value;
    assert s[i..] == [step.c] + tail;
    assert |s[i..]| == |s| - i > 0;
    assert s[i..][0] == s[i] && s[i..][1..] == s[i + 1..];
  }

  lemma NoShorterPiece(e: string, s: string, i: nat)
    requires e != "" && i < |s| && DecodeStep(e).Ok? && DecodeStep(e).value.c == s[i]
    requires SafeAscii(e[0]) || e[0] == '^'
    requires e[0] == '.' ==> Plain(s, i)
    ensures |EncodeAt(s, i)| <= DecodeStep(e).value.consumed
  {
    CopiedExactly(s, i);
    DecoderAnswers(e);
    if e[0] == '^' {
      CaretFormIsShortest(e);
    }
  }

  lemma EmptyDecodesNothing(s: string, i: nat)
    requires i <= |s| && Decode("") == Ok(s[i..])
    ensures i == |s|
  {
  }

  lemma {:induction false} ShortestSuffix(e: string, s: string, i: nat)
    requires i <= |s| && SafeName(e) && HoldsDots(e) && Decode(e) == Ok(s[i..])
    ensures |Encode(s, i)| <= |e|
    decreases |e|
  {
    if e == "" {
      EmptyDecodesNothing(s, i);
    } else {
      FirstRead(e, s, i);
      var rest := e[DecodeStep(e).value.consumed..];
      if e[0] == '.' {
        DecoderAnswers(e);
        FirstRead(rest, s, i + 1);
      }
      NoShorterPiece(e, s, i);
      CopiedExactly(s, i);
      ShortestSuffix(rest, s, i + 1);
    }
  }

  // Among all names of safe ASCII and carets that decode to a path, and let no dot end a
  // component of it, none is shorter than the encoder's.
  lemma ShortestName(e: string, s: string)
    requires SafeName(e) && HoldsDots(e) && Decode(e) == Ok(s)
    ensures |Encode(s, 0)| <= |e|
  {
    assert s[0..] == s;
    ShortestSuffix(e, s, 0);
  }

  lemma {:induction false} EncodedHoldsDots(s: string, i: nat)
    requires i <= |s|
    ensures HoldsDots(Encode(s, i))
    decreases |s| - i
  {
    if i < |s| {
      EncodedHoldsDots(s, i + 1);
      var piece, rest := EncodeAt(s, i), Encode(s, i + 1);
      EncodedCharDecodes(s, i, rest);
      EncodedCharIsSafe(s, i);
      CopiedExactly(s, i);
      CaretFormIsLong(s[i]);
      assert (piece + rest)[|piece|..] == rest;
      if piece[0] == '.' {
        CopiedExactly(s, i + 1);
        EncodedCharDecodes(s, i + 1, Encode(s, i + 2));
        EncodedCharIsSafe(s, i + 1);
      }
    }
  }

  // ---------- what the decoder is generous about ----------

  // The digits, in either case, and nothing else.
  lemma HexValueExactly(c: char, d: nat)
    ensures HexValue(c) == Some(d)
       <==> d < 16 && c in (if d < 10 then ['0' + d as char] else ['A' + (d - 10) as char, 'a' + (d - 10) as char])
  {
  }

  // The width letters, in either case.
  lemma WidthLetters(c: char)
    ensures HexWindow(c) == (3, 2) <==> c in ['w', 'W']
    ensures HexWindow(c) == (4, 2) <==> c in ['x', 'X']
    ensures HexWindow(c) == (5, 2) <==> c in ['y', 'Y']
    ensures HexWindow(c) == (6, 2) <==> c in ['z', 'Z']
    ensures HexWindow(c) == (2, 1) <==> c !in ['w', 'W', 'x', 'X', 'y', 'Y', 'z', 'Z']
  {
  }

  predicate SameDigit(c: char, d: char) {
    c == d || (HexValue(c).Some? && HexValue(c) == HexValue(d))
  }

  // A number reads the same in any mixture of cases.
  lemma {:induction false} HexIgnoresCase(h: string, g: string)
    requires |h| == |g| && forall k :: 0 <= k < |h| ==> SameDigit(h[k], g[k])
    ensures HexNumber(h) == HexNumber(g)
  {
    if h != "" {
      HexIgnoresCase(h[..|h| - 1], g[..|g| - 1]);
      assert SameDigit(h[|h| - 1], g[|g| - 1]);
    }
  }
}
