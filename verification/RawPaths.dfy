/** Hook payloads whose Windows paths were written without escaping backslashes. */
module RawPaths {
  import opened Wrappers
  import opened Spans

  // --- Strings of section 7 of RFC 8259 -------------------------------------------

  predicate IsHex(c: char) {
    '0' <= c <= '9' || 'a' <= c <= 'f' || 'A' <= c <= 'F'
  }

  function HexValue(c: char): (n: nat)
    requires IsHex(c)
    ensures n < 16
  {
    if '0' <= c <= '9' then c as int - '0' as int
    else if 'a' <= c <= 'f' then 10 + c as int - 'a' as int
    else 10 + c as int - 'A' as int
  }

  predicate FourHex(t: string) {
    |t| >= 4 && IsHex(t[0]) && IsHex(t[1]) && IsHex(t[2]) && IsHex(t[3])
  }

  function HexCode(t: string): (n: nat)
    requires FourHex(t)
    ensures n < 0x1_0000
  {
    HexValue(t[0]) * 0x1000 + HexValue(t[1]) * 0x100 + HexValue(t[2]) * 0x10 + HexValue(t[3])
  }

  /** The character of an escape of two characters. */
  function Simple(c: char): Option<char> {
    match c
    case '"' => Some('"')
    case '\\' => Some('\\')
    case '/' => Some('/')
    case 'b' => Some('\U{8}')
    case 'f' => Some('\U{C}')
    case 'n' => Some('\n')
    case 'r' => Some('\r')
    case 't' => Some('\t')
    case _ => None
  }

  /** The character of a surrogate pair. */
  function PairChar(high: nat, low: nat): char
    requires 0xD800 <= high < 0xDC00 <= low < 0xE000
  {
    (0x1_0000 + (high - 0xD800) * 0x400 + (low - 0xDC00)) as char
  }

  /** A decoded string and the text after its closing quote. */
  datatype Scanned = Scanned(value: string, rest: string)

  function Prepend(c: char, scanned: Option<Scanned>): Option<Scanned> {
    if scanned.None? then None else Some(Scanned([c] + scanned.value.value, scanned.value.rest))
  }

  /** The string that starts after an opening quote. */
  function ReadString(t: string): Option<Scanned> {
    if t == "" then None
    else if t[0] == '"' then Some(Scanned("", t[1..]))
    else if t[0] < ' ' then None
    else if t[0] != '\\' then Prepend(t[0], ReadString(t[1..]))
    else if |t| < 2 then None
    else if Simple(t[1]).Some? then Prepend(Simple(t[1]).value, ReadString(t[2..]))
    else if t[1] != 'u' || !FourHex(t[2..]) then None
    else
      var code := HexCode(t[2..]);
      if !(0xD800 <= code < 0xE000) then Prepend(code as char, ReadString(t[6..]))
      else if code >= 0xDC00 || |t| < 12 || t[6..8] != "\\u" || !FourHex(t[8..]) then None
      else
        var low := HexCode(t[8..]);
        if !(0xDC00 <= low < 0xE000) then None else Prepend(PairChar(code, low), ReadString(t[12..]))
  }

  // --- Repairing -----------------------------------------------------------------

  predicate ValidEscape(t: string) {
    |t| >= 2 && t[0] == '\\' && (Simple(t[1]).Some? || (t[1] == 'u' && FourHex(t[2..])))
  }

  /** Double each backslash inside a string that starts no escape. */
  function Fix(t: string, inString: bool): string {
    if t == "" then ""
    else if t[0] == '"' then ['"'] + Fix(t[1..], !inString)
    else if t[0] == '\\' && inString then
      if ValidEscape(t) then t[..2] + Fix(t[2..], inString) else "\\\\" + Fix(t[1..], inString)
    else [t[0]] + Fix(t[1..], inString)
  }

  predicate EscapesValid(t: string, inString: bool) {
    if t == "" then true
    else if t[0] == '"' then EscapesValid(t[1..], !inString)
    else if t[0] == '\\' && inString then ValidEscape(t) && EscapesValid(t[2..], inString)
    else EscapesValid(t[1..], inString)
  }

  lemma {:induction false} FixGrows(t: string, inString: bool)
    ensures |Fix(t, inString)| >= |t|
    ensures |Fix(t, inString)| == |t| <==> EscapesValid(t, inString)
  {
    if t == "" {
    } else if t[0] == '"' {
      FixGrows(t[1..], !inString);
    } else if t[0] == '\\' && inString && ValidEscape(t) {
      FixGrows(t[2..], inString);
    } else {
      FixGrows(t[1..], inString);
    }
  }

  lemma {:induction false} ValidStays(t: string, inString: bool)
    requires EscapesValid(t, inString)
    ensures Fix(t, inString) == t
  {
    if t == "" {
    } else if t[0] == '"' {
      ValidStays(t[1..], !inString);
    } else if t[0] == '\\' && inString {
      ValidStays(t[2..], inString);
      assert t == t[..2] + t[2..];
    } else {
      ValidStays(t[1..], inString);
    }
  }

  /** A text is left alone exactly when every backslash in its strings starts an escape. */
  lemma UnchangedExactly(t: string, inString: bool)
    ensures Fix(t, inString) == t <==> EscapesValid(t, inString)
  {
    FixGrows(t, inString);
    if EscapesValid(t, inString) {
      ValidStays(t, inString);
    }
  }

  predicate Ordinary(t: string) {
    forall i :: 0 <= i < |t| ==> t[i] != '"' && t[i] != '\\'
  }

  lemma {:induction false} OrdinaryStays(a: string, b: string, inString: bool)
    requires Ordinary(a)
    ensures Fix(a + b, inString) == a + Fix(b, inString)
  {
    if a == "" {
      assert a + b == b;
    } else {
      OrdinaryStays(a[1..], b, inString);
      assert (a + b)[1..] == a[1..] + b;
      assert a == [a[0]] + a[1..];
      assert [a[0]] + (a[1..] + Fix(b, inString)) == a + Fix(b, inString);
    }
  }

  lemma FixEscape(t: string)
    requires ValidEscape(t)
    ensures Fix(t, true) == t[..2] + Fix(t[2..], true) && Fix(t, true)[2..] == Fix(t[2..], true)
    ensures |Fix(t, true)| >= 2 && Fix(t, true)[0] == '\\' && Fix(t, true)[1] == t[1]
  {}

  lemma FixStray(t: string)
    requires t != "" && t[0] == '\\' && !ValidEscape(t)
    ensures |Fix(t, true)| >= 2 && Fix(t, true)[0] == '\\' && Fix(t, true)[1] == '\\' && Fix(t, true)[2..] == Fix(t[1..], true)
  {}

  lemma FixOther(t: string)
    requires t != "" && t[0] != '"' && t[0] != '\\'
    ensures Fix(t, true) != "" && Fix(t, true)[0] == t[0] && Fix(t, true)[1..] == Fix(t[1..], true)
  {}

  lemma FourHexOrdinary(t: string)
    requires FourHex(t)
    ensures Ordinary(t[..4])
  {}

  /** The four digits of an escape are kept, so it is still one in the repaired text. */
  lemma DigitsStay(t: string)
    requires ValidEscape(t) && Simple(t[1]).None?
    ensures Fix(t[2..], true) == t[2..6] + Fix(t[6..], true)
    ensures FourHex(Fix(t[2..], true)) && HexCode(Fix(t[2..], true)) == HexCode(t[2..])
  {
    FourHexOrdinary(t[2..]);
    assert t[2..] == t[2..6] + t[6..] && t[2..][..4] == t[2..6];
    OrdinaryStays(t[2..6], t[6..], true);
  }

  lemma EscapeStays(t: string)
    requires ValidEscape(t)
    ensures ValidEscape(Fix(t, true))
  {
    FixEscape(t);
    if Simple(t[1]).None? {
      DigitsStay(t);
    }
  }

  lemma {:induction false} FixedIsValid(t: string, inString: bool)
    ensures EscapesValid(Fix(t, inString), inString)
  {
    if t == "" {
    } else if t[0] == '"' {
      FixedIsValid(t[1..], !inString);
      assert Fix(t, inString)[1..] == Fix(t[1..], !inString);
    } else if t[0] == '\\' && inString {
      if ValidEscape(t) {
        FixEscape(t);
        EscapeStays(t);
        FixedIsValid(t[2..], inString);
      } else {
        FixStray(t);
        FixedIsValid(t[1..], inString);
      }
    } else {
      FixedIsValid(t[1..], inString);
      assert Fix(t, inString)[1..] == Fix(t[1..], inString);
    }
  }

  /** Repairing twice is repairing once. */
  lemma FixIsIdempotent(t: string, inString: bool)
    ensures Fix(Fix(t, inString), inString) == Fix(t, inString)
  {
    FixedIsValid(t, inString);
    ValidStays(Fix(t, inString), inString);
  }

  /** A backslash that the scanner doubles. */
  predicate IsStray(t: string, inString: bool) {
    t != "" && t[0] == '\\' && inString && !ValidEscape(t)
  }

  lemma ScanQuote(out: string, t: string, inString: bool)
    requires t != "" && t[0] == '"'
    ensures out + Fix(t, inString) == (out + [t[0]]) + Fix(t[1..], !inString)
  {}

  lemma ScanEscape(out: string, t: string)
    requires ValidEscape(t)
    ensures out + Fix(t, true) == (out + [t[0]] + [t[1]]) + Fix(t[2..], true)
  {
    FixEscape(t);
  }

  lemma ScanStray(out: string, t: string)
    requires IsStray(t, true)
    ensures out + Fix(t, true) == (out + [t[0]] + ['\\']) + Fix(t[1..], true)
  {
    FixStray(t);
  }

  lemma ScanOther(out: string, t: string, inString: bool)
    requires t != "" && t[0] != '"' && !(t[0] == '\\' && inString)
    ensures out + Fix(t, inString) == (out + [t[0]]) + Fix(t[1..], inString)
  {}

  /** The scanner, character by character; nothing is returned when nothing was repaired. */
  method EscapeInvalidBackslashes(raw: string) returns (r: Option<string>)
    ensures r == if EscapesValid(raw, false) then None else Some(Fix(raw, false))
  {
    var out := "";
    var i := 0;
    var inString, repaired := false, false;
    while i < |raw|
      invariant 0 <= i <= |raw|
      invariant out + Fix(raw[i..], inString) == Fix(raw, false)
      invariant repaired <==> |out| > i
      invariant |out| >= i
    {
      var c := raw[i];
      ghost var t, before := raw[i..], out;
      assert t[1..] == raw[i + 1..];
      out := out + [c];
      i := i + 1;
      if c == '"' {
        ScanQuote(before, t, inString);
        inString := !inString;
      } else if c == '\\' && inString {
        var valid := i < |raw| && (Simple(raw[i]).Some? || (raw[i] == 'u' && FourHex(raw[i + 1..])));
        assert valid <==> ValidEscape(t) by {
          assert i < |raw| ==> t[2..] == raw[i + 1..];
        }
        if valid {
          ScanEscape(before, t);
          out := out + [raw[i]];
          i := i + 1;
          assert t[2..] == raw[i..];
        } else {
          ScanStray(before, t);
          out := out + ['\\'];
          repaired := true;
        }
      } else {
        ScanOther(before, t, inString);
      }
    }
    assert out + Fix(raw[i..], inString) == out;
    FixGrows(raw, false);
    r := if repaired then Some(out) else None;
  }

  // --- Restoring -----------------------------------------------------------------

  function RestoreChar(c: char): string {
    match c
    case '\U{8}' => "\\b"
    case '\U{C}' => "\\f"
    case '\n' => "\\n"
    case '\r' => "\\r"
    case '\t' => "\\t"
    case _ => [c]
  }

  function Restore(path: string): string {
    if path == "" then "" else RestoreChar(path[0]) + Restore(path[1..])
  }

  method RestoreRawPathEscapes(path: string) returns (out: string)
    ensures out == Restore(path)
  {
    out := "";
    for i := 0 to |path|
      invariant out + Restore(path[i..]) == Restore(path)
    {
      assert path[i..][1..] == path[i + 1..];
      assert out + (RestoreChar(path[i]) + Restore(path[i + 1..])) == (out + RestoreChar(path[i])) + Restore(path[i + 1..]);
      out := out + RestoreChar(path[i]);
    }
    assert out + "" == out;
  }

  // --- What a repaired string reads as ----------------------------------------------

  /** Where the scanner sees the string end. */
  function End(t: string): (r: Option<nat>)
    ensures r.Some? ==> r.value < |t| && t[r.value] == '"'
  {
    if t == "" then None
    else if t[0] == '"' then Some(0)
    else
      var step := if ValidEscape(t) then 2 else 1;
      var rest := End(t[step..]);
      if rest.Some? then Some(step + rest.value) else None
  }

  predicate Restorable(c: char) {
    c in "bfnrt"
  }

  /** No control characters, and no escapes but those that a path picks up by accident. */
  predicate Accidental(t: string) {
    if t == "" || t[0] == '"' then true
    else if t[0] < ' ' then false
    else if ValidEscape(t) then Restorable(t[1]) && Accidental(t[2..])
    else Accidental(t[1..])
  }

  lemma RestoreOne(c: char, v: string)
    ensures Restore([c] + v) == RestoreChar(c) + Restore(v)
  {
    assert ([c] + v)[1..] == v;
  }

  lemma ReadEscape(s: string)
    requires |s| >= 2 && s[0] == '\\' && Simple(s[1]).Some?
    ensures ReadString(s) == Prepend(Simple(s[1]).value, ReadString(s[2..]))
  {}

  lemma ReadOther(s: string)
    requires s != "" && s[0] != '"' && s[0] != '\\'
    ensures ReadString(s) == if s[0] < ' ' then None else Prepend(s[0], ReadString(s[1..]))
  {}

  /** A character that starts no escape is read as itself. */
  lemma ReadsItself(t: string)
    requires t != "" && t[0] != '"' && !ValidEscape(t)
    ensures ReadString(Fix(t, true)) == if t[0] < ' ' then None else Prepend(t[0], ReadString(Fix(t[1..], true)))
    ensures t[0] >= ' ' ==> RestoreChar(t[0]) == [t[0]]
  {
    if t[0] == '\\' {
      FixStray(t);
      ReadEscape(Fix(t, true));
    } else {
      FixOther(t);
      ReadOther(Fix(t, true));
    }
  }

  /** An escape of two characters is read as its character. */
  lemma ReadsSimple(t: string)
    requires ValidEscape(t) && Simple(t[1]).Some?
    ensures ReadString(Fix(t, true)) == Prepend(Simple(t[1]).value, ReadString(Fix(t[2..], true)))
    ensures if Restorable(t[1]) then RestoreChar(Simple(t[1]).value) == t[..2] else |RestoreChar(Simple(t[1]).value)| == 1
  {
    FixEscape(t);
    ReadEscape(Fix(t, true));
  }

  lemma RestorePrepended(c: char, scanned: Option<Scanned>)
    requires scanned.Some?
    ensures Restore(Prepend(c, scanned).value.value) == RestoreChar(c) + Restore(scanned.value.value)
  {
    RestoreOne(c, scanned.value.value);
  }

  /** A string without control characters and with accidental escapes only is read back as it was written. */
  ghost predicate ReadsBack(t: string) {
    End(t).Some? ==>
      var k, scanned := End(t).value, ReadString(Fix(t, true));
      scanned.Some? && scanned.value.rest == Fix(t[k + 1..], false) && Restore(scanned.value.value) == t[..k]
  }

  lemma {:induction false} AccidentalReadsBack(t: string)
    requires Accidental(t)
    ensures ReadsBack(t)
  {
    if End(t).Some? {
      if t[0] == '"' {
        assert Fix(t, true)[1..] == Fix(t[1..], false);
      } else if ValidEscape(t) {
        AccidentalReadsBack(t[2..]);
        AccidentalStep(t);
      } else {
        AccidentalReadsBack(t[1..]);
        OrdinaryStep(t);
      }
    }
  }

  lemma AccidentalStep(t: string)
    requires ValidEscape(t) && Restorable(t[1]) && End(t[2..]).Some? && ReadsBack(t[2..])
    ensures ReadsBack(t)
  {
    hide ReadString, Restore, FourHex;
    ReadsSimple(t);
    RestorePrepended(Simple(t[1]).value, ReadString(Fix(t[2..], true)));
    var k := End(t[2..]).value;
    assert t[2..][k + 1..] == t[k + 3..] && t[..k + 2] == t[..2] + t[2..][..k];
  }

  lemma OrdinaryStep(t: string)
    requires t != "" && t[0] != '"' && t[0] >= ' ' && !ValidEscape(t) && End(t[1..]).Some? && ReadsBack(t[1..])
    ensures ReadsBack(t)
  {
    hide ReadString, Restore, FourHex;
    ReadsItself(t);
    RestorePrepended(t[0], ReadString(Fix(t[1..], true)));
    var k := End(t[1..]).value;
    assert t[1..][k + 1..] == t[k + 2..] && t[..k + 1] == [t[0]] + t[1..][..k];
  }

  /** What is read is never longer than what was written, and shorter if anything was lost. */
  ghost predicate Shorter(scanned: Option<Scanned>, end: Option<nat>, rest: string, kept: bool) {
    scanned.Some? ==>
      && end.Some? && scanned.value.rest == rest
      && |Restore(scanned.value.value)| <= end.value
      && (!kept ==> |Restore(scanned.value.value)| < end.value)
  }

  function AfterEnd(t: string, end: Option<nat>): string {
    if end.Some? && end.value < |t| then Fix(t[end.value + 1..], false) else ""
  }

  ghost predicate Shortens(t: string) {
    Shorter(ReadString(Fix(t, true)), End(t), AfterEnd(t, End(t)), Accidental(t))
  }

  function Shift(n: nat, end: Option<nat>): Option<nat> {
    if end.Some? then Some(n + end.value) else None
  }

  lemma AfterEndShifts(t: string, n: nat, end: Option<nat>)
    requires n <= |t|
    ensures AfterEnd(t, Shift(n, end)) == AfterEnd(t[n..], end)
  {
    if end.Some? && n + end.value < |t| {
      assert t[n..][end.value + 1..] == t[n + end.value + 1..];
    }
  }

  lemma PrependShorter(scanned: Option<Scanned>, end: Option<nat>, rest: string, kept: bool, c: char, n: nat, keeps: bool)
    requires Shorter(scanned, end, rest, kept)
    requires |RestoreChar(c)| <= n && (!keeps ==> |RestoreChar(c)| < n || !kept)
    ensures Shorter(Prepend(c, scanned), Shift(n, end), rest, keeps)
  {
    if scanned.Some? {
      RestorePrepended(c, scanned);
    }
  }

  lemma {:induction false} ReadShortens(t: string)
    ensures Shortens(t)
    decreases |t|
  {
    if t == "" {
    } else if t[0] == '"' {
      assert Fix(t, true)[1..] == Fix(t[1..], false);
    } else if !ValidEscape(t) {
      ReadShortens(t[1..]);
      OrdinaryShortens(t);
    } else if Simple(t[1]).Some? {
      ReadShortens(t[2..]);
      SimpleShortens(t);
    } else {
      ReadShortens(t[6..]);
      if |t| >= 12 {
        ReadShortens(t[12..]);
      }
      UnicodeShortens(t);
    }
  }

  lemma EndEscape(t: string)
    requires ValidEscape(t)
    ensures End(t) == Shift(2, End(t[2..]))
  {}

  lemma AccidentalEscape(t: string)
    requires ValidEscape(t)
    ensures Accidental(t) <==> Restorable(t[1]) && Accidental(t[2..])
  {}

  /** One character is read from `n` characters, and restored to no more of them. */
  lemma StepShortens(t: string, c: char, n: nat)
    requires n <= |t| && Shortens(t[n..]) && |RestoreChar(c)| <= n
    requires !Accidental(t) ==> |RestoreChar(c)| < n || !Accidental(t[n..])
    requires ReadString(Fix(t, true)) == Prepend(c, ReadString(Fix(t[n..], true)))
    requires End(t) == Shift(n, End(t[n..]))
    ensures Shortens(t)
  {
    AfterEndShifts(t, n, End(t[n..]));
    PrependShorter(ReadString(Fix(t[n..], true)), End(t[n..]), AfterEnd(t[n..], End(t[n..])), Accidental(t[n..]), c, n, Accidental(t));
  }

  lemma OrdinaryShortens(t: string)
    requires t != "" && t[0] != '"' && !ValidEscape(t) && Shortens(t[1..])
    ensures Shortens(t)
  {
    ReadsItself(t);
    if t[0] >= ' ' {
      StepShortens(t, t[0], 1);
    }
  }

  lemma SimpleShortens(t: string)
    requires ValidEscape(t) && Simple(t[1]).Some? && Shortens(t[2..])
    ensures Shortens(t)
  {
    ReadsSimple(t);
    EndEscape(t);
    AccidentalEscape(t);
    StepShortens(t, Simple(t[1]).value, 2);
  }

  lemma EndOther(t: string)
    requires t != "" && t[0] != '"' && t[0] != '\\'
    ensures End(t) == Shift(1, End(t[1..]))
  {}

  lemma OrdinaryTail(t: string)
    requires t != "" && Ordinary(t)
    ensures Ordinary(t[1..])
  {
    forall i | 0 <= i < |t| - 1
      ensures t[1..][i] == t[i + 1]
    {}
  }

  lemma {:induction false} OrdinaryEnd(t: string, n: nat)
    requires n <= |t| && Ordinary(t[..n])
    ensures End(t) == Shift(n, End(t[n..]))
  {
    if n == 0 {
      assert t[0..] == t;
    } else {
      assert t[..n][0] == t[0] && t[..n][1..] == t[1..][..n - 1];
      OrdinaryTail(t[..n]);
      EndOther(t);
      OrdinaryEnd(t[1..], n - 1);
      assert t[1..][n - 1..] == t[n..];
    }
  }

  /** Six characters are one escape, or the first half of a pair that takes six more. */
  lemma UnicodeEnd(t: string)
    requires IsUnicode(t)
    ensures End(t) == Shift(6, End(t[6..]))
  {
    EndEscape(t);
    FourHexOrdinary(t[2..]);
    OrdinaryEnd(t[2..], 4);
    assert t[2..][4..] == t[6..];
  }

  predicate IsUnicode(s: string) {
    |s| >= 6 && s[0] == '\\' && s[1] == 'u' && FourHex(s[2..])
  }

  lemma UnicodeFixed(t: string)
    requires IsUnicode(t)
    ensures IsUnicode(Fix(t, true)) && Fix(t, true)[6..] == Fix(t[6..], true)
    ensures HexCode(Fix(t, true)[2..]) == HexCode(t[2..])
  {
    FixEscape(t);
    DigitsStay(t);
    assert Fix(t, true)[6..] == Fix(t[2..], true)[4..];
  }

  lemma ReadCode(s: string)
    requires IsUnicode(s) && !(0xD800 <= HexCode(s[2..]) < 0xE000)
    ensures ReadString(s) == Prepend(HexCode(s[2..]) as char, ReadString(s[6..]))
  {}

  lemma ReadPair(s: string)
    requires IsUnicode(s) && 0xD800 <= HexCode(s[2..]) < 0xE000 && ReadString(s).Some?
    ensures HexCode(s[2..]) < 0xDC00 && |s| >= 12 && IsUnicode(s[6..]) && 0xDC00 <= HexCode(s[6..][2..]) < 0xE000
    ensures ReadString(s) == Prepend(PairChar(HexCode(s[2..]), HexCode(s[6..][2..])), ReadString(s[6..][6..]))
  {
    assert s[6..][2..] == s[8..] && s[6..][6..] == s[12..];
    assert s[6..8][0] == s[6] && s[6..8][1] == s[7];
  }

  /** An escape of four digits in the repaired text is one in the text. */
  lemma UnicodeWasThere(t: string)
    requires IsUnicode(Fix(t, true))
    ensures IsUnicode(t)
  {
    if t[0] != '"' && t[0] != '\\' {
      FixOther(t);
    } else if t[0] == '\\' && !ValidEscape(t) {
      FixStray(t);
    } else if t[0] == '\\' {
      FixEscape(t);
    }
  }

  lemma UnicodeShortens(t: string)
    requires IsUnicode(t)
    requires Shortens(t[6..]) && (|t| >= 12 ==> Shortens(t[12..]))
    ensures Shortens(t)
  {
    var fixed := Fix(t, true);
    UnicodeFixed(t);
    if !(0xD800 <= HexCode(fixed[2..]) < 0xE000) {
      CodeShortens(t);
    } else if ReadString(fixed).Some? {
      PairShortens(t);
    }
  }

  lemma RestoreIsShort(c: char)
    ensures |RestoreChar(c)| <= 2
  {}

  lemma CodeRead(t: string)
    requires IsUnicode(t) && !(0xD800 <= HexCode(t[2..]) < 0xE000)
    ensures ReadString(Fix(t, true)) == Prepend(HexCode(t[2..]) as char, ReadString(Fix(t[6..], true)))
  {
    UnicodeFixed(t);
    ReadCode(Fix(t, true));
  }

  lemma CodeShortens(t: string)
    requires IsUnicode(t) && !(0xD800 <= HexCode(t[2..]) < 0xE000) && Shortens(t[6..])
    ensures Shortens(t)
  {
    CodeRead(t);
    UnicodeEnd(t);
    RestoreIsShort(HexCode(t[2..]) as char);
    StepShortens(t, HexCode(t[2..]) as char, 6);
  }

  /** Both halves of a pair that is read were written. */
  lemma PairRead(t: string)
    requires IsUnicode(t) && 0xD800 <= HexCode(t[2..]) < 0xE000 && ReadString(Fix(t, true)).Some?
    ensures HexCode(t[2..]) < 0xDC00 && IsUnicode(t[6..]) && 0xDC00 <= HexCode(t[6..][2..]) < 0xE000
    ensures ReadString(Fix(t, true)) == Prepend(PairChar(HexCode(t[2..]), HexCode(t[6..][2..])), ReadString(Fix(t[6..][6..], true)))
  {
    UnicodeFixed(t);
    ReadPair(Fix(t, true));
    UnicodeWasThere(t[6..]);
    UnicodeFixed(t[6..]);
  }

  lemma PairShortens(t: string)
    requires IsUnicode(t) && 0xD800 <= HexCode(t[2..]) < 0xE000 && ReadString(Fix(t, true)).Some?
    requires |t| >= 12 ==> Shortens(t[12..])
    ensures Shortens(t)
  {
    hide ReadString, Fix, End, Shortens, Accidental, HexCode, PairChar;
    PairRead(t);
    var u := t[12..];
    assert t[6..][6..] == u;
    UnicodeEnd(t[6..]);
    UnicodeEnd(t);
    RestoreIsShort(PairChar(HexCode(t[2..]), HexCode(t[6..][2..])));
    StepShortens(t, PairChar(HexCode(t[2..]), HexCode(t[6..][2..])), 12);
  }

  // --- Which paths survive ---------------------------------------------------------

  /** The character is no raw text, or starts an escape that is not put back. */
  predicate Altered(p: string, i: nat)
    requires i < |p|
  {
    || p[i] == '"' || p[i] < ' '
    || (p[i] == '\\' && (i + 1 == |p| || p[i + 1] == '\\' || p[i + 1] == '/' || IsUnicode(p[i..])))
  }

  /** What a caller can see of a path: nothing in it is an escape but those that are restored. */
  predicate Survives(p: string) {
    forall i :: 0 <= i < |p| ==> !Altered(p, i)
  }

  lemma SurvivorsArePlain(p: string)
    requires Survives(p)
    ensures forall i :: 0 <= i < |p| ==> p[i] != '"' && p[i] >= ' '
  {
    forall i | 0 <= i < |p|
      ensures p[i] != '"' && p[i] >= ' '
    {
      assert !Altered(p, i);
    }
  }

  lemma SurvivesFrom(p: string, n: nat)
    requires n <= |p|
    ensures Survives(p) <==> (forall i :: 0 <= i < n ==> !Altered(p, i)) && Survives(p[n..])
  {
    forall i | 0 <= i < |p| - n
      ensures Altered(p[n..], i) == Altered(p, i + n)
    {
      assert p[n..][i] == p[i + n] && p[n..][i..] == p[i + n..];
    }
    hide Altered;
    forall i | n <= i < |p|
      ensures Altered(p, i) == Altered(p[n..], i - n)
    {
      assert i == (i - n) + n;
    }
  }

  lemma {:induction false} SurvivesIsAccidental(p: string, after: string)
    ensures Survives(p) <==> End(p + "\"" + after) == Some(|p|) && Accidental(p + "\"" + after)
  {
    var t := p + "\"" + after;
    if p == "" {
      assert t[0] == '"';
    } else if p[0] == '"' {
      assert t[0] == '"' && Altered(p, 0);
    } else if ValidEscape(t) {
      EscapeSurvives(p, after);
      if |p| >= 2 {
        SurvivesIsAccidental(p[2..], after);
      }
    } else {
      OrdinarySurvives(p, after);
      SurvivesIsAccidental(p[1..], after);
    }
  }

  lemma UnicodeOutside(p: string, after: string)
    requires IsUnicode(p)
    ensures IsUnicode(p + "\"" + after)
  {
    var t := p + "\"" + after;
    assert forall i :: 0 <= i < |p| - 2 ==> p[2..][i] == t[2..][i];
  }

  lemma OrdinarySurvives(p: string, after: string)
    requires p != "" && p[0] != '"' && !ValidEscape(p + "\"" + after)
    ensures (p + "\"" + after)[1..] == p[1..] + "\"" + after
    ensures Survives(p) <==> p[0] >= ' ' && Survives(p[1..])
  {
    var t := p + "\"" + after;
    SurvivesFrom(p, 1);
    hide Survives;
    assert Altered(p, 0) <==> p[0] < ' ' by {
      assert p[0..] == p && t[0] == p[0] && t[|p|] == '"';
      if IsUnicode(p) {
        UnicodeOutside(p, after);
      }
    }
  }

  /** The digits of an escape cannot run over the closing quote. */
  lemma UnicodeInside(p: string, after: string)
    requires IsUnicode(p + "\"" + after) && |p| >= 2
    ensures IsUnicode(p)
  {
    var t := p + "\"" + after;
    assert t[|p|] == '"';
    assert forall i :: 2 <= i < 6 ==> t[i] == t[2..][i - 2];
    assert forall i :: 0 <= i < |p| ==> t[i] == p[i];
  }

  lemma EscapeSurvives(p: string, after: string)
    requires p != "" && p[0] != '"' && ValidEscape(p + "\"" + after)
    ensures |p| >= 2 ==> (p + "\"" + after)[2..] == p[2..] + "\"" + after
    ensures Survives(p) <==> |p| >= 2 && Restorable(p[1]) && Survives(p[2..])
  {
    var t := p + "\"" + after;
    assert p[0] == t[0] && t[|p|] == '"';
    if |p| >= 2 {
      SurvivesFrom(p, 2);
      hide Survives;
      EscapeAlters(p, after);
    } else {
      assert Altered(p, 0);
    }
  }

  lemma EscapeAlters(p: string, after: string)
    requires |p| >= 2 && ValidEscape(p + "\"" + after)
    ensures Altered(p, 0) || Altered(p, 1) <==> !Restorable(p[1])
  {
    var t := p + "\"" + after;
    assert p[0] == t[0] && p[1] == t[1] && p[0..] == p;
    if IsUnicode(t) {
      UnicodeInside(p, after);
    }
  }

  ghost predicate Survived(p: string, after: string) {
    var scanned := ReadString(Fix(p + "\"" + after, true));
    scanned.Some? && scanned.value.rest == after && Restore(scanned.value.value) == p
  }

  /** The closing quote is the only one after the path. */
  lemma OnlyQuote(p: string, after: string, k: nat)
    requires Ordinary(after) && k < |p + "\"" + after| && (p + "\"" + after)[k] == '"'
    requires k >= |p| || '"' !in p
    ensures k == |p|
  {
    var t := p + "\"" + after;
    forall i | 0 <= i < |p|
      ensures t[i] == p[i]
    {}
    forall i | |p| < i < |t|
      ensures t[i] == after[i - |p| - 1]
    {}
  }

  /**
   * Repairing, reading and restoring returns a raw path exactly when it has
   * no quote, no control character, no two backslashes together, no escaped
   * slash or code point, and no backslash at its end.
   */
  lemma RoundTripExactly(p: string, after: string)
    requires Ordinary(after)
    ensures Survived(p, after) <==> Survives(p)
  {
    var t := p + "\"" + after;
    SurvivesIsAccidental(p, after);
    assert t[|p| + 1..] == after && t[..|p|] == p;
    OrdinaryStays(after, "", false);
    assert after + "" == after;
    if Survives(p) {
      AccidentalReadsBack(t);
    } else if Survived(p, after) {
      ReadShortens(t);
      OnlyQuote(p, after, End(t).value);
    }
  }

  // --- The whole payload ------------------------------------------------------------

  function RestoreField(payload: Json, field: Option<string>): Json {
    if field.Some? && payload.Object? && field.value in payload.fields && payload.fields[field.value].Text? then
      Object(payload.fields[field.value := Text(Restore(payload.fields[field.value].text))])
    else payload
  }

  function HookPayload(parse: string -> Option<Json>, raw: string, field: Option<string>): Option<Json> {
    if parse(raw).Some? then parse(raw)
    else if EscapesValid(raw, false) || parse(Fix(raw, false)).None? then None
    else Some(RestoreField(parse(Fix(raw, false)).value, field))
  }

  method ParseHookPayload(parse: string -> Option<Json>, raw: string, field: Option<string>) returns (r: Option<Json>)
    ensures r == HookPayload(parse, raw, field)
    ensures parse(raw).Some? ==> r == parse(raw)
  {
    r := parse(raw);
    if r.Some? {
      return;
    }
    var repaired := EscapeInvalidBackslashes(raw);
    if repaired.None? {
      return None;
    }
    r := parse(repaired.value);
    if r.Some? && field.Some? && r.value.Object? && field.value in r.value.fields && r.value.fields[field.value].Text? {
      var path := RestoreRawPathEscapes(r.value.fields[field.value].text);
      r := Some(Object(r.value.fields[field.value := Text(path)]));
    }
  }

  function Head(field: string): string {
    "{\"" + field + "\":\""
  }

  /** A JSON parser, as far as objects with one text member go. */
  ghost predicate ParsesMember(parse: string -> Option<Json>, field: string) {
    forall t: string ::
      && (ReadString(t).None? ==> parse(Head(field) + t).None?)
      && (ReadString(t).Some? && ReadString(t).value.rest == "}" ==>
            parse(Head(field) + t) == Some(Object(map[field := Text(ReadString(t).value.value)])))
  }

  lemma FixQuote(t: string, inString: bool)
    ensures Fix("\"" + t, inString) == "\"" + Fix(t, !inString)
  {
    assert ("\"" + t)[1..] == t;
  }

  lemma FixQuoted(s: string, t: string)
    requires Ordinary(s)
    ensures Fix("\"" + (s + ("\"" + t)), false) == "\"" + (s + ("\"" + Fix(t, false)))
  {
    FixQuote(s + ("\"" + t), false);
    OrdinaryStays(s, "\"" + t, true);
    FixQuote(t, true);
  }

  lemma FixHead(field: string, t: string)
    requires Ordinary(field)
    ensures Fix(Head(field) + t, false) == Head(field) + Fix(t, true)
  {
    FixQuote(t, false);
    OrdinaryStays(":", "\"" + t, false);
    FixQuoted(field, ":" + ("\"" + t));
    OrdinaryStays("{", "\"" + (field + ("\"" + (":" + ("\"" + t)))), false);
    HeadParts(field, t);
    HeadParts(field, Fix(t, true));
  }

  lemma HeadParts(field: string, t: string)
    ensures Head(field) + t == "{" + ("\"" + (field + ("\"" + (":" + ("\"" + t)))))
  {}

  lemma EscapesValidHead(field: string, t: string)
    requires Ordinary(field)
    ensures EscapesValid(Head(field) + t, false) <==> EscapesValid(t, true)
  {
    FixHead(field, t);
    UnchangedExactly(Head(field) + t, false);
    UnchangedExactly(t, true);
    if Head(field) + Fix(t, true) == Head(field) + t {
      assert (Head(field) + Fix(t, true))[|Head(field)|..] == Fix(t, true);
      assert (Head(field) + t)[|Head(field)|..] == t;
    }
  }

  /** A string is its own text exactly when it has no escape; otherwise it is shorter. */
  ghost predicate Consumed(t: string, text: string, s: Scanned) {
    && t == text + "\"" + s.rest && |s.value| <= |text|
    && (if '\\' in text then |s.value| < |text| else s.value == text)
  }

  ghost predicate Consumes(t: string, scanned: Option<Scanned>) {
    scanned.Some? ==> exists text: string :: Consumed(t, text, scanned.value)
  }

  lemma {:induction false} ReadConsumes(t: string)
    ensures Consumes(t, ReadString(t))
    decreases |t|
  {
    if ReadString(t).Some? {
      if t[0] == '"' {
        assert Consumed(t, "", ReadString(t).value);
      } else if t[0] != '\\' {
        ReadConsumes(t[1..]);
        CharacterConsumes(t);
      } else if Simple(t[1]).Some? {
        ReadConsumes(t[2..]);
        EscapeConsumes(t, Simple(t[1]).value, 2);
      } else if !(0xD800 <= HexCode(t[2..]) < 0xE000) {
        ReadConsumes(t[6..]);
        ReadCode(t);
        EscapeConsumes(t, HexCode(t[2..]) as char, 6);
      } else {
        ReadConsumes(t[12..]);
        ReadPair(t);
        assert t[6..][6..] == t[12..];
        EscapeConsumes(t, PairChar(HexCode(t[2..]), HexCode(t[6..][2..])), 12);
      }
    }
  }

  lemma OneMoreConsumed(c: char, t: string, text: string, s: Scanned)
    requires c != '\\' && Consumed(t, text, s)
    ensures Consumed([c] + t, [c] + text, Scanned([c] + s.value, s.rest))
  {
    assert '\\' in [c] + text <==> '\\' in text;
    assert [c] + (text + "\"" + s.rest) == ([c] + text) + "\"" + s.rest;
  }

  lemma CharacterConsumes(t: string)
    requires t != "" && t[0] != '\\' && ReadString(t) == Prepend(t[0], ReadString(t[1..])) && Consumes(t[1..], ReadString(t[1..]))
    ensures Consumes(t, ReadString(t))
  {
    var rest := ReadString(t[1..]);
    if rest.Some? {
      var text: string :| Consumed(t[1..], text, rest.value);
      OneMoreConsumed(t[0], t[1..], text, rest.value);
      assert [t[0]] + t[1..] == t;
    }
  }

  lemma OneEscapeConsumed(head: string, c: char, t: string, text: string, s: Scanned)
    requires |head| >= 2 && head[0] == '\\' && Consumed(t, text, s)
    ensures Consumed(head + t, head + text, Scanned([c] + s.value, s.rest))
  {
    assert (head + text)[0] == '\\';
    assert head + (text + "\"" + s.rest) == (head + text) + "\"" + s.rest;
  }

  lemma EscapeConsumes(t: string, c: char, k: nat)
    requires 2 <= k <= |t| && t[0] == '\\' && ReadString(t) == Prepend(c, ReadString(t[k..])) && Consumes(t[k..], ReadString(t[k..]))
    ensures Consumes(t, ReadString(t))
  {
    var rest := ReadString(t[k..]);
    if rest.Some? {
      var text: string :| Consumed(t[k..], text, rest.value);
      OneEscapeConsumed(t[..k], c, t[k..], text, rest.value);
      assert t[..k] + t[k..] == t;
    }
  }

  /** Read strictly, a path without quotes is itself exactly when it has no backslash. */
  lemma StrictExactly(p: string, after: string)
    requires '"' !in p && Ordinary(after) && ReadString(p + "\"" + after).Some?
    ensures var s := ReadString(p + "\"" + after).value; s.rest == after && (s.value == p <==> '\\' !in p)
    ensures forall i :: 0 <= i < |p| && '\\' !in p ==> p[i] >= ' '
  {
    var t := p + "\"" + after;
    ReadConsumes(t);
    var s := ReadString(t).value;
    var text: string :| Consumed(t, text, s);
    assert t[|text|] == '"';
    OnlyQuote(p, after, |text|);
    assert text == t[..|p|] && s.rest == t[|p| + 1..];
    assert t[..|p|] == p && t[|p| + 1..] == after;
    if '\\' !in p {
      PrintableRead(p, after);
    }
  }

  lemma {:induction false} PrintableRead(p: string, after: string)
    requires '"' !in p && '\\' !in p
    ensures ReadString(p + "\"" + after).Some? <==> forall i :: 0 <= i < |p| ==> p[i] >= ' '
  {
    var t := p + "\"" + after;
    if p != "" {
      PrintableRead(p[1..], after);
      assert t[1..] == p[1..] + "\"" + after;
      forall i | 0 <= i < |p| - 1
        ensures p[1..][i] == p[i + 1]
      {}
    }
  }

  predicate HasStray(p: string) {
    exists i :: 0 <= i < |p| - 1 && p[i] == '\\' && !Restorable(p[i + 1])
  }

  lemma {:induction false} StrayFails(p: string, after: string)
    requires Survives(p) && Ordinary(after)
    ensures EscapesValid(p + "\"" + after, true) <==> !HasStray(p)
  {
    var t := p + "\"" + after;
    SurvivorsArePlain(p);
    if p == "" {
      assert t[1..] == after;
      OrdinaryStays(after, "", false);
      assert after + "" == after;
      UnchangedExactly(after, false);
    } else if ValidEscape(t) {
      EscapeSurvives(p, after);
      StrayFails(p[2..], after);
      StrayShifts(p, 2);
    } else {
      OrdinarySurvives(p, after);
      StrayFails(p[1..], after);
      StrayShifts(p, 1);
    }
  }

  lemma StrayShifts(p: string, n: nat)
    requires 1 <= n <= |p| && n <= 2
    requires n == 2 ==> p[1] != '\\'
    ensures HasStray(p) <==> (p[0] == '\\' && |p| > 1 && !Restorable(p[1])) || HasStray(p[n..])
  {
    if HasStray(p) {
      var i :| 0 <= i < |p| - 1 && p[i] == '\\' && !Restorable(p[i + 1]);
      if i >= n {
        assert p[n..][i - n] == '\\' && !Restorable(p[n..][i - n + 1]);
      }
    }
    if HasStray(p[n..]) {
      var i :| 0 <= i < |p[n..]| - 1 && p[n..][i] == '\\' && !Restorable(p[n..][i + 1]);
      assert p[i + n] == '\\' && !Restorable(p[i + n + 1]);
    }
    if p[0] == '\\' && |p| > 1 && !Restorable(p[1]) {
      assert p[0] == '\\' && !Restorable(p[0 + 1]);
    }
  }

  /**
   * The payload gives a raw path back exactly when the path survives and
   * either has no backslash or has one that makes strict parsing fail.
   */
  lemma PathReadExactly(parse: string -> Option<Json>, field: string, p: string)
    requires ParsesMember(parse, field) && Ordinary(field)
    requires '"' !in p
    ensures HookPayload(parse, Head(field) + (p + "\"}"), Some(field)) == Some(Object(map[field := Text(p)]))
            <==> Survives(p) && ('\\' !in p || HasStray(p))
  {
    var t := p + "\"" + "}";
    assert t == p + "\"}";
    var wanted := Some(Object(map[field := Text(p)]));
    if ReadString(t).Some? {
      StrictPath(parse, field, p);
    } else {
      RepairedPath(parse, field, p);
    }
  }

  /** Strict reading stops at a backslash that starts no escape. */
  lemma {:induction false} StrayUnread(p: string, after: string)
    requires Survives(p) && ReadString(p + "\"" + after).Some?
    ensures !HasStray(p)
  {
    var t := p + "\"" + after;
    SurvivorsArePlain(p);
    if p == "" {
    } else if ValidEscape(t) {
      EscapeSurvives(p, after);
      ReadEscape(t);
      StrayUnread(p[2..], after);
      StrayShifts(p, 2);
    } else {
      OrdinarySurvives(p, after);
      ReadOther(t);
      StrayUnread(p[1..], after);
      StrayShifts(p, 1);
    }
  }

  lemma SameMember(field: string, a: string, b: string)
    ensures Object(map[field := Text(a)]) == Object(map[field := Text(b)]) <==> a == b
  {
    assert map[field := Text(a)][field] == Text(a) && map[field := Text(b)][field] == Text(b);
  }

  lemma StrictPath(parse: string -> Option<Json>, field: string, p: string)
    requires ParsesMember(parse, field) && '"' !in p && ReadString(p + "\"" + "}").Some?
    ensures HookPayload(parse, Head(field) + (p + "\"" + "}"), Some(field)) == Some(Object(map[field := Text(p)]))
            <==> Survives(p) && ('\\' !in p || HasStray(p))
  {
    StrictExactly(p, "}");
    SameMember(field, ReadString(p + "\"" + "}").value.value, p);
    if Survives(p) {
      StrayUnread(p, "}");
    }
  }

  lemma RepairedRest(p: string)
    requires '"' !in p && ReadString(Fix(p + "\"" + "}", true)).Some?
    ensures ReadString(Fix(p + "\"" + "}", true)).value.rest == "}"
  {
    var t := p + "\"" + "}";
    ReadShortens(t);
    OnlyQuote(p, "}", End(t).value);
    assert t[|p| + 1..] == "}";
  }

  lemma NotRepaired(parse: string -> Option<Json>, field: string, t: string)
    requires ParsesMember(parse, field) && Ordinary(field) && ReadString(t).None?
    requires EscapesValid(t, true) || ReadString(Fix(t, true)).None?
    ensures HookPayload(parse, Head(field) + t, Some(field)).None?
  {
    hide EscapesValid, ReadString, Fix, Head;
    FixHead(field, t);
    EscapesValidHead(field, t);
  }

  /** A path that strict reading refuses although nothing is to be repaired holds a control character or a broken escape. */
  lemma ValidIsUnread(p: string)
    requires '"' !in p && ReadString(p + "\"" + "}").None? && EscapesValid(p + "\"" + "}", true) && Survives(p)
    ensures '\\' in p && !HasStray(p)
  {
    hide EscapesValid, ReadString, Survives, HasStray;
    SurvivorsArePlain(p);
    StrayFails(p, "}");
    if '\\' !in p {
      PrintableRead(p, "}");
    }
  }

  lemma RepairedPath(parse: string -> Option<Json>, field: string, p: string)
    requires ParsesMember(parse, field) && Ordinary(field) && '"' !in p && ReadString(p + "\"" + "}").None?
    ensures HookPayload(parse, Head(field) + (p + "\"" + "}"), Some(field)) == Some(Object(map[field := Text(p)]))
            <==> Survives(p) && ('\\' !in p || HasStray(p))
  {
    hide EscapesValid, ReadString, Fix, Survives, HasStray, HookPayload, ParsesMember, Ordinary;
    var t := p + "\"" + "}";
    PlainBrace();
    RoundTripExactly(p, "}");
    if EscapesValid(t, true) {
      NotRepaired(parse, field, t);
      if Survives(p) {
        ValidIsUnread(p);
      }
    } else if ReadString(Fix(t, true)).None? {
      NotRepaired(parse, field, t);
    } else {
      RepairedRest(p);
      RestoredMember(parse, field, t, p);
      if Survives(p) {
        StrayFails(p, "}");
      }
    }
  }

  lemma PlainBrace()
    ensures Ordinary("}")
  {}

  lemma RestoredMember(parse: string -> Option<Json>, field: string, t: string, p: string)
    requires ParsesMember(parse, field) && Ordinary(field) && ReadString(t).None? && !EscapesValid(t, true)
    requires ReadString(Fix(t, true)).Some? && ReadString(Fix(t, true)).value.rest == "}"
    ensures HookPayload(parse, Head(field) + t, Some(field)) == Some(Object(map[field := Text(p)]))
            <==> Restore(ReadString(Fix(t, true)).value.value) == p
  {
    FixHead(field, t);
    EscapesValidHead(field, t);
    var v := ReadString(Fix(t, true)).value.value;
    assert parse(Head(field) + Fix(t, true)) == Some(Object(map[field := Text(v)]));
    assert map[field := Text(v)][field := Text(Restore(v))] == map[field := Text(Restore(v))];
    SameMember(field, Restore(v), p);
  }

  /**
   * A path whose backslashes all start escapes by accident is lost without
   * notice: strict reading accepts the payload, and nothing puts them back.
   */
  lemma SilentlyAltered(parse: string -> Option<Json>, field: string, p: string) returns (read: string)
    requires ParsesMember(parse, field) && Survives(p) && '\\' in p && !HasStray(p)
    ensures HookPayload(parse, Head(field) + (p + "\"}"), Some(field)) == Some(Object(map[field := Text(read)]))
    ensures read != p && Restore(read) == p
    ensures ReadString(p + "\"" + "}") == Some(Scanned(read, "}"))
  {
    hide ReadString, Fix, EscapesValid, Survives, HasStray, Restore;
    var t := p + "\"" + "}";
    assert t == p + "\"}";
    PlainBrace();
    SurvivorsArePlain(p);
    StrayFails(p, "}");
    UnchangedExactly(t, true);
    RoundTripExactly(p, "}");
    StrictExactly(p, "}");
    read := ReadString(t).value.value;
  }

  /** One backslash, before a letter that it makes an escape. */
  lemma OneAccident(p: string, k: nat)
    requires k + 1 < |p| && p[k] == '\\' && Restorable(p[k + 1])
    requires forall i :: 0 <= i < |p| && i != k ==> p[i] != '"' && p[i] != '\\' && p[i] >= ' '
    ensures Survives(p) && '\\' in p && !HasStray(p)
  {
    assert p[k..][1] == p[k + 1];
  }

  lemma ReadPlain(t: string, v: string, i: nat, k: nat)
    requires i < |t| && k < |v| && t[i] == v[k] >= ' ' && t[i] != '"' && t[i] != '\\'
    requires ReadString(t[i + 1..]) == Some(Scanned(v[k + 1..], "}"))
    ensures ReadString(t[i..]) == Some(Scanned(v[k..], "}"))
  {
    assert t[i..][1..] == t[i + 1..];
    assert v[k..] == [v[k]] + v[k + 1..];
  }

  /** For example, the directory `c:\temp` comes out with a tab in its name. */
  lemma TempIsAltered(parse: string -> Option<Json>)
    requires ParsesMember(parse, "cwd")
    ensures HookPayload(parse, Head("cwd") + ("c:\\temp" + "\"}"), Some("cwd")) == Some(Object(map["cwd" := Text("c:\temp")]))
  {
    hide ReadString, Survives, HasStray, HookPayload, Head;
    var p := "c:\\temp";
    OneAccident(p, 2);
    var read := SilentlyAltered(parse, "cwd", p);
    ReadTemp();
    assert p + "\"" + "}" == "c:\\temp\"}";
  }

  lemma ReadTempTail(t: string, v: string)
    requires t == "c:\\temp\"}" && v == "c:\temp"
    ensures ReadString(t[4..]) == Some(Scanned(v[3..], "}"))
  {
    assert t[7..][1..] == "}" && v[6..] == "";
    assert ReadString(t[7..]) == Some(Scanned(v[6..], "}"));
    hide ReadString;
    ReadPlain(t, v, 6, 5);
    ReadPlain(t, v, 5, 4);
    ReadPlain(t, v, 4, 3);
  }

  lemma ReadTemp()
    ensures ReadString("c:\\temp\"}") == Some(Scanned("c:\temp", "}"))
  {
    hide ReadString;
    var t, v := "c:\\temp\"}", "c:\temp";
    ReadTempTail(t, v);
    ReadEscape(t[2..]);
    assert t[2..][2..] == t[4..] && v[2..] == ['\t'] + v[3..];
    ReadPlain(t, v, 1, 1);
    ReadPlain(t, v, 0, 0);
    assert t[0..] == t && v[0..] == v;
  }
}
