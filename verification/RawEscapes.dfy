/** The characters of escapes, and what repairing, restoring and reading a payload make of each piece. */
module RawEscapes {
  import opened Wrappers
  import opened Spans
  import opened RawPaths

  /** Section 7 of RFC 8259: the escapes of two characters, by code point. */
  const CODES: map<char, int> :=
    map['"' := 0x22, '\\' := 0x5C, '/' := 0x2F, 'b' := 0x08, 'f' := 0x0C, 'n' := 0x0A, 'r' := 0x0D, 't' := 0x09]

  const LOWER := "0123456789abcdef"
  const UPPER := "0123456789ABCDEF"

  ghost predicate Digit(c: char, n: nat) {
    n < 16 && (c == LOWER[n] || c == UPPER[n])
  }

  lemma DigitExactly(c: char)
    ensures IsHex(c) <==> exists n :: Digit(c, n)
    ensures IsHex(c) ==> Digit(c, HexValue(c)) && forall n :: Digit(c, n) ==> n == HexValue(c)
  {
    if IsHex(c) {
      DigitValue(c);
    } else {
      forall n: nat | n < 16
        ensures !Digit(c, n)
      {
        NoDigit(c, n);
      }
    }
  }

  lemma NoDigit(c: char, n: nat)
    requires n < 16
    ensures Digit(c, n) ==> IsHex(c) && HexValue(c) == n
  {}

  lemma DigitValue(c: char)
    requires IsHex(c)
    ensures Digit(c, HexValue(c)) && forall n :: Digit(c, n) ==> n == HexValue(c)
  {
    forall n | Digit(c, n)
      ensures n == HexValue(c)
    {
      NoDigit(c, n);
    }
  }

  /** Four digits after the escape. */
  ghost predicate Digits(h: string) {
    |h| == 4 && forall i :: 0 <= i < 4 ==> exists n :: Digit(h[i], n)
  }

  /** The code point of four digits, most significant first. */
  lemma DigitsExactly(h: string, a: nat, b: nat, c: nat, d: nat)
    requires |h| == 4
    ensures FourHex(h) <==> Digits(h)
    ensures Digit(h[0], a) && Digit(h[1], b) && Digit(h[2], c) && Digit(h[3], d) ==>
              FourHex(h) && HexCode(h) == 16 * (16 * (16 * a + b) + c) + d
  {
    hide Digit, HexValue;
    DigitExactly(h[0]);
    DigitExactly(h[1]);
    DigitExactly(h[2]);
    DigitExactly(h[3]);
  }

  lemma SimpleExactly(c: char)
    ensures Simple(c).Some? <==> c in CODES
    ensures c in CODES ==> Simple(c).value as int == CODES[c]
  {}

  /** How a string is read, character by character; `Prepend` fails where the rest cannot be read. */
  lemma ReadExactly(t: string, c: char)
    ensures ReadString("") == None
    ensures c == '"' ==> ReadString([c] + t) == Some(Scanned("", t))
    ensures c < ' ' ==> ReadString([c] + t) == None
    ensures c >= ' ' && c != '"' && c != '\\' ==> ReadString([c] + t) == Prepend(c, ReadString(t))
    ensures c == '\\' && t != "" && t[0] in CODES ==> ReadString([c] + t) == Prepend(CODES[t[0]] as char, ReadString(t[1..]))
    ensures c == '\\' && (t == "" || (t[0] !in CODES && (t[0] != 'u' || |t| < 5 || !Digits(t[1..5])))) ==> ReadString([c] + t) == None
  {
    var s := [c] + t;
    assert s[1..] == t;
    if t != "" {
      SimpleExactly(t[0]);
      assert s[2..] == t[1..] && s[1] == t[0];
      if |t| >= 5 {
        DigitsExactly(t[1..5], 0, 0, 0, 0);
        assert FourHex(t[1..]) <==> FourHex(t[1..5]);
      }
    }
  }

  /** An escape of four digits stands for its code, unless that is half of a pair. */
  lemma ReadCodeExactly(h: string, t: string)
    requires |h| == 4 && FourHex(h)
    ensures !(0xD800 <= HexCode(h) < 0xE000) ==> ReadString("\\u" + h + t) == Prepend(HexCode(h) as char, ReadString(t))
    ensures 0xDC00 <= HexCode(h) < 0xE000 ==> ReadString("\\u" + h + t) == None
    ensures 0xD800 <= HexCode(h) < 0xDC00 && !("\\u" <= t && |t| >= 6 && FourHex(t[2..6])) ==> ReadString("\\u" + h + t) == None
  {
    var s := "\\u" + h + t;
    assert s[2..][..4] == h && s[6..] == t;
    assert |t| >= 6 ==> s[6..8] == t[..2] && s[8..][..4] == t[2..6];
  }

  /** Two halves stand for one code point, and a first half needs a second one. */
  lemma ReadPairExactly(high: string, low: string, t: string)
    requires |high| == |low| == 4 && FourHex(high) && FourHex(low) && 0xD800 <= HexCode(high) < 0xDC00
    ensures ReadString("\\u" + high + "\\u" + low + t)
            == if 0xDC00 <= HexCode(low) < 0xE000 then Prepend(PairChar(HexCode(high), HexCode(low)), ReadString(t)) else None
  {
    var s := "\\u" + high + "\\u" + low + t;
    assert s[2..][..4] == high && s[8..][..4] == low && s[6..8] == "\\u" && s[12..] == t;
  }

  /** A surrogate pair stands for the code point whose two halves it is. */
  lemma PairExactly(high: nat, low: nat)
    requires 0xD800 <= high < 0xDC00 <= low < 0xE000
    ensures var code := PairChar(high, low) as int - 0x10000;
            0 <= code < 0x100000 && high == 0xD800 + code / 0x400 && low == 0xDC00 + code % 0x400
  {}

  ghost predicate StartsEscape(t: string) {
    t != "" && (t[0] in CODES || (t[0] == 'u' && |t| >= 5 && Digits(t[1..5])))
  }

  /**
   * The repair, piece by piece: a quote opens or closes a string; inside one
   * an escape stays, and any other backslash is doubled and what follows it is
   * looked at again. Everything else stays.
   */
  lemma FixExactly(t: string, c: char, inString: bool)
    ensures Fix("", inString) == ""
    ensures c == '"' ==> Fix([c] + t, inString) == [c] + Fix(t, !inString)
    ensures c != '"' && (c != '\\' || !inString) ==> Fix([c] + t, inString) == [c] + Fix(t, inString)
    ensures c == '\\' && inString && StartsEscape(t) ==> Fix([c] + t, inString) == [c, t[0]] + Fix(t[1..], inString)
    ensures c == '\\' && inString && !StartsEscape(t) ==> Fix([c] + t, inString) == [c, c] + Fix(t, inString)
  {
    var s := [c] + t;
    assert s[1..] == t;
    if t != "" {
      SimpleExactly(t[0]);
      assert s[2..] == t[1..] && s[1] == t[0] && s[..2] == [c, t[0]];
      if |t| >= 5 {
        DigitsExactly(t[1..5], 0, 0, 0, 0);
        assert FourHex(t[1..]) <==> FourHex(t[1..5]);
      }
    }
    assert c == '\\' ==> (ValidEscape(s) <==> StartsEscape(t));
  }

  /** Nothing is repaired exactly when every backslash in a string starts an escape. */
  lemma ValidExactly(t: string, c: char, inString: bool)
    ensures EscapesValid("", inString)
    ensures EscapesValid([c] + t, inString) <==>
              if c == '"' then EscapesValid(t, !inString)
              else if c == '\\' && inString then StartsEscape(t) && EscapesValid(t[1..], inString)
              else EscapesValid(t, inString)
  {
    var s := [c] + t;
    assert s[1..] == t;
    FixExactly(t, c, inString);
    if t != "" {
      SimpleExactly(t[0]);
      assert s[2..] == t[1..] && s[1] == t[0];
      if |t| >= 5 {
        DigitsExactly(t[1..5], 0, 0, 0, 0);
        assert FourHex(t[1..]) <==> FourHex(t[1..5]);
      }
    }
  }

  /** Restoring puts back the five escapes with a letter, and nothing else. */
  lemma RestoreExactly(path: string, c: char)
    ensures Restore("") == ""
    ensures forall letter: char :: letter in "bfnrt" && c as int == CODES[letter] ==> Restore([c] + path) == ['\\', letter] + Restore(path)
    ensures (forall letter: char :: letter in "bfnrt" ==> c as int != CODES[letter]) ==> Restore([c] + path) == [c] + Restore(path)
  {
    assert ([c] + path)[1..] == path;
    assert 'b' in "bfnrt" && 'f' in "bfnrt" && 'n' in "bfnrt" && 'r' in "bfnrt" && 't' in "bfnrt";
  }

  /** A payload that needed repair: only the path field is restored, if it is there and is text. */
  lemma RepairedExactly(parse: string -> Option<Json>, raw: string, fields: map<string, Json>, field: string, key: string)
    requires parse(raw).None? && !EscapesValid(raw, false) && parse(Fix(raw, false)) == Some(Object(fields))
    ensures HookPayload(parse, raw, None) == Some(Object(fields))
    ensures var read := HookPayload(parse, raw, Some(field));
            && read.Some? && read.value.Object?
            && Lookup(read.value.fields, key)
               == if key == field && key in fields && fields[key].Text? then Some(Text(Restore(fields[key].text))) else Lookup(fields, key)
  {}

  /** Otherwise a payload is what a strict parser makes of it, or of its repair. */
  lemma PayloadExactly(parse: string -> Option<Json>, raw: string, field: Option<string>)
    ensures HookPayload(parse, raw, field).None? <==> parse(raw).None? && (EscapesValid(raw, false) || parse(Fix(raw, false)).None?)
    ensures parse(raw).Some? ==> HookPayload(parse, raw, field) == parse(raw)
    ensures parse(raw).None? && !EscapesValid(raw, false) && parse(Fix(raw, false)).Some? && !parse(Fix(raw, false)).value.Object? ==>
              HookPayload(parse, raw, field) == parse(Fix(raw, false))
  {}
}
