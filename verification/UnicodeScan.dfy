/** The scanner that keeps JSON bodies whose escapes a decoder would silently replace out of managed secrets. */
module UnicodeScan {
  import opened Common

  type Bytes = seq<byte>

  const BACKSLASH: byte := 92
  const U: byte := 117

  // --- UTF-8, as in section 4 of RFC 3629 ---------------------------------------------------------------------

  predicate Continuation(b: byte) {
    0x80 <= b <= 0xBF
  }

  /** Length of the well-formed character at the front, or 0. */
  function Utf8Length(s: Bytes): (n: nat)
    ensures n <= |s|
  {
    if s == [] then 0
    else if s[0] <= 0x7F then 1
    else if |s| >= 2 && 0xC2 <= s[0] <= 0xDF && Continuation(s[1]) then 2
    else if |s| >= 3 && Continuation(s[2]) && (
              || (s[0] == 0xE0 && 0xA0 <= s[1] <= 0xBF)
              || ((0xE1 <= s[0] <= 0xEC || 0xEE <= s[0] <= 0xEF) && Continuation(s[1]))
              || (s[0] == 0xED && 0x80 <= s[1] <= 0x9F)) then 3
    else if |s| >= 4 && Continuation(s[2]) && Continuation(s[3]) && (
              || (s[0] == 0xF0 && 0x90 <= s[1] <= 0xBF)
              || (0xF1 <= s[0] <= 0xF3 && Continuation(s[1]))
              || (s[0] == 0xF4 && 0x80 <= s[1] <= 0x8F)) then 4
    else 0
  }

  predicate ValidUtf8(s: Bytes)
    decreases |s|
  {
    s == [] || (Utf8Length(s) > 0 && ValidUtf8(s[Utf8Length(s)..]))
  }

  // --- Hexadecimal ------------------------------------------------------------------------------------------------

  predicate IsHex(b: byte) {
    48 <= b <= 57 || 65 <= b <= 70 || 97 <= b <= 102
  }

  function HexValue(b: byte): (v: nat)
    requires IsHex(b)
    ensures v < 16
  {
    if b <= 57 then b - 48 else if b <= 70 then b - 55 else b - 87
  }

  /** Four hexadecimal digits as a number, if they are digits. */
  function ParseHex4(s: Bytes): (code: Option<nat>)
    requires |s| == 4
    ensures code.Some? ==> code.value < 0x10000
  {
    if IsHex(s[0]) && IsHex(s[1]) && IsHex(s[2]) && IsHex(s[3])
    then Some(((HexValue(s[0]) * 16 + HexValue(s[1])) * 16 + HexValue(s[2])) * 16 + HexValue(s[3]))
    else None
  }

  predicate High(code: nat) {
    0xD800 <= code <= 0xDBFF
  }

  predicate Low(code: nat) {
    0xDC00 <= code <= 0xDFFF
  }

  // --- The scanner ----------------------------------------------------------------------------------------------

  function EscapeAt(s: Bytes): (code: Option<nat>)
    ensures code.Some? ==> |s| >= 6 && s[0] == BACKSLASH && s[1] == U && code.value < 0x10000
  {
    if |s| >= 6 && s[0] == BACKSLASH && s[1] == U then ParseHex4(s[2..6]) else None
  }

  predicate Scan(s: Bytes)
    decreases |s|
  {
    if s == [] then true
    else if s[0] != BACKSLASH then Scan(s[1..])
    else if |s| < 2 then false
    else if s[1] != U then Scan(s[2..])
    else if EscapeAt(s).None? || Low(EscapeAt(s).value) then false
    else if High(EscapeAt(s).value) then EscapeAt(s[6..]).Some? && Low(EscapeAt(s[6..]).value) && Scan(s[12..])
    else Scan(s[6..])
  }

  /** The index loop. */
  method ValidUnicode(body: Bytes) returns (ok: bool)
    ensures ok <==> ValidUtf8(body) && WellPairedText(body)
  {
    ScanIsExact(body);
    if !ValidUtf8(body) {
      return false;
    }
    var i := 0;
    while i < |body|
      invariant 0 <= i <= |body|
      invariant Scan(body) == Scan(body[i..])
    {
      ghost var rest := body[i..];
      if body[i] == BACKSLASH {
        i := i + 1;
        if i >= |body| {
          return false;
        }
        if body[i] == U {
          if i + 4 >= |body| {
            return false;
          }
          assert body[i + 1..i + 5] == rest[2..6];
          var code := ParseHex4(body[i + 1..i + 5]);
          if code.None? {
            return false;
          }
          i := i + 4;
          if Low(code.value) {
            return false;
          }
          if High(code.value) {
            assert i + 6 < |body| ==> body[i + 3..i + 7] == rest[6..][2..6];
            if i + 6 >= |body| || body[i + 1] != BACKSLASH || body[i + 2] != U {
              return false;
            }
            var low := ParseHex4(body[i + 3..i + 7]);
            if low.None? || !Low(low.value) {
              return false;
            }
            i := i + 6;
            assert body[i + 1..] == rest[12..];
          } else {
            assert body[i + 1..] == rest[6..];
          }
        } else {
          assert body[i + 1..] == rest[2..];
        }
      } else {
        assert body[i + 1..] == rest[1..];
      }
      i := i + 1;
    }
    return true;
  }

  // --- Reference: bodies as sequences of units ----------------------------------------------------------------------

  datatype Unit = Plain(b: byte) | Escape(c: byte) | Code(digits: Bytes)

  predicate UnitOk(u: Unit) {
    match u
    case Plain(b) => b != BACKSLASH
    case Escape(c) => c != U
    case Code(digits) => |digits| == 4 && ParseHex4(digits).Some?
  }

  predicate UnitsOk(us: seq<Unit>) {
    forall i :: 0 <= i < |us| ==> UnitOk(us[i])
  }

  function UnitBytes(u: Unit): (s: Bytes) {
    match u
    case Plain(b) => [b]
    case Escape(c) => [BACKSLASH, c]
    case Code(digits) => [BACKSLASH, U] + digits
  }

  function Flatten(us: seq<Unit>): (s: Bytes) {
    if us == [] then [] else UnitBytes(us[0]) + Flatten(us[1..])
  }

  predicate IsHigh(u: Unit) {
    u.Code? && |u.digits| == 4 && ParseHex4(u.digits).Some? && High(ParseHex4(u.digits).value)
  }

  predicate IsLow(u: Unit) {
    u.Code? && |u.digits| == 4 && ParseHex4(u.digits).Some? && Low(ParseHex4(u.digits).value)
  }

  /** Every surrogate is half of an adjacent high-low pair. */
  predicate Paired(us: seq<Unit>) {
    && (forall i :: 0 <= i < |us| && IsHigh(us[i]) ==> i + 1 < |us| && IsLow(us[i + 1]))
    && (forall i :: 0 <= i < |us| && IsLow(us[i]) ==> i > 0 && IsHigh(us[i - 1]))
  }

  lemma PairedAfterOther(us: seq<Unit>)
    requires us != [] && !IsHigh(us[0]) && !IsLow(us[0])
    ensures Paired(us) <==> Paired(us[1..])
  {
    var rest := us[1..];
    assert forall i :: 0 <= i < |rest| ==> rest[i] == us[i + 1];
    if Paired(rest) {
      forall i | 0 <= i < |us| && IsHigh(us[i]) ensures i + 1 < |us| && IsLow(us[i + 1]) { assert us[i] == rest[i - 1]; }
      forall i | 0 <= i < |us| && IsLow(us[i]) ensures i > 0 && IsHigh(us[i - 1]) { assert us[i] == rest[i - 1]; }
    }
  }

  lemma PairedAfterPair(us: seq<Unit>)
    requires |us| >= 2 && IsHigh(us[0]) && IsLow(us[1])
    ensures Paired(us) <==> Paired(us[2..])
  {
    var rest := us[2..];
    assert forall i :: 0 <= i < |rest| ==> rest[i] == us[i + 2];
    if Paired(rest) {
      forall i | 0 <= i < |us| && IsHigh(us[i]) ensures i + 1 < |us| && IsLow(us[i + 1]) {
        if i >= 2 { assert us[i] == rest[i - 2]; }
      }
      forall i | 0 <= i < |us| && IsLow(us[i]) ensures i > 0 && IsHigh(us[i - 1]) {
        if i >= 2 { assert us[i] == rest[i - 2]; }
      }
    }
  }

  lemma CodeFront(digits: Bytes, rest: Bytes)
    requires |digits| == 4
    ensures EscapeAt([BACKSLASH, U] + digits + rest) == ParseHex4(digits)
    ensures ([BACKSLASH, U] + digits + rest)[6..] == rest
  {
    assert ([BACKSLASH, U] + digits + rest)[2..6] == digits;
  }

  /** After a high surrogate only a low one will do. */
  lemma NextIsLow(us: seq<Unit>)
    requires UnitsOk(us)
    ensures EscapeAt(Flatten(us)).Some? && Low(EscapeAt(Flatten(us)).value) <==> us != [] && IsLow(us[0])
  {
    if us != [] {
      match us[0]
      case Code(digits) => CodeFront(digits, Flatten(us[1..]));
      case _ =>
    }
  }

  /** On a sequence of units the scanner decides exactly whether its surrogates are paired. */
  lemma {:induction false} ScanDecidesPairing(us: seq<Unit>)
    requires UnitsOk(us)
    ensures Scan(Flatten(us)) <==> Paired(us)
    decreases |us|
  {
    if us != [] {
      var s, rest := Flatten(us), Flatten(us[1..]);
      match us[0]
      case Plain(b) =>
        assert s[1..] == rest;
        PairedAfterOther(us);
        ScanDecidesPairing(us[1..]);
      case Escape(c) =>
        assert s[2..] == rest;
        PairedAfterOther(us);
        ScanDecidesPairing(us[1..]);
      case Code(digits) =>
        CodeFront(digits, rest);
        if IsHigh(us[0]) {
          NextIsLow(us[1..]);
          if |us| >= 2 && IsLow(us[1]) {
            CodeFront(us[1].digits, Flatten(us[2..]));
            assert us[1..][1..] == us[2..];
            assert s[12..] == rest[6..];
            PairedAfterPair(us);
            ScanDecidesPairing(us[2..]);
          }
        } else if !IsLow(us[0]) {
          PairedAfterOther(us);
          ScanDecidesPairing(us[1..]);
        }
    }
  }

  /** Whatever the scanner accepts is a sequence of units. */
  lemma {:induction false} ScannedHasUnits(s: Bytes) returns (us: seq<Unit>)
    requires Scan(s)
    ensures UnitsOk(us) && Flatten(us) == s
    decreases |s|
  {
    us := [];
    if s != [] {
      if s[0] != BACKSLASH {
        us := ScannedHasUnits(s[1..]);
        us := Prepend(Plain(s[0]), us, s);
      } else if s[1] != U {
        us := ScannedHasUnits(s[2..]);
        us := Prepend(Escape(s[1]), us, s);
      } else if High(EscapeAt(s).value) {
        us := ScannedHasUnits(s[12..]);
        assert s[12..] == s[6..][6..];
        us := Prepend(Code(s[6..][2..6]), us, s[6..]);
        us := Prepend(Code(s[2..6]), us, s);
      } else {
        us := ScannedHasUnits(s[6..]);
        us := Prepend(Code(s[2..6]), us, s);
      }
    }
  }

  lemma Prepend(u: Unit, us: seq<Unit>, s: Bytes) returns (us': seq<Unit>)
    requires UnitsOk(us) && UnitOk(u)
    requires UnitBytes(u) <= s && Flatten(us) == s[|UnitBytes(u)|..]
    ensures us' == [u] + us && UnitsOk(us') && Flatten(us') == s
  {
    us' := [u] + us;
    assert us'[1..] == us;
  }

  ghost predicate WellPairedText(s: Bytes) {
    exists us :: UnitsOk(us) && Flatten(us) == s && Paired(us)
  }

  /**
   The scanner accepts exactly the valid UTF-8 inputs that split into plain bytes, short escapes and
   four-digit escapes whose surrogates are all in adjacent high-low pairs.
   */
  lemma ScanIsExact(s: Bytes)
    ensures Scan(s) <==> WellPairedText(s)
  {
    if Scan(s) {
      var us := ScannedHasUnits(s);
      ScanDecidesPairing(us);
    }
    if WellPairedText(s) {
      var us :| UnitsOk(us) && Flatten(us) == s && Paired(us);
      ScanDecidesPairing(us);
    }
  }

  // --- Escaped text, section 2.2 of RFC 2781 and section 7 of RFC 8259 -------------------------------------------------

  predicate Scalar(c: nat) {
    c <= 0x10FFFF && !(0xD800 <= c <= 0xDFFF)
  }

  function HexDigit(v: nat): (b: byte)
    requires v < 16
    ensures IsHex(b) && HexValue(b) == v
  {
    if v < 10 then 48 + v else 87 + v
  }

  function Hex4(code: nat): (s: Bytes)
    requires code < 0x10000
    ensures |s| == 4
  {
    [HexDigit(code / 4096), HexDigit(code / 256 % 16), HexDigit(code / 16 % 16), HexDigit(code % 16)]
  }

  lemma Hex4Parses(code: nat)
    requires code < 0x10000
    ensures ParseHex4(Hex4(code)) == Some(code)
  {
    assert code == ((code / 4096 * 16 + code / 256 % 16) * 16 + code / 16 % 16) * 16 + code % 16;
  }

  function EscapeUnits(c: nat): (us: seq<Unit>)
    requires Scalar(c)
  {
    if c < 0x10000 then [Code(Hex4(c))]
    else [Code(Hex4(0xD800 + (c - 0x10000) / 0x400)), Code(Hex4(0xDC00 + (c - 0x10000) % 0x400))]
  }

  function EscapeAll(cs: seq<nat>): (us: seq<Unit>)
    requires forall i :: 0 <= i < |cs| ==> Scalar(cs[i])
  {
    if cs == [] then [] else EscapeUnits(cs[0]) + EscapeAll(cs[1..])
  }

  /** Text made of escapes only, as a decoder reads it. */
  function DecodeEscapes(s: Bytes): (cs: Option<seq<nat>>)
    decreases |s|
  {
    if s == [] then Some([])
    else if EscapeAt(s).None? then None
    else
      var code := EscapeAt(s).value;
      var pair := High(code) && EscapeAt(s[6..]).Some? && Low(EscapeAt(s[6..]).value);
      if pair then
        var low := EscapeAt(s[6..]).value;
        (match DecodeEscapes(s[12..])
         case None => None
         case Some(cs) => Some([0x10000 + (code - 0xD800) * 0x400 + (low - 0xDC00)] + cs))
      else if High(code) || Low(code) then None
      else
        (match DecodeEscapes(s[6..])
         case None => None
         case Some(cs) => Some([code] + cs))
  }

  lemma FlattenCons(u: Unit, us: seq<Unit>)
    ensures Flatten([u] + us) == UnitBytes(u) + Flatten(us)
  {
    assert ([u] + us)[1..] == us;
  }

  lemma FlattenJoin(u: Unit, us: seq<Unit>, b: seq<Unit>)
    requires Flatten(us + b) == Flatten(us) + Flatten(b)
    ensures Flatten(([u] + us) + b) == Flatten([u] + us) + Flatten(b)
  {
    Assoc([u], us, b);
    FlattenCons(u, us);
    FlattenCons(u, us + b);
    Assoc(UnitBytes(u), Flatten(us), Flatten(b));
  }

  lemma {:induction false} FlattenAppend(a: seq<Unit>, b: seq<Unit>)
    ensures Flatten(a + b) == Flatten(a) + Flatten(b)
    decreases |a|
  {
    if a == [] {
      assert a + b == b;
    } else {
      var u, us := a[0], a[1..];
      assert a == [u] + us;
      FlattenAppend(us, b);
      FlattenJoin(u, us, b);
    }
  }

  lemma CodeFlattens(digits: Bytes)
    ensures Flatten([Code(digits)]) == [BACKSLASH, U] + digits
  {
    assert [Code(digits)][1..] == [];
  }

  lemma OneDecodes(c: nat, rest: Bytes)
    requires Scalar(c) && c < 0x10000
    ensures UnitsOk(EscapeUnits(c))
    ensures EscapeAt(Flatten(EscapeUnits(c)) + rest) == Some(c)
    ensures (Flatten(EscapeUnits(c)) + rest)[6..] == rest
  {
    Hex4Parses(c);
    CodeFlattens(Hex4(c));
    CodeFront(Hex4(c), rest);
  }

  lemma PairFlattens(c: nat, high: nat, low: nat, rest: Bytes)
    requires Scalar(c) && c >= 0x10000
    requires high == 0xD800 + (c - 0x10000) / 0x400 && low == 0xDC00 + (c - 0x10000) % 0x400
    ensures Flatten(EscapeUnits(c)) + rest == [BACKSLASH, U] + Hex4(high) + ([BACKSLASH, U] + Hex4(low) + rest)
  {
    var us := EscapeUnits(c);
    assert us == [Code(Hex4(high))] + [Code(Hex4(low))];
    FlattenAppend([Code(Hex4(high))], [Code(Hex4(low))]);
    CodeFlattens(Hex4(high));
    CodeFlattens(Hex4(low));
    Assoc([BACKSLASH, U] + Hex4(high), [BACKSLASH, U] + Hex4(low), rest);
  }

  lemma PairDecodes(c: nat, rest: Bytes)
    requires Scalar(c) && c >= 0x10000
    ensures UnitsOk(EscapeUnits(c))
    ensures var s := Flatten(EscapeUnits(c)) + rest;
            && EscapeAt(s).Some? && High(EscapeAt(s).value)
            && EscapeAt(s[6..]).Some? && Low(EscapeAt(s[6..]).value)
            && s[12..] == rest
            && 0x10000 + (EscapeAt(s).value - 0xD800) * 0x400 + (EscapeAt(s[6..]).value - 0xDC00) == c
  {
    var high, low := 0xD800 + (c - 0x10000) / 0x400, 0xDC00 + (c - 0x10000) % 0x400;
    Hex4Parses(high);
    Hex4Parses(low);
    PairFlattens(c, high, low, rest);
    var second := [BACKSLASH, U] + Hex4(low) + rest;
    CodeFront(Hex4(high), second);
    CodeFront(Hex4(low), rest);
    var s := Flatten(EscapeUnits(c)) + rest;
    assert s[12..] == s[6..][6..];
  }

  /** Putting the escapes of one scalar in front of accepted text decodes to that scalar in front of the text. */
  lemma ScalarInFront(c: nat, cs: seq<nat>, rest: Bytes)
    requires Scalar(c) && DecodeEscapes(rest) == Some(cs) && Scan(rest)
    ensures UnitsOk(EscapeUnits(c))
    ensures Scan(Flatten(EscapeUnits(c)) + rest)
    ensures DecodeEscapes(Flatten(EscapeUnits(c)) + rest) == Some([c] + cs)
  {
    if c < 0x10000 {
      OneDecodes(c, rest);
    } else {
      PairDecodes(c, rest);
    }
  }

  lemma {:induction false} EscapedDecodes(cs: seq<nat>)
    requires forall i :: 0 <= i < |cs| ==> Scalar(cs[i])
    ensures UnitsOk(EscapeAll(cs))
    ensures DecodeEscapes(Flatten(EscapeAll(cs))) == Some(cs)
    ensures Scan(Flatten(EscapeAll(cs)))
    decreases |cs|
  {
    if cs != [] {
      EscapedDecodes(cs[1..]);
      FlattenAppend(EscapeUnits(cs[0]), EscapeAll(cs[1..]));
      ScalarInFront(cs[0], cs[1..], Flatten(EscapeAll(cs[1..])));
      assert cs == [cs[0]] + cs[1..];
    }
  }

  lemma {:induction false} AsciiIsUtf8(s: Bytes)
    requires forall i :: 0 <= i < |s| ==> s[i] <= 0x7F
    ensures ValidUtf8(s)
    decreases |s|
  {
    if s != [] { AsciiIsUtf8(s[1..]); }
  }

  lemma {:induction false} EscapedIsAscii(us: seq<Unit>)
    requires UnitsOk(us) && forall i :: 0 <= i < |us| ==> us[i].Code?
    ensures forall i :: 0 <= i < |Flatten(us)| ==> Flatten(us)[i] <= 0x7F
  {
    if us != [] {
      EscapedIsAscii(us[1..]);
      assert forall i :: 0 <= i < 4 ==> IsHex(us[0].digits[i]);
    }
  }

  lemma {:induction false} AllCodes(cs: seq<nat>)
    requires forall i :: 0 <= i < |cs| ==> Scalar(cs[i])
    ensures forall i :: 0 <= i < |EscapeAll(cs)| ==> EscapeAll(cs)[i].Code?
  {
    if cs != [] { AllCodes(cs[1..]); }
  }

  /** Any sequence of Unicode scalar values, printed as escapes, is accepted and decodes back unchanged. */
  lemma EscapedTextRoundTrips(cs: seq<nat>)
    requires forall i :: 0 <= i < |cs| ==> Scalar(cs[i])
    ensures var s := Flatten(EscapeAll(cs)); ValidUtf8(s) && Scan(s) && DecodeEscapes(s) == Some(cs)
  {
    EscapedDecodes(cs);
    AllCodes(cs);
    EscapedIsAscii(EscapeAll(cs));
    AsciiIsUtf8(Flatten(EscapeAll(cs)));
  }
}
