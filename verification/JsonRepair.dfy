/**
  The repair of candidate JSON: raw control characters inside string literals, which section 7 of
  RFC 8259 forbids, are rewritten as escapes.  Everything else is left byte for byte.
*/
module JsonRepair {
  import opened Utf8

  const QUOTE: byte := 0x22
  const BACKSLASH: byte := 0x5C
  const LOWER_U: byte := 0x75
  const ZERO: byte := 0x30

  // Where the scan stands: outside strings, inside one, or just after a backslash inside one.
  datatype Mode = Outside | Inside | Escaped

  function Next(mode: Mode, b: byte): Mode
  {
    match mode
    case Outside => if b == QUOTE then Inside else Outside
    case Escaped => Inside
    case Inside => if b == BACKSLASH then Escaped else if b == QUOTE then Outside else Inside
  }

  predicate IsRawControl(mode: Mode, b: byte)
  {
    mode == Inside && b < 0x20
  }

  function HexDigit(n: nat): byte
    requires n < 16
  {
    if n < 10 then ZERO + n else 0x61 + (n - 10)
  }

  // \b \t \n \f \r, or a \u00XX escape.
  function EscapeOf(b: byte): Bytes
    requires b < 0x20
  {
    if b == 8 then [BACKSLASH, 0x62]
    else if b == 9 then [BACKSLASH, 0x74]
    else if b == 10 then [BACKSLASH, 0x6E]
    else if b == 12 then [BACKSLASH, 0x66]
    else if b == 13 then [BACKSLASH, 0x72]
    else [BACKSLASH, LOWER_U, ZERO, ZERO, HexDigit(b / 16), HexDigit(b % 16)]
  }

  function Repaired(data: Bytes, mode: Mode): Bytes
  {
    if data == [] then []
    else
      (if IsRawControl(mode, data[0]) then EscapeOf(data[0]) else [data[0]])
      + Repaired(data[1..], Next(mode, data[0]))
  }

  // No control character stands raw inside a string literal.
  predicate Clean(data: Bytes, mode: Mode)
  {
    data == [] || (!IsRawControl(mode, data[0]) && Clean(data[1..], Next(mode, data[0])))
  }

  function After(data: Bytes, mode: Mode): Mode
  {
    if data == [] then mode else After(data[1..], Next(mode, data[0]))
  }

  // An escape written for a control character leaves the scan inside its string.
  lemma EscapeStaysInside(b: byte)
    requires b < 0x20
    ensures After(EscapeOf(b), Inside) == Inside
  {
    var escape := EscapeOf(b);
    assert After(escape, Inside) == After(escape[1..], Escaped) == After(escape[2..], Inside);
    if |escape| > 2 {
      assert After(escape[2..], Inside) == After(escape[3..], Inside) == After(escape[4..], Inside);
      assert After(escape[4..], Inside) == After(escape[5..], Inside) == After(escape[6..], Inside);
    }
  }

  lemma {:induction false} AfterConcat(left: Bytes, right: Bytes, mode: Mode)
    ensures After(left + right, mode) == After(right, After(left, mode))
  {
    if left == [] {
      assert left + right == right;
    } else {
      assert (left + right)[1..] == left[1..] + right;
      AfterConcat(left[1..], right, Next(mode, left[0]));
    }
  }

  // The string state stays in step: behind the repaired text the scan stands where it stands behind
  // the text itself.
  lemma {:induction false} RepairKeepsMode(data: Bytes, mode: Mode)
    ensures After(Repaired(data, mode), mode) == After(data, mode)
  {
    if data != [] {
      var b, rest := data[0], Repaired(data[1..], Next(mode, data[0]));
      var front := if IsRawControl(mode, b) then EscapeOf(b) else [b];
      AfterConcat(front, rest, mode);
      RepairKeepsMode(data[1..], Next(mode, b));
      if IsRawControl(mode, b) {
        EscapeStaysInside(b);
      } else {
        assert [b][1..] == [];
      }
    }
  }

  lemma {:induction false} RepairedConcat(left: Bytes, right: Bytes, mode: Mode)
    ensures Repaired(left + right, mode) == Repaired(left, mode) + Repaired(right, After(left, mode))
  {
    if left == [] {
      assert left + right == right;
    } else {
      assert (left + right)[0] == left[0] && (left + right)[1..] == left[1..] + right;
      RepairedConcat(left[1..], right, Next(mode, left[0]));
    }
  }

  lemma {:induction false} CleanConcat(left: Bytes, right: Bytes, mode: Mode)
    ensures Clean(left + right, mode) <==> Clean(left, mode) && Clean(right, After(left, mode))
  {
    if left == [] {
      assert left + right == right;
    } else {
      assert (left + right)[0] == left[0] && (left + right)[1..] == left[1..] + right;
      CleanConcat(left[1..], right, Next(mode, left[0]));
    }
  }

  lemma OneByte(b: byte, mode: Mode)
    ensures Repaired([b], mode) == if IsRawControl(mode, b) then EscapeOf(b) else [b]
    ensures After([b], mode) == Next(mode, b)
    ensures Clean([b], mode) <==> !IsRawControl(mode, b)
  {
    assert [b][1..] == [];
  }

  // One more byte of input.
  lemma RepairedAppend(left: Bytes, b: byte, mode: Mode)
    ensures Repaired(left + [b], mode)
         == Repaired(left, mode) + if IsRawControl(After(left, mode), b) then EscapeOf(b) else [b]
    ensures After(left + [b], mode) == Next(After(left, mode), b)
    ensures Clean(left + [b], mode) <==> Clean(left, mode) && !IsRawControl(After(left, mode), b)
  {
    RepairedConcat(left, [b], mode);
    AfterConcat(left, [b], mode);
    CleanConcat(left, [b], mode);
    OneByte(b, After(left, mode));
  }

  // The scan leaves the data alone exactly when there is nothing to repair.
  lemma {:induction false} UnchangedIffClean(data: Bytes, mode: Mode)
    ensures Repaired(data, mode) == data <==> Clean(data, mode)
    ensures |Repaired(data, mode)| >= |data|
    ensures !Clean(data, mode) ==> |Repaired(data, mode)| > |data|
  {
    if data != [] {
      UnchangedIffClean(data[1..], Next(mode, data[0]));
      assert data == [data[0]] + data[1..];
    }
  }

  // The in-place-unless-changed loop of NormalizeCandidateJSON: no buffer until the first repair.
  method NormalizeCandidateJson(data: Bytes) returns (result: Bytes)
    ensures result == Repaired(data, Outside)
  {
    var normalized: seq<byte> := [];
    var buffered := false;
    var inString := false;
    var escaped := false;
    ghost var mode := Outside;
    for index := 0 to |data|
      invariant mode == After(data[..index], Outside)
      invariant mode == if !inString then Outside else if escaped then Escaped else Inside
      invariant !inString ==> !escaped
      invariant if buffered then normalized == Repaired(data[..index], Outside) else Clean(data[..index], Outside)
    {
      var current := data[index];
      assert data[..index + 1] == data[..index] + [current];
      RepairedAppend(data[..index], current, Outside);
      mode := Next(mode, current);
      if !inString {
        if current == QUOTE {
          inString := true;
        }
      } else if escaped {
        escaped := false;
      } else if current == BACKSLASH {
        escaped := true;
      } else if current == QUOTE {
        inString := false;
      } else if current < 0x20 {
        if !buffered {
          UnchangedIffClean(data[..index], Outside);
          buffered := true;
          normalized := data[..index];
        }
        normalized := normalized + EscapeOf(current);
        continue;
      }
      if buffered {
        normalized := normalized + [current];
      }
    }
    assert data[..|data|] == data;
    if !buffered {
      UnchangedIffClean(data, Outside);
      return data;
    }
    return normalized;
  }

  // What a lenient JSON reader takes from the text: structure, string delimiters and the
  // characters of the strings, whether these were written raw or escaped.
  datatype Unit =
    Structure(b: byte) | Delimiter | Character(b: byte) | CodeUnit(value: nat) | Unknown(b: byte) | Dangling

  function HexValue(b: byte): (n: int)
    ensures -1 <= n < 16
  {
    if 0x30 <= b <= 0x39 then b - 0x30
    else if 0x61 <= b <= 0x66 then b - 0x61 + 10
    else if 0x41 <= b <= 0x46 then b - 0x41 + 10
    else -1
  }

  predicate HexPrefix(s: Bytes, n: nat)
  {
    n == 0 || (|s| > 0 && HexValue(s[0]) >= 0 && HexPrefix(s[1..], n - 1))
  }

  function HexNumber(s: Bytes, n: nat, high: nat): nat
    requires HexPrefix(s, n)
  {
    if n == 0 then high else HexNumber(s[1..], n - 1, high * 16 + HexValue(s[0]))
  }

  function CodeUnitOf(value: nat): Unit
  {
    if value < 0x80 then Character(value) else CodeUnit(value)
  }

  function SimpleEscape(b: byte): Unit
  {
    if b == 0x62 then Character(8)
    else if b == 0x74 then Character(9)
    else if b == 0x6E then Character(10)
    else if b == 0x66 then Character(12)
    else if b == 0x72 then Character(13)
    else if b == QUOTE || b == BACKSLASH || b == 0x2F then Character(b)
    else Unknown(b)
  }

  function Decode(data: Bytes, inString: bool): seq<Unit>
    decreases |data|
  {
    if data == [] then []
    else if !inString then
      (if data[0] == QUOTE then [Delimiter] else [Structure(data[0])]) + Decode(data[1..], data[0] == QUOTE)
    else if data[0] == QUOTE then [Delimiter] + Decode(data[1..], false)
    else if data[0] != BACKSLASH then [Character(data[0])] + Decode(data[1..], true)
    else if |data| == 1 then [Dangling]
    else if data[1] == LOWER_U && HexPrefix(data[2..], 4) then
      HexPrefixLength(data[2..], 4);
      [CodeUnitOf(HexNumber(data[2..], 4, 0))] + Decode(data[6..], true)
    else [SimpleEscape(data[1])] + Decode(data[2..], true)
  }

  lemma HexPrefixLength(s: Bytes, n: nat)
    requires HexPrefix(s, n)
    ensures n <= |s|
  {
    if n > 0 {
      HexPrefixLength(s[1..], n - 1);
    }
  }

  lemma RepairedHead(s: Bytes, mode: Mode)
    requires s != []
    ensures var t := Repaired(s, mode);
      if IsRawControl(mode, s[0]) then t != [] && t[0] == BACKSLASH
      else t == [s[0]] + Repaired(s[1..], Next(mode, s[0])) && t[1..] == Repaired(s[1..], Next(mode, s[0]))
  {}

  // Repairing neither makes nor breaks the digits of a \u escape.
  lemma {:induction false} RepairedHex(s: Bytes, n: nat, high: nat)
    ensures HexPrefix(Repaired(s, Inside), n) <==> HexPrefix(s, n)
    ensures HexPrefix(s, n) ==>
      && n <= |s| && Repaired(s, Inside) == s[..n] + Repaired(s[n..], Inside)
      && HexNumber(Repaired(s, Inside), n, high) == HexNumber(s, n, high)
    decreases n
  {
    if n > 0 && |s| > 0 {
      RepairedHead(s, Inside);
      if HexValue(s[0]) >= 0 {
        RepairedHex(s[1..], n - 1, high * 16 + HexValue(s[0]));
        if HexPrefix(s, n) {
          assert s[..n] == [s[0]] + s[1..][..n - 1] && s[n..] == s[1..][n - 1..];
        }
      }
    }
  }

  lemma DecodeEscape(b: byte, rest: Bytes)
    requires b < 0x20
    ensures Decode(EscapeOf(b) + rest, true) == [Character(b)] + Decode(rest, true)
  {
    var data := EscapeOf(b) + rest;
    if data[1] == LOWER_U {
      var digits := data[2..];
      var d1, d2, d3 := digits[1..], digits[2..], digits[3..];
      assert d1[1..] == d2 && d2[1..] == d3 && data[6..] == rest;
      assert HexValue(HexDigit(b / 16)) == b / 16 && HexValue(HexDigit(b % 16)) == b % 16;
      assert HexPrefix(d3, 1) && HexPrefix(d2, 2) && HexPrefix(d1, 3) && HexPrefix(digits, 4);
      assert HexNumber(d3[1..], 0, b) == b;
      assert HexNumber(d3, 1, b / 16) == b;
      assert HexNumber(d2, 2, 0) == b;
      assert HexNumber(d1, 3, 0) == b;
      assert HexNumber(digits, 4, 0) == b;
    } else {
      assert data[2..] == rest;
    }
  }

  lemma EscapeKeepsMeaning(data: Bytes)
    requires |data| > 1 && data[0] == BACKSLASH
    requires Decode(Repaired(data[2..], Inside), true) == Decode(data[2..], true)
    requires |data| >= 6 ==> Decode(Repaired(data[6..], Inside), true) == Decode(data[6..], true)
    ensures Decode(Repaired(data, Inside), true) == Decode(data, true)
  {
    RepairAfterBackslash(data);
    var repaired := Repaired(data, Inside);
    assert repaired[1] == repaired[..2][1] == data[1];
    RepairedHex(data[2..], 4, 0);
    if data[1] == LOWER_U && HexPrefix(data[2..], 4) {
      assert data[2..][4..] == data[6..];
      assert repaired[6..] == repaired[2..][4..] == Repaired(data[6..], Inside);
    }
  }

  // The repaired text is read as the original was: same structure, same string characters.
  lemma {:induction false} RepairPreservesMeaning(data: Bytes, inString: bool)
    ensures Decode(Repaired(data, if inString then Inside else Outside), inString) == Decode(data, inString)
    decreases |data|
  {
    if data != [] {
      var mode := if inString then Inside else Outside;
      var repaired := Repaired(data, mode);
      var rest := Repaired(data[1..], Next(mode, data[0]));
      if IsRawControl(mode, data[0]) {
        RepairPreservesMeaning(data[1..], true);
        DecodeEscape(data[0], rest);
      } else if inString && data[0] == BACKSLASH && |data| > 1 {
        RepairPreservesMeaning(data[2..], true);
        if |data| >= 6 {
          RepairPreservesMeaning(data[6..], true);
        }
        EscapeKeepsMeaning(data);
      } else {
        assert repaired[0] == data[0] && repaired[1..] == rest;
        if !(inString && data[0] == BACKSLASH) {
          RepairPreservesMeaning(data[1..], if inString then data[0] != QUOTE else data[0] == QUOTE);
        }
      }
    }
  }

  lemma RepairAfterBackslash(data: Bytes)
    requires |data| > 1 && data[0] == BACKSLASH
    ensures |Repaired(data, Inside)| >= 2 && Repaired(data, Inside)[..2] == data[..2]
    ensures Repaired(data, Inside)[2..] == Repaired(data[2..], Inside)
  {
    var front := data[..2];
    assert data == front + data[2..];
    assert front == [BACKSLASH] + [data[1]];
    RepairedConcat(front, data[2..], Inside);
    RepairedConcat([BACKSLASH], [data[1]], Inside);
    AfterConcat([BACKSLASH], [data[1]], Inside);
    OneByte(BACKSLASH, Inside);
    OneByte(data[1], Escaped);
  }

  lemma PlainByteIsClean(data: Bytes)
    requires data != [] && data[0] >= 0x20 && data[0] != QUOTE && data[0] != BACKSLASH
    ensures Clean(data, Inside) <==> Clean(data[1..], Inside)
  {}

  lemma {:induction false} CleanAfterEscape(b: byte, rest: Bytes)
    requires b < 0x20
    ensures Clean(EscapeOf(b) + rest, Inside) <==> Clean(rest, Inside)
  {
    var data := EscapeOf(b) + rest;
    assert data[1..][1..] == data[2..];
    assert Clean(data, Inside) <==> Clean(data[1..], Escaped);
    assert Clean(data[1..], Escaped) <==> Clean(data[2..], Inside);
    if |EscapeOf(b)| == 2 {
      assert data[2..] == rest;
    } else {
      assert data[2..][1..] == data[3..] && data[3..][1..] == data[4..] && data[4..][1..] == data[5..];
      assert data[5..][1..] == rest;
      PlainByteIsClean(data[5..]);
      assert Clean(data[4..], Inside) <==> Clean(data[5..], Inside);
      assert Clean(data[3..], Inside) <==> Clean(data[4..], Inside);
    }
  }

  // After the repair no raw control character is left, so repairing again changes nothing.
  lemma {:induction false} RepairedIsClean(data: Bytes, mode: Mode)
    ensures Clean(Repaired(data, mode), mode)
    ensures Repaired(Repaired(data, mode), mode) == Repaired(data, mode)
  {
    if data != [] {
      var next := Next(mode, data[0]);
      RepairedIsClean(data[1..], next);
      if IsRawControl(mode, data[0]) {
        CleanAfterEscape(data[0], Repaired(data[1..], next));
      } else {
        assert Repaired(data, mode)[1..] == Repaired(data[1..], next);
      }
    }
    UnchangedIffClean(Repaired(data, mode), mode);
  }
}
