/**
  Text substitution and line endings of the workspace editor: Go's `strings.ReplaceAll`,
  `strings.Replace` and `strings.Count` for a non-empty pattern, and the LF form of a text.
*/
module LineEndings {
  import opened Utf8

  const CR: byte := 13
  const LF: byte := 10
  const CRLF: Bytes := [CR, LF]

  predicate StartsWith(s: Bytes, pattern: Bytes)
  {
    |pattern| <= |s| && s[..|pattern|] == pattern
  }

  // strings.ReplaceAll
  function ReplaceAll(s: Bytes, pattern: Bytes, with: Bytes): Bytes
    requires |pattern| > 0
    decreases |s|
  {
    if |s| == 0 then []
    else if StartsWith(s, pattern) then with + ReplaceAll(s[|pattern|..], pattern, with)
    else [s[0]] + ReplaceAll(s[1..], pattern, with)
  }

  // strings.Replace: the first n occurrences.
  function ReplaceFirst(s: Bytes, pattern: Bytes, with: Bytes, n: nat): Bytes
    requires |pattern| > 0
    decreases |s|
  {
    if |s| == 0 || n == 0 then s
    else if StartsWith(s, pattern) then with + ReplaceFirst(s[|pattern|..], pattern, with, n - 1)
    else [s[0]] + ReplaceFirst(s[1..], pattern, with, n)
  }

  // strings.Count: occurrences that do not overlap.
  function Count(s: Bytes, pattern: Bytes): nat
    requires |pattern| > 0
    decreases |s|
  {
    if |s| == 0 then 0
    else if StartsWith(s, pattern) then 1 + Count(s[|pattern|..], pattern)
    else Count(s[1..], pattern)
  }

  // The text between the occurrences.
  function Split(s: Bytes, pattern: Bytes): (pieces: seq<Bytes>)
    requires |pattern| > 0
    ensures |pieces| > 0
    decreases |s|
  {
    if |s| == 0 then [[]]
    else if StartsWith(s, pattern) then [[]] + Split(s[|pattern|..], pattern)
    else
      var rest := Split(s[1..], pattern);
      [[s[0]] + rest[0]] + rest[1..]
  }

  function Join(pieces: seq<Bytes>, separator: Bytes): Bytes
    requires |pieces| > 0
  {
    if |pieces| == 1 then pieces[0] else pieces[0] + separator + Join(pieces[1..], separator)
  }

  lemma JoinPrepend(pieces: seq<Bytes>, separator: Bytes, b: byte)
    requires |pieces| > 0
    ensures Join([[b] + pieces[0]] + pieces[1..], separator) == [b] + Join(pieces, separator)
  {
    if |pieces| > 1 {
      assert ([[b] + pieces[0]] + pieces[1..])[1..] == pieces[1..];
      assert [b] + pieces[0] + separator + Join(pieces[1..], separator)
          == [b] + (pieces[0] + separator + Join(pieces[1..], separator));
    }
  }

  lemma JoinEmptyFirst(pieces: seq<Bytes>, separator: Bytes)
    requires |pieces| > 0
    ensures Join([[]] + pieces, separator) == separator + Join(pieces, separator)
  {
    assert ([[]] + pieces)[1..] == pieces;
    assert [] + separator + Join(pieces, separator) == separator + Join(pieces, separator);
  }

  // Replacing rewrites every occurrence and nothing else.
  lemma {:induction false} ReplaceAllIsSplitJoin(s: Bytes, pattern: Bytes, with: Bytes)
    requires |pattern| > 0
    ensures Join(Split(s, pattern), pattern) == s
    ensures ReplaceAll(s, pattern, with) == Join(Split(s, pattern), with)
    ensures |Split(s, pattern)| == Count(s, pattern) + 1
    decreases |s|
  {
    if |s| > 0 {
      if StartsWith(s, pattern) {
        var rest := s[|pattern|..];
        ReplaceAllIsSplitJoin(rest, pattern, with);
        JoinEmptyFirst(Split(rest, pattern), pattern);
        JoinEmptyFirst(Split(rest, pattern), with);
        assert s == pattern + rest;
      } else {
        ReplaceAllIsSplitJoin(s[1..], pattern, with);
        JoinPrepend(Split(s[1..], pattern), pattern, s[0]);
        JoinPrepend(Split(s[1..], pattern), with, s[0]);
        assert s == [s[0]] + s[1..];
      }
    }
  }

  // No piece between two occurrences still holds one.
  lemma {:induction false} SplitLeavesNone(s: Bytes, pattern: Bytes)
    requires |pattern| > 0
    ensures forall piece | piece in Split(s, pattern) :: Count(piece, pattern) == 0
    ensures Split(s, pattern)[0] <= s
    decreases |s|
  {
    if |s| > 0 {
      if StartsWith(s, pattern) {
        SplitLeavesNone(s[|pattern|..], pattern);
      } else {
        SplitLeavesNone(s[1..], pattern);
        var rest := Split(s[1..], pattern);
        var first := [s[0]] + rest[0];
        assert first <= s;
        assert pattern <= first ==> pattern <= s;
        assert first[1..] == rest[0];
      }
    }
  }

  // Replacing exactly as many occurrences as there are replaces them all.
  lemma {:induction false} ReplaceCounted(s: Bytes, pattern: Bytes, with: Bytes)
    requires |pattern| > 0
    ensures ReplaceFirst(s, pattern, with, Count(s, pattern)) == ReplaceAll(s, pattern, with)
    decreases |s|
  {
    if |s| > 0 {
      if StartsWith(s, pattern) {
        ReplaceCounted(s[|pattern|..], pattern, with);
      } else {
        ReplaceCounted(s[1..], pattern, with);
        if Count(s, pattern) == 0 {
          assert s == [s[0]] + s[1..];
          assert ReplaceFirst(s[1..], pattern, with, 0) == s[1..];
        }
      }
    }
  }

  lemma OneMore(n: nat, d: int)
    ensures (1 + n) * d == d + n * d
  {}

  // The length moves by the difference of the lengths, once per occurrence.
  lemma {:induction false} ReplaceLength(s: Bytes, pattern: Bytes, with: Bytes)
    requires |pattern| > 0
    ensures |ReplaceAll(s, pattern, with)| == |s| + Count(s, pattern) * (|with| - |pattern|)
    decreases |s|
  {
    if |s| > 0 {
      if StartsWith(s, pattern) {
        var rest := s[|pattern|..];
        ReplaceLength(rest, pattern, with);
        OneMore(Count(rest, pattern), |with| - |pattern|);
      } else {
        ReplaceLength(s[1..], pattern, with);
      }
    }
  }

  // normalizeLineEndings
  function Normalize(value: Bytes): Bytes
  {
    ReplaceAll(ReplaceAll(value, CRLF, [LF]), [CR], [LF])
  }

  // One pass over the text with the same result as the two replacements.
  function LfForm(value: Bytes): (text: Bytes)
    ensures CR !in text
    decreases |value|
  {
    if |value| == 0 then []
    else if StartsWith(value, CRLF) then [LF] + LfForm(value[2..])
    else if value[0] == CR then [LF] + LfForm(value[1..])
    else [value[0]] + LfForm(value[1..])
  }

  lemma {:induction false} NormalizeIsLfForm(value: Bytes)
    ensures Normalize(value) == LfForm(value)
    decreases |value|
  {
    if |value| > 0 {
      var inner := ReplaceAll(value, CRLF, [LF]);
      if StartsWith(value, CRLF) {
        NormalizeIsLfForm(value[2..]);
        assert inner[0] == LF && inner[1..] == ReplaceAll(value[2..], CRLF, [LF]);
        assert !StartsWith(inner, [CR]);
      } else {
        NormalizeIsLfForm(value[1..]);
        assert inner[0] == value[0] && inner[1..] == ReplaceAll(value[1..], CRLF, [LF]);
        assert StartsWith(inner, [CR]) <==> value[0] == CR by { assert inner[..1] == [inner[0]]; }
      }
    }
  }

  datatype Ending = Lf | CrLf

  // detectLineEnding; no answer for a text with mixed endings or a bare CR.
  datatype Detection = Consistent(ending: Ending) | Inconsistent

  function Detect(value: Bytes): Detection
  {
    var withoutCrlf := ReplaceAll(value, CRLF, []);
    if CR in withoutCrlf then Inconsistent
    else if Count(value, CRLF) > 0 then
      (if LF in withoutCrlf then Inconsistent else Consistent(CrLf))
    else Consistent(Lf)
  }

  function Render(text: Bytes, ending: Ending): Bytes
  {
    if ending == CrLf then ReplaceAll(text, [LF], CRLF) else text
  }

  // The bytes the editor stores for a content written with the given ending.
  function Stored(content: Bytes, ending: Ending): Bytes
  {
    Render(Normalize(content), ending)
  }

  lemma {:induction false} RenderCrLfRoundTrip(value: Bytes)
    requires CR !in ReplaceAll(value, CRLF, []) && LF !in ReplaceAll(value, CRLF, [])
    ensures ReplaceAll(LfForm(value), [LF], CRLF) == value
    decreases |value|
  {
    if |value| > 0 {
      var text := LfForm(value);
      if StartsWith(value, CRLF) {
        RenderCrLfRoundTrip(value[2..]);
        assert text[..1] == [LF] && text[1..] == LfForm(value[2..]);
        assert value == CRLF + value[2..];
      } else {
        var without := ReplaceAll(value, CRLF, []);
        assert without == [value[0]] + ReplaceAll(value[1..], CRLF, []);
        assert value[0] == without[0] && value[0] != CR && value[0] != LF;
        assert forall b | b in ReplaceAll(value[1..], CRLF, []) :: b in without;
        RenderCrLfRoundTrip(value[1..]);
        assert text[..1] == [value[0]] && text[1..] == LfForm(value[1..]);
        assert value == [value[0]] + value[1..];
      }
    }
  }

  lemma {:induction false} LfFormOfLf(value: Bytes)
    requires CR !in value
    ensures LfForm(value) == value
    decreases |value|
  {
    if |value| > 0 {
      LfFormOfLf(value[1..]);
    }
  }

  lemma {:induction false} NoCrWithoutCrlf(value: Bytes)
    requires Count(value, CRLF) == 0
    ensures ReplaceAll(value, CRLF, []) == value
    decreases |value|
  {
    if |value| > 0 {
      NoCrWithoutCrlf(value[1..]);
    }
  }

  // Normalising a consistent text and writing it back with its own ending restores every byte.
  lemma StoredRoundTrip(value: Bytes)
    requires Detect(value).Consistent?
    ensures Stored(value, Detect(value).ending) == value
  {
    NormalizeIsLfForm(value);
    if Detect(value).ending == CrLf {
      RenderCrLfRoundTrip(value);
    } else {
      NoCrWithoutCrlf(value);
      LfFormOfLf(value);
    }
  }

  lemma {:induction false} RenderedCrLf(text: Bytes)
    requires CR !in text
    ensures ReplaceAll(ReplaceAll(text, [LF], CRLF), CRLF, []) == ReplaceAll(text, [LF], [])
    ensures Count(ReplaceAll(text, [LF], CRLF), CRLF) == Count(text, [LF])
    ensures LfForm(ReplaceAll(text, [LF], CRLF)) == text
    ensures CR !in ReplaceAll(text, [LF], []) && LF !in ReplaceAll(text, [LF], [])
    decreases |text|
  {
    if |text| > 0 {
      RenderedCrLf(text[1..]);
      var rendered := ReplaceAll(text, [LF], CRLF);
      assert text[..1] == [text[0]];
      if text[0] == LF {
        assert rendered[..2] == CRLF && rendered[2..] == ReplaceAll(text[1..], [LF], CRLF);
      } else {
        assert rendered[0] == text[0] && rendered[1..] == ReplaceAll(text[1..], [LF], CRLF);
        assert !StartsWith(rendered, CRLF) by { assert rendered[0] != CR; }
      }
    }
  }

  lemma {:induction false} NoCrlfInLf(text: Bytes)
    requires CR !in text
    ensures Count(text, CRLF) == 0
    decreases |text|
  {
    if |text| > 0 {
      assert text[0] in text;
      assert |text| >= 2 ==> text[..2][0] == text[0];
      NoCrlfInLf(text[1..]);
    }
  }

  lemma {:induction false} CountLfPositive(text: Bytes)
    ensures Count(text, [LF]) > 0 <==> LF in text
    decreases |text|
  {
    if |text| > 0 {
      assert text[..1] == [text[0]];
      CountLfPositive(text[1..]);
    }
  }

  // Whatever is written, the stored bytes are consistent, have the requested ending as soon as
  // they hold a line break, and keep the text's LF form.
  lemma StoredIsConsistent(content: Bytes, ending: Ending)
    ensures Detect(Stored(content, ending)) == Consistent(if LF in Normalize(content) then ending else Lf)
    ensures Normalize(Stored(content, ending)) == Normalize(content)
  {
    var text := Normalize(content);
    NormalizeIsLfForm(content);
    NormalizeIsLfForm(Stored(content, ending));
    if ending == CrLf {
      RenderedCrLf(text);
      CountLfPositive(text);
    } else {
      NoCrlfInLf(text);
      NoCrWithoutCrlf(text);
      LfFormOfLf(text);
    }
  }

  lemma {:induction false} ReplaceKeepsOutCr(s: Bytes, pattern: Bytes, with: Bytes)
    requires |pattern| > 0 && CR !in s && CR !in with
    ensures CR !in ReplaceAll(s, pattern, with)
    decreases |s|
  {
    if |s| > 0 {
      ReplaceKeepsOutCr(if StartsWith(s, pattern) then s[|pattern|..] else s[1..], pattern, with);
    }
  }

  lemma NormalizeOfLf(text: Bytes)
    requires CR !in text
    ensures Normalize(text) == text
  {
    NormalizeIsLfForm(text);
    LfFormOfLf(text);
  }
}
