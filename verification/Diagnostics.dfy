/**
  Bounded diagnostic text: the retry-feedback sanitizer and the test-output excerpt.
  Both cut a UTF-8 text to a byte limit by dropping bytes until what is left is well formed.
*/
module Diagnostics {
  import opened Utf8

  const MAX_RETRY_FEEDBACK_MESSAGE_BYTES := 1024
  const MAX_TEST_OUTPUT_EXCERPT_BYTES := 16384
  const SPACE: Bytes := [0x20]
  const QUESTION_MARK: Bytes := [0x3F]
  const REPLACEMENT: Bytes := [0xEF, 0xBF, 0xBD]

  // unicode.IsControl
  predicate IsControl(c: Bytes)
  {
    (|c| == 1 && (c[0] < 0x20 || c[0] == 0x7F)) || (|c| == 2 && c[0] == 0xC2 && c[1] <= 0x9F)
  }

  // unicode.IsSpace
  predicate IsSpace(c: Bytes)
  {
    || (|c| == 1 && (0x09 <= c[0] <= 0x0D || c[0] == 0x20))
    || c == [0xC2, 0x85] || c == [0xC2, 0xA0] || c == [0xE1, 0x9A, 0x80]
    || (|c| == 3 && c[0] == 0xE2 && c[1] == 0x80 && (c[2] <= 0x8A || c[2] in {0xA8, 0xA9, 0xAF}))
    || c == [0xE2, 0x81, 0x9F] || c == [0xE3, 0x80, 0x80]
  }

  // What cutting a text to a byte limit should keep: its longest well-formed prefix within the limit.
  ghost predicate LongestValidPrefix(text: Bytes, limit: nat, cut: Bytes)
  {
    && cut <= text && |cut| <= limit && Valid(cut)
    && forall k | |cut| < k <= limit && k <= |text| :: !Valid(text[..k])
  }

  // At most three bytes below the limit are lost, and nothing is lost when the text fits.
  lemma CutIsTight(text: Bytes, limit: nat, cut: Bytes)
    requires Valid(text) && LongestValidPrefix(text, limit, cut)
    ensures |text| <= limit ==> cut == text
    ensures |text| > limit ==> limit < |cut| + 4
  {
    if |text| <= limit {
      assert text[..|text|] == text;
    } else {
      var k := BoundaryNear(text, limit);
    }
  }

  lemma CutIsUnique(text: Bytes, limit: nat, cut: Bytes, other: Bytes)
    requires LongestValidPrefix(text, limit, cut) && LongestValidPrefix(text, limit, other)
    ensures cut == other
  {
    assert cut == text[..|cut|] && other == text[..|other|];
  }

  datatype StreamEvidence = StreamEvidence(source: Bytes, capturedBytes: int, excerpt: Bytes, truncated: bool)
  {
    // StreamEvidence.Validate; the digest field is the captured source it identifies.
    predicate Validates()
    {
      && capturedBytes >= 0
      && Valid(excerpt) && |excerpt| <= MAX_TEST_OUTPUT_EXCERPT_BYTES
      && (!truncated ==> capturedBytes == |excerpt|)
      && (truncated ==> capturedBytes > |excerpt|)
    }
  }

  function Printable(data: Bytes): Bytes
  {
    Concat(Repair(data, [QUESTION_MARK], false))
  }

  method BuildStreamEvidence(data: Bytes) returns (evidence: StreamEvidence)
    ensures evidence.Validates()
    ensures evidence.source == data && evidence.capturedBytes == |data|
    ensures LongestValidPrefix(Printable(data), MAX_TEST_OUTPUT_EXCERPT_BYTES, evidence.excerpt)
    ensures Valid(data) && |data| <= MAX_TEST_OUTPUT_EXCERPT_BYTES ==> evidence.excerpt == data && !evidence.truncated
  {
    var text := Printable(data);
    CharsOfConcat(Repair(data, [QUESTION_MARK], false));
    RepairNotLonger(data, [QUESTION_MARK], false);
    var excerpt := text;
    if |excerpt| > MAX_TEST_OUTPUT_EXCERPT_BYTES {
      excerpt := excerpt[..MAX_TEST_OUTPUT_EXCERPT_BYTES];
      while |excerpt| > 0 && !Valid(excerpt)
        invariant excerpt <= text && |excerpt| <= MAX_TEST_OUTPUT_EXCERPT_BYTES
        invariant forall k | |excerpt| < k <= MAX_TEST_OUTPUT_EXCERPT_BYTES :: !Valid(text[..k])
      {
        assert excerpt == text[..|excerpt|];
        excerpt := excerpt[..|excerpt| - 1];
      }
    }
    if Valid(data) {
      RepairOfValid(data, [QUESTION_MARK], false);
    }
    evidence := StreamEvidence(data, |data|, excerpt, |excerpt| < |data|);
  }

  // The sanitizer's first pass: control characters and white space become plain spaces.
  function Blank(c: Bytes): Bytes
  {
    if IsControl(c) || IsSpace(c) then SPACE else c
  }

  function BlankAll(chars: seq<Bytes>): (blanked: seq<Bytes>)
    ensures |blanked| == |chars|
    ensures forall i | 0 <= i < |chars| :: blanked[i] == Blank(chars[i])
  {
    if chars == [] then [] else [Blank(chars[0])] + BlankAll(chars[1..])
  }

  // The characters up to the first space.
  function Word(chars: seq<Bytes>): (word: seq<Bytes>)
    ensures word <= chars && forall c | c in word :: !IsSpace(c)
    ensures |chars| > 0 && !IsSpace(chars[0]) ==> |word| > 0
  {
    if chars == [] || IsSpace(chars[0]) then [] else [chars[0]] + Word(chars[1..])
  }

  // strings.Fields
  function Fields(chars: seq<Bytes>): (words: seq<seq<Bytes>>)
    ensures forall w | w in words :: |w| > 0 && forall c | c in w :: c in chars && !IsSpace(c)
    decreases |chars|
  {
    if chars == [] then []
    else if IsSpace(chars[0]) then Fields(chars[1..])
    else [Word(chars)] + Fields(chars[|Word(chars)|..])
  }

  // strings.Join with one space
  function JoinWords(words: seq<seq<Bytes>>): (chars: seq<Bytes>)
    ensures forall c | c in chars :: c == SPACE || exists w | w in words :: c in w
    ensures |words| > 0 && |words[0]| > 0 ==> |chars| > 0 && chars[0] == words[0][0]
    ensures |words| == 0 ==> chars == []
  {
    if |words| == 0 then []
    else if |words| == 1 then words[0]
    else words[0] + [SPACE] + JoinWords(words[1..])
  }

  function NormalizedChars(value: Bytes): (chars: seq<Bytes>)
  {
    JoinWords(Fields(BlankAll(Repair(value, [], false))))
  }

  // The text the sanitizer cuts: bad bytes dropped, controls and white space collapsed to single spaces.
  function NormalizedText(value: Bytes): Bytes
  {
    Concat(NormalizedChars(value))
  }

  lemma NormalizedShape(value: Bytes)
    ensures forall c | c in NormalizedChars(value) :: IsChar(c) && !IsControl(c)
    ensures |NormalizedChars(value)| > 0 ==> !IsSpace(NormalizedChars(value)[0])
  {
    var kept := Repair(value, [], false);
    var blanked := BlankAll(kept);
    forall c | c in blanked ensures IsChar(c) && !IsControl(c) {
      var i :| 0 <= i < |blanked| && blanked[i] == c;
      assert kept[i] in kept;
    }
  }

  // The characters a `for range` loop over a Go string sees: one mark for each bad byte.
  function RuneRange(value: Bytes): seq<Bytes>
    decreases |value|
  {
    if |value| == 0 then []
    else if Width(value) == 0 then [REPLACEMENT] + RuneRange(value[1..])
    else [value[..Width(value)]] + RuneRange(value[Width(value)..])
  }

  // boundedDiagnosticField
  predicate BoundedDiagnosticField(value: Bytes, maximum: nat)
  {
    && (exists c | c in RuneRange(value) :: !IsSpace(c))
    && |value| <= maximum
    && (forall c | c in RuneRange(value) :: !IsControl(c))
  }

  lemma CharsOfCut(chars: seq<Bytes>, cut: Bytes)
    requires forall c | c in chars :: IsChar(c)
    requires cut <= Concat(chars) && Valid(cut)
    ensures Chars(cut) <= chars
  {
    CharsOfConcat(chars);
    var rest := Concat(chars)[|cut|..];
    assert Concat(chars) == cut + rest;
    ValidPrefix(Chars(cut), rest);
  }

  lemma {:induction false} RuneRangeOfValid(value: Bytes)
    requires Valid(value)
    ensures RuneRange(value) == Chars(value)
    decreases |value|
  {
    if |value| > 0 {
      RuneRangeOfValid(value[Width(value)..]);
    }
  }

  lemma PrefixOfNormalizedIsAccepted(value: Bytes, cut: Bytes)
    requires cut <= NormalizedText(value) && Valid(cut) && |cut| <= MAX_RETRY_FEEDBACK_MESSAGE_BYTES
    ensures cut == [] || BoundedDiagnosticField(cut, MAX_RETRY_FEEDBACK_MESSAGE_BYTES)
  {
    var chars := NormalizedChars(value);
    NormalizedShape(value);
    CharsOfCut(chars, cut);
    RuneRangeOfValid(cut);
    var kept := RuneRange(cut);
    if kept == [] {
      assert cut == Concat(Chars(cut)) == [];
    } else {
      assert kept[0] == chars[0] && kept[0] in kept;
      forall c | c in kept ensures !IsControl(c) {
        assert c in chars;
      }
    }
  }

  // The cutting loop: one byte less, then on to the next well-formed length.
  method CutToLimit(text: Bytes, limit: nat) returns (cut: Bytes)
    requires Valid(text)
    ensures LongestValidPrefix(text, limit, cut)
  {
    cut := text;
    while |cut| > limit
      invariant cut <= text && Valid(cut)
      invariant forall k | |cut| < k <= |text| && k <= limit :: !Valid(text[..k])
    {
      cut := cut[..|cut| - 1];
      while !Valid(cut)
        invariant cut <= text
        invariant forall k | |cut| < k <= |text| && k <= limit :: !Valid(text[..k])
        decreases |cut|
      {
        assert cut == text[..|cut|];
        cut := cut[..|cut| - 1];
      }
    }
  }

  method SanitizeRetryFeedbackMessage(value: Bytes) returns (message: Bytes)
    ensures LongestValidPrefix(NormalizedText(value), MAX_RETRY_FEEDBACK_MESSAGE_BYTES, message)
    ensures message == [] || BoundedDiagnosticField(message, MAX_RETRY_FEEDBACK_MESSAGE_BYTES)
  {
    var kept := Repair(value, [], false);
    var output: seq<Bytes> := [];
    for i := 0 to |kept|
      invariant |output| == i
      invariant forall j | 0 <= j < i :: output[j] == Blank(kept[j])
    {
      output := output + [if IsControl(kept[i]) || IsSpace(kept[i]) then SPACE else kept[i]];
    }
    assert output == BlankAll(kept);
    NormalizedShape(value);
    CharsOfConcat(NormalizedChars(value));
    message := CutToLimit(Concat(JoinWords(Fields(output))), MAX_RETRY_FEEDBACK_MESSAGE_BYTES);
    PrefixOfNormalizedIsAccepted(value, message);
  }

  // ---- what the normalization keeps ----

  // The characters that are neither control characters nor white space.
  function Visible(chars: seq<Bytes>): seq<Bytes>
  {
    if chars == [] then []
    else (if IsControl(chars[0]) || IsSpace(chars[0]) then [] else [chars[0]]) + Visible(chars[1..])
  }

  // Single plain spaces between words, and none around them.
  ghost predicate SingleSpaced(chars: seq<Bytes>)
  {
    && (forall i | 0 <= i < |chars| && IsSpace(chars[i]) ::
          chars[i] == SPACE && 0 < i < |chars| - 1 && !IsSpace(chars[i - 1]))
    && forall i | 0 <= i < |chars| :: IsSpace(chars[i]) || !IsControl(chars[i])
  }

  lemma {:induction false} VisibleConcat(a: seq<Bytes>, b: seq<Bytes>)
    ensures Visible(a + b) == Visible(a) + Visible(b)
  {
    if a == [] {
      assert a + b == b;
    } else {
      assert (a + b)[0] == a[0] && (a + b)[1..] == a[1..] + b;
      VisibleConcat(a[1..], b);
    }
  }

  lemma {:induction false} BlankKeepsVisible(chars: seq<Bytes>)
    ensures Visible(BlankAll(chars)) == Visible(chars)
  {
    if chars != [] {
      assert BlankAll(chars)[1..] == BlankAll(chars[1..]);
      BlankKeepsVisible(chars[1..]);
    }
  }

  lemma {:induction false} WordEnds(chars: seq<Bytes>)
    ensures var word := Word(chars);
      word == chars[..|word|] && (|word| < |chars| ==> IsSpace(chars[|word|]))
  {
    if chars != [] && !IsSpace(chars[0]) {
      WordEnds(chars[1..]);
    }
  }

  lemma JoinCons(word: seq<Bytes>, rest: seq<seq<Bytes>>)
    ensures JoinWords([word] + rest) == if rest == [] then word else word + ([SPACE] + JoinWords(rest))
  {
    assert ([word] + rest)[1..] == rest;
    assert rest != [] ==> word + [SPACE] + JoinWords(rest) == word + ([SPACE] + JoinWords(rest));
  }

  lemma VisibleAfterSpace(chars: seq<Bytes>)
    ensures Visible([SPACE] + chars) == Visible(chars)
  {
    assert ([SPACE] + chars)[1..] == chars;
  }

  // A word, and what follows it.
  lemma SplitWord(chars: seq<Bytes>) returns (word: seq<Bytes>, rest: seq<Bytes>)
    requires chars != [] && !IsSpace(chars[0])
    ensures chars == word + rest && word != [] && word == Word(chars)
    ensures Fields(chars) == [word] + Fields(rest) && (rest != [] ==> IsSpace(rest[0]))
  {
    word := Word(chars);
    rest := chars[|word|..];
    WordEnds(chars);
  }

  lemma {:induction false} WordsKeepVisible(chars: seq<Bytes>)
    ensures Visible(JoinWords(Fields(chars))) == Visible(chars)
    decreases |chars|
  {
    if chars != [] && IsSpace(chars[0]) {
      WordsKeepVisible(chars[1..]);
    } else if chars != [] {
      var word, rest := SplitWord(chars);
      WordsKeepVisible(rest);
      var words := JoinWords(Fields(rest));
      JoinCons(word, Fields(rest));
      VisibleAfterSpace(words);
      VisibleConcat(word, [SPACE] + words);
      VisibleConcat(word, rest);
    }
  }

  lemma {:induction false} JoinIsSingleSpaced(words: seq<seq<Bytes>>)
    requires forall w | w in words :: |w| > 0 && forall c | c in w :: !IsSpace(c) && !IsControl(c)
    ensures SingleSpaced(JoinWords(words))
    ensures words != [] ==> JoinWords(words) != []
  {
    if |words| == 1 {
      assert words[0] in words;
    } else if |words| > 1 {
      assert words[0] in words;
      JoinIsSingleSpaced(words[1..]);
      WordThenSpaced(words[0], JoinWords(words[1..]));
    }
  }

  lemma WordThenSpaced(word: seq<Bytes>, rest: seq<Bytes>)
    requires word != [] && rest != [] && SingleSpaced(rest)
    requires forall c | c in word :: !IsSpace(c) && !IsControl(c)
    ensures SingleSpaced(word + [SPACE] + rest)
  {
    var all, n := word + [SPACE] + rest, |word|;
    assert all[n] == SPACE && forall j | 0 <= j < n :: all[j] == word[j] && word[j] in word;
    forall i | 0 <= i < |all| ensures IsSpace(all[i]) || !IsControl(all[i]) {
      if i < n {
        assert all[i] == word[i] && word[i] in word;
      } else if i > n {
        assert all[i] == rest[i - n - 1];
      }
    }
    forall i | 0 <= i < |all| && IsSpace(all[i])
      ensures all[i] == SPACE && 0 < i < |all| - 1 && !IsSpace(all[i - 1])
    {
      if i == n {
        assert all[i - 1] == word[n - 1] && word[n - 1] in word;
      } else if i > n {
        assert all[i] == rest[i - n - 1];
        assert i > n + 1 ==> all[i - 1] == rest[i - n - 2];
      }
    }
  }

  lemma {:induction false} SingleSpacedIsKept(chars: seq<Bytes>)
    requires SingleSpaced(chars)
    ensures JoinWords(Fields(chars)) == chars
    decreases |chars|
  {
    if chars != [] {
      var word, rest := SplitWord(chars);
      JoinCons(word, Fields(rest));
      if rest != [] {
        var more := SpaceThenMore(chars, word, rest);
        SingleSpacedIsKept(more);
        assert Fields(more) != [];
      }
    }
  }

  lemma SpaceThenMore(chars: seq<Bytes>, word: seq<Bytes>, rest: seq<Bytes>) returns (more: seq<Bytes>)
    requires SingleSpaced(chars) && chars == word + rest && word != [] && rest != [] && IsSpace(rest[0])
    ensures rest == [SPACE] + more && more != [] && SingleSpaced(more) && Fields(rest) == Fields(more)
    ensures |more| < |chars|
  {
    var k := |word| + 1;
    assert chars[|word|] == rest[0];
    more := chars[k..];
    assert rest == [SPACE] + more && rest[1..] == more;
    TailIsSingleSpaced(chars, k);
  }

  lemma TailIsSingleSpaced(chars: seq<Bytes>, k: nat)
    requires SingleSpaced(chars) && 0 < k < |chars| && IsSpace(chars[k - 1])
    ensures SingleSpaced(chars[k..])
  {
    var tail := chars[k..];
    forall i | 0 <= i < |tail| && IsSpace(tail[i])
      ensures tail[i] == SPACE && 0 < i < |tail| - 1 && !IsSpace(tail[i - 1])
    {
      assert tail[i] == chars[k + i];
      assert i > 0 ==> tail[i - 1] == chars[k + i - 1];
    }
    forall i | 0 <= i < |tail| ensures IsSpace(tail[i]) || !IsControl(tail[i]) {
      assert tail[i] == chars[k + i];
    }
  }

  // The normalized text has the visible characters of the text in their order, separated by single
  // spaces; only bad bytes, control characters and white space go.
  lemma NormalizedKeepsVisible(value: Bytes)
    ensures Valid(NormalizedText(value))
    ensures Visible(Chars(NormalizedText(value))) == Visible(Repair(value, [], false))
    ensures SingleSpaced(Chars(NormalizedText(value)))
  {
    var kept := Repair(value, [], false);
    NormalizedShape(value);
    CharsOfConcat(NormalizedChars(value));
    WordsKeepVisible(BlankAll(kept));
    BlankKeepsVisible(kept);
    FieldsAreWords(kept);
    JoinIsSingleSpaced(Fields(BlankAll(kept)));
  }

  lemma FieldsAreWords(kept: seq<Bytes>)
    ensures forall w | w in Fields(BlankAll(kept)) :: |w| > 0 && forall c | c in w :: !IsSpace(c) && !IsControl(c)
  {
    var blanked := BlankAll(kept);
    forall c | c in blanked ensures !IsControl(c) {
      var i :| 0 <= i < |blanked| && blanked[i] == c;
    }
  }

  // A well-formed text that is already so spaced stays as it is.
  lemma NormalIsKept(value: Bytes)
    requires Valid(value) && SingleSpaced(Chars(value))
    ensures NormalizedText(value) == value
  {
    RepairOfValid(value, [], false);
    CharsOfConcat(Repair(value, [], false));
    var chars := Chars(value);
    assert Repair(value, [], false) == chars;
    forall i | 0 <= i < |chars| ensures BlankAll(chars)[i] == chars[i] {}
    assert BlankAll(chars) == chars;
    SingleSpacedIsKept(chars);
  }
}
