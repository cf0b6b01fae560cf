/**
  UTF-8 byte strings as Go's `unicode/utf8` and `strings.ToValidUTF8` treat them
  (sections 3 and 4 of RFC 3629).  A well-formed byte string is a sequence of characters of
  one to four bytes; `Width` is the length of the character at the front, 0 when
  the bytes there are not well formed.
*/
module Utf8 {

  type byte = x: int | 0 <= x < 256
  type Bytes = seq<byte>

  predicate Tail(b: byte) { 0x80 <= b <= 0xBF }

  // The syntax of section 4 of RFC 3629: UTF8-1 to UTF8-4.
  function Width(s: Bytes): (w: nat)
    ensures w <= 4 && w <= |s|
  {
    if |s| == 0 then 0
    else if s[0] <= 0x7F then 1
    else if |s| < 2 then 0
    else if 0xC2 <= s[0] <= 0xDF then (if Tail(s[1]) then 2 else 0)
    else if |s| < 3 then 0
    else if 0xE0 <= s[0] <= 0xEF then
      var low := if s[0] == 0xE0 then 0xA0 else 0x80;
      var high := if s[0] == 0xED then 0x9F else 0xBF;
      (if low <= s[1] <= high && Tail(s[2]) then 3 else 0)
    else if |s| < 4 then 0
    else if 0xF0 <= s[0] <= 0xF4 then
      var low := if s[0] == 0xF0 then 0x90 else 0x80;
      var high := if s[0] == 0xF4 then 0x8F else 0xBF;
      (if low <= s[1] <= high && Tail(s[2]) && Tail(s[3]) then 4 else 0)
    else 0
  }

  // utf8.Valid
  predicate Valid(s: Bytes)
  {
    |s| == 0 || (Width(s) > 0 && Valid(s[Width(s)..]))
  }

  // One character: a byte string that `Width` reads in full.
  predicate IsChar(c: Bytes) { |c| > 0 && Width(c) == |c| }

  function Concat(chars: seq<Bytes>): (s: Bytes)
  {
    if chars == [] then [] else chars[0] + Concat(chars[1..])
  }

  // The characters of a well-formed byte string, front to back.
  function Chars(s: Bytes): (chars: seq<Bytes>)
    requires Valid(s)
    ensures forall c | c in chars :: IsChar(c)
    ensures Concat(chars) == s
  {
    if |s| == 0 then []
    else
      var w := Width(s);
      WidthOfFront(s);
      [s[..w]] + Chars(s[w..])
  }

  lemma WidthOfFront(s: Bytes)
    requires Width(s) > 0
    ensures Width(s[..Width(s)]) == Width(s)
  {}

  // What follows a character does not change how it is read.
  lemma WidthOfConcat(c: Bytes, rest: Bytes)
    requires IsChar(c)
    ensures Width(c + rest) == |c|
    ensures (c + rest)[|c|..] == rest
  {}

  lemma {:induction false} CharsOfConcat(chars: seq<Bytes>)
    requires forall c | c in chars :: IsChar(c)
    ensures Valid(Concat(chars))
    ensures Chars(Concat(chars)) == chars
  {
    if chars != [] {
      CharsOfConcat(chars[1..]);
      WidthOfConcat(chars[0], Concat(chars[1..]));
      var s := Concat(chars);
      assert s[..|chars[0]|] == chars[0];
      assert chars == [chars[0]] + chars[1..];
    }
  }

  lemma {:induction false} ConcatAppend(left: seq<Bytes>, right: seq<Bytes>)
    ensures Concat(left + right) == Concat(left) + Concat(right)
  {
    if left == [] {
      assert left + right == right;
    } else {
      assert (left + right)[1..] == left[1..] + right;
      ConcatAppend(left[1..], right);
    }
  }

  lemma {:induction false} ValidAppend(s: Bytes, t: Bytes)
    requires Valid(s) && Valid(t)
    ensures Valid(s + t)
    ensures Chars(s + t) == Chars(s) + Chars(t)
  {
    ConcatAppend(Chars(s), Chars(t));
    CharsOfConcat(Chars(s) + Chars(t));
  }

  lemma ValidStep(c: Bytes, rest: Bytes)
    requires IsChar(c)
    ensures Valid(c + rest) == Valid(rest)
  {
    WidthOfConcat(c, rest);
  }

  // A well-formed prefix ends between two characters.
  lemma {:induction false} ValidPrefix(chars: seq<Bytes>, rest: Bytes)
    requires forall c | c in chars :: IsChar(c)
    requires Valid(Concat(chars) + rest)
    ensures Valid(rest)
    ensures Chars(Concat(chars) + rest) == chars + Chars(rest)
  {
    ValidRest(chars, rest);
    ConcatAppend(chars, Chars(rest));
    CharsOfConcat(chars + Chars(rest));
  }

  lemma {:induction false} ValidRest(chars: seq<Bytes>, rest: Bytes)
    requires forall c | c in chars :: IsChar(c)
    requires Valid(Concat(chars) + rest)
    ensures Valid(rest)
  {
    if chars == [] {
      assert Concat(chars) + rest == rest;
    } else {
      var tail := Concat(chars[1..]) + rest;
      assert Concat(chars) + rest == chars[0] + tail;
      ValidStep(chars[0], tail);
      ValidRest(chars[1..], rest);
    }
  }

  // Cutting a well-formed string to at most n bytes never has to give up more than three of them.
  lemma {:induction false} BoundaryNear(s: Bytes, n: nat) returns (k: nat)
    requires Valid(s) && n <= |s|
    ensures k <= n < k + 4 && Valid(s[..k])
  {
    var w := Width(s);
    if |s| == 0 || n < w {
      k := 0;
      assert s[..0] == [];
    } else {
      var rest := BoundaryNear(s[w..], n - w);
      k := w + rest;
      assert s[..k] == s[..w] + s[w..][..rest];
      WidthOfFront(s);
      assert s[..w][w..] == [];
      ValidAppend(s[..w], s[w..][..rest]);
    }
  }

  // The characters `strings.ToValidUTF8` keeps, with `mark` for each maximal run of bad bytes
  // (no character at all when `mark` is empty).
  function Repair(s: Bytes, mark: seq<Bytes>, inRun: bool): (chars: seq<Bytes>)
    requires |mark| <= 1 && forall c | c in mark :: IsChar(c)
    ensures forall c | c in chars :: IsChar(c)
    decreases |s|
  {
    if |s| == 0 then []
    else if Width(s) == 0 then (if inRun then [] else mark) + Repair(s[1..], mark, true)
    else
      WidthOfFront(s);
      [s[..Width(s)]] + Repair(s[Width(s)..], mark, false)
  }

  lemma {:induction false} RepairOfValid(s: Bytes, mark: seq<Bytes>, inRun: bool)
    requires |mark| <= 1 && forall c | c in mark :: IsChar(c)
    requires Valid(s)
    ensures Concat(Repair(s, mark, inRun)) == s
    decreases |s|
  {
    if |s| > 0 {
      RepairOfValid(s[Width(s)..], mark, false);
      assert s == s[..Width(s)] + s[Width(s)..];
    }
  }

  // A one-byte mark never makes the text longer.
  lemma {:induction false} RepairNotLonger(s: Bytes, mark: seq<Bytes>, inRun: bool)
    requires |mark| <= 1 && forall c | c in mark :: IsChar(c) && |c| == 1
    ensures |Concat(Repair(s, mark, inRun))| <= |s|
    decreases |s|
  {
    if |s| > 0 {
      var run := if inRun then [] else mark;
      if Width(s) == 0 {
        RepairNotLonger(s[1..], mark, true);
        ConcatAppend(run, Repair(s[1..], mark, true));
        assert |Concat(run)| <= 1;
      } else {
        RepairNotLonger(s[Width(s)..], mark, false);
      }
    }
  }

  // A byte that no character starts with.
  predicate Stray(b: byte)
  {
    Tail(b) || b >= 0xF8
  }

  // A run of such bytes between two well-formed texts becomes one mark, and the texts are kept.
  lemma RepairBetween(left: Bytes, run: Bytes, right: Bytes, mark: seq<Bytes>)
    requires |mark| <= 1 && forall c | c in mark :: IsChar(c)
    requires Valid(left) && Valid(right) && run != [] && forall b | b in run :: Stray(b)
    ensures Concat(Repair(left + (run + right), mark, false)) == left + (Concat(mark) + right)
  {
    RepairRun(run, right, mark, false);
    RepairAfter(Chars(left), run + right, Concat(mark) + right, mark);
    assert Repairs(left + (run + right), left + (Concat(mark) + right), mark);
  }

  // The repair of this text is that text.  (The quantifier keeps it out of sight.)
  ghost predicate Repairs(s: Bytes, t: Bytes, mark: seq<Bytes>)
    requires |mark| <= 1 && forall c | c in mark :: IsChar(c)
  {
    forall x | x == s :: Concat(Repair(x, mark, false)) == t
  }

  lemma RepairStep(c: Bytes, s: Bytes, t: Bytes, mark: seq<Bytes>)
    requires |mark| <= 1 && forall c | c in mark :: IsChar(c)
    requires IsChar(c) && Repairs(s, t, mark)
    ensures Repairs(c + s, c + t, mark)
  {
    WidthOfConcat(c, s);
    assert (c + s)[..|c|] == c;
    assert Concat(Repair(s, mark, false)) == t;
    assert Repair(c + s, mark, false) == [c] + Repair(s, mark, false);
    assert ([c] + Repair(s, mark, false))[1..] == Repair(s, mark, false);
  }

  lemma {:induction false} RepairAfter(chars: seq<Bytes>, s: Bytes, t: Bytes, mark: seq<Bytes>)
    requires |mark| <= 1 && forall c | c in mark :: IsChar(c)
    requires (forall c | c in chars :: IsChar(c)) && Repairs(s, t, mark)
    ensures Repairs(Concat(chars) + s, Concat(chars) + t, mark)
    decreases |chars|
  {
    if chars == [] {
      assert Concat(chars) + s == s && Concat(chars) + t == t;
    } else {
      RepairAfter(chars[1..], s, t, mark);
      RepairStep(chars[0], Concat(chars[1..]) + s, Concat(chars[1..]) + t, mark);
      assert Concat(chars) + s == chars[0] + (Concat(chars[1..]) + s);
      assert Concat(chars) + t == chars[0] + (Concat(chars[1..]) + t);
    }
  }

  lemma {:induction false} RepairRun(run: Bytes, right: Bytes, mark: seq<Bytes>, inRun: bool)
    requires |mark| <= 1 && forall c | c in mark :: IsChar(c)
    requires Valid(right) && run != [] && forall b | b in run :: Stray(b)
    ensures Concat(Repair(run + right, mark, inRun)) == (if inRun then [] else Concat(mark)) + right
    decreases |run|
  {
    var s := run + right;
    assert s[0] == run[0] && Stray(s[0]) && Width(s) == 0;
    assert s[1..] == run[1..] + right;
    ConcatAppend(if inRun then [] else mark, Repair(s[1..], mark, true));
    if |run| == 1 {
      assert s[1..] == right;
      RepairOfValid(right, mark, true);
    } else {
      RepairRun(run[1..], right, mark, true);
    }
  }
}
