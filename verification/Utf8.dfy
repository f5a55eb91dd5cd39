/**
 UTF-8 recognition (src/input.cpp) against the grammar of section 4 of RFC 3629, and the text
 offsets that lie between characters.
 */
module Utf8 {
  import opened Common

  type Byte = bv8

  // ---------------------------------------------------------------- grammar

  predicate Tail(b: Byte) {
    0x80 <= b <= 0xBF
  }

  /** UTF8-2, UTF8-3 and UTF8-4 restrict the second byte after some first bytes. */
  predicate SecondOk(first: Byte, second: Byte) {
    if first == 0xE0 then 0xA0 <= second <= 0xBF
    else if first == 0xED then 0x80 <= second <= 0x9F
    else if first == 0xF0 then 0x90 <= second <= 0xBF
    else if first == 0xF4 then 0x80 <= second <= 0x8F
    else Tail(second)
  }

  /** UTF8-char of RFC 3629, section 4. */
  predicate Char(s: seq<Byte>) {
    || (|s| == 1 && s[0] <= 0x7F)
    || (|s| == 2 && 0xC2 <= s[0] <= 0xDF && Tail(s[1]))
    || (|s| == 3 && 0xE0 <= s[0] <= 0xEF && SecondOk(s[0], s[1]) && Tail(s[2]))
    || (|s| == 4 && 0xF0 <= s[0] <= 0xF4 && SecondOk(s[0], s[1]) && Tail(s[2]) && Tail(s[3]))
  }

  function Flatten(chars: seq<seq<Byte>>): seq<Byte> {
    if chars == [] then [] else chars[0] + Flatten(chars[1..])
  }

  predicate AllChars(chars: seq<seq<Byte>>) {
    forall i | 0 <= i < |chars| :: Char(chars[i])
  }

  /** UTF8-octets: some decomposition into characters. */
  ghost predicate ValidUtf8(s: seq<Byte>) {
    exists chars :: AllChars(chars) && Flatten(chars) == s
  }

  // ---------------------------------------------------------------- the character at the front

  /** How long a character starting with this byte is; 0 when none does. */
  function LeadLength(b: Byte): nat {
    if b <= 0x7F then 1 else if 0xC2 <= b <= 0xDF then 2 else if 0xE0 <= b <= 0xEF then 3
       else if 0xF0 <= b <= 0xF4 then 4 else 0
  }

  /** The length of the character at the front of `s`; 0 when there is none. */
  function CharLength(s: seq<Byte>): (n: nat)
    ensures n <= |s| && n <= 4
    ensures n > 0 <==> s != [] && LeadLength(s[0]) <= |s| && Char(s[..LeadLength(s[0])])
    ensures n > 0 ==> n == LeadLength(s[0])
  {
    if s == [] then 0
    else
      var n := LeadLength(s[0]);
      if n <= |s| && Char(s[..n]) then n else 0
  }

  lemma CharLead(c: seq<Byte>)
    requires Char(c)
    ensures |c| == LeadLength(c[0])
  {
  }

  /** The grammar is prefix free: whatever follows, the first character is found. */
  lemma CharPrefix(c: seq<Byte>, rest: seq<Byte>)
    requires Char(c)
    ensures CharLength(c + rest) == |c| && (c + rest)[..|c|] == c && (c + rest)[|c|..] == rest
  {
    CharLead(c);
    assert (c + rest)[..|c|] == c;
  }

  /** Reading character by character. */
  predicate Scans(s: seq<Byte>)
    decreases |s|
  {
    s == [] || (CharLength(s) > 0 && Scans(s[CharLength(s)..]))
  }

  lemma {:induction false} FlattenScans(chars: seq<seq<Byte>>)
    requires AllChars(chars)
    ensures Scans(Flatten(chars))
  {
    if chars != [] {
      FlattenScans(chars[1..]);
      CharPrefix(chars[0], Flatten(chars[1..]));
    }
  }

  lemma {:induction false} ScansFlatten(s: seq<Byte>) returns (chars: seq<seq<Byte>>)
    requires Scans(s)
    ensures AllChars(chars) && Flatten(chars) == s
    decreases |s|
  {
    if s == [] {
      chars := [];
    } else {
      var n := CharLength(s);
      var rest := ScansFlatten(s[n..]);
      chars := [s[..n]] + rest;
      assert chars[1..] == rest && s == s[..n] + s[n..];
    }
  }

  /** Scanning decides the grammar. */
  lemma ScansIffUtf8(s: seq<Byte>)
    ensures Scans(s) <==> ValidUtf8(s)
  {
    if Scans(s) { var chars := ScansFlatten(s); }
    if ValidUtf8(s) {
      var chars :| AllChars(chars) && Flatten(chars) == s;
      FlattenScans(chars);
    }
  }

  // ---------------------------------------------------------------- is_valid_utf8

  /** A decoded scalar value: not overlong, in range and no surrogate. */
  predicate ScalarOk(code: bv32, minimum: bv32) {
    !(code < minimum || code > 0x10FFFF || (0xD800 <= code <= 0xDFFF))
  }

  function Continue(code: bv32, b: Byte): bv32 {
    (code << 6) | ((b & 0x3F) as bv32)
  }

  lemma TailMask(b: Byte)
    ensures b & 0xC0 == 0x80 <==> Tail(b)
  {
  }

  lemma TwoBytes(a: Byte, b: Byte)
    requires a & 0xE0 == 0xC0 && Tail(b)
    ensures ScalarOk(Continue((a & 0x1F) as bv32, b), 0x80) <==> 0xC2 <= a <= 0xDF
  {
  }

  lemma ThreeBytes(a: Byte, b: Byte, c: Byte)
    requires a & 0xF0 == 0xE0 && Tail(b) && Tail(c)
    ensures 0xE0 <= a <= 0xEF
    ensures ScalarOk(Continue(Continue((a & 0x0F) as bv32, b), c), 0x800) <==> SecondOk(a, b)
  {
  }

  lemma FourBytes(a: Byte, b: Byte, c: Byte, d: Byte)
    requires a & 0xF8 == 0xF0 && Tail(b) && Tail(c) && Tail(d)
    ensures ScalarOk(Continue(Continue(Continue((a & 0x07) as bv32, b), c), d), 0x10000) <==>
            0xF0 <= a <= 0xF4 && SecondOk(a, b)
  {
  }

  /** The bits of a lead byte followed by six bits of every tail byte. */
  function Folded(lead: bv32, tails: seq<Byte>): bv32 {
    if tails == [] then lead else Continue(Folded(lead, tails[..|tails| - 1]), tails[|tails| - 1])
  }

  lemma FoldedTwo(lead: bv32, s: seq<Byte>)
    requires |s| == 2
    ensures Folded(lead, s[1..2]) == Continue(lead, s[1])
  {
    assert s[1..2] == [s[1]] && s[1..2][..0] == [];
  }

  lemma FoldedThree(lead: bv32, s: seq<Byte>)
    requires |s| == 3
    ensures Folded(lead, s[1..3]) == Continue(Continue(lead, s[1]), s[2])
  {
    FoldedTwo(lead, s[..2]);
    assert s[1..3][..1] == s[..2][1..2];
  }

  lemma FoldedFour(lead: bv32, s: seq<Byte>)
    requires |s| == 4
    ensures Folded(lead, s[1..4]) == Continue(Continue(Continue(lead, s[1]), s[2]), s[3])
  {
    FoldedThree(lead, s[..3]);
    assert s[1..4][..2] == s[..3][1..3];
  }

  /** The length, payload bits and smallest scalar value that a first byte announces. */
  function Announced(first: Byte): (nat, bv32, bv32) {
    if first <= 0x7F then (1, first as bv32, 0)
    else if first & 0xE0 == 0xC0 then (2, (first & 0x1F) as bv32, 0x80)
    else if first & 0xF0 == 0xE0 then (3, (first & 0x0F) as bv32, 0x800)
    else if first & 0xF8 == 0xF0 then (4, (first & 0x07) as bv32, 0x10000)
    else (0, 0, 0)
  }

  lemma AnnouncedLength(first: Byte)
    ensures LeadLength(first) > 0 ==> Announced(first).0 == LeadLength(first)
  {
  }

  ghost predicate Tails(s: seq<Byte>) {
    forall i | 1 <= i < |s| :: Tail(s[i])
  }

  /** The decoded value is acceptable exactly when the bytes are a character of the grammar. */
  lemma ValueDecides(s: seq<Byte>)
    requires s != [] && Announced(s[0]).0 == |s| && Tails(s)
    ensures ScalarOk(Folded(Announced(s[0]).1, s[1..]), Announced(s[0]).2) <==> Char(s)
  {
    var lead := Announced(s[0]).1;
    assert s[1..] == s[1..|s|];
    if |s| == 2 {
      FoldedTwo(lead, s);
      TwoBytes(s[0], s[1]);
    } else if |s| == 3 {
      FoldedThree(lead, s);
      ThreeBytes(s[0], s[1], s[2]);
    } else if |s| == 4 {
      FoldedFour(lead, s);
      FourBytes(s[0], s[1], s[2], s[3]);
    } else {
      OneByte(s[0]);
    }
  }

  lemma OneByte(first: Byte)
    requires first <= 0x7F
    ensures ScalarOk(first as bv32, 0)
  {
  }

  lemma CharTails(s: seq<Byte>, i: nat)
    requires Char(s) && 1 <= i < |s|
    ensures Tail(s[i])
  {
  }

  /** Decode the sequence at `index`; 0 when it is malformed. */
  method DecodeAt(text: seq<Byte>, index: nat) returns (length: nat)
    requires index < |text|
    ensures length == CharLength(text[index..])
  {
    ghost var s := text[index..];
    var (n, code, minimum) := Announced(text[index]);
    AnnouncedLength(text[index]);
    if n == 0 || n > |text| - index { return 0; }
    ghost var lead := code;
    for offset := 1 to n
      invariant code == Folded(lead, s[1..offset]) && Tails(s[..offset])
    {
      var continuation := text[index + offset];
      TailMask(continuation);
      if continuation & 0xC0 != 0x80 {
        NotAll(s, n, offset);
        return 0;
      }
      TailsSnoc(lead, s, offset);
      code := Continue(code, continuation);
    }
    assert s[..n][1..] == s[1..n] && s[..n][0] == s[0];
    ValueDecides(s[..n]);
    if !ScalarOk(code, minimum) { return 0; }
    return n;
  }

  lemma TailsSnoc(lead: bv32, s: seq<Byte>, offset: nat)
    requires 1 <= offset < |s| && Tails(s[..offset]) && Tail(s[offset])
    ensures Tails(s[..offset + 1]) && Folded(lead, s[1..offset + 1]) == Continue(Folded(lead, s[1..offset]), s[offset])
  {
    assert s[1..offset + 1][..offset - 1] == s[1..offset];
    var longer := s[..offset + 1];
    forall i | 1 <= i < |longer| ensures Tail(longer[i]) {
      if i < offset { assert longer[i] == s[..offset][i]; }
    }
  }

  lemma NotAll(s: seq<Byte>, n: nat, offset: nat)
    requires s != [] && 1 <= offset < n <= |s| && n == Announced(s[0]).0 && !Tail(s[offset])
    ensures CharLength(s) == 0
  {
    AnnouncedLength(s[0]);
    if CharLength(s) > 0 { CharTails(s[..n], offset); }
  }

  method IsValidUtf8(text: seq<Byte>) returns (valid: bool)
    ensures valid <==> ValidUtf8(text)
  {
    ScansIffUtf8(text);
    var index := 0;
    while index < |text|
      invariant 0 <= index <= |text| && (Scans(text) <==> Scans(text[index..]))
      decreases |text| - index
    {
      var length := DecodeAt(text, index);
      if length == 0 { return false; }
      assert text[index..][length..] == text[index + length..];
      index := index + length;
    }
    return true;
  }

  // ---------------------------------------------------------------- boundaries

  /** Whether the offset does not fall on a continuation byte. */
  predicate Boundary(text: seq<Byte>, offset: nat) {
    offset <= |text| && (offset == |text| || text[offset] & 0xC0 != 0x80)
  }

  lemma LeadIsNoTail(s: seq<Byte>)
    requires CharLength(s) > 0
    ensures !Tail(s[0])
  {
  }

  /** Cutting behind the first character cuts the rest. */
  lemma CutBehind(text: seq<Byte>, n: nat, offset: nat)
    requires n == CharLength(text) && 0 < n <= offset <= |text|
    ensures Scans(text[..offset]) <==> Scans(text[n..offset])
  {
    CharPrefix(text[..n], text[n..offset]);
    assert text[..offset] == text[..n] + text[n..offset];
    assert CharLength(text[..offset]) == n && text[..offset][n..] == text[n..offset];
  }

  lemma TailStartsNothing(s: seq<Byte>)
    requires s != [] && Tail(s[0])
    ensures CharLength(s) == 0
  {
  }

  /** For scanned text, an offset is a boundary exactly when it cuts the text into two scannable halves. */
  lemma {:induction false} BoundaryCuts(text: seq<Byte>, offset: nat)
    requires Scans(text) && offset <= |text|
    ensures Boundary(text, offset) <==> Scans(text[..offset]) && Scans(text[offset..])
    decreases |text|
  {
    if offset == |text| {
      assert text[..offset] == text && text[offset..] == [];
    } else {
      TailMask(text[offset]);
      var n := CharLength(text);
      if offset == 0 {
        LeadIsNoTail(text);
        assert text[0..] == text && text[..0] == [];
      } else if offset < n {
        CharTails(text[..n], offset);
        TailStartsNothing(text[offset..]);
      } else {
        SliceOfSlice(text, n, offset);
        BoundaryCuts(text[n..], offset - n);
        CutBehind(text, n, offset);
      }
    }
  }

  /** TextRange::valid_for: both ends cut valid text into valid halves. */
  method ValidFor(start: nat, end: nat, text: seq<Byte>) returns (valid: bool)
    ensures valid <==> ValidUtf8(text) && start <= end <= |text|
                       && ValidUtf8(text[..start]) && ValidUtf8(text[start..]) && ValidUtf8(text[..end])
                       && ValidUtf8(text[end..])
  {
    var whole := IsValidUtf8(text);
    if !whole { return false; }
    ScansIffUtf8(text);
    if start <= |text| { CutUtf8(text, start); }
    if end <= |text| { CutUtf8(text, end); }
    return start <= end && Boundary(text, start) && Boundary(text, end);
  }

  /** An offset of valid text is a boundary exactly when both halves are valid UTF-8. */
  lemma CutUtf8(text: seq<Byte>, offset: nat)
    requires ValidUtf8(text) && offset <= |text|
    ensures Boundary(text, offset) <==> ValidUtf8(text[..offset]) && ValidUtf8(text[offset..])
  {
    ScansIffUtf8(text);
    ScansIffUtf8(text[..offset]);
    ScansIffUtf8(text[offset..]);
    BoundaryCuts(text, offset);
  }
}
