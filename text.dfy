/** The three JavaScript string primitives the task list relies on:
    `String.prototype.trim`, `toLowerCase` and `includes`. */
module Text {

  /** The ECMAScript WhiteSpace and LineTerminator code points: exactly what `trim` strips. */
  predicate IsSpace(c: char) {
    var k := c as int;
    (9 <= k <= 13) || k == 0x20 || k == 0xA0 || k == 0x1680 || (0x2000 <= k <= 0x200A)
    || k == 0x2028 || k == 0x2029 || k == 0x202F || k == 0x205F || k == 0x3000 || k == 0xFEFF
  }

  ghost predicate AllSpace(s: string) {
    forall i :: 0 <= i < |s| ==> IsSpace(s[i])
  }

  /** Number of white-space characters at the front of `s`. */
  function LeadingSpace(s: string): (n: nat)
    ensures n <= |s|
    ensures AllSpace(s[..n])
    ensures n < |s| ==> !IsSpace(s[n])
  {
    if s == [] || !IsSpace(s[0]) then 0
    else
      var m := LeadingSpace(s[1..]);
      assert forall i :: 1 <= i < m + 1 ==> s[i] == s[1..][..m][i - 1];
      1 + m
  }

  /** Number of white-space characters at the end of `s`. */
  function TrailingSpace(s: string): (n: nat)
    ensures n <= |s|
    ensures AllSpace(s[|s| - n..])
    ensures n < |s| ==> !IsSpace(s[|s| - n - 1])
  {
    if s == [] || !IsSpace(s[|s| - 1]) then 0
    else
      var init := s[..|s| - 1];
      var m := TrailingSpace(init);
      assert forall i :: |s| - m - 1 <= i < |s| - 1 ==> s[i] == init[|init| - m..][i - (|s| - m - 1)];
      1 + m
  }

  /** `r` sits at index `i` of `s` with only white space around it. */
  ghost predicate TrimmedAt(s: string, r: string, i: int) {
    0 <= i <= |s| - |r| && s[i..i + |r|] == r && AllSpace(s[..i]) && AllSpace(s[i + |r|..])
  }

  /** `r` is `s` stripped of white space at both ends: a piece of `s` with only white space
      around it that neither starts nor ends with white space, empty exactly when `s` is blank. */
  ghost predicate IsTrimOf(r: string, s: string) {
    (r == [] <==> AllSpace(s))
    && (r != [] ==> !IsSpace(r[0]) && !IsSpace(r[|r| - 1]))
    && exists i :: TrimmedAt(s, r, i)
  }

  /** `s.trim()`: `s` without its leading and trailing white space. */
  function Trim(s: string): (r: string)
    ensures |r| <= |s|
    ensures IsTrimOf(r, s)
  {
    var lead := LeadingSpace(s);
    var rest := s[lead..];
    var r := rest[..|rest| - TrailingSpace(rest)];
    TrimmedPiece(s, lead, r);
    r
  }

  /** Cutting the leading and then the trailing white space leaves a piece of `s`
      with only white space around it. */
  lemma TrimmedPiece(s: string, lead: nat, r: string)
    requires lead == LeadingSpace(s)
    requires r == s[lead..][..|s[lead..]| - TrailingSpace(s[lead..])]
    ensures TrimmedAt(s, r, lead)
    ensures r == [] <==> AllSpace(s)
    ensures r != [] ==> !IsSpace(r[0]) && !IsSpace(r[|r| - 1])
  {
    TrimmedAtLead(s, lead, r);
    TrimmedEnds(s, lead, r);
    AllSpaceTrimsAway(s, lead, r);
    if r == [] {
      SpaceAround(s, lead, r);
    }
  }

  lemma TrimmedAtLead(s: string, lead: nat, r: string)
    requires lead == LeadingSpace(s)
    requires r == s[lead..][..|s[lead..]| - TrailingSpace(s[lead..])]
    ensures TrimmedAt(s, r, lead)
  {
    var rest := s[lead..];
    assert s[lead..lead + |r|] == r;
    assert s[lead + |r|..] == rest[|rest| - TrailingSpace(rest)..];
  }

  lemma TrimmedEnds(s: string, lead: nat, r: string)
    requires lead == LeadingSpace(s)
    requires r == s[lead..][..|s[lead..]| - TrailingSpace(s[lead..])]
    ensures r != [] ==> !IsSpace(r[0]) && !IsSpace(r[|r| - 1])
  {
  }

  lemma AllSpaceTrimsAway(s: string, lead: nat, r: string)
    requires lead == LeadingSpace(s)
    requires r == s[lead..][..|s[lead..]| - TrailingSpace(s[lead..])]
    ensures AllSpace(s) ==> r == []
  {
    if AllSpace(s) {
      assert lead == |s|;
    }
  }

  /** A string that is a piece with only white space around it, when the piece is empty, is all white space. */
  lemma SpaceAround(s: string, i: nat, r: string)
    requires TrimmedAt(s, r, i) && r == []
    ensures AllSpace(s)
  {
    assert s == s[..i] + s[i..];
  }

  /** `IsTrimOf` pins the trimmed string down: at most one string is the trim of `s`. */
  lemma TrimUnique(s: string, r1: string, r2: string)
    requires IsTrimOf(r1, s) && IsTrimOf(r2, s)
    ensures r1 == r2
  {
    if !AllSpace(s) {
      var i1 :| TrimmedAt(s, r1, i1);
      var i2 :| TrimmedAt(s, r2, i2);
      PieceStart(s, r1, i1, r2, i2);
      PieceStart(s, r2, i2, r1, i1);
      PieceEnd(s, r1, i1, r2, i2);
      PieceEnd(s, r2, i2, r1, i1);
      assert r1 == s[i1..i1 + |r1|];
    }
  }

  lemma PieceStart(s: string, r1: string, i1: int, r2: string, i2: int)
    requires TrimmedAt(s, r1, i1) && TrimmedAt(s, r2, i2)
    requires r1 != [] && !IsSpace(r1[0])
    ensures i2 <= i1
  {
  }

  lemma PieceEnd(s: string, r1: string, i1: int, r2: string, i2: int)
    requires TrimmedAt(s, r1, i1) && TrimmedAt(s, r2, i2)
    requires r1 != [] && !IsSpace(r1[|r1| - 1])
    ensures i1 + |r1| <= i2 + |r2|
  {
  }

  /** JavaScript's `!s.trim()`: the string is empty or white space only. */
  predicate IsBlank(s: string) {
    Trim(s) == []
  }

  /** `toLowerCase` on one character, over the ASCII letters. */
  function LowerChar(c: char): (d: char)
    ensures !('A' <= d <= 'Z')
    ensures !('A' <= c <= 'Z') ==> d == c
  {
    if 'A' <= c <= 'Z' then (c as int + 32) as char else c
  }

  /** `s.toLowerCase()`, over the ASCII letters. */
  function Lower(s: string): (r: string)
    ensures |r| == |s|
    ensures forall i :: 0 <= i < |s| ==> r[i] == LowerChar(s[i])
  {
    if s == [] then [] else [LowerChar(s[0])] + Lower(s[1..])
  }

  /** Reference meaning of `hay.includes(needle)`: `needle` occurs as a contiguous piece of `hay`. */
  ghost predicate Occurs(needle: string, hay: string) {
    exists i :: OccursAt(needle, hay, i)
  }

  ghost predicate OccursAt(needle: string, hay: string, i: int) {
    0 <= i <= |hay| - |needle| && hay[i..i + |needle|] == needle
  }

  /** `hay.includes(needle)`, as a left-to-right scan. */
  function Contains(hay: string, needle: string): (r: bool)
    ensures r <==> Occurs(needle, hay)
    decreases |hay|
  {
    if |needle| > |hay| then false
    else if hay[..|needle|] == needle then
      assert OccursAt(needle, hay, 0);
      true
    else
      var r := Contains(hay[1..], needle);
      assert r ==> Occurs(needle, hay) by {
        if r {
          var i :| OccursAt(needle, hay[1..], i);
          assert hay[i + 1..i + 1 + |needle|] == hay[1..][i..i + |needle|];
          assert OccursAt(needle, hay, i + 1);
        }
      }
      assert Occurs(needle, hay) ==> r by {
        if Occurs(needle, hay) {
          var i :| OccursAt(needle, hay, i);
          assert i != 0;
          assert hay[1..][i - 1..i - 1 + |needle|] == hay[i..i + |needle|];
          assert OccursAt(needle, hay[1..], i - 1);
        }
      }
      r
  }

  lemma LowerConcat(a: string, b: string)
    ensures Lower(a + b) == Lower(a) + Lower(b)
  {
    forall i | 0 <= i < |a + b|
      ensures Lower(a + b)[i] == (Lower(a) + Lower(b))[i]
    {
      if i < |a| {
        assert (a + b)[i] == a[i];
      } else {
        assert (a + b)[i] == b[i - |a|];
      }
    }
  }

  /** Lower-casing touches no white space and makes none: a string is blank exactly when
      its lower-cased form is. */
  lemma LowerKeepsBlank(s: string)
    ensures IsBlank(Lower(s)) <==> IsBlank(s)
  {
    BlankIsAllSpace(s);
    BlankIsAllSpace(Lower(s));
    forall i | 0 <= i < |s|
      ensures IsSpace(Lower(s)[i]) <==> IsSpace(s[i])
    {
      LowerCharKeepsSpace(s[i]);
    }
  }

  lemma LowerCharKeepsSpace(c: char)
    ensures IsSpace(LowerChar(c)) <==> IsSpace(c)
  {
    if 'A' <= c <= 'Z' {
      assert !IsSpace(c) && !IsSpace(LowerChar(c));
    }
  }

  /** A piece of a string stays a piece of any longer string it is the start or the end of. */
  lemma {:induction false} OccursInConcat(needle: string, a: string, b: string)
    ensures Occurs(needle, a) ==> Occurs(needle, a + b)
    ensures Occurs(needle, b) ==> Occurs(needle, a + b)
  {
    if Occurs(needle, a) {
      var i :| OccursAt(needle, a, i);
      assert (a + b)[i..i + |needle|] == a[i..i + |needle|];
      assert OccursAt(needle, a + b, i);
    }
    if Occurs(needle, b) {
      var i :| OccursAt(needle, b, i);
      assert (a + b)[|a| + i..|a| + i + |needle|] == b[i..i + |needle|];
      assert OccursAt(needle, a + b, |a| + i);
    }
  }

  /** Blank in the sense of `trim` means made of white space only. */
  lemma BlankIsAllSpace(s: string)
    ensures IsBlank(s) <==> AllSpace(s)
  {
  }
}
