module Strings {
  /** The characters with the Unicode White_Space property. */
  predicate WhiteSpace(c: char) {
    || '\U{9}' <= c <= '\U{D}' || c == ' ' || c == '\U{85}' || c == '\U{A0}' || c == '\U{1680}'
    || '\U{2000}' <= c <= '\U{200A}' || c == '\U{2028}' || c == '\U{2029}' || c == '\U{202F}' || c == '\U{205F}'
    || c == '\U{3000}'
  }

  /** What Python's `str.isspace` adds to that: the four separators of the information-separator block. */
  predicate PythonSpace(c: char) {
    WhiteSpace(c) || '\U{1C}' <= c <= '\U{1F}'
  }

  function LowerChar(c: char): char {
    if 'A' <= c <= 'Z' then 'a' + (c - 'A') else c
  }

  function Lower(s: string): string {
    if s == "" then "" else [LowerChar(s[0])] + Lower(s[1..])
  }

  function StripLeft(s: string, blank: char -> bool): string {
    if s != "" && blank(s[0]) then StripLeft(s[1..], blank) else s
  }

  function StripRight(s: string, blank: char -> bool): string {
    if s != "" && blank(s[|s| - 1]) then StripRight(s[..|s| - 1], blank) else s
  }

  function Strip(s: string, blank: char -> bool): string {
    StripRight(StripLeft(s, blank), blank)
  }

  function Remove(s: string, c: char): string {
    if s == "" then "" else (if s[0] == c then "" else [s[0]]) + Remove(s[1..], c)
  }

  predicate Contains(s: string, part: string) {
    exists i :: 0 <= i <= |s| && part <= s[i..]
  }

  lemma {:induction false} StripLeftIsSuffix(s: string, blank: char -> bool) returns (i: nat)
    ensures i <= |s| && StripLeft(s, blank) == s[i..] && (i < |s| ==> !blank(s[i]))
    ensures forall k :: 0 <= k < i ==> blank(s[k])
  {
    if s != "" && blank(s[0]) {
      var k := StripLeftIsSuffix(s[1..], blank);
      i := k + 1;
    } else {
      i := 0;
    }
  }

  lemma {:induction false} StripRightIsPrefix(s: string, blank: char -> bool) returns (j: nat)
    ensures j <= |s| && StripRight(s, blank) == s[..j] && (0 < j ==> !blank(s[j - 1]))
    ensures forall k :: j <= k < |s| ==> blank(s[k])
  {
    if s != "" && blank(s[|s| - 1]) {
      j := StripRightIsPrefix(s[..|s| - 1], blank);
    } else {
      j := |s|;
    }
  }

  /** Stripping leaves a stretch of the text that neither begins nor ends with a stripped character. */
  lemma StripIsInfix(s: string, blank: char -> bool) returns (i: nat, j: nat)
    ensures i <= j <= |s| && Strip(s, blank) == s[i..j]
    ensures i < j ==> !blank(s[i]) && !blank(s[j - 1])
  {
    i := StripLeftIsSuffix(s, blank);
    var t := s[i..];
    var k := StripRightIsPrefix(t, blank);
    j := i + k;
  }

  /** Stripping takes away exactly the blanks around a text. */
  lemma StripsBlanks(before: string, text: string, behind: string, blank: char -> bool)
    requires forall i :: 0 <= i < |before| ==> blank(before[i])
    requires forall i :: 0 <= i < |behind| ==> blank(behind[i])
    requires text != "" ==> !blank(text[0]) && !blank(text[|text| - 1])
    ensures Strip(before + text + behind, blank) == text
  {
    StripsLeft(before, text + behind, blank);
    assert before + text + behind == before + (text + behind);
    if text == "" {
      assert text + behind == behind;
      StripsLeft(behind, "", blank);
      assert behind + "" == behind;
    } else {
      StripsRight(text, behind, blank);
    }
  }

  lemma {:induction false} StripsLeft(before: string, text: string, blank: char -> bool)
    requires forall i :: 0 <= i < |before| ==> blank(before[i])
    ensures StripLeft(before + text, blank) == StripLeft(text, blank)
  {
    if before != "" {
      assert (before + text)[1..] == before[1..] + text;
      StripsLeft(before[1..], text, blank);
    } else {
      assert before + text == text;
    }
  }

  lemma {:induction false} StripsRight(text: string, behind: string, blank: char -> bool)
    requires forall i :: 0 <= i < |behind| ==> blank(behind[i])
    requires text != "" ==> !blank(text[|text| - 1])
    ensures StripRight(text + behind, blank) == text
    decreases |behind|
  {
    if behind != "" {
      var n := |text + behind| - 1;
      assert (text + behind)[..n] == text + behind[..|behind| - 1];
      StripsRight(text, behind[..|behind| - 1], blank);
    } else {
      assert text + behind == text;
    }
  }

  /** The white space characters of Unicode, one by one, and the four separators that Python counts too. */
  lemma BlanksOneByOne(c: char)
    ensures WhiteSpace(c) <==> c in {
      '\U{9}', '\U{A}', '\U{B}', '\U{C}', '\U{D}', '\U{20}', '\U{85}', '\U{A0}', '\U{1680}', '\U{2000}', '\U{2001}',
      '\U{2002}', '\U{2003}', '\U{2004}', '\U{2005}', '\U{2006}', '\U{2007}', '\U{2008}', '\U{2009}', '\U{200A}',
      '\U{2028}', '\U{2029}', '\U{202F}', '\U{205F}', '\U{3000}'}
    ensures PythonSpace(c) <==> WhiteSpace(c) || c in {'\U{1C}', '\U{1D}', '\U{1E}', '\U{1F}'}
  {
  }

  /** A part is contained exactly when it stands somewhere between a beginning and an end. */
  lemma ContainedExactly(s: string, part: string)
    ensures Contains(s, part) <==> exists before, behind :: s == before + part + behind
  {
    if Contains(s, part) {
      var i :| 0 <= i <= |s| && part <= s[i..];
      assert s == s[..i] + part + s[i + |part|..];
    }
    if before, behind :| s == before + part + behind {
      assert part <= s[|before|..] by { assert s[|before|..] == part + behind; }
    }
  }
}
