/**
  The normaliser applied to text extracted from documents: what its output looks like,
  that it leaves normal text alone, and that it keeps words and line breaks.
*/
module Text {
  import opened Strings

  // ---- the rewrites -----------------------------------------------------------

  /** `\r\n` becomes `\n`. */
  function JoinCrLf(s: string): string {
    if s == "" then ""
    else if "\r\n" <= s then "\n" + JoinCrLf(s[2..])
    else [s[0]] + JoinCrLf(s[1..])
  }

  function Replace(s: string, from: char, to: char): string {
    if s == "" then "" else [if s[0] == from then to else s[0]] + Replace(s[1..], from, to)
  }

  predicate Gap(c: char) { c == ' ' || c == '\t' || c == '\U{A0}' }

  /** A run of gaps becomes one space: all but the last of it are dropped. */
  function Collapse(s: string): string {
    if s == "" then ""
    else if !Gap(s[0]) then [s[0]] + Collapse(s[1..])
    else if |s| > 1 && Gap(s[1]) then Collapse(s[1..])
    else " " + Collapse(s[1..])
  }

  function Split(s: string): (lines: seq<string>)
    ensures lines != []
  {
    if s == "" then [""]
    else if s[0] == '\n' then [""] + Split(s[1..])
    else var rest := Split(s[1..]); [[s[0]] + rest[0]] + rest[1..]
  }

  function Join(lines: seq<string>): string {
    if lines == [] then "" else if |lines| == 1 then lines[0] else lines[0] + "\n" + Join(lines[1..])
  }

  function Trim(s: string): string { Strip(s, PythonSpace) }

  function TrimEach(lines: seq<string>): seq<string> {
    if lines == [] then [] else [Trim(lines[0])] + TrimEach(lines[1..])
  }

  /** A run of three or more line breaks becomes two: those with two more after them are dropped. */
  function Squeeze(s: string): string {
    if s == "" then ""
    else if "\n\n\n" <= s then Squeeze(s[1..])
    else [s[0]] + Squeeze(s[1..])
  }

  function Unbroken(text: string): string { Remove(Replace(JoinCrLf(text), '\r', '\n'), '\0') }

  function Normalise(text: string): string {
    Trim(Squeeze(Join(TrimEach(Split(Collapse(Unbroken(text)))))))
  }

  // ---- normal form ------------------------------------------------------------

  predicate Plain(c: char) { c != '\r' && c != '\0' && c != '\t' && c != '\U{A0}' }

  /** No two spaces together, and nothing blank beside a line break but another line break. */
  predicate Neighbours(a: char, b: char) {
    && !(a == ' ' && b == ' ')
    && (a == '\n' && PythonSpace(b) ==> b == '\n')
    && (b == '\n' && PythonSpace(a) ==> a == '\n')
  }

  predicate Tidy(s: string) {
    && (forall i :: 0 <= i < |s| ==> Plain(s[i]))
    && (forall i :: 0 < i < |s| ==> Neighbours(s[i - 1], s[i]))
  }

  predicate Spaced(s: string) {
    forall i :: 2 <= i < |s| ==> !(s[i - 2] == '\n' && s[i - 1] == '\n' && s[i] == '\n')
  }

  predicate Trimmed(s: string) {
    s != "" ==> !PythonSpace(s[0]) && !PythonSpace(s[|s| - 1])
  }

  predicate Normal(s: string) { Tidy(s) && Spaced(s) && Trimmed(s) }

  // ---- stripping --------------------------------------------------------------

  lemma TrimIsInfix(s: string) returns (i: nat, j: nat)
    ensures i <= j <= |s| && Trim(s) == s[i..j] && Trimmed(Trim(s))
  {
    i, j := StripIsInfix(s, PythonSpace);
  }

  lemma TrimmedStays(s: string)
    requires Trimmed(s)
    ensures Trim(s) == s
  {
  }

  // ---- the output is normal ---------------------------------------------------

  lemma {:induction false} UnbrokenChars(s: string)
    ensures forall c <- Unbroken(s) :: c != '\r' && c != '\0'
  {
    var a := JoinCrLf(s);
    ReplaceChars(a, '\r', '\n');
    RemoveChars(Replace(a, '\r', '\n'), '\0');
  }

  lemma {:induction false} ReplaceChars(s: string, from: char, to: char)
    requires from != to
    ensures forall c <- Replace(s, from, to) :: c != from && (c in s || c == to)
  {
    if s != "" { ReplaceChars(s[1..], from, to); }
  }

  lemma {:induction false} RemoveChars(s: string, x: char)
    ensures forall c <- Remove(s, x) :: c != x && c in s
  {
    if s != "" { RemoveChars(s[1..], x); }
  }

  predicate NoDoubleSpace(s: string) {
    forall i :: 0 < i < |s| ==> !(s[i - 1] == ' ' && s[i] == ' ')
  }

  lemma {:induction false} CollapseIsSingle(s: string)
    requires forall c <- s :: c != '\r' && c != '\0'
    ensures var t := Collapse(s);
      NoDoubleSpace(t) && (forall c <- t :: Plain(c)) && (t != "" ==> s != "" && (t[0] == ' ' ==> Gap(s[0])))
  {
    if s != "" {
      assert s[0] in s && forall c <- s[1..] :: c in s;
      CollapseIsSingle(s[1..]);
    }
  }

  predicate Line(s: string) { (forall c <- s :: Plain(c) && c != '\n') && NoDoubleSpace(s) }

  lemma {:induction false} SplitGivesLines(s: string)
    requires NoDoubleSpace(s) && forall c <- s :: Plain(c)
    ensures forall l <- Split(s) :: Line(l)
    ensures s != "" && s[0] != '\n' ==> Split(s)[0] != "" && Split(s)[0][0] == s[0]
  {
    if s != "" {
      SplitGivesLines(s[1..]);
      var rest := Split(s[1..]);
      if s[0] != '\n' {
        assert rest[0] in rest;
        assert Line([s[0]] + rest[0]) by {
          if |s| > 1 && s[1] != '\n' { assert s[1..][0] == s[1]; }
          if |s| == 1 || s[1] == '\n' { assert rest[0] == ""; }
        }
      }
    }
  }

  lemma InfixIsLine(s: string, i: nat, j: nat)
    requires Line(s) && i <= j <= |s|
    ensures Line(s[i..j])
  {
    var t := s[i..j];
    forall k | 0 < k < |t| ensures !(t[k - 1] == ' ' && t[k] == ' ') { assert t[k] == s[i + k] && t[k - 1] == s[i + k - 1]; }
  }

  lemma {:induction false} TrimEachTrims(lines: seq<string>)
    requires forall l <- lines :: Line(l)
    ensures |TrimEach(lines)| == |lines| && forall l <- TrimEach(lines) :: Line(l) && Trimmed(l)
  {
    if lines != [] {
      hide Line, Trim, Trimmed;
      var i, j := TrimIsInfix(lines[0]);
      assert lines[0] in lines;
      InfixIsLine(lines[0], i, j);
      TrimEachTrims(lines[1..]);
    }
  }

  lemma LineIsTidy(l: string)
    requires Line(l)
    ensures Tidy(l)
  {
    forall i | 0 <= i < |l| ensures Plain(l[i]) && l[i] != '\n' { assert l[i] in l; }
  }

  lemma {:induction false} JoinIsTidy(lines: seq<string>)
    requires lines != [] && forall l <- lines :: Line(l) && Trimmed(l)
    ensures Tidy(Join(lines))
    ensures var s := Join(lines); s != "" ==> (PythonSpace(s[0]) ==> s[0] == '\n')
  {
    assert lines[0] in lines;
    LineIsTidy(lines[0]);
    if |lines| > 1 {
      JoinIsTidy(lines[1..]);
      var rest := Join(lines[1..]);
      AppendTidy(lines[0] + "\n", rest);
    }
  }

  lemma AppendTidy(a: string, b: string)
    requires Tidy(a) && Tidy(b) && (a != "" && b != "" ==> Neighbours(a[|a| - 1], b[0]))
    ensures Tidy(a + b)
  {
    var s := a + b;
    forall i | 0 < i < |s| ensures Neighbours(s[i - 1], s[i]) {
      if i > |a| { assert s[i - 1] == b[i - 1 - |a|] && s[i] == b[i - |a|]; }
    }
  }

  lemma {:induction false} SqueezeIsSpaced(s: string)
    requires Tidy(s)
    ensures var t := Squeeze(s);
      Tidy(t) && Spaced(t) && (s == "" <==> t == "") && (s != "" ==> t[0] == s[0])
    ensures |s| > 1 && !("\n\n\n" <= s) ==> |Squeeze(s)| > 1 && Squeeze(s)[1] == s[1]
  {
    if s != "" {
      SqueezeIsSpaced(s[1..]);
      var rest := Squeeze(s[1..]);
      if !("\n\n\n" <= s) {
        AppendTidy([s[0]], rest);
        if |s| > 1 && s[0] == '\n' && s[1] == '\n' && |rest| > 1 {
          assert |s| > 2 ==> s[2] != '\n';
        }
      }
    }
  }

  /** The output is normal for every input. */
  lemma NormaliseIsNormal(text: string)
    ensures Normal(Normalise(text))
  {
    hide Unbroken, Collapse, Split, TrimEach, Join, Squeeze, Trim, Tidy, Spaced;
    var a := Unbroken(text);
    UnbrokenChars(text);
    CollapseIsSingle(a);
    SplitGivesLines(Collapse(a));
    TrimEachTrims(Split(Collapse(a)));
    var lines := TrimEach(Split(Collapse(a)));
    JoinIsTidy(lines);
    SqueezeIsSpaced(Join(lines));
    var s := Squeeze(Join(lines));
    var i, j := TrimIsInfix(s);
    InfixIsTidy(s, i, j);
  }

  lemma InfixIsTidy(s: string, i: nat, j: nat)
    requires Tidy(s) && Spaced(s) && i <= j <= |s|
    ensures Tidy(s[i..j]) && Spaced(s[i..j])
  {
    var t := s[i..j];
    forall k | 0 < k < |t| ensures Neighbours(t[k - 1], t[k]) { assert t[k] == s[i + k] && t[k - 1] == s[i + k - 1]; }
    forall k | 2 <= k < |t| ensures !(t[k - 2] == '\n' && t[k - 1] == '\n' && t[k] == '\n') {
      assert t[k] == s[i + k] && t[k - 1] == s[i + k - 1] && t[k - 2] == s[i + k - 2];
    }
  }

  // ---- normal text stays, and nothing grows -----------------------------------

  lemma {:induction false} UnbrokenShrinks(s: string)
    ensures |Unbroken(s)| <= |s| && ((forall i :: 0 <= i < |s| ==> Plain(s[i])) ==> Unbroken(s) == s)
  {
    var a := JoinCrLf(s);
    var b := Replace(a, '\r', '\n');
    JoinCrLfShrinks(s);
    ReplaceShrinks(a, '\r', '\n');
    RemoveShrinks(b, '\0');
  }

  lemma {:induction false} JoinCrLfShrinks(s: string)
    ensures |JoinCrLf(s)| <= |s| && ('\r' !in s ==> JoinCrLf(s) == s)
  {
    if "\r\n" <= s {
      JoinCrLfShrinks(s[2..]);
      assert s[0] == '\r';
    } else if s != "" {
      JoinCrLfShrinks(s[1..]);
      assert [s[0]] + s[1..] == s;
    }
  }

  lemma {:induction false} ReplaceShrinks(s: string, from: char, to: char)
    ensures |Replace(s, from, to)| == |s| && (from !in s ==> Replace(s, from, to) == s)
  {
    if s != "" { ReplaceShrinks(s[1..], from, to); }
  }

  lemma {:induction false} RemoveShrinks(s: string, c: char)
    ensures |Remove(s, c)| <= |s| && (c !in s ==> Remove(s, c) == s)
  {
    if s != "" { RemoveShrinks(s[1..], c); }
  }

  lemma {:induction false} CollapseShrinks(s: string)
    ensures |Collapse(s)| <= |s| && (Tidy(s) ==> Collapse(s) == s)
  {
    if s != "" {
      if Tidy(s) {
        TailIsTidy(s);
        assert Plain(s[0]);
        if |s| > 1 { assert Neighbours(s[0], s[1]) && Plain(s[1]); }
      }
      CollapseShrinks(s[1..]);
    }
  }

  lemma TailIsTidy(s: string)
    requires Tidy(s) && s != ""
    ensures Tidy(s[1..])
  {
    var t := s[1..];
    forall k | 0 < k < |t| ensures Neighbours(t[k - 1], t[k]) { assert t[k] == s[k + 1] && t[k - 1] == s[k]; }
  }

  lemma {:induction false} SplitJoins(s: string)
    ensures Join(Split(s)) == s
  {
    if s != "" {
      SplitJoins(s[1..]);
      var rest := Split(s[1..]);
      if s[0] != '\n' {
        var lines := [[s[0]] + rest[0]] + rest[1..];
        assert lines[1..] == rest[1..];
      } else {
        assert ([""] + rest)[1..] == rest;
      }
    }
  }

  function Size(lines: seq<string>): nat {
    if lines == [] then 0 else |lines[0]| + 1 + Size(lines[1..])
  }

  lemma {:induction false} JoinSize(lines: seq<string>)
    requires lines != []
    ensures |Join(lines)| + 1 == Size(lines)
  {
    if |lines| > 1 { JoinSize(lines[1..]); } else { assert lines[1..] == []; }
  }

  lemma {:induction false} TrimEachShrinks(lines: seq<string>)
    ensures Size(TrimEach(lines)) <= Size(lines)
    ensures (forall l <- lines :: Trimmed(l)) ==> TrimEach(lines) == lines
  {
    if lines != [] {
      var i, j := TrimIsInfix(lines[0]);
      TrimEachShrinks(lines[1..]);
      if forall l <- lines :: Trimmed(l) {
        assert lines[0] in lines;
        TrimmedStays(lines[0]);
      }
    }
  }

  /** The lines of tidy text are trimmed, apart from the outer ends of the first and the last. */
  lemma {:induction false} TidyLinesAreTrimmed(s: string)
    requires Tidy(s)
    requires s != "" ==> s[|s| - 1] == '\n' || !PythonSpace(s[|s| - 1])
    ensures var lines := Split(s);
      && (forall l <- lines[1..] :: Trimmed(l))
      && (lines[0] != "" ==> !PythonSpace(lines[0][|lines[0]| - 1]) && lines[0][0] == s[0])
      && (s == "" || s[0] == '\n' ==> lines[0] == "")
  {
    if s != "" {
      TailIsTidy(s);
      assert |s| > 1 ==> Neighbours(s[0], s[1]) && s[1..][0] == s[1];
      TidyLinesAreTrimmed(s[1..]);
    }
  }

  lemma {:induction false} SqueezeShrinks(s: string)
    ensures |Squeeze(s)| <= |s| && (Spaced(s) ==> Squeeze(s) == s)
  {
    if s != "" {
      if Spaced(s) { assert |s| > 2 ==> !(s[0] == '\n' && s[1] == '\n' && s[2] == '\n'); }
      SqueezeShrinks(s[1..]);
    }
  }

  /** Normalising never lengthens, and leaves exactly the normal texts as they are. */
  lemma NormaliseShrinks(text: string)
    ensures |Normalise(text)| <= |text|
    ensures Normalise(text) == text <==> Normal(text)
  {
    hide Unbroken, Collapse, Split, TrimEach, Join, Squeeze, Trim, Tidy, Spaced, Trimmed;
    var a := Unbroken(text);
    var b := Collapse(a);
    var lines := TrimEach(Split(b));
    var i, j := TrimIsInfix(Squeeze(Join(lines)));
    UnbrokenShrinks(text);
    CollapseShrinks(a);
    SplitJoins(b);
    JoinSize(Split(b));
    TrimEachShrinks(Split(b));
    assert lines != [] by { TrimEachKeepsCount(Split(b)); }
    JoinSize(lines);
    SqueezeShrinks(Join(lines));
    NormaliseIsNormal(text);
    if Normal(text) { NormalStays(text); }
  }

  lemma {:induction false} TrimEachKeepsCount(lines: seq<string>)
    ensures |TrimEach(lines)| == |lines|
  {
    if lines != [] { TrimEachKeepsCount(lines[1..]); }
  }

  lemma NormalStays(text: string)
    requires Normal(text)
    ensures Normalise(text) == text
  {
    assert forall i :: 0 <= i < |text| ==> Plain(text[i]);
    UnbrokenShrinks(text);
    CollapseShrinks(text);
    NormalLinesAreTrimmed(text);
    TrimEachShrinks(Split(text));
    SplitJoins(text);
    SqueezeShrinks(text);
    hide Unbroken, Collapse, Split, TrimEach, Join, Squeeze, Trim, Tidy, Spaced;
    TrimmedStays(text);
  }

  lemma NormalLinesAreTrimmed(s: string)
    requires Normal(s)
    ensures forall l <- Split(s) :: Trimmed(l)
  {
    hide Tidy, Spaced, Split;
    TidyLinesAreTrimmed(s);
    var lines := Split(s);
    assert lines == [lines[0]] + lines[1..];
  }

  lemma NormaliseTwice(text: string)
    ensures Normalise(Normalise(text)) == Normalise(text)
  {
    hide Normalise;
    NormaliseIsNormal(text);
    NormaliseShrinks(Normalise(text));
  }

  // ---- no word is lost, split or joined, and no break between lines -----------

  /** Every line break as one character, told by looking back: `\n`, `\r` and `\r\n` alike. */
  function Unified(s: string, afterCr: bool): string {
    if s == "" then ""
    else
      (if s[0] == '\n' && afterCr then "" else [if s[0] == '\r' then '\n' else s[0]]) + Unified(s[1..], s[0] == '\r')
  }

  lemma {:induction false} UnifiedBySearch(s: string)
    ensures Replace(JoinCrLf(s), '\r', '\n') == Unified(s, false)
  {
    if "\r\n" <= s {
      UnifiedBySearch(s[2..]);
      assert s[1..][1..] == s[2..];
      assert ("\n" + JoinCrLf(s[2..]))[1..] == JoinCrLf(s[2..]);
      assert Unified(s[1..], true) == Unified(s[2..], false);
    } else if s != "" {
      UnifiedBySearch(s[1..]);
      assert ([s[0]] + JoinCrLf(s[1..]))[1..] == JoinCrLf(s[1..]);
      assert Unified(s[1..], s[0] == '\r') == Unified(s[1..], false) by {
        assert s[0] == '\r' && |s| > 1 ==> s[1] != '\n';
      }
    }
  }

  /** White space before a text that is read: within a line it is one space, with one line break a line break, with more a blank line. */
  function Push(c: char, rest: string): string {
    if !PythonSpace(c) then [c] + rest
    else if rest == "" || "\n\n" <= rest then rest
    else if c == '\n' then "\n" + if rest[0] == ' ' then rest[1..] else rest
    else if rest[0] == ' ' || rest[0] == '\n' then rest
    else " " + rest
  }

  function Read(s: string, rest: string): string {
    if s == "" then rest else Push(s[0], Read(s[1..], rest))
  }

  function AfterBlanks(s: string): string {
    if s != "" && (s[0] == ' ' || s[0] == '\n') then AfterBlanks(s[1..]) else s
  }

  /** The words of a text, and between two of them a space, a line break or a blank line. */
  function Layout(s: string): string { AfterBlanks(Read(s, "")) }

  lemma {:induction false} ReadAppend(a: string, b: string, rest: string)
    ensures Read(a + b, rest) == Read(a, Read(b, rest))
  {
    if a == "" { assert a + b == b; }
    else {
      assert (a + b)[1..] == a[1..] + b;
      ReadAppend(a[1..], b, rest);
    }
  }

  /** What is read begins with at most one space or at most two line breaks. */
  predicate Led(s: string) {
    && (s != "" && s[0] == ' ' ==> |s| > 1 && !PythonSpace(s[1]))
    && (s != "" && PythonSpace(s[0]) ==> s[0] == ' ' || s[0] == '\n')
    && ("\n" <= s ==> |s| > 1 && (PythonSpace(s[1]) ==> s[1] == '\n'))
    && ("\n\n" <= s ==> |s| > 2 && !PythonSpace(s[2]))
  }

  lemma {:induction false} ReadIsLed(s: string, rest: string)
    requires Led(rest)
    ensures Led(Read(s, rest))
  {
    if s != "" {
      ReadIsLed(s[1..], rest);
      PushIsLed(s[0], Read(s[1..], rest));
    }
  }

  lemma PushIsLed(c: char, rest: string)
    requires Led(rest)
    ensures Led(Push(c, rest))
  {
  }

  /** A blank beside another blank or a line break does not show, nor does a third line break. */
  lemma PushTwice(c: char, d: char, rest: string)
    requires Led(rest) && PythonSpace(c) && PythonSpace(d)
    ensures c != '\n' ==> Push(c, Push(d, rest)) == Push(d, rest)
    ensures d != '\n' ==> Push(c, Push(d, rest)) == Push(c, rest)
    ensures Push('\n', Push('\n', Push('\n', rest))) == Push('\n', Push('\n', rest))
  {
  }

  lemma {:induction false} CollapseReads(s: string)
    ensures Read(Collapse(s), "") == Read(s, "")
  {
    if s != "" {
      CollapseReads(s[1..]);
      if Gap(s[0]) && |s| > 1 && Gap(s[1]) {
        ReadIsLed(s[1..][1..], "");
        PushTwice(s[0], s[1], Read(s[1..][1..], ""));
      }
    }
  }

  lemma {:induction false} SqueezeReads(s: string)
    ensures Read(Squeeze(s), "") == Read(s, "")
  {
    if s != "" {
      SqueezeReads(s[1..]);
      if "\n\n\n" <= s {
        var t := s[1..][1..];
        assert s[1..][0] == '\n' && t[0] == '\n';
        ReadIsLed(t[1..], "");
        PushTwice('\n', '\n', Read(t[1..], ""));
      }
    }
  }

  /** After a line break, and before one or at the end, trimming a line does not show. */
  lemma {:induction false} StripLeftReads(s: string, rest: string)
    requires Led(rest) && '\n' !in s
    ensures Push('\n', Read(StripLeft(s, PythonSpace), rest)) == Push('\n', Read(s, rest))
  {
    if s != "" && PythonSpace(s[0]) {
      StripLeftReads(s[1..], rest);
      ReadIsLed(s[1..], rest);
      PushTwice('\n', s[0], Read(s[1..], rest));
    }
  }

  lemma {:induction false} StripRightReads(s: string, rest: string)
    requires Led(rest) && (rest == "" || (rest[0] == '\n' && '\n' !in s))
    ensures Read(StripRight(s, PythonSpace), rest) == Read(s, rest)
  {
    if s != "" && PythonSpace(s[|s| - 1]) {
      var n := |s| - 1;
      StripRightReads(s[..n], rest);
      assert s == s[..n] + [s[n]];
      ReadAppend(s[..n], [s[n]], rest);
    }
  }

  lemma {:induction false} StripLeftHas(s: string, c: char)
    requires c !in s
    ensures c !in StripLeft(s, PythonSpace)
  {
    if s != "" && PythonSpace(s[0]) { StripLeftHas(s[1..], c); }
  }

  lemma TrimReads(s: string, rest: string)
    requires Led(rest) && '\n' !in s && (rest == "" || rest[0] == '\n')
    ensures Push('\n', Read(Trim(s), rest)) == Push('\n', Read(s, rest))
  {
    StripLeftHas(s, '\n');
    StripRightReads(StripLeft(s, PythonSpace), rest);
    StripLeftReads(s, rest);
  }

  lemma {:induction false} SplitHasNoBreaks(s: string)
    ensures forall l <- Split(s) :: '\n' !in l
  {
    if s != "" { SplitHasNoBreaks(s[1..]); }
  }

  lemma {:induction false} JoinReads(lines: seq<string>)
    requires lines != [] && forall l <- lines :: '\n' !in l
    ensures Push('\n', Read(Join(TrimEach(lines)), "")) == Push('\n', Read(Join(lines), ""))
  {
    hide Push, Read, Led, Trim, StripLeft, StripRight;
    TrimEachKeepsCount(lines);
    assert Led("") by { NothingIsLed(); }
    assert lines[0] in lines;
    if |lines| == 1 {
      assert TrimEach(lines) == [Trim(lines[0])];
      TrimReads(lines[0], "");
    } else {
      var l, more := lines[0], lines[1..];
      JoinReads(more);
      assert TrimEach(lines)[1..] == TrimEach(more);
      JoinedReads(Trim(l), Join(TrimEach(more)));
      JoinedReads(l, Join(more));
      ReadIsLed("\n" + Join(more), "");
      BrokenOff(Join(more));
      TrimReads(l, Push('\n', Read(Join(more), "")));
    }
  }

  lemma NothingIsLed()
    ensures Led("")
  {
  }

  lemma BrokenOff(s: string)
    ensures var rest := Push('\n', Read(s, "")); Led(rest) && (rest == "" || rest[0] == '\n')
  {
    ReadIsLed(s, "");
    PushIsLed('\n', Read(s, ""));
  }

  lemma JoinedReads(a: string, b: string)
    ensures Read(a + "\n" + b, "") == Read(a, Push('\n', Read(b, "")))
  {
    assert a + "\n" + b == a + ("\n" + b);
    ReadAppend(a, "\n" + b, "");
    assert ("\n" + b)[1..] == b;
  }

  lemma LayoutAfter(s: string, c: char)
    requires PythonSpace(c)
    ensures AfterBlanks(Push(c, Read(s, ""))) == Layout(s)
  {
    var x := Read(s, "");
    assert (" " + x)[1..] == x && ("\n" + x)[1..] == x;
    if x != "" && x[0] == ' ' { assert ("\n" + x[1..])[1..] == x[1..]; }
  }

  lemma {:induction false} TrimKeepsLayout(s: string)
    ensures Layout(Trim(s)) == Layout(s)
  {
    StripRightReads(StripLeft(s, PythonSpace), "");
    StripLeftKeepsLayout(s);
  }

  lemma {:induction false} StripLeftKeepsLayout(s: string)
    ensures Layout(StripLeft(s, PythonSpace)) == Layout(s)
  {
    if s != "" && PythonSpace(s[0]) {
      StripLeftKeepsLayout(s[1..]);
      LayoutAfter(s[1..], s[0]);
    }
  }

  /**
    Normalised text has the words of the text without its NUL characters, in order: none
    lost, split or joined; and they are on one line, on neighbouring lines or parted by a
    blank line exactly as they were.
  */
  lemma NormaliseKeepsLayout(text: string)
    ensures Layout(Normalise(text)) == Layout(Remove(Unified(text, false), '\0'))
  {
    hide Read, Push, Collapse, Split, TrimEach, Join, Squeeze, Trim, Layout;
    UnifiedBySearch(text);
    var a := Unbroken(text);
    var b := Collapse(a);
    var c := Join(TrimEach(Split(b)));
    CollapseReads(a);
    SplitHasNoBreaks(b);
    JoinReads(Split(b));
    SplitJoins(b);
    LayoutAfter(c, '\n');
    LayoutAfter(b, '\n');
    SqueezeReads(c);
    SameReading(Squeeze(c), c);
    SameReading(b, a);
    TrimKeepsLayout(Squeeze(c));
  }

  lemma SameReading(s: string, t: string)
    requires Read(s, "") == Read(t, "")
    ensures Layout(s) == Layout(t)
  {
  }
}
