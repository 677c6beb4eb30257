/** URL slugs from titles. The compatibility decomposition of Unicode is a parameter. */
module Slug {
  import opened Arith
  import opened Strings

  datatype Env = Env(nfkd: string -> string)

  predicate Letter(c: char) { 'a' <= c <= 'z' || '0' <= c <= '9' }

  predicate IsDash(c: char) { c == '-' }

  /** The ASCII characters, lower-cased. */
  function Fold(s: string): string {
    if s == "" then "" else (if s[0] < '\U{80}' then [LowerChar(s[0])] else "") + Fold(s[1..])
  }

  /** A run of characters that are not letters or digits becomes one dash: all but the last are dropped. */
  function Dashed(s: string): string {
    if s == "" then ""
    else if Letter(s[0]) then [s[0]] + Dashed(s[1..])
    else if |s| > 1 && !Letter(s[1]) then Dashed(s[1..])
    else "-" + Dashed(s[1..])
  }

  /** The language's `s[:n]`: a negative n counts from the end. */
  function Clip(s: string, n: int): string {
    if n >= |s| then s else if n >= 0 then s[..n] else if |s| + n > 0 then s[..|s| + n] else ""
  }

  function Bare(s: string): string { Strip(s, IsDash) }

  /** What is left of the title, possibly nothing. */
  function Deterministic(env: Env, title: string, maxLength: int): string {
    Bare(Clip(Bare(Dashed(Fold(env.nfkd(title)))), maxLength))
  }

  /** `hex` is the random suffix of the fallback. */
  function Slugify(env: Env, title: string, maxLength: int, hex: string): string {
    var slug := Deterministic(env, title, maxLength);
    if slug != "" then slug else "book-" + hex
  }

  // ---- the catalogue's pattern ------------------------------------------------

  predicate Word(s: string) { s != "" && forall i :: 0 <= i < |s| ==> Letter(s[i]) }

  /** Words with single dashes between them. */
  ghost predicate SlugPattern(s: string)
    decreases |s|
  {
    Word(s) || exists i :: 0 < i < |s| && s[i] == '-' && Word(s[..i]) && SlugPattern(s[i + 1..])
  }

  /** Letters and dashes, no two dashes together. */
  predicate Single(s: string) {
    && (forall i :: 0 <= i < |s| ==> Letter(s[i]) || s[i] == '-')
    && (forall i :: 0 < i < |s| ==> s[i - 1] != '-' || s[i] != '-')
  }

  predicate NoOuterDash(s: string) { s != "" ==> s[0] != '-' && s[|s| - 1] != '-' }

  lemma {:induction false} LocalIsPattern(s: string)
    requires s != "" && Single(s) && NoOuterDash(s)
    ensures SlugPattern(s)
    decreases |s|
  {
    if i :| 0 <= i < |s| && s[i] == '-' {
      var k := FirstDash(s, i);
      var t := s[k + 1..];
      assert t != "" && t[0] == s[k + 1];
      TailIsSingle(s, k + 1);
      LocalIsPattern(t);
    }
  }

  lemma TailIsSingle(s: string, k: nat)
    requires Single(s) && k <= |s|
    ensures Single(s[k..])
  {
    var t := s[k..];
    forall j | 0 < j < |t| ensures t[j - 1] != '-' || t[j] != '-' {
      assert t[j] == s[k + j] && t[j - 1] == s[k + j - 1];
    }
  }

  lemma WordDashRest(word: string, rest: string)
    requires Word(word) && rest != "" && Single(rest) && NoOuterDash(rest)
    ensures var s := word + "-" + rest; Single(s) && NoOuterDash(s)
  {
    var s := word + "-" + rest;
    forall k | 0 < k < |s| ensures s[k - 1] != '-' || s[k] != '-' {
      if k > |word| + 1 { assert s[k] == rest[k - |word| - 1] && s[k - 1] == rest[k - |word| - 2]; }
      assert s[|word| + 1] == rest[0];
    }
  }

  lemma WordIsLocal(s: string)
    requires Word(s)
    ensures s != "" && Single(s) && NoOuterDash(s)
  {
    assert forall i :: 0 <= i < |s| ==> Letter(s[i]) && s[i] != '-';
  }

  lemma PatternUnfolds(s: string) returns (i: nat)
    requires SlugPattern(s) && !Word(s)
    ensures 0 < i < |s| && s[i] == '-' && Word(s[..i]) && SlugPattern(s[i + 1..])
  {
    hide Word;
    i :| 0 < i < |s| && s[i] == '-' && Word(s[..i]) && SlugPattern(s[i + 1..]);
  }

  /** And only such texts match. */
  lemma {:induction false} PatternIsLocal(s: string)
    requires SlugPattern(s)
    ensures s != "" && Single(s) && NoOuterDash(s)
    decreases |s|
  {
    hide Word, Single, NoOuterDash, SlugPattern;
    if Word(s) {
      WordIsLocal(s);
    } else {
      var i := PatternUnfolds(s);
      PatternIsLocal(s[i + 1..]);
      WordDashRest(s[..i], s[i + 1..]);
      assert s == s[..i] + "-" + s[i + 1..];
    }
  }

  lemma {:induction false} FirstDash(s: string, i: nat) returns (k: nat)
    requires i < |s| && s[i] == '-' && Single(s)
    ensures k <= i && s[k] == '-' && forall j :: 0 <= j < k ==> Letter(s[j])
    decreases i
  {
    if j: nat :| j < i && s[j] == '-' {
      k := FirstDash(s, j);
    } else {
      k := i;
    }
  }

  // ---- what the rewrites give -------------------------------------------------

  lemma {:induction false} DashedIsSingle(s: string)
    ensures var t := Dashed(s);
      Single(t) && (t != "" ==> s != "" && (t[0] == '-' ==> !Letter(s[0])))
  {
    if s != "" { DashedIsSingle(s[1..]); }
  }

  lemma BareIsSingle(s: string)
    requires Single(s)
    ensures Single(Bare(s)) && NoOuterDash(Bare(s)) && |Bare(s)| <= |s| && (NoOuterDash(s) ==> Bare(s) == s)
  {
    var i, j := StripIsInfix(s, IsDash);
    var t := s[i..j];
    forall k | 0 < k < |t| ensures t[k - 1] != '-' || t[k] != '-' {
      assert t[k] == s[i + k] && t[k - 1] == s[i + k - 1];
    }
  }

  lemma ClipIsSingle(s: string, n: int)
    requires Single(s)
    ensures Single(Clip(s, n)) && (0 <= n ==> |Clip(s, n)| <= n)
  {
  }

  lemma {:induction false} SingleStays(s: string)
    requires Single(s)
    ensures Dashed(s) == s && Fold(s) == s
  {
    if s != "" {
      TailIsSingle(s, 1);
      SingleStays(s[1..]);
    }
  }

  predicate Hex(hex: string) { |hex| == 10 && forall i :: 0 <= i < 10 ==> Letter(hex[i]) }

  /** ASCII text is its own decomposition. */
  ghost predicate KeepsAscii(env: Env) {
    forall s: string :: (forall c <- s :: c < '\U{80}') ==> env.nfkd(s) == s
  }

  lemma DeterministicIsSingle(env: Env, title: string, maxLength: int)
    ensures var slug := Deterministic(env, title, maxLength);
      Single(slug) && NoOuterDash(slug) && (0 <= maxLength ==> |slug| <= maxLength)
  {
    hide Dashed, Fold, Bare, Clip, Single, NoOuterDash;
    var a := Dashed(Fold(env.nfkd(title)));
    DashedIsSingle(Fold(env.nfkd(title)));
    BareIsSingle(a);
    ClipIsSingle(Bare(a), maxLength);
    BareIsSingle(Clip(Bare(a), maxLength));
  }

  /** Every title gets a slug of the catalogue's pattern, wherever the cut falls. */
  lemma SlugifyMatchesPattern(env: Env, title: string, maxLength: int, hex: string)
    requires Hex(hex)
    ensures SlugPattern(Slugify(env, title, maxLength, hex))
    ensures 0 <= maxLength && Deterministic(env, title, maxLength) != "" ==> |Slugify(env, title, maxLength, hex)| <= maxLength
  {
    hide Deterministic;
    DeterministicIsSingle(env, title, maxLength);
    var slug := Slugify(env, title, maxLength, hex);
    if Deterministic(env, title, maxLength) == "" {
      var n := "book-";
      forall i | 0 <= i < |slug| ensures Letter(slug[i]) || slug[i] == '-' {
        assert i >= 5 ==> slug[i] == hex[i - 5];
      }
      forall i | 0 < i < |slug| ensures slug[i - 1] != '-' || slug[i] != '-' {
        assert i >= 5 ==> slug[i] == hex[i - 5];
      }
      assert slug[|slug| - 1] == hex[9];
    }
    LocalIsPattern(slug);
  }

  ghost predicate FitsAlways(env: Env, maxLength: int) {
    forall title, hex :: Hex(hex) ==> |Slugify(env, title, maxLength, hex)| <= maxLength
  }

  /** The limit holds for every title exactly when it has room for the fallback. */
  lemma FitsExactlyWithFallback(env: Env, maxLength: int)
    requires KeepsAscii(env)
    ensures FitsAlways(env, maxLength) <==> 15 <= maxLength
  {
    hide Deterministic;
    if 15 <= maxLength {
      forall title, hex | Hex(hex) ensures |Slugify(env, title, maxLength, hex)| <= maxLength {
        DeterministicIsSingle(env, title, maxLength);
      }
    } else {
      assert Hex("0000000000");
      NothingLeft(env, maxLength);
      assert |Slugify(env, "", maxLength, "0000000000")| == 15;
    }
  }

  lemma NothingLeft(env: Env, maxLength: int)
    requires KeepsAscii(env)
    ensures Deterministic(env, "", maxLength) == ""
  {
    assert env.nfkd("") == "";
  }

  /** A slug made from a title is its own slug. */
  lemma SlugifyTwice(env: Env, title: string, maxLength: int, hex: string, hex': string)
    requires KeepsAscii(env) && 0 <= maxLength && Deterministic(env, title, maxLength) != ""
    ensures Slugify(env, Slugify(env, title, maxLength, hex), maxLength, hex') == Slugify(env, title, maxLength, hex)
  {
    var slug := Deterministic(env, title, maxLength);
    DeterministicIsSingle(env, title, maxLength);
    assert env.nfkd(slug) == slug by {
      forall c <- slug ensures c < '\U{80}' {}
    }
    SingleStays(slug);
    BareIsSingle(slug);
  }

  // ---- no letter is lost before the cut ---------------------------------------

  function Letters(s: string): string {
    if s == "" then "" else (if Letter(s[0]) then [s[0]] else "") + Letters(s[1..])
  }

  lemma {:induction false} DashedKeepsLetters(s: string)
    ensures Letters(Dashed(s)) == Letters(s)
  {
    if s != "" {
      DashedKeepsLetters(s[1..]);
      assert ("-" + Dashed(s[1..]))[1..] == Dashed(s[1..]);
    }
  }

  lemma {:induction false} StripLeftKeepsLetters(s: string)
    ensures Letters(StripLeft(s, IsDash)) == Letters(s)
  {
    if s != "" && s[0] == '-' { StripLeftKeepsLetters(s[1..]); }
  }

  lemma LettersUnfold(s: string)
    requires s != ""
    ensures Letters(s) == (if Letter(s[0]) then [s[0]] else "") + Letters(s[1..])
  {
  }

  lemma {:induction false} LettersAppend(a: string, c: char)
    ensures Letters(a + [c]) == Letters(a) + if Letter(c) then [c] else ""
  {
    if a == "" {
      assert a + [c] == [c] && [c][1..] == "";
    } else {
      hide Letters;
      LettersAppend(a[1..], c);
      LettersUnfold(a);
      LettersUnfold(a + [c]);
      assert (a + [c])[1..] == a[1..] + [c];
    }
  }

  lemma {:induction false} StripRightKeepsLetters(s: string)
    ensures Letters(StripRight(s, IsDash)) == Letters(s)
  {
    if s != "" && s[|s| - 1] == '-' {
      var n := |s| - 1;
      StripRightKeepsLetters(s[..n]);
      LettersAppend(s[..n], '-');
      assert s == s[..n] + "-";
    }
  }

  /** A slug that is not cut holds every ASCII letter and digit of the title, in order. */
  lemma UncutSlugKeepsLetters(env: Env, title: string, maxLength: int)
    requires |Bare(Dashed(Fold(env.nfkd(title))))| <= maxLength
    ensures Letters(Deterministic(env, title, maxLength)) == Letters(Fold(env.nfkd(title)))
  {
    var a := Dashed(Fold(env.nfkd(title)));
    DashedKeepsLetters(Fold(env.nfkd(title)));
    StripLeftKeepsLetters(a);
    StripRightKeepsLetters(StripLeft(a, IsDash));
    StripLeftKeepsLetters(Bare(a));
    StripRightKeepsLetters(StripLeft(Bare(a), IsDash));
  }

  // ---- the characters ---------------------------------------------------------

  const SMALL := "abcdefghijklmnopqrstuvwxyz"
  const LARGE := "ABCDEFGHIJKLMNOPQRSTUVWXYZ"
  const DIGITS := "0123456789"

  /** The letters of a slug are the small ones and the digits: every one of them is listed, and their neighbours are none. */
  lemma LettersExactly(c: char)
    ensures Letter(c) ==> c in SMALL || c in DIGITS
    ensures Letter('a') && Letter('z') && Letter('0') && Letter('9')
    ensures !Letter('/') && !Letter(':') && !Letter('`') && !Letter('{')
  {
    if 'a' <= c <= 'z' { assert SMALL[(c - 'a') as int] == c; }
    if '0' <= c <= '9' { assert DIGITS[(c - '0') as int] == c; }
  }

  /** A large letter becomes its small one, any other ASCII character stays, and what is not ASCII is dropped. */
  lemma FoldedExactly(c: char, s: string)
    ensures Fold([c] + s) == (if c >= '\U{80}' then "" else [LowerChar(c)]) + Fold(s)
    ensures forall i :: 0 <= i < 26 ==> LowerChar(LARGE[i]) == SMALL[i]
    ensures c !in LARGE ==> LowerChar(c) == c
  {
    assert ([c] + s)[1..] == s;
    if 'A' <= c <= 'Z' { assert LARGE[(c - 'A') as int] == c; }
  }

  /** A cut keeps a beginning: of n characters, or of all but -n. */
  lemma ClippedExactly(s: string, n: int)
    ensures Clip(s, n) <= s
    ensures |Clip(s, n)| == if n >= 0 then Min(n, |s|) else Max(0, |s| + n)
  {
  }
}
