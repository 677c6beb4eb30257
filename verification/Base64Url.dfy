/** The URL-safe base64 alphabet and padding of RFC 4648, section 5. */
module Base64Url {
  import opened Options

  newtype byte = i: int | 0 <= i < 256

  type Sextet = i: int | 0 <= i < 64

  function Symbol(i: Sextet): char {
    if i < 26 then 'A' + i as char
    else if i < 52 then 'a' + (i - 26) as char
    else if i < 62 then '0' + (i - 52) as char
    else if i == 62 then '-' else '_'
  }

  function Value(c: char): Option<Sextet> {
    if 'A' <= c <= 'Z' then Some((c - 'A') as int)
    else if 'a' <= c <= 'z' then Some((c - 'a') as int + 26)
    else if '0' <= c <= '9' then Some((c - '0') as int + 52)
    else if c == '-' then Some(62) else if c == '_' then Some(63) else None
  }

  // Three octets x, y, z as four sextets a, b, c, d, and back.

  function A(x: byte): Sextet { x as int / 4 }
  function B(x: byte, y: byte): Sextet { x as int % 4 * 16 + y as int / 16 }
  function C(y: byte, z: byte): Sextet { y as int % 16 * 4 + z as int / 64 }
  function D(z: byte): Sextet { z as int % 64 }

  function X(a: Sextet, b: Sextet): byte { (a * 4 + b / 16) as byte }
  function Y(b: Sextet, c: Sextet): byte { (b % 16 * 16 + c / 4) as byte }
  function Z(c: Sextet, d: Sextet): byte { (c % 4 * 64 + d) as byte }

  function Encode(b: seq<byte>): string {
    if b == [] then ""
    else if |b| == 1 then [Symbol(A(b[0])), Symbol(B(b[0], 0)), '=', '=']
    else if |b| == 2 then [Symbol(A(b[0])), Symbol(B(b[0], b[1])), Symbol(C(b[1], 0)), '=']
    else [Symbol(A(b[0])), Symbol(B(b[0], b[1])), Symbol(C(b[1], b[2])), Symbol(D(b[2]))] + Encode(b[3..])
  }

  /** None when a character is foreign or the padding is wrong. */
  function Decode(s: string): Option<seq<byte>> {
    if s == "" then Some([])
    else if |s| < 4 then None
    else
      var a, b, c, d := Value(s[0]), Value(s[1]), Value(s[2]), Value(s[3]);
      if a.None? || b.None? then None
      else if |s| == 4 && s[2] == '=' && s[3] == '=' then Some([X(a.value, b.value)])
      else if c.None? then None
      else if |s| == 4 && s[3] == '=' then Some([X(a.value, b.value), Y(b.value, c.value)])
      else
        var rest := Decode(s[4..]);
        if d.None? || rest.None? then None
        else Some([X(a.value, b.value), Y(b.value, c.value), Z(c.value, d.value)] + rest.value)
  }

  /** `s.rstrip("=")`. */
  function Unpadded(s: string): string {
    if s != "" && s[|s| - 1] == '=' then Unpadded(s[..|s| - 1]) else s
  }

  /** `s + "=" * (-len(s) % 4)`. */
  function Padded(s: string): string {
    s + seq((4 - |s| % 4) % 4, i => '=')
  }

  lemma SymbolHasValue(i: Sextet)
    ensures Value(Symbol(i)) == Some(i) && Symbol(i) != '=' && Symbol(i) != '.'
  {
  }

  /** Three octets survive being cut into four sextets. */
  lemma CutAndJoined(x: byte, y: byte, z: byte)
    ensures X(A(x), B(x, y)) == x && Y(B(x, y), C(y, z)) == y && Z(C(y, z), D(z)) == z
  {
  }

  lemma {:induction false} DecodeEncode(b: seq<byte>)
    ensures Decode(Encode(b)) == Some(b)
  {
    hide Symbol, Value, A, B, C, D, X, Y, Z;
    if b != [] {
      var x, y, z := b[0], if |b| > 1 then b[1] else 0, if |b| > 2 then b[2] else 0;
      CutAndJoined(x, y, z);
      SymbolHasValue(A(x));
      SymbolHasValue(B(x, y));
      SymbolHasValue(C(y, z));
      SymbolHasValue(D(z));
      if |b| == 1 {
        assert b == [x];
      } else if |b| == 2 {
        assert b == [x, y];
      } else {
        DecodeEncode(b[3..]);
        assert Encode(b)[4..] == Encode(b[3..]);
        assert b == [x, y, z] + b[3..];
      }
    }
  }

  /** A multiple of four characters, ending in at most two pads after symbols of the alphabet. */
  ghost predicate WellPadded(s: string, n: nat) {
    && |s| % 4 == 0 && n <= 2 && n <= |s|
    && (forall i :: 0 <= i < |s| - n ==> s[i] != '=' && s[i] != '.')
    && (forall i :: |s| - n <= i < |s| ==> s[i] == '=')
  }

  lemma {:induction false} EncodeIsWellPadded(b: seq<byte>) returns (n: nat)
    ensures WellPadded(Encode(b), n)
    decreases |b|
  {
    hide Symbol, A, B, C, D;
    forall i: Sextet ensures Symbol(i) != '=' && Symbol(i) != '.' { SymbolHasValue(i); }
    if |b| >= 3 {
      n := EncodeIsWellPadded(b[3..]);
      var s, t := Encode(b), Encode(b[3..]);
      assert |s| == |t| + 4 && forall i :: 4 <= i < |s| ==> s[i] == t[i - 4];
    } else {
      n := if b == [] then 0 else 3 - |b|;
    }
  }

  lemma {:induction false} UnpaddedDrops(s: string, n: nat)
    requires WellPadded(s, n)
    ensures Unpadded(s) == s[..|s| - n]
  {
    if n == 1 {
      assert Unpadded(s[..|s| - 1]) == s[..|s| - 1];
    } else if n == 2 {
      var t := s[..|s| - 1];
      assert t[..|t| - 1] == s[..|s| - 2];
      assert Unpadded(s[..|s| - 2]) == s[..|s| - 2];
    }
  }

  /** Dropped padding is restored from the length alone, and no dot is among what is left. */
  lemma PaddingIsRestored(b: seq<byte>)
    ensures Padded(Unpadded(Encode(b))) == Encode(b) && '.' !in Unpadded(Encode(b))
  {
    hide Encode, Unpadded;
    var n := EncodeIsWellPadded(b);
    var s := Encode(b);
    UnpaddedDrops(s, n);
    RestoresPads(s, n);
  }

  lemma RestoresPads(s: string, n: nat)
    requires WellPadded(s, n)
    ensures Padded(s[..|s| - n]) == s && '.' !in s[..|s| - n]
  {
    var t := s[..|s| - n];
    assert (4 - |t| % 4) % 4 == n;
    assert |Padded(t)| == |s|;
    forall i | 0 <= i < |s| ensures Padded(t)[i] == s[i] {}
  }
}
