/**
  The signed state of an OAuth sign-in. JSON and the message authentication code are
  parameters; times are in seconds.
*/
module OAuthState {
  import opened Options
  import opened Base64Url

  datatype Payload = Payload(provider: string, verifier: string, next: string, issued: int, nonce: string)

  datatype Env = Env(dumps: Payload -> seq<byte>, loads: seq<byte> -> Option<Payload>, mac: string -> string, ttl: int)

  datatype Outcome = Accepted(verifier: string, next: Option<string>) | NotVerified | Expired

  /** JSON reads back what it wrote, and a signature is dotless. */
  ghost predicate Sound(env: Env) {
    && (forall p :: env.loads(env.dumps(p)) == Some(p))
    && (forall s :: '.' !in env.mac(s))
  }

  function SignState(env: Env, provider: string, verifier: string, next: Option<string>, now: real, nonce: string): string {
    var p := Payload(provider, verifier, if next.Some? then next.value else "", now.Floor, nonce);
    var body := Encode(env.dumps(p));
    Unpadded(body) + "." + env.mac(body)
  }

  /** Splits at the last dot; None without one. */
  function SplitLast(s: string): Option<(string, string)> {
    if s == "" then None
    else if s[|s| - 1] == '.' then Some((s[..|s| - 1], ""))
    else
      var rest := SplitLast(s[..|s| - 1]);
      if rest.None? then None else Some((rest.value.0, rest.value.1 + [s[|s| - 1]]))
  }

  function ReadState(env: Env, state: string, provider: string, now: real): Outcome {
    var parts := SplitLast(state);
    if parts.None? then NotVerified
    else
      var body := Padded(parts.value.0);
      if env.mac(body) != parts.value.1 then NotVerified
      else
        var bytes := Decode(body);
        if bytes.None? then NotVerified
        else
          var payload := env.loads(bytes.value);
          if payload.None? then NotVerified
          else
            var p := payload.value;
            if p.provider != provider then NotVerified
            else if now - p.issued as real > env.ttl as real then Expired
            else Accepted(p.verifier, if p.next == "" then None else Some(p.next))
  }

  lemma {:induction false} SplitsAtLastDot(a: string, b: string)
    requires '.' !in b
    ensures SplitLast(a + "." + b) == Some((a, b))
    decreases |b|
  {
    var s := a + "." + b;
    if b == "" {
      assert s[..|s| - 1] == a;
    } else {
      var n := |b| - 1;
      assert s[..|s| - 1] == a + "." + b[..n];
      assert '.' !in b[..n];
      SplitsAtLastDot(a, b[..n]);
      assert b == b[..n] + [b[n]];
    }
  }

  /**
    Reading a signed state gives back its verifier and next address, exactly for the
    provider it was signed for and until it expires; an empty address reads as none.
  */
  lemma ReadInvertsSign(env: Env, provider: string, verifier: string, next: Option<string>, signed: real, nonce: string,
    asked: string, now: real)
    requires Sound(env)
    ensures ReadState(env, SignState(env, provider, verifier, next, signed, nonce), asked, now) ==
      if asked != provider then NotVerified
      else if now - signed.Floor as real > env.ttl as real then Expired
      else Accepted(verifier, if next == Some("") then None else next)
  {
    var p := Payload(provider, verifier, if next.Some? then next.value else "", signed.Floor, nonce);
    var bytes := env.dumps(p);
    PaddingIsRestored(bytes);
    DecodeEncode(bytes);
    SplitsAtLastDot(Unpadded(Encode(bytes)), env.mac(Encode(bytes)));
  }

  lemma {:induction false} SplitJoins(s: string)
    ensures SplitLast(s).Some? ==> s == SplitLast(s).value.0 + "." + SplitLast(s).value.1 && '.' !in SplitLast(s).value.1
  {
    if s != "" && s[|s| - 1] != '.' { SplitJoins(s[..|s| - 1]); }
  }

  /** Only a body followed by its own signature is accepted, and only while a payload in it names the provider. */
  lemma AcceptedWasSigned(env: Env, state: string, provider: string, now: real) returns (stem: string, p: Payload)
    requires ReadState(env, state, provider, now).Accepted?
    ensures state == stem + "." + env.mac(Padded(stem))
    ensures Decode(Padded(stem)).Some? && env.loads(Decode(Padded(stem)).value) == Some(p)
    ensures p.provider == provider && now <= (p.issued + env.ttl) as real
  {
    SplitJoins(state);
    stem := SplitLast(state).value.0;
    p := env.loads(Decode(Padded(stem)).value).value;
  }
}
