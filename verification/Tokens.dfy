/** Registration-token minting. */
module Tokens {
  import opened Wrappers
  import opened Words

  /** A Go string is measured in bytes; a character here stands for one of them. */
  datatype TokenRequest = TokenRequest(
    nodeName: Option<string>, nodeMetadata: Option<string>, codehalf: Option<string>, ttlProfile: Option<string>)

  datatype ValidationError = NameTooLong | MetadataTooLong | CodehalfLength | UnknownProfile

  datatype TtlProfile = TtlProfile(tokenBytes: nat, ttlMillis: nat)

  datatype MintedToken = MintedToken(token: string, tokenHash: string, expiresAt: int)

  const PROFILES: map<string, TtlProfile> := map[
    "interactive" := TtlProfile(4, 5 * 60 * 1000),
    "asynchronous" := TtlProfile(8, 24 * 60 * 60 * 1000)
  ]

  const DEFAULT_PROFILE: string := "interactive"

  function HexDigit(d: nat): char
    requires d < 16
  {
    if d < 10 then '0' + d as char else 'a' + (d - 10) as char
  }

  function Hex(bytes: seq<Byte>): (s: string)
    ensures |s| == 2 * |bytes|
  {
    if bytes == [] then ""
    else [HexDigit(bytes[0] / 16), HexDigit(bytes[0] % 16)] + Hex(bytes[1..])
  }

  function CodehalfOf(req: TokenRequest): string {
    match req.codehalf case None => "" case Some(c) => c
  }

  /** `random` holds the bytes the generator yields, at least as many as any profile asks for. */
  function MintRegistrationToken(hash: string -> string, req: TokenRequest, random: seq<Byte>, now: int)
    : Result<MintedToken, ValidationError>
    requires |random| >= 8
  {
    if req.nodeName.Some? && |req.nodeName.value| > 256 then Err(NameTooLong)
    else if req.nodeMetadata.Some? && |req.nodeMetadata.value| > 256 then Err(MetadataTooLong)
    else if req.codehalf.Some? && (|req.codehalf.value| < 16 || |req.codehalf.value| > 256) then Err(CodehalfLength)
    else
      var name := match req.ttlProfile case None => DEFAULT_PROFILE case Some(p) => p;
      if name !in PROFILES then Err(UnknownProfile)
      else
        var profile := PROFILES[name];
        assert profile.tokenBytes <= 8;
        var token := Hex(random[..profile.tokenBytes]);
        Ok(MintedToken(token, hash(CodehalfOf(req) + token), now + profile.ttlMillis))
  }

  /** Distinct random bytes give distinct tokens: hex loses nothing. */
  lemma {:induction false} HexInjective(a: seq<Byte>, b: seq<Byte>)
    requires Hex(a) == Hex(b)
    ensures a == b
  {
    assert |a| == |b|;
    if a != [] {
      assert Hex(a)[2..] == Hex(a[1..]) && Hex(b)[2..] == Hex(b[1..]);
      assert Hex(a)[0] == Hex(b)[0] && Hex(a)[1] == Hex(b)[1];
      HexInjective(a[1..], b[1..]);
      assert a == [a[0]] + a[1..] && b == [b[0]] + b[1..];
    }
  }

  /** What a successful mint fixes: eight or sixteen hex digits, the matching lifetime, and the hash
      of exactly the string that must be submitted to finalize. */
  lemma MintedTokenShape(hash: string -> string, req: TokenRequest, random: seq<Byte>, now: int, minted: MintedToken)
    requires |random| >= 8
    requires MintRegistrationToken(hash, req, random, now) == Ok(minted)
    ensures req.ttlProfile == Some("asynchronous") ==> |minted.token| == 16 && minted.expiresAt == now + 86_400_000
    ensures req.ttlProfile != Some("asynchronous") ==> |minted.token| == 8 && minted.expiresAt == now + 300_000
    ensures minted.tokenHash == hash(CodehalfOf(req) + minted.token)
    ensures req.codehalf.Some? ==> 16 <= |CodehalfOf(req)| <= 256
  {
  }

  /** Which requests are accepted: lengths within bounds, and a known profile or none. */
  lemma AcceptedIff(hash: string -> string, req: TokenRequest, random: seq<Byte>, now: int)
    requires |random| >= 8
    ensures MintRegistrationToken(hash, req, random, now).Ok? <==>
            && (req.nodeName == None || |req.nodeName.value| <= 256)
            && (req.nodeMetadata == None || |req.nodeMetadata.value| <= 256)
            && (req.codehalf == None || 16 <= |req.codehalf.value| <= 256)
            && (|| req.ttlProfile == None || req.ttlProfile == Some("interactive")
                || req.ttlProfile == Some("asynchronous"))
  {
  }

  /** Which complaint comes first. */
  lemma RefusedBecause(hash: string -> string, req: TokenRequest, random: seq<Byte>, now: int)
    requires |random| >= 8 && MintRegistrationToken(hash, req, random, now).Err?
    ensures MintRegistrationToken(hash, req, random, now).error ==
            if req.nodeName != None && |req.nodeName.value| > 256 then NameTooLong
            else if req.nodeMetadata != None && |req.nodeMetadata.value| > 256 then MetadataTooLong
            else if req.codehalf != None && !(16 <= |req.codehalf.value| <= 256) then CodehalfLength
            else UnknownProfile
  {
  }

  /** The token is the lower-case hex of the first random bytes, four or eight of them; it is hashed
      behind the codehalf, if there is one. */
  lemma MintedTokenIs(hash: string -> string, req: TokenRequest, random: seq<Byte>, now: int, minted: MintedToken)
    requires |random| >= 8 && MintRegistrationToken(hash, req, random, now) == Ok(minted)
    ensures minted.token == Hex(random[..if req.ttlProfile == Some("asynchronous") then 8 else 4])
    ensures minted.tokenHash == hash(if req.codehalf == None then minted.token else req.codehalf.value + minted.token)
  {
    assert "" + minted.token == minted.token;
  }

  lemma {:induction false} HexIs(bytes: seq<Byte>, i: nat)
    requires i < |bytes|
    ensures Hex(bytes)[2 * i] == "0123456789abcdef"[bytes[i] / 16]
    ensures Hex(bytes)[2 * i + 1] == "0123456789abcdef"[bytes[i] % 16]
  {
    HexDigitIs(bytes[i] / 16);
    HexDigitIs(bytes[i] % 16);
    if i > 0 {
      HexIs(bytes[1..], i - 1);
    }
  }

  lemma HexDigitIs(d: nat)
    requires d < 16
    ensures HexDigit(d) == "0123456789abcdef"[d]
  {
  }
}
