/** TURN credentials in the use-auth-secret shape (section 2.2 of draft-uberti-behave-turn-rest-00),
    with two optional rate segments. */
module TurnCreds {
  import opened Wrappers
  import opened Words
  import opened Text
  import opened Decimal

  /** Instants are nanoseconds since the Unix epoch; those whose seconds fit an int64 are the values of
      Go's wall-clock time.Time. */
  type Instant = int

  const SECOND: int := 1_000_000_000
  const TURN_CREDENTIAL_TTL: int := 600 * SECOND

  /** Whole seconds since the epoch, rounded down. */
  function Unix(t: Instant): int { t / SECOND }

  /** Milliseconds since the epoch, in 64 bits. */
  function UnixMilli(t: Instant): int { Wrap64(t / 1_000_000) }

  function TruncateToSecond(t: Instant): Instant { t - t % SECOND }

  /** Go counts the seconds of a time.Time from the year 1, in an int64. */
  const UNIX_TO_INTERNAL: int := 62_135_596_800

  function InternalSeconds(t: Instant): int { Wrap64(Unix(t) + UNIX_TO_INTERNAL) }

  /** The last 2000 years or so of int64 Unix seconds, whose count from the year 1 overflows. */
  predicate Overflows(t: Instant) { Unix(t) > MAX_INT64 - UNIX_TO_INTERNAL }

  /** time.Time.After. */
  predicate After(t: Instant, u: Instant) {
    InternalSeconds(t) > InternalSeconds(u) || (InternalSeconds(t) == InternalSeconds(u) && t % SECOND > u % SECOND)
  }

  /** Comparison is that of the instants, except that overflowing ones come before all others. */
  lemma AfterIff(t: Instant, u: Instant)
    requires IsInt64(Unix(t)) && IsInt64(Unix(u))
    ensures After(t, u) <==> if Overflows(t) == Overflows(u) then t > u else Overflows(u)
  {
    InternalIsShifted(t);
    InternalIsShifted(u);
  }

  lemma InternalIsShifted(t: Instant)
    requires IsInt64(Unix(t))
    ensures InternalSeconds(t) == Unix(t) + UNIX_TO_INTERNAL - (if Overflows(t) then TWO_64 else 0)
  {
  }

  datatype Credential = Credential(subject: string, floorBps: int, ceilBps: int, expiry: Instant) {
    predicate Expired(now: Instant) { After(now, expiry) }
  }

  datatype ParseError =
    | BadSignature
    | BadFloor
    | BadCeil
    | InvalidRates(floor: int, ceil: int)
    | WrongSegments(count: nat)
    | BadExpiry
    | EmptySubject

  /** base64(hmac-sha1(secret, username)), left abstract. */
  type Signer = (seq<bv8>, string) -> string

  predicate ValidSubject(subject: string) {
    subject != "" && ':' !in subject
  }

  function Username(subject: string, floorBps: int, ceilBps: int, expiry: Instant): string {
    if floorBps > 0 || ceilBps > 0 then
      Format(Unix(expiry)) + ":" + subject + ":" + Format(floorBps) + ":" + Format(ceilBps)
    else
      Format(Unix(expiry)) + ":" + subject
  }

  /** `None` is the panic on an invalid subject. */
  function Mint(sign: Signer, secret: seq<bv8>, subject: string, floorBps: int, ceilBps: int, expiry: Instant)
    : (r: Option<(string, string)>)
  {
    if !ValidSubject(subject) then None
    else
      var username := Username(subject, floorBps, ceilBps, expiry);
      Some((username, sign(secret, username)))
  }

  function ParseRates(parts: seq<string>): Result<(int, int), ParseError> {
    if |parts| == 4 then
      match ParseInt(parts[2])
      case None => Err(BadFloor)
      case Some(floor) =>
        match ParseInt(parts[3])
        case None => Err(BadCeil)
        case Some(ceil) =>
          if floor < 0 || (ceil != 0 && ceil < floor) then Err(InvalidRates(floor, ceil))
          else Ok((floor, ceil))
    else if |parts| == 2 then Ok((0, 0))
    else Err(WrongSegments(|parts|))
  }

  function ParseSegments(parts: seq<string>): Result<Credential, ParseError> {
    match ParseRates(parts)
    case Err(e) => Err(e)
    case Ok(rates) =>
      match ParseInt(parts[0])
      case None => Err(BadExpiry)
      case Some(ts) =>
        if parts[1] == "" then Err(EmptySubject)
        else Ok(Credential(parts[1], rates.0, rates.1, ts * SECOND))
  }

  function Parse(username: string): Result<Credential, ParseError> {
    ParseSegments(Split(username, ':'))
  }

  function Verify(sign: Signer, secret: seq<bv8>, username: string, password: string)
    : Result<Credential, ParseError>
  {
    if sign(secret, username) != password then Err(BadSignature) else Parse(username)
  }

  /** The rate pairs a relay accepts back. */
  predicate ParseableRates(floorBps: int, ceilBps: int) {
    || (floorBps <= 0 && ceilBps <= 0)
    || (floorBps >= 0 && (ceilBps == 0 || ceilBps >= floorBps))
  }

  predicate RatesOmitted(floorBps: int, ceilBps: int) {
    floorBps <= 0 && ceilBps <= 0
  }

  lemma FormatAvoids(n: int, c: char)
    requires !IsDigit(c) && c != '-'
    ensures c !in Format(n)
  {
  }

  lemma Regroup(a: string, b: string, c: string, d: string)
    ensures a + ":" + b + ":" + c + ":" + d == a + [':'] + (b + [':'] + (c + [':'] + d))
  {
  }

  lemma SplitFour(a: string, b: string, c: string, d: string)
    requires ':' !in a && ':' !in b && ':' !in c && ':' !in d
    ensures Split(a + ":" + b + ":" + c + ":" + d, ':') == [a, b, c, d]
  {
    var cd := c + [':'] + d;
    var bcd := b + [':'] + cd;
    calc {
      Split(a + ":" + b + ":" + c + ":" + d, ':');
      { Regroup(a, b, c, d); }
      Split(a + [':'] + bcd, ':');
      { SplitCons(a, ':', bcd); }
      [a] + Split(bcd, ':');
      { SplitCons(b, ':', cd); }
      [a] + ([b] + Split(cd, ':'));
      { SplitCons(c, ':', d); }
      [a] + ([b] + ([c] + [d]));
      [a, b, c, d];
    }
  }

  lemma SplitUsername(subject: string, floorBps: int, ceilBps: int, expiry: Instant)
    requires ValidSubject(subject)
    ensures Split(Username(subject, floorBps, ceilBps, expiry), ':')
         == if RatesOmitted(floorBps, ceilBps) then [Format(Unix(expiry)), subject]
            else [Format(Unix(expiry)), subject, Format(floorBps), Format(ceilBps)]
  {
    FormatAvoids(Unix(expiry), ':');
    FormatAvoids(floorBps, ':');
    FormatAvoids(ceilBps, ':');
    if RatesOmitted(floorBps, ceilBps) {
      SplitCons(Format(Unix(expiry)), ':', subject);
    } else {
      SplitFour(Format(Unix(expiry)), subject, Format(floorBps), Format(ceilBps));
    }
  }

  lemma SegmentsOfPlain(subject: string, expiry: Instant)
    requires subject != "" && IsInt64(Unix(expiry))
    ensures ParseSegments([Format(Unix(expiry)), subject]) == Ok(Credential(subject, 0, 0, TruncateToSecond(expiry)))
  {
    ParseFormat(Unix(expiry));
  }

  lemma SegmentsOfRated(subject: string, floorBps: int, ceilBps: int, expiry: Instant)
    requires subject != "" && !RatesOmitted(floorBps, ceilBps)
    requires IsInt64(floorBps) && IsInt64(ceilBps) && IsInt64(Unix(expiry))
    ensures ParseSegments([Format(Unix(expiry)), subject, Format(floorBps), Format(ceilBps)]) ==
            if ParseableRates(floorBps, ceilBps) then
              Ok(Credential(subject, floorBps, ceilBps, TruncateToSecond(expiry)))
            else
              Err(InvalidRates(floorBps, ceilBps))
  {
    var parts := [Format(Unix(expiry)), subject, Format(floorBps), Format(ceilBps)];
    RatesOfRated(parts, floorBps, ceilBps);
    ParseFormat(Unix(expiry));
  }

  lemma RatesOfRated(parts: seq<string>, floorBps: int, ceilBps: int)
    requires |parts| == 4 && parts[2] == Format(floorBps) && parts[3] == Format(ceilBps)
    requires IsInt64(floorBps) && IsInt64(ceilBps) && !RatesOmitted(floorBps, ceilBps)
    ensures ParseRates(parts) ==
            if ParseableRates(floorBps, ceilBps) then Ok((floorBps, ceilBps)) else Err(InvalidRates(floorBps, ceilBps))
  {
    ParseFormat(floorBps);
    ParseFormat(ceilBps);
  }

  /** A pair is accepted exactly if the password is the username's signature and the username parses:
      a wrong password is always refused as such. */
  lemma VerifyIff(sign: Signer, secret: seq<bv8>, username: string, password: string)
    ensures password != sign(secret, username) ==> Verify(sign, secret, username, password) == Err(BadSignature)
    ensures Verify(sign, secret, username, password).Ok? <==>
            password == sign(secret, username) && Parse(username).Ok?
    ensures password == sign(secret, username) ==> Verify(sign, secret, username, password) == Parse(username)
  {
  }

  /** What is minted: the username in plain words, and its signature. */
  lemma MintIs(sign: Signer, secret: seq<bv8>, subject: string, floorBps: int, ceilBps: int, expiry: Instant)
    requires subject != "" && ':' !in subject
    ensures Mint(sign, secret, subject, floorBps, ceilBps, expiry).Some?
    ensures var pair := Mint(sign, secret, subject, floorBps, ceilBps, expiry).value;
            && pair.1 == sign(secret, pair.0)
            && pair.0 == if floorBps > 0 || ceilBps > 0
                         then Format(expiry / 1_000_000_000) + ":" + subject
                              + ":" + Format(floorBps) + ":" + Format(ceilBps)
                         else Format(expiry / 1_000_000_000) + ":" + subject
  {
  }

  /** A pair minted under one secret verifies under another exactly if the two sign its username alike
      and its rates parse. */
  lemma OtherSecretIff(
      sign: Signer, secret: seq<bv8>, other: seq<bv8>, subject: string, floorBps: int, ceilBps: int, expiry: Instant)
    requires subject != "" && ':' !in subject
    requires IsInt64(floorBps) && IsInt64(ceilBps) && IsInt64(Unix(expiry))
    ensures Mint(sign, secret, subject, floorBps, ceilBps, expiry).Some?
    ensures var pair := Mint(sign, secret, subject, floorBps, ceilBps, expiry).value;
            Verify(sign, other, pair.0, pair.1).Ok? <==>
            && sign(other, pair.0) == sign(secret, pair.0)
            && ((floorBps <= 0 && ceilBps <= 0) || (floorBps >= 0 && (ceilBps == 0 || ceilBps >= floorBps)))
  {
    MintIs(sign, secret, subject, floorBps, ceilBps, expiry);
    var pair := Mint(sign, secret, subject, floorBps, ceilBps, expiry).value;
    VerifyIff(sign, other, pair.0, pair.1);
    ParseOfMinted(subject, floorBps, ceilBps, expiry);
  }

  /** What parses: two segments, or four of which the last two are rates the relay can keep. */
  lemma ParseIff(username: string, c: Credential)
    ensures var parts := Split(username, ':');
            Parse(username) == Ok(c) <==>
            && (|parts| == 2 || |parts| == 4)
            && ParseInt(parts[0]) != None && c.expiry == ParseInt(parts[0]).value * 1_000_000_000
            && parts[1] != "" && c.subject == parts[1]
            && (|parts| == 2 ==> c.floorBps == c.ceilBps == 0)
            && (|parts| == 4 ==>
                  && ParseInt(parts[2]) == Some(c.floorBps) && ParseInt(parts[3]) == Some(c.ceilBps)
                  && c.floorBps >= 0 && (c.ceilBps == 0 || c.ceilBps >= c.floorBps))
  {
    SegmentsIff(Split(username, ':'), c);
  }

  lemma SegmentsIff(parts: seq<string>, c: Credential)
    ensures ParseSegments(parts) == Ok(c) <==>
            && (|parts| == 2 || |parts| == 4)
            && ParseInt(parts[0]) != None && c.expiry == ParseInt(parts[0]).value * 1_000_000_000
            && parts[1] != "" && c.subject == parts[1]
            && (|parts| == 2 ==> c.floorBps == c.ceilBps == 0)
            && (|parts| == 4 ==>
                  && ParseInt(parts[2]) == Some(c.floorBps) && ParseInt(parts[3]) == Some(c.ceilBps)
                  && c.floorBps >= 0 && (c.ceilBps == 0 || c.ceilBps >= c.floorBps))
  {
  }

  /** Which error comes first. */
  lemma ParseErrors(username: string)
    requires Parse(username).Err?
    ensures var parts := Split(username, ':');
            Parse(username).error ==
            if |parts| != 2 && |parts| != 4 then WrongSegments(|parts|)
            else if |parts| == 4 && ParseInt(parts[2]) == None then BadFloor
            else if |parts| == 4 && ParseInt(parts[3]) == None then BadCeil
            else if |parts| == 4 &&
                    !(0 <= ParseInt(parts[2]).value && (ParseInt(parts[3]).value == 0
                                                        || ParseInt(parts[2]).value <= ParseInt(parts[3]).value))
            then InvalidRates(ParseInt(parts[2]).value, ParseInt(parts[3]).value)
            else if ParseInt(parts[0]) == None then BadExpiry
            else EmptySubject
  {
    SegmentErrors(Split(username, ':'));
  }

  lemma SegmentErrors(parts: seq<string>)
    requires ParseSegments(parts).Err?
    ensures ParseSegments(parts).error ==
            if |parts| != 2 && |parts| != 4 then WrongSegments(|parts|)
            else if |parts| == 4 && ParseInt(parts[2]) == None then BadFloor
            else if |parts| == 4 && ParseInt(parts[3]) == None then BadCeil
            else if |parts| == 4 &&
                    !(0 <= ParseInt(parts[2]).value && (ParseInt(parts[3]).value == 0
                                                        || ParseInt(parts[2]).value <= ParseInt(parts[3]).value))
            then InvalidRates(ParseInt(parts[2]).value, ParseInt(parts[3]).value)
            else if ParseInt(parts[0]) == None then BadExpiry
            else EmptySubject
  {
  }

  /** Exactly which minted usernames parse, and what comes back. */
  lemma ParseOfMinted(subject: string, floorBps: int, ceilBps: int, expiry: Instant)
    requires subject != "" && ':' !in subject
    requires IsInt64(floorBps) && IsInt64(ceilBps) && IsInt64(Unix(expiry))
    ensures Parse(Username(subject, floorBps, ceilBps, expiry)) ==
            if floorBps <= 0 && ceilBps <= 0 then
              Ok(Credential(subject, 0, 0, expiry / 1_000_000_000 * 1_000_000_000))
            else if floorBps >= 0 && (ceilBps == 0 || ceilBps >= floorBps) then
              Ok(Credential(subject, floorBps, ceilBps, expiry / 1_000_000_000 * 1_000_000_000))
            else
              Err(InvalidRates(floorBps, ceilBps))
  {
    TruncatedUnix(expiry);
    SplitUsername(subject, floorBps, ceilBps, expiry);
    if RatesOmitted(floorBps, ceilBps) {
      SegmentsOfPlain(subject, expiry);
    } else {
      SegmentsOfRated(subject, floorBps, ceilBps, expiry);
    }
  }

  /** The credential pair a relay verifies: success exactly on parseable rates, the subject and the
      second of expiry unchanged. */
  lemma VerifyOfMinted(sign: Signer, secret: seq<bv8>, subject: string, floorBps: int, ceilBps: int, expiry: Instant)
    requires IsInt64(floorBps) && IsInt64(ceilBps) && IsInt64(Unix(expiry))
    ensures Mint(sign, secret, subject, floorBps, ceilBps, expiry).None? <==> subject == "" || ':' in subject
    ensures subject != "" && ':' !in subject ==>
              var pair := Mint(sign, secret, subject, floorBps, ceilBps, expiry).value;
              var back := Verify(sign, secret, pair.0, pair.1);
              && (back.Ok? <==> (floorBps <= 0 && ceilBps <= 0)
                                || (floorBps >= 0 && (ceilBps == 0 || ceilBps >= floorBps)))
              && (back.Ok? ==> back.value.subject == subject)
              && (back.Ok? ==> back.value.expiry == expiry / 1_000_000_000 * 1_000_000_000)
              && (back.Ok? ==> back.value.floorBps == if floorBps <= 0 && ceilBps <= 0 then 0 else floorBps)
              && (back.Ok? ==> back.value.ceilBps == if floorBps <= 0 && ceilBps <= 0 then 0 else ceilBps)
  {
    if ValidSubject(subject) {
      ParseOfMinted(subject, floorBps, ceilBps, expiry);
    }
  }

  /** When a verified credential has expired: once its second has passed, except that an expiry whose
      count of seconds overflows has passed at every moment that does not overflow itself. */
  lemma ExpiredIff(
      sign: Signer, secret: seq<bv8>, subject: string, floorBps: int, ceilBps: int, expiry: Instant, now: Instant)
    requires IsInt64(floorBps) && IsInt64(ceilBps) && IsInt64(Unix(expiry)) && IsInt64(Unix(now))
    requires subject != "" && ':' !in subject
    requires (floorBps <= 0 && ceilBps <= 0) || (floorBps >= 0 && (ceilBps == 0 || ceilBps >= floorBps))
    ensures var pair := Mint(sign, secret, subject, floorBps, ceilBps, expiry).value;
            var back := Verify(sign, secret, pair.0, pair.1);
            && back.Ok?
            && (back.value.Expired(now) <==>
                var limit := 0x7FFF_FFFF_FFFF_FFFF - 62_135_596_800;
                var late, later := now / 1_000_000_000 > limit, expiry / 1_000_000_000 > limit;
                if late == later then now > expiry / 1_000_000_000 * 1_000_000_000 else later)
  {
    VerifyOfMinted(sign, secret, subject, floorBps, ceilBps, expiry);
    TruncatedUnix(expiry);
    AfterIff(now, TruncateToSecond(expiry));
  }

  lemma TruncatedUnix(t: Instant)
    ensures Unix(TruncateToSecond(t)) == Unix(t) && TruncateToSecond(t) == Unix(t) * SECOND
    ensures t - SECOND < TruncateToSecond(t) <= t
  {
  }

  lemma ParsedIsMintable(username: string)
    requires Parse(username).Ok?
    ensures var c := Parse(username).value;
            && ValidSubject(c.subject) && ParseableRates(c.floorBps, c.ceilBps)
            && IsInt64(c.floorBps) && IsInt64(c.ceilBps)
            && (RatesOmitted(c.floorBps, c.ceilBps) ==> c.floorBps == c.ceilBps == 0)
            && IsInt64(Unix(c.expiry)) && TruncateToSecond(c.expiry) == c.expiry
  {
  }

  /** Whatever Parse accepts, minting its credential again gives a username with the same meaning,
      so foreign spellings (leading zeros, plus signs, explicit 0:0) normalise without change. */
  lemma MintOfParsed(username: string)
    requires Parse(username).Ok?
    ensures var c := Parse(username).value;
            Parse(Username(c.subject, c.floorBps, c.ceilBps, c.expiry)) == Ok(c)
  {
    ParsedIsMintable(username);
    MintOfCredential(Parse(username).value);
  }

  lemma MintOfCredential(c: Credential)
    requires ValidSubject(c.subject) && ParseableRates(c.floorBps, c.ceilBps)
    requires IsInt64(c.floorBps) && IsInt64(c.ceilBps)
    requires RatesOmitted(c.floorBps, c.ceilBps) ==> c.floorBps == c.ceilBps == 0
    requires IsInt64(Unix(c.expiry)) && TruncateToSecond(c.expiry) == c.expiry
    ensures Parse(Username(c.subject, c.floorBps, c.ceilBps, c.expiry)) == Ok(c)
  {
    ParseOfMinted(c.subject, c.floorBps, c.ceilBps, c.expiry);
  }

  datatype TurnPolicy = TurnPolicy(enabled: bool, organisationId: string, floorBps: int, ceilBps: int)

  datatype StunTurnConfig = StunOnly | WithTurn(username: string, password: string, expiresAtMillis: int)

  /** The credential part of GetStunTurnConfig; `None` is Mint's panic. */
  function TurnConfig(sign: Signer, secret: seq<bv8>, turnServer: string, policy: TurnPolicy, now: Instant)
    : Option<StunTurnConfig>
  {
    if turnServer == "" || !policy.enabled then Some(StunOnly)
    else
      var expiry := TruncateToSecond(now + TURN_CREDENTIAL_TTL);
      match Mint(sign, secret, "org-" + policy.organisationId, policy.floorBps, policy.ceilBps, expiry)
      case None => None
      case Some(pair) => Some(WithTurn(pair.0, pair.1, UnixMilli(expiry)))
  }

  lemma OrgSubject(organisationId: string)
    ensures ValidSubject("org-" + organisationId) <==> ':' !in organisationId
  {
    assert forall i | 0 <= i < 4 :: "org-"[i] != ':';
  }

  /** The expiry the relay will read is the second in which the credential's ten minutes end, and the
      one advertised to the client is the same to the millisecond, as long as milliseconds fit 64
      bits at all. */
  lemma AdvertisedExpiryIsExact(sign: Signer, secret: seq<bv8>, turnServer: string, policy: TurnPolicy, now: Instant)
    requires turnServer != "" && policy.enabled
    requires IsInt64(policy.floorBps) && IsInt64(policy.ceilBps) && IsInt64(Unix(now + TURN_CREDENTIAL_TTL))
    ensures TurnConfig(sign, secret, turnServer, policy, now).None? <==> ':' in policy.organisationId
    ensures ':' !in policy.organisationId ==>
              var cfg := TurnConfig(sign, secret, turnServer, policy, now).value;
              && cfg.WithTurn?
              && var back := Verify(sign, secret, cfg.username, cfg.password);
              && (back.Ok? <==> (policy.floorBps <= 0 && policy.ceilBps <= 0)
                                || (policy.floorBps >= 0
                                    && (policy.ceilBps == 0 || policy.ceilBps >= policy.floorBps)))
              && (back.Ok? ==> back.value.subject == "org-" + policy.organisationId)
              && (back.Ok? ==> now + 599_000_000_000 < back.value.expiry <= now + 600_000_000_000)
              && (back.Ok? ==> (back.value.expiry == cfg.expiresAtMillis * 1_000_000
                                <==> IsInt64(back.value.expiry / 1_000_000)))
  {
    var subject := "org-" + policy.organisationId;
    var expiry := TruncateToSecond(now + TURN_CREDENTIAL_TTL);
    OrgSubject(policy.organisationId);
    TruncatedUnix(now + TURN_CREDENTIAL_TTL);
    TruncatedUnix(expiry);
    VerifyOfMinted(sign, secret, subject, policy.floorBps, policy.ceilBps, expiry);
    MillisOfSecond(Unix(expiry));
  }

  lemma MillisOfSecond(seconds: int)
    ensures seconds * SECOND / 1_000_000 == seconds * 1000
    ensures UnixMilli(seconds * SECOND) * 1_000_000 == seconds * SECOND <==> IsInt64(seconds * 1000)
  {
    assert seconds * SECOND == seconds * 1000 * 1_000_000;
  }

  /** Without a TURN server, or on a plan without TURN, there are no credentials to hand out. */
  lemma StunOnlyIff(sign: Signer, secret: seq<bv8>, turnServer: string, policy: TurnPolicy, now: Instant)
    ensures TurnConfig(sign, secret, turnServer, policy, now) == Some(StunOnly) <==> turnServer == "" || !policy.enabled
  {
  }
}
