/** API keys: "wc_" env "_" id "." secret. */
module ApiKeys {
  import opened Wrappers
  import opened Words
  import opened Text
  import opened Numerals
  import opened Base62

  const KEY_PREFIX: string := "wc_"
  const ID_BYTES_LEN: nat := 12
  const ID_ENCODED_LEN: nat := 17
  const SECRET_BYTES_LEN: nat := 32
  const SECRET_ENCODED_LEN: nat := 43

  type Hash = seq<Byte>

  /** SHA-256, left abstract. */
  type Hasher = seq<Byte> -> Hash

  datatype ApiKey = ApiKey(id: string, env: string, encoded: string, secretHash: Hash)

  datatype KeyError =
    | EmptyEnv
    | ReadId
    | ReadSecret
    | EncoderPanic
    | InvalidFormat
    | BadSecret(cause: DecodeError)

  /** `random` is what the reader has left to give; `trimSpace` is strings.TrimSpace. */
  function Generate(sha: Hasher, trimSpace: string -> string, env: string, random: seq<Byte>)
    : Result<ApiKey, KeyError>
  {
    if trimSpace(env) == "" then Err(EmptyEnv)
    else if |random| < ID_BYTES_LEN then Err(ReadId)
    else if |random| < ID_BYTES_LEN + SECRET_BYTES_LEN then Err(ReadSecret)
    else
      var idPart := Encode(random[..ID_BYTES_LEN], ID_ENCODED_LEN);
      var secret := random[ID_BYTES_LEN..ID_BYTES_LEN + SECRET_BYTES_LEN];
      var secretPart := Encode(secret, SECRET_ENCODED_LEN);
      if idPart.None? || secretPart.None? then Err(EncoderPanic)
      else Ok(ApiKey(idPart.value, env, Assemble(env, idPart.value, secretPart.value), sha(secret)))
  }

  function Assemble(env: string, id: string, secret: string): string {
    KEY_PREFIX + env + "_" + id + "." + secret
  }

  /** env, id and secret parts of a raw key. */
  function SplitKey(raw: string): Option<(string, string, string)> {
    if !(KEY_PREFIX <= raw) then None
    else
      var trimmed := raw[|KEY_PREFIX|..];
      match IndexOf(trimmed, '_')
      case None => None
      case Some(envSep) =>
        if envSep == 0 then None
        else
          var remainder := trimmed[envSep + 1..];
          match IndexOf(remainder, '.')
          case None => None
          case Some(dot) =>
            if dot == 0 || dot == |remainder| - 1 then None
            else if dot != ID_ENCODED_LEN || |remainder[dot + 1..]| != SECRET_ENCODED_LEN then None
            else Some((trimmed[..envSep], remainder[..dot], remainder[dot + 1..]))
  }

  function Parse(sha: Hasher, raw: string): Result<ApiKey, KeyError> {
    match SplitKey(raw)
    case None => Err(InvalidFormat)
    case Some(parts) =>
      match Decode(parts.2, SECRET_BYTES_LEN)
      case Err(e) => Err(BadSecret(e))
      case Ok(secret) => Ok(ApiKey(parts.1, parts.0, raw, sha(secret)))
  }

  /** The parts a raw key may be assembled from and split into again. */
  predicate WellFormed(env: string, id: string, secret: string) {
    && env != "" && '_' !in env
    && |id| == ID_ENCODED_LEN && '.' !in id
    && |secret| == SECRET_ENCODED_LEN
  }

  lemma SplitOfAssembled(env: string, id: string, secret: string)
    requires WellFormed(env, id, secret)
    ensures SplitKey(Assemble(env, id, secret)) == Some((env, id, secret))
  {
    var remainder := id + ['.'] + secret;
    var trimmed := env + ['_'] + remainder;
    var raw := Assemble(env, id, secret);
    assert raw == KEY_PREFIX + trimmed;
    assert raw[|KEY_PREFIX|..] == trimmed;
    IndexOfAt(env, '_', remainder);
    assert trimmed[..|env|] == env && trimmed[|env| + 1..] == remainder;
    IndexOfAt(id, '.', secret);
    assert remainder[..|id|] == id && remainder[|id| + 1..] == secret;
  }

  lemma AssembledOfSplit(raw: string)
    requires SplitKey(raw).Some?
    ensures var (env, id, secret) := SplitKey(raw).value;
            WellFormed(env, id, secret) && raw == Assemble(env, id, secret)
  {
  }

  /** Fixed widths leave only one way to read the environment off. */
  lemma EnvOfAssembled(env: string, id: string, secret: string, env': string, id': string, secret': string)
    requires |id| == |id'| && |secret| == |secret'|
    requires Assemble(env, id, secret) == Assemble(env', id', secret')
    ensures env == env'
  {
    var raw := Assemble(env, id, secret);
    assert |env| == |env'|;
    assert raw[3..3 + |env|] == env && raw[3..3 + |env'|] == env';
  }

  /** An underscore in the environment pushes a boundary of the wrong length in front of the id. */
  lemma UnderscoreBreaksKey(env: string, id: string, secret: string)
    requires '_' in env
    requires |id| == ID_ENCODED_LEN && |secret| == SECRET_ENCODED_LEN
    ensures SplitKey(Assemble(env, id, secret)).None?
  {
    var raw := Assemble(env, id, secret);
    var parts := SplitKey(raw);
    if parts.Some? {
      AssembledOfSplit(raw);
      EnvOfAssembled(env, id, secret, parts.value.0, parts.value.1, parts.value.2);
    }
  }

  lemma EncodedIsPlain(src: seq<Byte>, maxLen: nat)
    requires Encode(src, maxLen).Some?
    ensures |Encode(src, maxLen).value| == maxLen && AllDigits(Encode(src, maxLen).value)
    ensures '.' !in Encode(src, maxLen).value && ' ' !in Encode(src, maxLen).value
  {
  }

  lemma PartsFit(id: seq<Byte>, secret: seq<Byte>)
    requires |id| == ID_BYTES_LEN && |secret| == SECRET_BYTES_LEN
    ensures Encode(id, ID_ENCODED_LEN).Some? && Encode(secret, SECRET_ENCODED_LEN).Some?
  {
    KeyWidths();
    EncodePanics(id, ID_ENCODED_LEN);
    EncodePanics(secret, SECRET_ENCODED_LEN);
  }

  /** A key in plain words: the id is made of the first twelve random bytes, the secret of the next
      thirty-two, whose hash is kept. */
  lemma GenerateIs(sha: Hasher, trimSpace: string -> string, env: string, random: seq<Byte>, key: ApiKey)
    requires Generate(sha, trimSpace, env, random) == Ok(key)
    ensures |random| >= 44
    ensures Encode(random[..12], 17) == Some(key.id) && Encode(random[12..44], 43).Some?
    ensures key.env == env
    ensures key.encoded == "wc_" + env + "_" + key.id + "." + Encode(random[12..44], 43).value
    ensures key.secretHash == sha(random[12..44])
  {
  }

  /** Why generation fails, in the order of the checks. */
  lemma GenerateErrors(sha: Hasher, trimSpace: string -> string, env: string, random: seq<Byte>)
    requires Generate(sha, trimSpace, env, random).Err?
    ensures Generate(sha, trimSpace, env, random).error ==
            if trimSpace(env) == "" then EmptyEnv else if |random| < 12 then ReadId else ReadSecret
  {
    GenerateSucceeds(sha, trimSpace, env, random);
  }

  /** Generation fails only for a blank environment or a short read, never by panicking. */
  lemma GenerateSucceeds(sha: Hasher, trimSpace: string -> string, env: string, random: seq<Byte>)
    ensures Generate(sha, trimSpace, env, random).Ok? <==>
            trimSpace(env) != "" && |random| >= ID_BYTES_LEN + SECRET_BYTES_LEN
    ensures Generate(sha, trimSpace, env, random) != Err(EncoderPanic)
  {
    if |random| >= ID_BYTES_LEN + SECRET_BYTES_LEN {
      PartsFit(random[..ID_BYTES_LEN], random[ID_BYTES_LEN..ID_BYTES_LEN + SECRET_BYTES_LEN]);
    }
  }

  /** A generated key parses back to itself exactly when its environment has no underscore. */
  lemma ParseOfGenerated(sha: Hasher, trimSpace: string -> string, env: string, random: seq<Byte>, key: ApiKey)
    requires trimSpace("") == ""
    requires Generate(sha, trimSpace, env, random) == Ok(key)
    ensures Parse(sha, key.encoded) == if '_' in env then Err(InvalidFormat) else Ok(key)
  {
    var idBytes := random[..ID_BYTES_LEN];
    var secretBytes := random[ID_BYTES_LEN..ID_BYTES_LEN + SECRET_BYTES_LEN];
    var id := Encode(idBytes, ID_ENCODED_LEN).value;
    var secret := Encode(secretBytes, SECRET_ENCODED_LEN).value;
    EncodedIsPlain(idBytes, ID_ENCODED_LEN);
    EncodedIsPlain(secretBytes, SECRET_ENCODED_LEN);
    if '_' in env {
      UnderscoreBreaksKey(env, id, secret);
    } else {
      SplitOfAssembled(env, id, secret);
      DecodeOfEncoded(secretBytes, SECRET_ENCODED_LEN);
    }
  }

  /** Exactly the accepted strings, and the secret bytes each one stands for. */
  lemma ParseAccepts(sha: Hasher, raw: string, key: ApiKey)
    ensures Parse(sha, raw) == Ok(key) <==>
            exists secret: seq<Byte> :: IsKeyText(sha, raw, key, secret)
  {
    if Parse(sha, raw) == Ok(key) {
      AssembledOfSplit(raw);
      var (env, id, secretPart) := SplitKey(raw).value;
      EncodeOfDecoded(secretPart, SECRET_BYTES_LEN);
      assert IsKeyText(sha, raw, key, Decode(secretPart, SECRET_BYTES_LEN).value);
    }
    if secret: seq<Byte> :| IsKeyText(sha, raw, key, secret) {
      EncodedIsPlain(secret, SECRET_ENCODED_LEN);
      SplitOfAssembled(key.env, key.id, Encode(secret, SECRET_ENCODED_LEN).value);
      DecodeOfEncoded(secret, SECRET_ENCODED_LEN);
    }
  }

  /** The key's shape in plain words. */
  lemma KeyTextIs(sha: Hasher, raw: string, key: ApiKey, secret: seq<Byte>)
    ensures IsKeyText(sha, raw, key, secret) <==>
            && |secret| == 32 && Encode(secret, 43) != None && |Encode(secret, 43).value| == 43
            && key.env != "" && '_' !in key.env && |key.id| == 17 && '.' !in key.id
            && raw == "wc_" + key.env + "_" + key.id + "." + Encode(secret, 43).value
            && key.encoded == raw && key.secretHash == sha(secret)
  {
  }

  predicate IsKeyText(sha: Hasher, raw: string, key: ApiKey, secret: seq<Byte>) {
    && |secret| == SECRET_BYTES_LEN
    && Encode(secret, SECRET_ENCODED_LEN).Some?
    && WellFormed(key.env, key.id, Encode(secret, SECRET_ENCODED_LEN).value)
    && raw == Assemble(key.env, key.id, Encode(secret, SECRET_ENCODED_LEN).value)
    && key.encoded == raw
    && key.secretHash == sha(secret)
  }

  datatype AuthError = NoAuthHeader | BadAuthHeader | InvalidKey

  function Lower(s: string): (t: string)
    ensures |t| == |s|
  {
    seq(|s|, i requires 0 <= i < |s| =>
      if 'A' <= s[i] <= 'Z' then (s[i] - 'A') + 'a' else s[i])
  }

  function FromAuthHeader(sha: Hasher, header: string): Result<ApiKey, AuthError> {
    if header == "" then Err(NoAuthHeader)
    else
      var parts := Split(header, ' ');
      if |parts| != 2 || Lower(parts[0]) != "bearer" then Err(BadAuthHeader)
      else
        match Parse(sha, parts[1])
        case Err(_) => Err(InvalidKey)
        case Ok(key) => Ok(key)
  }

  lemma LowerIs(s: string, i: nat)
    requires i < |s|
    ensures Lower(s)[i] as int == if 'A' <= s[i] <= 'Z' then s[i] as int + 32 else s[i] as int
  {
  }

  /** What is accepted in the header: the word "bearer" in any case, one space, and a key that parses
      and has no space in it. */
  lemma AuthHeaderIff(sha: Hasher, header: string, key: ApiKey)
    ensures FromAuthHeader(sha, header) == Ok(key) <==>
            exists scheme: string, raw: string ::
              && header == scheme + " " + raw && Lower(scheme) == "bearer" && ' ' !in raw
              && Parse(sha, raw) == Ok(key)
  {
    var parts := Split(header, ' ');
    if FromAuthHeader(sha, header) == Ok(key) {
      JoinSplit(header, ' ');
      assert Join(parts[1..], ' ') == parts[1];
      assert header == parts[0] + " " + parts[1];
      assert parts[1] in parts;
    }
    if scheme: string, raw: string :| header == scheme + " " + raw && Lower(scheme) == "bearer" && ' ' !in raw
                                      && Parse(sha, raw) == Ok(key) {
      NoSpaceInBearer(scheme);
      SplitCons(scheme, ' ', raw);
      assert header == scheme + [' '] + raw;
      assert Split(raw, ' ') == [raw];
    }
  }

  lemma NoSpaceInBearer(scheme: string)
    requires Lower(scheme) == "bearer"
    ensures ' ' !in scheme
  {
    forall i | 0 <= i < |scheme|
      ensures scheme[i] != ' '
    {
      LowerIs(scheme, i);
      assert Lower(scheme)[i] != ' ';
    }
  }

  /** Which error a refused header gives. */
  lemma AuthHeaderErrors(sha: Hasher, header: string)
    requires FromAuthHeader(sha, header).Err?
    ensures FromAuthHeader(sha, header).error ==
            if header == "" then NoAuthHeader
            else if |Split(header, ' ')| == 2 && Lower(Split(header, ' ')[0]) == "bearer" then InvalidKey
            else BadAuthHeader
  {
  }

  /** A generated key presented as a bearer token is accepted exactly when its environment has
      neither a space nor an underscore. */
  lemma BearerOfGenerated(sha: Hasher, trimSpace: string -> string, env: string, random: seq<Byte>, key: ApiKey)
    requires trimSpace("") == ""
    requires Generate(sha, trimSpace, env, random) == Ok(key)
    ensures FromAuthHeader(sha, "Bearer " + key.encoded) ==
            if ' ' in env then Err(BadAuthHeader)
            else if '_' in env then Err(InvalidKey)
            else Ok(key)
  {
    ParseOfGenerated(sha, trimSpace, env, random, key);
    var idBytes := random[..ID_BYTES_LEN];
    var secretBytes := random[ID_BYTES_LEN..ID_BYTES_LEN + SECRET_BYTES_LEN];
    EncodedIsPlain(idBytes, ID_ENCODED_LEN);
    EncodedIsPlain(secretBytes, SECRET_ENCODED_LEN);
    SpacesOfAssembled(env, Encode(idBytes, ID_ENCODED_LEN).value, Encode(secretBytes, SECRET_ENCODED_LEN).value);
    BearerSplits(key.encoded);
  }

  lemma SpacesOfAssembled(env: string, id: string, secret: string)
    requires ' ' !in id && ' ' !in secret
    ensures ' ' in Assemble(env, id, secret) <==> ' ' in env
  {
  }

  lemma BearerSplits(raw: string)
    ensures var parts := Split("Bearer " + raw, ' ');
            && |parts| >= 2 && Lower(parts[0]) == "bearer"
            && (|parts| == 2 <==> ' ' !in raw)
            && (' ' !in raw ==> parts[1] == raw)
  {
    assert "Bearer " + raw == "Bearer" + [' '] + raw;
    SplitCons("Bearer", ' ', raw);
    LowerBearer();
  }

  lemma LowerBearer()
    ensures Lower("Bearer") == "bearer"
  {
  }

  /** Why a raw key is refused: its shape first, then its secret part. */
  lemma ParseErrors(sha: Hasher, raw: string)
    requires Parse(sha, raw).Err?
    ensures SplitKey(raw) == None ==> Parse(sha, raw) == Err(InvalidFormat)
    ensures SplitKey(raw) != None ==>
              && Decode(SplitKey(raw).value.2, 32).Err?
              && Parse(sha, raw) == Err(BadSecret(Decode(SplitKey(raw).value.2, 32).error))
  {
  }

  /** A raw key has the right shape exactly if it is "wc_", an environment without underscore, "_", an
      id of 17 characters without a dot, ".", and 43 more characters. */
  lemma ShapeIff(raw: string)
    ensures SplitKey(raw) != None <==>
            exists env: string, id: string, secret: string ::
              && raw == "wc_" + env + "_" + id + "." + secret
              && env != "" && '_' !in env && |id| == 17 && '.' !in id && |secret| == 43
  {
    if SplitKey(raw) != None {
      AssembledOfSplit(raw);
      var (env, id, secret) := SplitKey(raw).value;
      assert raw == "wc_" + env + "_" + id + "." + secret;
    }
    if env: string, id: string, secret: string :|
      && raw == "wc_" + env + "_" + id + "." + secret
      && env != "" && '_' !in env && |id| == 17 && '.' !in id && |secret| == 43
    {
      SplitOfAssembled(env, id, secret);
    }
  }
}
