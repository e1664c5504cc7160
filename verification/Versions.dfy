/** Client version strings and the compatibility floor. */
module Versions {
  import opened Wrappers
  import opened Words
  import opened Text
  import opened Decimal

  /** major, minor, patch */
  type Version = v: seq<int> | |v| == 3 witness [0, 0, 0]

  datatype VersionError =
    | WantTriple
    | BadComponent(text: string)
    | BelowFloor(reported: Version, floor: Version)

  const MIN_SHED_CLIENT_VERSION: Version := [0, 14, 0]

  function FormatVersion(v: Version): string {
    Format(v[0]) + "." + Format(v[1]) + "." + Format(v[2])
  }

  /** Everything before the first '-', or the whole string: strings.Cut. */
  function Core(s: string): string {
    match IndexOf(s, '-')
    case None => s
    case Some(i) => s[..i]
  }

  /** strconv.Atoi followed by the sign check. */
  function Component(p: string): Option<int> {
    match ParseInt(p)
    case Some(n) => if n < 0 then None else Some(n)
    case None => None
  }

  predicate IsVersionTriple(v: Version) {
    forall i | 0 <= i < 3 :: 0 <= v[i] <= MAX_INT64
  }

  function ParseParts(parts: seq<string>): (r: Result<Version, VersionError>)
    ensures r.Ok? ==> IsVersionTriple(r.value)
  {
    if |parts| != 3 then Err(WantTriple)
    else if Component(parts[0]).None? then Err(BadComponent(parts[0]))
    else if Component(parts[1]).None? then Err(BadComponent(parts[1]))
    else if Component(parts[2]).None? then Err(BadComponent(parts[2]))
    else
      Ok([Component(parts[0]).value, Component(parts[1]).value, Component(parts[2]).value])
  }

  function Parse(s: string): (r: Result<Version, VersionError>)
    ensures r.Ok? ==> IsVersionTriple(r.value)
  {
    ParseParts(Split(Core(s), '.'))
  }

  /** The loop over the components. */
  method FillComponents(parts: seq<string>) returns (r: Result<Version, VersionError>)
    requires |parts| == 3
    ensures r == ParseParts(parts)
  {
    var v := new int[3](_ => 0);
    for i := 0 to 3
      invariant forall j | 0 <= j < i :: Component(parts[j]) == Some(v[j])
    {
      var n := ParseInt(parts[i]);
      if n.None? || n.value < 0 {
        return Err(BadComponent(parts[i]));
      }
      v[i] := n.value;
    }
    assert v[..] == [v[0], v[1], v[2]];
    return Ok(v[..]);
  }

  method ParseVersion(s: string) returns (r: Result<Version, VersionError>)
    ensures r == Parse(s)
  {
    var parts := Split(Core(s), '.');
    if |parts| != 3 {
      return Err(WantTriple);
    }
    r := FillComponents(parts);
  }

  /** Numeric precedence of the core triple: decided by the first difference from the left
      (section 11 of Semantic Versioning 2.0.0). */
  predicate Precedes(a: Version, b: Version) {
    exists i | 0 <= i < 3 :: a[i] < b[i] && forall j | 0 <= j < i :: a[j] == b[j]
  }

  method VersionLess(a: Version, b: Version) returns (less: bool)
    ensures less == Precedes(a, b)
  {
    for i := 0 to 3
      invariant forall j | 0 <= j < i :: a[j] == b[j]
    {
      if a[i] != b[i] {
        return a[i] < b[i];
      }
    }
    return false;
  }

  /** The order is total: of two versions one precedes the other, unless they are equal. */
  lemma PrecedenceIsTotal(a: Version, b: Version)
    ensures Precedes(a, b) <==> a != b && !Precedes(b, a)
  {
    if a == b {
    } else {
      FirstDifference(a, b);
    }
  }

  lemma FirstDifference(a: Version, b: Version)
    requires a != b
    ensures exists i | 0 <= i < 3 :: a[i] != b[i] && forall j | 0 <= j < i :: a[j] == b[j]
  {
    var i := if a[0] != b[0] then 0 else if a[1] != b[1] then 1 else 2;
    assert a == [a[0], a[1], a[2]] && b == [b[0], b[1], b[2]];
    assert a[i] != b[i];
  }

  /** An absent header is an old client and counts as 0.0.0. */
  function ExtractClientVersion(header: Option<string>): Result<Version, VersionError> {
    match header
    case None => Ok([0, 0, 0])
    case Some(s) => Parse(s)
  }

  function CheckClientVersion(header: Option<string>, floor: Version): Option<VersionError> {
    match ExtractClientVersion(header)
    case Err(e) => Some(e)
    case Ok(v) => if Precedes(v, floor) then Some(BelowFloor(v, floor)) else None
  }

  function ClientIsShedSafe(header: Option<string>): bool {
    var v := ExtractClientVersion(header);
    v.Ok? && !Precedes(v.value, MIN_SHED_CLIENT_VERSION)
  }

  predicate IsPreRelease(suffix: string) {
    suffix == "" || suffix[0] == '-'
  }

  lemma DigitsAvoid(n: int, c: char)
    requires 0 <= n && !IsDigit(c)
    ensures c !in Format(n)
  {
  }

  lemma CoreOfPrinted(text: string, suffix: string)
    requires '-' !in text && IsPreRelease(suffix)
    ensures Core(text + suffix) == text
  {
    if suffix == "" {
      assert text + suffix == text;
    } else {
      assert text + suffix == text + ['-'] + suffix[1..];
      IndexOfAt(text, '-', suffix[1..]);
    }
  }

  lemma PartsOfPrinted(v: Version)
    requires IsVersionTriple(v)
    ensures '-' !in FormatVersion(v)
    ensures Split(FormatVersion(v), '.') == [Format(v[0]), Format(v[1]), Format(v[2])]
  {
    var parts := [Format(v[0]), Format(v[1]), Format(v[2])];
    forall i | 0 <= i < 3
      ensures '-' !in parts[i] && '.' !in parts[i]
    {
      DigitsAvoid(v[i], '-');
      DigitsAvoid(v[i], '.');
    }
    assert Join(parts[2..], '.') == parts[2];
    assert Join(parts[1..], '.') == parts[1] + ['.'] + parts[2] by {
      assert parts[1..][1..] == parts[2..];
    }
    assert Join(parts, '.') == FormatVersion(v);
    SplitJoin(parts, '.');
  }

  /** Printing a triple, with or without a pre-release suffix, and parsing it back. */
  lemma ParsePrinted(v: Version, suffix: string)
    requires IsVersionTriple(v) && IsPreRelease(suffix)
    ensures Parse(FormatVersion(v) + suffix) == Ok(v)
  {
    PartsOfPrinted(v);
    CoreOfPrinted(FormatVersion(v), suffix);
    ParseFormat(v[0]);
    ParseFormat(v[1]);
    ParseFormat(v[2]);
    assert v == [v[0], v[1], v[2]];
  }

  /** A client reporting `v`, whatever its pre-release tag, passes the floor exactly when `v`
      does not precede it. */
  lemma FloorAgreesWithPrecedence(v: Version, suffix: string, floor: Version)
    requires IsVersionTriple(v) && IsPreRelease(suffix)
    ensures CheckClientVersion(Some(FormatVersion(v) + suffix), floor).None?
       <==> v == floor || Precedes(floor, v)
    ensures ClientIsShedSafe(Some(FormatVersion(v) + suffix))
       <==> v == MIN_SHED_CLIENT_VERSION || Precedes(MIN_SHED_CLIENT_VERSION, v)
  {
    ParsePrinted(v, suffix);
    PrecedenceIsTotal(v, floor);
    PrecedenceIsTotal(v, MIN_SHED_CLIENT_VERSION);
  }

  /** The shedding floor itself is safe; a client without a version header, or with one that does not
      parse, is not. */
  lemma ShedFloorIsShedSafe()
    ensures ClientIsShedSafe(Some("0.14.0"))
  {
    var v: Version := [0, 14, 0];
    assert Format(14) == "14" && Format(0) == "0";
    assert FormatVersion(v) + "" == "0.14.0";
    ParsePrinted(v, "");
  }

  /** The core of a version string ends before its first '-'. */
  lemma CoreIs(s: string)
    ensures '-' !in Core(s)
    ensures s == Core(s) || Core(s) + "-" <= s
  {
    match IndexOf(s, '-')
    case None =>
    case Some(i) => assert s[..i + 1] == s[..i] + "-";
  }

  /** What parses: a core of exactly three dot-separated int64 components, none negative. */
  lemma ParseIff(s: string, v: Version)
    ensures var parts := Split(Core(s), '.');
            Parse(s) == Ok(v) <==>
            |parts| == 3 && forall i | 0 <= i < 3 :: ParseInt(parts[i]) == Some(v[i]) && v[i] >= 0
  {
    PartsOk(Split(Core(s), '.'), v);
  }

  lemma PartsOk(parts: seq<string>, v: Version)
    ensures ParseParts(parts) == Ok(v) <==>
            |parts| == 3 && forall i | 0 <= i < 3 :: ParseInt(parts[i]) == Some(v[i]) && v[i] >= 0
  {
    assert v == [v[0], v[1], v[2]];
  }

  /** Otherwise the error is the number of components, or the leftmost bad one. */
  lemma ParseErrors(s: string) returns (i: nat)
    requires Parse(s).Err?
    ensures var parts := Split(Core(s), '.');
            && (|parts| != 3 ==> Parse(s) == Err(WantTriple))
            && (|parts| == 3 ==>
                  && i < 3 && Parse(s) == Err(BadComponent(parts[i]))
                  && (ParseInt(parts[i]) == None || ParseInt(parts[i]).value < 0)
                  && forall j | 0 <= j < i :: ParseInt(parts[j]) != None && ParseInt(parts[j]).value >= 0)
  {
    i := BadPart(Split(Core(s), '.'));
  }

  lemma BadPart(parts: seq<string>) returns (i: nat)
    requires ParseParts(parts).Err?
    ensures |parts| != 3 ==> ParseParts(parts) == Err(WantTriple)
    ensures |parts| == 3 ==>
              && i < 3 && ParseParts(parts) == Err(BadComponent(parts[i]))
              && (ParseInt(parts[i]) == None || ParseInt(parts[i]).value < 0)
              && forall j | 0 <= j < i :: ParseInt(parts[j]) != None && ParseInt(parts[j]).value >= 0
  {
    i := if |parts| != 3 then 0
         else if Component(parts[0]).None? then 0
         else if Component(parts[1]).None? then 1
         else 2;
  }

  /** Major first, then minor, then patch. */
  lemma PrecedesIff(a: Version, b: Version)
    ensures Precedes(a, b) <==>
            a[0] < b[0] || (a[0] == b[0] && (a[1] < b[1] || (a[1] == b[1] && a[2] < b[2])))
  {
    var i := if a[0] != b[0] then 0 else if a[1] != b[1] then 1 else 2;
    if a[i] < b[i] {
      assert forall j | 0 <= j < i :: a[j] == b[j];
    }
  }

  /** The gate at the floor: no header counts as 0.0.0, a malformed one is refused with its parse
      error, a well-formed one is compared. */
  lemma GateIs(header: Option<string>, floor: Version)
    ensures header == None ==>
              CheckClientVersion(header, floor) ==
              if Precedes([0, 0, 0], floor) then Some(BelowFloor([0, 0, 0], floor)) else None
    ensures header != None && Parse(header.value).Err? ==>
              CheckClientVersion(header, floor) == Some(Parse(header.value).error)
    ensures header != None && Parse(header.value).Ok? ==>
              var v := Parse(header.value).value;
              CheckClientVersion(header, floor) == if Precedes(v, floor) then Some(BelowFloor(v, floor)) else None
  {
  }

  /** A client is shed-safe exactly if it reports a well-formed version of at least 0.14.0. */
  lemma ShedSafeIff(header: Option<string>)
    ensures ClientIsShedSafe(header) <==>
            header != None && Parse(header.value).Ok? && !Precedes(Parse(header.value).value, [0, 14, 0])
  {
    PrecedesIff([0, 0, 0], [0, 14, 0]);
  }
}
