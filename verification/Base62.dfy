/** Fixed-width base62 over big integers. */
module Base62 {
  import opened Wrappers
  import opened Words
  import opened Numerals

  /** A Go string is a sequence of bytes; a character here stands for one of them. */
  type GoString = s: string | forall i | 0 <= i < |s| :: s[i] as int < 256

  const ALPHABET: string :=
    "0123456789" + "ABCDEFGHIJKLMNOPQRSTUVWXYZ" + "abcdefghijklmnopqrstuvwxyz"

  datatype DecodeError = EmptyText | InvalidChar(c: char) | TooLong

  function DigitChar(d: nat): (c: char)
    requires d < 62
  {
    if d < 10 then '0' + d as char
    else if d < 36 then 'A' + (d - 10) as char
    else 'a' + (d - 36) as char
  }

  function DigitOf(c: char): (d: Option<nat>)
    ensures d.Some? ==> d.value < 62
  {
    if '0' <= c <= '9' then Some((c - '0') as nat)
    else if 'A' <= c <= 'Z' then Some((c - 'A') as nat + 10)
    else if 'a' <= c <= 'z' then Some((c - 'a') as nat + 36)
    else None
  }

  /** The arithmetic digits are the literal alphabet. */
  lemma AlphabetIsDigitChars()
    ensures |ALPHABET| == 62
    ensures forall d | 0 <= d < 62 :: ALPHABET[d] == DigitChar(d)
  {
    forall d | 0 <= d < 62
      ensures ALPHABET[d] == DigitChar(d)
    {
      if d < 10 {
        assert ALPHABET[d] == "0123456789"[d];
      } else if d < 36 {
        assert ALPHABET[d] == "ABCDEFGHIJKLMNOPQRSTUVWXYZ"[d - 10];
      } else {
        assert ALPHABET[d] == "abcdefghijklmnopqrstuvwxyz"[d - 36];
      }
    }
  }

  function Chars(ds: seq<nat>): (s: string)
    requires DigitsBelow(ds, B62)
    ensures |s| == |ds| && forall i | 0 <= i < |s| :: s[i] == DigitChar(ds[i])
  {
    seq(|ds|, i requires 0 <= i < |ds| => DigitChar(ds[i]))
  }

  /** The leftmost character outside the alphabet. */
  function FirstInvalid(s: string): Option<char> {
    if s == "" then None
    else if DigitOf(s[0]).None? then Some(s[0])
    else FirstInvalid(s[1..])
  }

  predicate AllDigits(s: string) {
    forall i | 0 <= i < |s| :: DigitOf(s[i]).Some?
  }

  lemma {:induction false} FirstInvalidAt(s: string, i: nat)
    requires i < |s| && AllDigits(s[..i]) && DigitOf(s[i]).None?
    ensures FirstInvalid(s) == Some(s[i])
  {
    if i > 0 {
      assert DigitOf(s[..i][0]).Some?;
      assert s[1..][..i - 1] == s[..i][1..];
      FirstInvalidAt(s[1..], i - 1);
    }
  }

  lemma {:induction false} NoneInvalid(s: string)
    ensures FirstInvalid(s).None? <==> AllDigits(s)
  {
    if s != "" {
      NoneInvalid(s[1..]);
      assert AllDigits(s) <==> DigitOf(s[0]).Some? && AllDigits(s[1..]) by {
        if DigitOf(s[0]).Some? && AllDigits(s[1..]) {
          assert forall i | 0 < i < |s| :: s[i] == s[1..][i - 1];
        }
      }
    }
  }

  function DigitSeq(s: string): (ds: seq<nat>)
    requires AllDigits(s)
    ensures |ds| == |s| && DigitsBelow(ds, B62)
    ensures forall i | 0 <= i < |s| :: ds[i] == DigitOf(s[i]).value
  {
    seq(|s|, i requires 0 <= i < |s| => DigitOf(s[i]).value)
  }

  /** `None` is the panic "maxLen too small for source bytes". */
  function Encode(src: seq<Byte>, maxLen: nat): Option<string> {
    if Value(src, B256) < Pow(B62, maxLen) then Some(Chars(ToDigits(Value(src, B256), maxLen, B62)))
    else None
  }

  function Decode(s: string, size: nat): Result<seq<Byte>, DecodeError> {
    if s == "" then Err(EmptyText)
    else if !AllDigits(s) then
      NoneInvalid(s);
      Err(InvalidChar(FirstInvalid(s).value))
    else
      var n := Value(DigitSeq(s), B62);
      if n >= Pow(B256, size) then Err(TooLong) else Ok(ToDigits(n, size, B256))
  }

  /** A buffer right of `len` holds the digits of `n` that are no longer in `num`; left of it, zeros. */
  ghost predicate Filled(n: nat, num: nat, len: nat, buf: string) {
    && len <= |buf|
    && (num < Pow(B62, len) <==> n < Pow(B62, |buf|))
    && Chars(ToDigits(n, |buf|, B62)) == Chars(ToDigits(num, len, B62)) + buf[len..]
    && buf[..len] == Chars(seq(len, _ => 0))
  }

  lemma FillOne(n: nat, num: nat, len: nat, buf: string)
    requires Filled(n, num, len, buf) && len > 0
    ensures Filled(n, num / 62, len - 1, buf[len - 1 := DigitChar(num % 62)])
  {
  }

  lemma FilledUp(n: nat, num: nat, len: nat, buf: string)
    requires Filled(n, num, len, buf) && (len == 0 || num == 0)
    ensures if num > 0 then n >= Pow(B62, |buf|) else n < Pow(B62, |buf|) && buf == Chars(ToDigits(n, |buf|, B62))
  {
    ZeroDigits(len, B62);
    assert buf == buf[..len] + buf[len..];
  }

  method AlphabetAt(d: nat) returns (c: char)
    requires d < 62
    ensures c == DigitChar(d)
  {
    AlphabetIsDigitChars();
    return ALPHABET[d];
  }

  /** Digits filled in from the right; the loop stops early once the number is exhausted. */
  method FillDigits(n: nat, buf: array<char>) returns (left: nat)
    requires Filled(n, n, buf.Length, buf[..])
    modifies buf
    ensures left > 0 <==> n >= Pow(B62, buf.Length)
    ensures left == 0 ==> buf[..] == Chars(ToDigits(n, buf.Length, B62))
  {
    var num := n;
    var i := buf.Length - 1;
    while i >= 0 && num != 0
      invariant num >= 0 && -1 <= i < buf.Length
      invariant Filled(n, num, i + 1, buf[..])
    {
      var mod := num % 62;
      FillOne(n, num, i + 1, buf[..]);
      num := num / 62;
      buf[i] := AlphabetAt(mod);
      i := i - 1;
    }
    FilledUp(n, num, i + 1, buf[..]);
    return num;
  }

  method EncodeBase62(src: seq<Byte>, maxLen: nat) returns (r: Option<string>)
    ensures r == Encode(src, maxLen)
  {
    var zero := AlphabetAt(0);
    var buf := new char[maxLen](_ => zero);
    var left := FillDigits(Value(src, B256), buf);
    if left > 0 {
      return None;
    }
    return Some(buf[..]);
  }

  /** What the lookup table holds for byte `b`; 0xFF marks a byte outside the alphabet. */
  function TableEntry(b: Byte): nat {
    match DigitOf(b as char) case Some(d) => d case None => 0xFF
  }

  lemma ByteOfDigit(d: nat)
    requires d < 62
    ensures DigitChar(d) as int < 256
    ensures forall b: Byte :: b == DigitChar(d) as int <==> TableEntry(b) == d
  {
  }

  method InitBase62Indices() returns (table: array<int>)
    ensures fresh(table) && table.Length == 256
    ensures forall b: Byte :: table[b] == TableEntry(b)
  {
    table := new int[256](_ => 0xFF);
    for i := 0 to 62
      invariant forall b: Byte ::
          table[b] == if TableEntry(b) < i then TableEntry(b) else 0xFF
    {
      AlphabetIsDigitChars();
      ByteOfDigit(i);
      table[ALPHABET[i] as int] := i;
    }
  }

  method DecodeBase62(s: GoString, size: nat) returns (r: Result<seq<Byte>, DecodeError>)
    ensures r == Decode(s, size)
  {
    if s == "" {
      return Err(EmptyText);
    }
    var indices := InitBase62Indices();
    var num := 0;
    for i := 0 to |s|
      invariant AllDigits(s[..i])
      invariant num == Value(DigitSeq(s[..i]), B62)
    {
      var val := indices[s[i] as int];
      assert val == TableEntry(s[i] as int);
      if val == 0xFF {
        FirstInvalidAt(s, i);
        return Err(InvalidChar(s[i]));
      }
      assert DigitSeq(s[..i + 1])[..i] == DigitSeq(s[..i]);
      num := num * 62 + val;
    }
    assert s[..|s|] == s;
    r := PadBytes(num, size);
  }

  /** The size check and left padding at the end of the decoder. */
  method PadBytes(num: nat, size: nat) returns (r: Result<seq<Byte>, DecodeError>)
    ensures r == if num >= Pow(B256, size) then Err(TooLong) else Ok(ToDigits(num, size, B256))
  {
    ShortestIsFixedWidth(num, size, B256);
    var bytes := Shortest(num, B256);
    if |bytes| > size {
      return Err(TooLong);
    }
    if |bytes| < size {
      var padding := seq(size - |bytes|, _ => 0);
      bytes := padding + bytes;
    }
    assert bytes == ToDigits(num, size, B256);
    return Ok(bytes);
  }

  lemma DigitSeqOfChars(ds: seq<nat>)
    requires DigitsBelow(ds, B62)
    ensures AllDigits(Chars(ds)) && DigitSeq(Chars(ds)) == ds
  {
  }

  lemma CharsOfDigitSeq(s: string)
    requires AllDigits(s)
    ensures Chars(DigitSeq(s)) == s
  {
  }

  /** Bytes that fit the width survive, except that nothing decodes from width zero. */
  lemma DecodeOfEncoded(src: seq<Byte>, maxLen: nat)
    requires Value(src, B256) < Pow(B62, maxLen)
    ensures Decode(Encode(src, maxLen).value, |src|) ==
            if maxLen > 0 then Ok(src) else Err(EmptyText)
  {
    var n := Value(src, B256);
    DigitSeqOfChars(ToDigits(n, maxLen, B62));
    ValueOfDigits(n, maxLen, B62);
    ValueBound(src, B256);
    DigitsOfValue(src, B256);
  }

  /** The digits in ASCII order: decimal digits, upper case, lower case. */
  lemma DigitsAre(d: nat)
    requires d < 62
    ensures DigitChar(d) as int == if d < 10 then 48 + d else if d < 36 then 65 + (d - 10) else 97 + (d - 36)
    ensures DigitOf(DigitChar(d)) == Some(d)
    ensures forall c: char :: DigitOf(c) == None <==> !('0' <= c <= '9' || 'A' <= c <= 'Z' || 'a' <= c <= 'z')
  {
  }

  /** The encoding is the one string of its width that denotes the same number, most significant
      digit first; there is one unless the number reaches 62^maxLen. */
  lemma EncodeIs(src: seq<Byte>, maxLen: nat)
    ensures Encode(src, maxLen) == None <==> Value(src, B256) >= Pow(B62, maxLen)
    ensures Encode(src, maxLen) != None ==>
              var s := Encode(src, maxLen).value;
              && |s| == maxLen && AllDigits(s)
              && Value(DigitSeq(s), B62) == Value(src, B256)
  {
    var n := Value(src, B256);
    if n < Pow(B62, maxLen) {
      DigitSeqOfChars(ToDigits(n, maxLen, B62));
      ValueOfDigits(n, maxLen, B62);
    }
  }

  /** Why decoding fails: the empty string, the leftmost foreign character, or too large a value; and
      what it yields otherwise. */
  lemma DecodeIs(s: string, size: nat)
    ensures Decode(s, size) == Err(EmptyText) <==> s == ""
    ensures s != "" && !AllDigits(s) ==>
              exists i | 0 <= i < |s| ::
                Decode(s, size) == Err(InvalidChar(s[i])) && DigitOf(s[i]) == None && AllDigits(s[..i])
    ensures s != "" && AllDigits(s) && Value(DigitSeq(s), B62) >= Pow(B256, size) ==> Decode(s, size) == Err(TooLong)
    ensures s != "" && AllDigits(s) && Value(DigitSeq(s), B62) < Pow(B256, size) ==>
              && Decode(s, size).Ok? && |Decode(s, size).value| == size
              && Value(Decode(s, size).value, B256) == Value(DigitSeq(s), B62)
  {
    if s != "" && AllDigits(s) && Value(DigitSeq(s), B62) < Pow(B256, size) {
      ValueOfDigits(Value(DigitSeq(s), B62), size, B256);
    }
    if s != "" && !AllDigits(s) {
      var i := LeftmostInvalid(s);
      FirstInvalidAt(s, i);
      NoneInvalid(s);
    }
  }

  lemma {:induction false} LeftmostInvalid(s: string) returns (i: nat)
    requires !AllDigits(s)
    ensures i < |s| && DigitOf(s[i]) == None && AllDigits(s[..i])
  {
    if DigitOf(s[0]) == None {
      i := 0;
    } else {
      var j := LeftmostInvalid(s[1..]);
      i := j + 1;
      assert forall k | 0 < k < i :: s[..i][k] == s[1..][..j][k - 1];
    }
  }

  /** Whatever decodes is the encoding of what it decoded to, at its own width. */
  lemma EncodeOfDecoded(s: string, size: nat)
    requires Decode(s, size).Ok?
    ensures |Decode(s, size).value| == size
    ensures Encode(Decode(s, size).value, |s|) == Some(s)
  {
    var ds := DigitSeq(s);
    ValueOfDigits(Value(ds, B62), size, B256);
    ValueBound(ds, B62);
    DigitsOfValue(ds, B62);
    CharsOfDigitSeq(s);
  }

  /** Decoding succeeds on exactly the non-empty encodings of byte strings of the wanted length. */
  lemma DecodeAccepts(s: string, size: nat)
    ensures Decode(s, size).Ok? <==>
            s != "" && exists src: seq<Byte> :: |src| == size && Encode(src, |s|) == Some(s)
  {
    if Decode(s, size).Ok? {
      EncodeOfDecoded(s, size);
    }
    if src: seq<Byte> :| |src| == size && Encode(src, |s|) == Some(s) {
      DecodeOfEncoded(src, |s|);
    }
  }

  /** The encoder panics on exactly the numbers its width cannot hold, so a width with
      256^|src| <= 62^maxLen never panics; a smaller one panics on the all-ones bytes. */
  lemma EncodePanics(src: seq<Byte>, maxLen: nat)
    ensures Pow(B256, |src|) <= Pow(B62, maxLen) ==> Encode(src, maxLen).Some?
    ensures Pow(B256, |src|) > Pow(B62, maxLen) ==>
              Encode(ToDigits(Pow(B256, |src|) - 1, |src|, B256), maxLen).None?
  {
    ValueBound(src, B256);
    ValueOfDigits(Pow(B256, |src|) - 1, |src|, B256);
  }
}
