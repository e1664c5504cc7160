/** Positional numerals in the two bases of the key codec, most significant digit first. */
module Numerals {

  /** A base is a tag, not a number, so that every product below is by a constant. */
  datatype Base = B62 | B256 {
    function Size(): nat { if B62? then 62 else 256 }
    function Times(n: nat): nat { if B62? then n * 62 else n * 256 }
    function Over(n: nat): nat { if B62? then n / 62 else n / 256 }
    function Mod(n: nat): nat { if B62? then n % 62 else n % 256 }
  }

  function Pow(b: Base, e: nat): (p: nat)
    ensures p > 0
  {
    if e == 0 then 1 else b.Times(Pow(b, e - 1))
  }

  predicate DigitsBelow(ds: seq<nat>, b: Base) {
    forall i | 0 <= i < |ds| :: ds[i] < b.Size()
  }

  /** The number a digit sequence denotes. */
  function Value(ds: seq<nat>, b: Base): nat {
    if ds == [] then 0 else b.Times(Value(ds[..|ds| - 1], b)) + ds[|ds| - 1]
  }

  /** The last `len` digits of `n`. */
  function ToDigits(n: nat, len: nat, b: Base): (ds: seq<nat>)
    ensures |ds| == len && DigitsBelow(ds, b)
  {
    if len == 0 then [] else ToDigits(b.Over(n), len - 1, b) + [b.Mod(n)]
  }

  lemma {:induction false} ValueOfDigits(n: nat, len: nat, b: Base)
    requires n < Pow(b, len)
    ensures Value(ToDigits(n, len, b), b) == n
  {
    if len > 0 {
      ValueOfDigits(b.Over(n), len - 1, b);
      assert ToDigits(n, len, b)[..len - 1] == ToDigits(b.Over(n), len - 1, b);
    }
  }

  lemma {:induction false} ValueBound(ds: seq<nat>, b: Base)
    requires DigitsBelow(ds, b)
    ensures Value(ds, b) < Pow(b, |ds|)
  {
    if ds != [] {
      ValueBound(ds[..|ds| - 1], b);
    }
  }

  lemma DivMod(b: Base, q: nat, d: nat)
    requires d < b.Size()
    ensures b.Over(b.Times(q) + d) == q && b.Mod(b.Times(q) + d) == d
  {
  }

  lemma {:induction false} DigitsOfValue(ds: seq<nat>, b: Base)
    requires DigitsBelow(ds, b)
    ensures ToDigits(Value(ds, b), |ds|, b) == ds
  {
    if ds != [] {
      var front, d := ds[..|ds| - 1], ds[|ds| - 1];
      DigitsOfValue(front, b);
      DivMod(b, Value(front, b), d);
      assert ds == front + [d];
    }
  }

  lemma {:induction false} ZeroDigits(len: nat, b: Base)
    ensures ToDigits(0, len, b) == seq(len, _ => 0)
  {
    if len > 0 {
      ZeroDigits(len - 1, b);
    }
  }

  /** The shortest numeral, with no leading zero: big.Int.Bytes in base 256. */
  function Shortest(n: nat, b: Base): (ds: seq<nat>)
    ensures DigitsBelow(ds, b)
  {
    if n == 0 then [] else Shortest(b.Over(n), b) + [b.Mod(n)]
  }

  /** A number needs more than `len` digits exactly when it reaches the base's `len`-th power;
      otherwise its shortest numeral padded with zeros is its fixed-width one. */
  lemma {:induction false} ShortestIsFixedWidth(n: nat, len: nat, b: Base)
    ensures |Shortest(n, b)| > len <==> n >= Pow(b, len)
    ensures n < Pow(b, len) ==>
              ToDigits(n, len, b) == seq(len - |Shortest(n, b)|, _ => 0) + Shortest(n, b)
  {
    if n == 0 {
      ZeroDigits(len, b);
    } else if len > 0 {
      ShortestIsFixedWidth(b.Over(n), len - 1, b);
      if n < Pow(b, len) {
        assert len - |Shortest(n, b)| == len - 1 - |Shortest(b.Over(n), b)|;
      }
    }
  }

  lemma PowIs(b: Base, e: nat)
    ensures Pow(b, 0) == 1
    ensures Pow(b, e + 1) == (if b == B62 then 62 else 256) * Pow(b, e)
  {
  }

  /** The first digit weighs most. */
  lemma {:induction false} ValueIs(d: nat, rest: seq<nat>, b: Base)
    ensures Value([], b) == 0
    ensures Value([d] + rest, b) == d * Pow(b, |rest|) + Value(rest, b)
  {
    if rest == [] {
      assert ([d] + rest)[..0] == [];
    } else {
      var n := |rest| - 1;
      ValueIs(d, rest[..n], b);
      assert ([d] + rest)[..|rest|] == [d] + rest[..n];
      Distribute(b, d, Pow(b, n), Value(rest[..n], b));
    }
  }

  lemma Distribute(b: Base, d: nat, p: nat, v: nat)
    ensures b.Times(d * p + v) == d * b.Times(p) + b.Times(v)
  {
  }

  lemma PowBy4(b: Base, e: nat)
    ensures Pow(b, e + 4) == (if b.B62? then 14776336 * Pow(b, e) else 4294967296 * Pow(b, e))
  {
    assert Pow(b, e + 2) == b.Times(b.Times(Pow(b, e)));
  }

  lemma PowBy8(b: Base, e: nat)
    ensures Pow(b, e + 8) == (if b.B62? then 218340105584896 * Pow(b, e) else 18446744073709551616 * Pow(b, e))
  {
    PowBy4(b, e);
    PowBy4(b, e + 4);
  }

  lemma PowersOf62()
    ensures Pow(B62, 16) == 47672401706823533450263330816
    ensures Pow(B62, 40) == 496212362459367066914366580195701544604991251555593230875525121862270976
  {
    PowBy8(B62, 0);
    PowBy8(B62, 8);
    PowBy8(B62, 16);
    PowBy8(B62, 24);
    PowBy8(B62, 32);
  }

  lemma PowersOf256()
    ensures Pow(B256, 12) == 79228162514264337593543950336
    ensures Pow(B256, 32) == 115792089237316195423570985008687907853269984665640564039457584007913129639936
  {
    PowBy8(B256, 0);
    PowBy4(B256, 8);
    PowBy8(B256, 8);
    PowBy8(B256, 16);
    PowBy8(B256, 24);
  }

  /** How the widths of the key parts were chosen: the smallest that fit. */
  lemma KeyWidths()
    ensures Pow(B256, 12) <= Pow(B62, 17) && Pow(B62, 16) < Pow(B256, 12)
    ensures Pow(B256, 32) <= Pow(B62, 43) && Pow(B62, 42) < Pow(B256, 32)
  {
    PowersOf62();
    PowersOf256();
    assert Pow(B62, 17) == 62 * Pow(B62, 16);
    assert Pow(B62, 42) == 3844 * Pow(B62, 40);
    assert Pow(B62, 43) == 62 * Pow(B62, 42);
  }
}
