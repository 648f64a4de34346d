/** Numbers as digit lists in any base, and the conversion between two bases that
    carries leading zeros over one by one. */
module Positional {

  /** The number written by `ds`, least significant digit first. */
  function Value(ds: seq<nat>, base: nat): nat {
    if ds == [] then 0 else ds[0] + base * Value(ds[1..], base)
  }

  /** The digits of n, least significant first, without superfluous zeros. */
  function Digits(n: nat, base: nat): (ds: seq<nat>)
    requires base >= 2
    ensures forall d :: d in ds ==> d < base
    ensures ds != [] <==> n > 0
    ensures ds != [] ==> ds[|ds| - 1] != 0
  {
    if n == 0 then [] else
    DivShrinks(n, base);
    [n % base] + Digits(n / base, base)
  }

  lemma DivShrinks(n: nat, base: nat)
    requires base >= 2 && n > 0
    ensures n / base < n && n == base * (n / base) + n % base
    ensures n / base == 0 ==> n % base == n
  {
  }

  lemma Scaled(base: int, k: int)
    requires base >= 0
    ensures k >= 1 ==> base * k >= base
    ensures k <= -1 ==> base * k <= -base
    ensures base * k > 0 ==> k > 0
  {
  }

  lemma DivMod(d: nat, q: nat, base: nat)
    requires base >= 2 && d < base
    ensures (d + base * q) % base == d && (d + base * q) / base == q
  {
    var n := d + base * q;
    assert n == base * (n / base) + n % base;
    Scaled(base, n / base - q);
    assert base * (n / base - q) == base * (n / base) - base * q;
  }

  function Reverse<T>(s: seq<T>): (r: seq<T>)
    ensures |r| == |s| && forall i :: 0 <= i < |s| ==> r[i] == s[|s| - 1 - i]
  {
    if s == [] then [] else Reverse(s[1..]) + [s[0]]
  }

  lemma ReverseElems<T>(s: seq<T>)
    ensures forall x :: x in Reverse(s) <==> x in s
    ensures Reverse(Reverse(s)) == s
  {
    forall x | x in s ensures x in Reverse(s) {
      var i :| 0 <= i < |s| && s[i] == x;
      assert Reverse(s)[|s| - 1 - i] == x;
    }
  }

  /** The number written by `ds`, most significant digit first. */
  function BigEndian(ds: seq<nat>, base: nat): nat {
    Value(Reverse(ds), base)
  }

  lemma BigEndianAppends(ds: seq<nat>, d: nat, base: nat)
    ensures BigEndian(ds + [d], base) == base * BigEndian(ds, base) + d
  {
    assert Reverse(ds + [d]) == [d] + Reverse(ds);
  }

  lemma {:induction false} DigitsUnique(ds: seq<nat>, base: nat)
    requires base >= 2 && ds != [] && ds[|ds| - 1] != 0
    requires forall d :: d in ds ==> d < base
    ensures Value(ds, base) > 0 && Digits(Value(ds, base), base) == ds
  {
    assert ds == [ds[0]] + ds[1..] && ds[0] in ds;
    DivMod(ds[0], Value(ds[1..], base), base);
    if |ds| > 1 {
      assert forall d :: d in ds[1..] ==> d in ds;
      DigitsUnique(ds[1..], base);
      Scaled(Value(ds[1..], base), base);
    }
  }

  lemma {:induction false} ValueOfDigits(n: nat, base: nat)
    requires base >= 2
    ensures Value(Digits(n, base), base) == n
  {
    if n > 0 {
      DivShrinks(n, base);
      ValueOfDigits(n / base, base);
    }
  }

  lemma {:induction false} ValueDropsZeros(ds: seq<nat>, k: nat, base: nat)
    requires base >= 1
    ensures Value(ds + Zeros(k), base) == Value(ds, base)
    decreases |ds| + k
  {
    if ds != [] {
      assert (ds + Zeros(k))[1..] == ds[1..] + Zeros(k);
      ValueDropsZeros(ds[1..], k, base);
    } else if k > 0 {
      assert ds + Zeros(k) == Zeros(k) && Zeros(k)[1..] == ds + Zeros(k - 1);
      ValueDropsZeros(ds, k - 1, base);
    } else {
      assert ds + Zeros(k) == ds;
    }
  }

  function Zeros(n: nat): seq<nat> {
    seq(n, _ => 0)
  }

  predicate AllZero(ds: seq<nat>) {
    forall i :: 0 <= i < |ds| ==> ds[i] == 0
  }

  // ---- One step: times `mul` plus `carry` -----------------------------------

  /** The digits the source keeps for n: at least one, and no zero on top. */
  function Rep(n: nat, base: nat): seq<nat>
    requires base >= 2
  {
    if n == 0 then [0] else Digits(n, base)
  }

  /** Adds carry + mul * ds digit by digit, then appends what is left over. */
  function MulAdd(ds: seq<nat>, mul: nat, carry: nat, base: nat): (r: seq<nat>)
    requires base >= 2
    ensures |r| >= |ds|
    ensures forall d :: d in r ==> d < base
    decreases ds
  {
    if ds == [] then Digits(carry, base)
    else
      var x := ds[0] * mul + carry;
      [x % base] + MulAdd(ds[1..], mul, x / base, base)
  }

  lemma {:induction false} MulAddValue(ds: seq<nat>, mul: nat, carry: nat, base: nat)
    requires base >= 2
    ensures Value(MulAdd(ds, mul, carry, base), base) == mul * Value(ds, base) + carry
    decreases ds
  {
    if ds == [] {
      ValueOfDigits(carry, base);
    } else {
      var x, rest := ds[0] * mul + carry, Value(ds[1..], base);
      MulAddValue(ds[1..], mul, x / base, base);
      calc {
        Value(MulAdd(ds, mul, carry, base), base);
        x % base + base * (mul * rest + x / base);
        { Spread(base, mul, rest, x); }
        mul * (ds[0] + base * rest) + carry;
      }
    }
  }

  lemma Spread(base: nat, mul: nat, rest: nat, x: nat)
    requires base >= 1
    ensures x % base + base * (mul * rest + x / base) == x + mul * (base * rest)
  {
  }

  lemma {:induction false} MulAddTop(ds: seq<nat>, mul: nat, carry: nat, base: nat)
    requires base >= 2 && mul >= 1 && ds != []
    requires ds[|ds| - 1] != 0 || (|ds| == 1 && carry > 0)
    ensures var r := MulAdd(ds, mul, carry, base); r[|r| - 1] != 0
    decreases ds
  {
    var x := ds[0] * mul + carry;
    if |ds| == 1 {
      Scaled(mul, ds[0]);
      DivShrinks(x, base);
      assert ds[1..] == [];
    } else {
      MulAddTop(ds[1..], mul, x / base, base);
    }
  }

  lemma RepValue(n: nat, base: nat)
    requires base >= 2
    ensures Value(Rep(n, base), base) == n
  {
    if n == 0 {
      assert Value([0], base) == 0 + base * Value([], base);
    } else {
      ValueOfDigits(n, base);
    }
  }

  lemma RepUnique(ds: seq<nat>, base: nat)
    requires base >= 2 && ds != [] && (forall d :: d in ds ==> d < base)
    requires ds == [0] || ds[|ds| - 1] != 0
    ensures ds == Rep(Value(ds, base), base)
  {
    if ds == [0] {
      RepValue(0, base);
    } else {
      DigitsUnique(ds, base);
    }
  }

  /** One step of either loop turns the digits of n into those of mul * n + d. */
  lemma StepsTo(n: nat, mul: nat, d: nat, base: nat)
    requires base >= 2 && mul >= 1
    ensures MulAdd(Rep(n, base), mul, d, base) == Rep(mul * n + d, base)
  {
    var ds := Rep(n, base);
    RepValue(n, base);
    MulAddValue(ds, mul, d, base);
    if n == 0 && d == 0 {
      assert ds[1..] == [];
    } else {
      MulAddTop(ds, mul, d, base);
    }
    RepUnique(MulAdd(ds, mul, d, base), base);
  }

  // ---- Conversion ----------------------------------------------------------

  function LeadingZeros(ds: seq<nat>): (z: nat)
    ensures z <= |ds|
    ensures forall i :: 0 <= i < z ==> ds[i] == 0
    ensures z < |ds| ==> ds[z] != 0
  {
    if ds == [] || ds[0] != 0 then 0 else 1 + LeadingZeros(ds[1..])
  }

  /** Leading zeros are carried over one by one, the rest by its value. */
  function Convert(ds: seq<nat>, from: nat, to: nat): (r: seq<nat>)
    requires to >= 2
    ensures forall d :: d in r ==> d < to
  {
    var top := Rep(BigEndian(ds, from), to);
    ReverseElems(top);
    Zeros(LeadingZeros(ds)) + Reverse(top)
  }

  lemma BigEndianDropsZeros(z: nat, rest: seq<nat>, base: nat)
    requires base >= 1
    ensures BigEndian(Zeros(z) + rest, base) == BigEndian(rest, base)
  {
    assert Reverse(Zeros(z) + rest) == Reverse(rest) + Zeros(z);
    ValueDropsZeros(Reverse(rest), z, base);
  }

  lemma {:induction false} LeadingZerosOf(z: nat, rest: seq<nat>)
    requires rest == [] || rest[0] != 0
    ensures LeadingZeros(Zeros(z) + rest) == z
  {
    if z == 0 {
      assert Zeros(z) + rest == rest;
    } else {
      assert (Zeros(z) + rest)[1..] == Zeros(z - 1) + rest;
      LeadingZerosOf(z - 1, rest);
    }
  }

  lemma DigitsOfTrimmed(rest: seq<nat>, base: nat)
    requires base >= 2 && rest != [] && rest[0] != 0
    requires forall d :: d in rest ==> d < base
    ensures BigEndian(rest, base) > 0 && Reverse(Digits(BigEndian(rest, base), base)) == rest
  {
    ReverseElems(rest);
    DigitsUnique(Reverse(rest), base);
  }

  /** What remains after the leading zeros, given that something does. */
  lemma ConvertOf(ds: seq<nat>, from: nat, to: nat)
    requires from >= 2 && to >= 2 && !AllZero(ds)
    requires forall d :: d in ds ==> d < from
    ensures var z := LeadingZeros(ds);
            var n := BigEndian(ds, from);
            && z < |ds| && n > 0
            && ds == Zeros(z) + Reverse(Digits(n, from))
            && Convert(ds, from, to) == Zeros(z) + Reverse(Digits(n, to))
  {
    var z := LeadingZeros(ds);
    assert z < |ds|;
    var rest := ds[z..];
    assert ds == Zeros(z) + rest && rest[0] == ds[z];
    BigEndianDropsZeros(z, rest, from);
    assert forall d :: d in rest ==> d in ds;
    DigitsOfTrimmed(rest, from);
  }

  lemma ConvertBack(z: nat, n: nat, from: nat, to: nat)
    requires from >= 2 && to >= 2 && n > 0
    ensures Convert(Zeros(z) + Reverse(Digits(n, from)), from, to) == Zeros(z) + Reverse(Digits(n, to))
  {
    var rest := Reverse(Digits(n, from));
    LeadingZerosOf(z, rest);
    BigEndianDropsZeros(z, rest, from);
    ReverseElems(Digits(n, from));
    ValueOfDigits(n, from);
  }

  lemma AllZeroConvert(ds: seq<nat>, from: nat, to: nat)
    requires from >= 2 && to >= 2 && AllZero(ds)
    ensures Convert(ds, from, to) == Zeros(|ds| + 1)
  {
    assert ds == Zeros(|ds|) + [];
    LeadingZerosOf(|ds|, []);
    BigEndianDropsZeros(|ds|, [], from);
    assert Zeros(|ds|) + Reverse([0]) == Zeros(|ds| + 1);
  }

  /** Converting there and back is the identity exactly when some digit is not 0:
      an all-zero list, the empty one included, comes back two digits longer. */
  lemma RoundTripIff(ds: seq<nat>, from: nat, to: nat)
    requires from >= 2 && to >= 2 && forall d :: d in ds ==> d < from
    ensures Convert(Convert(ds, from, to), to, from) == ds <==> !AllZero(ds)
    ensures AllZero(Convert(ds, from, to)) <==> AllZero(ds)
  {
    if AllZero(ds) {
      AllZeroConvert(ds, from, to);
      AllZeroConvert(Zeros(|ds| + 1), to, from);
      assert |Zeros(|ds| + 2)| == |ds| + 2;
    } else {
      ConvertOf(ds, from, to);
      var z, n := LeadingZeros(ds), BigEndian(ds, from);
      ConvertBack(z, n, to, from);
      assert Convert(ds, from, to)[z] == Digits(n, to)[|Digits(n, to)| - 1];
    }
  }
}
