/** Base58 as the source computes it, carry by carry, against positional notation;
    and the did:key form of a public key that rests on it. */
module Base58 {
  import opened Common
  import opened Positional

  type Byte = x: nat | x < 256

  const DIGITS := "123456789"
  const UPPER := "ABCDEFGHJKLMNPQRSTUVWXYZ"
  const LOWER := "abcdefghijkmnopqrstuvwxyz"
  /** No 0, O, I or l. */
  const ALPHABET := DIGITS + UPPER + LOWER

  datatype Fault = BadCharacter | NotBase58btc | NotEd25519

  // ---- Characters ----------------------------------------------------------

  ghost predicate Ascending(s: string) {
    forall i :: 0 <= i < |s| - 1 ==> s[i] < s[i + 1]
  }

  lemma DigitsAscend()
    ensures |DIGITS| == 9 && Ascending(DIGITS) && DIGITS[0] == '1' && DIGITS[8] == '9'
  {
  }

  lemma UpperAscends()
    ensures |UPPER| == 24 && Ascending(UPPER) && UPPER[0] == 'A' && UPPER[23] == 'Z'
  {
  }

  lemma LowerAscends()
    ensures |LOWER| == 25 && Ascending(LOWER) && LOWER[0] == 'a'
  {
  }

  lemma {:induction false} AscendingDistinct(s: string, i: nat, j: nat)
    requires Ascending(s) && i < j < |s|
    ensures s[i] < s[j]
    decreases j
  {
    assert s[j - 1] < s[j - 1 + 1];
    if i < j - 1 {
      AscendingDistinct(s, i, j - 1);
    }
  }

  ghost predicate IsAlphabet(a: string) {
    |a| == 58 && NoDup(a)
  }

  lemma AlphabetIsOne()
    ensures IsAlphabet(ALPHABET) && ALPHABET[0] == '1'
  {
    DigitsAscend();
    UpperAscends();
    LowerAscends();
    assert Ascending(ALPHABET);
    forall i, j | 0 <= i < j < |ALPHABET| ensures ALPHABET[i] != ALPHABET[j] {
      AscendingDistinct(ALPHABET, i, j);
    }
  }

  lemma UpperIs(i: nat)
    requires i < 24
    ensures |UPPER| == 24
    ensures UPPER[i] == if i < 8 then 'A' + i as char else if i < 13 then 'J' + (i - 8) as char
                        else 'P' + (i - 13) as char
  {
  }

  lemma LowerIs(i: nat)
    requires i < 25
    ensures |LOWER| == 25 && LOWER[i] == if i < 11 then 'a' + i as char else 'm' + (i - 11) as char
  {
  }

  lemma DigitsAre(i: nat)
    requires i < 9
    ensures |DIGITS| == 9 && DIGITS[i] == '1' + i as char
  {
  }

  /** The character of each digit: 1 to 9, then the capitals but I and O, then the small
      letters but l. */
  lemma AlphabetIs(i: nat)
    requires i < 58
    ensures |ALPHABET| == 58
    ensures ALPHABET[i] ==
            if i < 9 then '1' + i as char
            else if i < 17 then 'A' + (i - 9) as char
            else if i < 22 then 'J' + (i - 17) as char
            else if i < 33 then 'P' + (i - 22) as char
            else if i < 44 then 'a' + (i - 33) as char
            else 'm' + (i - 44) as char
  {
    DigitsAre(0);
    UpperIs(0);
    LowerIs(0);
    if i < 9 {
      DigitsAre(i);
    } else if i < 33 {
      UpperIs(i - 9);
    } else {
      LowerIs(i - 33);
    }
  }

  function IndexIn(alphabet: string, c: char): (i: int)
    ensures -1 <= i < |alphabet|
    ensures i >= 0 ==> alphabet[i] == c
    ensures i < 0 <==> c !in alphabet
  {
    if alphabet == "" then -1
    else if alphabet[0] == c then 0
    else
      assert alphabet == [alphabet[0]] + alphabet[1..];
      var i := IndexIn(alphabet[1..], c);
      if i < 0 then -1 else i + 1
  }

  predicate Spells(a: string, s: string) {
    forall i :: 0 <= i < |s| ==> s[i] in a
  }

  predicate Below(ds: seq<nat>, base: nat) {
    forall i :: 0 <= i < |ds| ==> ds[i] < base
  }

  function Chars(a: string, ds: seq<nat>): (s: string)
    requires Below(ds, |a|)
    ensures |s| == |ds| && Spells(a, s)
    ensures forall i :: 0 <= i < |s| ==> s[i] == a[ds[i]]
  {
    seq(|ds|, i requires 0 <= i < |ds| => a[ds[i]])
  }

  function Indexes(a: string, s: string): (ds: seq<nat>)
    requires Spells(a, s)
    ensures |ds| == |s| && Below(ds, |a|)
    ensures forall i :: 0 <= i < |s| ==> a[ds[i]] == s[i]
  {
    seq(|s|, i requires 0 <= i < |s| => assert s[i] in a; IndexIn(a, s[i]))
  }

  /** Each digit is found again under its own character. */
  lemma IndexesOfChars(a: string, ds: seq<nat>)
    requires IsAlphabet(a) && Below(ds, 58)
    ensures Indexes(a, Chars(a, ds)) == ds
  {
  }

  lemma CharsOfIndexes(a: string, s: string)
    requires IsAlphabet(a) && Spells(a, s)
    ensures Chars(a, Indexes(a, s)) == s
  {
  }

  // ---- What the two functions mean -----------------------------------------

  function Encoded(a: string, bytes: seq<Byte>): string
    requires |a| == 58
  {
    Chars(a, Converted(bytes, 256, 58))
  }

  function Decoded(a: string, s: string): (r: Result<seq<Byte>, Fault>)
    requires |a| == 58
    ensures r.Ok? <==> Spells(a, s)
  {
    if Spells(a, s) then Ok(Converted(Indexes(a, s), 58, 256)) else Err(BadCharacter)
  }

  function Converted(ds: seq<nat>, from: nat, to: nat): (r: seq<nat>)
    requires to >= 2
    ensures r == Convert(ds, from, to) && Below(r, to)
  {
    var r := Convert(ds, from, to);
    assert forall i :: 0 <= i < |r| ==> r[i] in r;
    r
  }

  lemma BelowMembers(ds: seq<nat>, base: nat)
    requires Below(ds, base)
    ensures forall d :: d in ds ==> d < base
  {
  }

  lemma DecodeUndoesEncode(a: string, bytes: seq<Byte>)
    requires IsAlphabet(a)
    ensures Decoded(a, Encoded(a, bytes)) == Ok(bytes) <==> !AllZero(bytes)
  {
    BelowMembers(bytes, 256);
    RoundTripIff(bytes, 256, 58);
    IndexesOfChars(a, Converted(bytes, 256, 58));
  }

  /** Every character of s is the alphabet's first, the digit 0. */
  predicate AllFirst(a: string, s: string)
    requires |a| == 58
  {
    forall i :: 0 <= i < |s| ==> s[i] == a[0]
  }

  lemma EncodeUndoesDecode(a: string, s: string)
    requires IsAlphabet(a) && Spells(a, s)
    ensures Encoded(a, Decoded(a, s).value) == s <==> !AllFirst(a, s)
    ensures AllZero(Decoded(a, s).value) <==> AllFirst(a, s)
  {
    var ds := Indexes(a, s);
    BelowMembers(ds, 58);
    RoundTripIff(ds, 58, 256);
    CharsOfIndexes(a, s);
    var back := Converted(Converted(ds, 58, 256), 256, 58);
    IndexesOfChars(a, back);
    FirstIsZero(a, s);
  }

  lemma FirstIsZero(a: string, s: string)
    requires IsAlphabet(a) && Spells(a, s)
    ensures AllZero(Indexes(a, s)) <==> AllFirst(a, s)
    ensures forall i :: 0 <= i < |s| ==> (Indexes(a, s)[i] == 0 <==> s[i] == a[0])
  {
  }

  // ---- The loops -----------------------------------------------------------

  lemma CarryFits(d: nat, mul: nat, carry: nat, base: nat)
    requires base >= 2 && d < base && carry < mul
    ensures d * mul + carry < base * mul && (d * mul + carry) / base < mul
  {
    var x := d * mul + carry;
    Scaled(mul, base - d);
    assert mul * (base - d) == base * mul - d * mul;
    Scaled(base, mul - x / base);
    assert base * (mul - x / base) == base * mul - base * (x / base);
  }

  /** The body of the inner loop: the digit to store and the carry to pass on. */
  method CarryOne(digit: nat, mul: nat, carry: nat, base: nat, ghost tail: seq<nat>) returns (low: nat, out: nat)
    requires base >= 2 && digit < base && carry < mul
    ensures low < base && out < mul
    ensures MulAdd([digit] + tail, mul, carry, base) == [low] + MulAdd(tail, mul, out, base)
  {
    CarryFits(digit, mul, carry, base);
    assert ([digit] + tail)[1..] == tail;
    var x := digit * mul + carry;
    low, out := x % base, x / base;
  }

  lemma Stored(done: seq<nat>, tail: seq<nat>, low: nat, rest: seq<nat>)
    requires tail != []
    ensures (done + tail)[|done| := low] == done + [low] + tail[1..]
    ensures done + ([low] + rest) == done + [low] + rest
  {
  }

  /** The nested loops of both directions: multiply the digits in place, carry, and
      append what is left. Digits stay below the base and carries below `mul`. */
  method Push(digits: seq<nat>, mul: nat, first: nat, base: nat) returns (r: seq<nat>)
    requires base >= 2 && first < mul && Below(digits, base)
    ensures r == MulAdd(digits, mul, first, base)
    ensures Below(r, base)
  {
    r := digits;
    var carry: nat, i := first, 0;
    ghost var done: seq<nat>, tail := [], digits;
    while i < |r|
      invariant 0 <= i == |done| && r == done + tail
      invariant carry < mul && Below(done, base) && Below(tail, base)
      invariant MulAdd(digits, mul, first, base) == done + MulAdd(tail, mul, carry, base)
    {
      assert r[i] == tail[0] && tail == [tail[0]] + tail[1..];
      var low, out := CarryOne(r[i], mul, carry, base, tail[1..]);
      Stored(done, tail, low, MulAdd(tail[1..], mul, out, base));
      r := r[i := low];
      done, tail := done + [low], tail[1..];
      carry := out;
      i := i + 1;
    }
    assert tail == [];
    r := Spill(r, carry, base);
  }

  method Spill(digits: seq<nat>, rest: nat, base: nat) returns (r: seq<nat>)
    requires base >= 2 && Below(digits, base)
    ensures r == digits + Digits(rest, base) && Below(r, base)
  {
    r := digits;
    var carry: nat := rest;
    while carry > 0
      invariant Below(r, base) && digits + Digits(rest, base) == r + Digits(carry, base)
      decreases carry
    {
      DivShrinks(carry, base);
      assert r + Digits(carry, base) == r + [carry % base] + Digits(carry / base, base);
      r := r + [carry % base];
      carry := carry / base;
    }
  }

  /** Reading one more digit in one base takes one step in the other. */
  lemma Reads(ds: seq<nat>, k: nat, from: nat, to: nat)
    requires from >= 1 && to >= 2 && k < |ds|
    ensures MulAdd(Rep(BigEndian(ds[..k], from), to), from, ds[k], to)
            == Rep(BigEndian(ds[..k + 1], from), to)
  {
    assert ds[..k + 1] == ds[..k] + [ds[k]];
    BigEndianAppends(ds[..k], ds[k], from);
    StepsTo(BigEndian(ds[..k], from), from, ds[k], to);
  }

  lemma ReadAll(ds: seq<nat>, from: nat, to: nat)
    requires to >= 2
    ensures Rep(BigEndian([], from), to) == [0]
    ensures Zeros(LeadingZeros(ds)) + Reverse(Rep(BigEndian(ds[..|ds|], from), to)) == Converted(ds, from, to)
  {
    assert ds[..|ds|] == ds;
  }

  /** First loop of the encoder. */
  method ReadBytes(bytes: seq<Byte>) returns (digits: seq<nat>)
    ensures digits == Rep(BigEndian(bytes[..|bytes|], 256), 58) && Below(digits, 58)
  {
    digits := [0];
    ReadAll(bytes, 256, 58);
    var k := 0;
    while k < |bytes|
      invariant 0 <= k <= |bytes| && Below(digits, 58)
      invariant digits == Rep(BigEndian(bytes[..k], 256), 58)
    {
      Reads(bytes, k, 256, 58);
      digits := Push(digits, 256, bytes[k], 58);
      k := k + 1;
    }
  }

  /** Last loop of the encoder: the digits from the top down. */
  method SpellDown(a: string, zeros: string, digits: seq<nat>) returns (result: string)
    requires |a| == 58 && Below(digits, 58) && AllFirst(a, zeros)
    ensures var ds := Zeros(|zeros|) + Reverse(digits); Below(ds, 58) && result == Chars(a, ds)
  {
    var z := |zeros|;
    result := zeros;
    var i := |digits| - 1;
    while i >= 0
      invariant -1 <= i < |digits| && |result| == z + |digits| - 1 - i
      invariant forall j :: 0 <= j < |result| ==>
                  result[j] == if j < z then a[0] else a[digits[z + |digits| - 1 - j]]
    {
      result := result + [a[digits[i]]];
      i := i - 1;
    }
    Mirrored(z, digits);
  }

  lemma Mirrored(z: nat, digits: seq<nat>)
    ensures var all := Zeros(z) + Reverse(digits);
            forall k :: 0 <= k < |all| ==> all[k] == if k < z then 0 else digits[z + |digits| - 1 - k]
  {
  }

  /** Middle loop of the encoder: one first character per leading zero byte. */
  method SpellZeros(a: string, bytes: seq<Byte>) returns (result: string)
    requires |a| == 58
    ensures |result| == LeadingZeros(bytes) && AllFirst(a, result)
  {
    result := "";
    var i := 0;
    while i < |bytes| && bytes[i] == 0
      invariant 0 <= i == |result| <= LeadingZeros(bytes) && AllFirst(a, result)
    {
      result := result + [a[0]];
      i := i + 1;
    }
  }

  /** keys.ts's encoder; vp.ts runs the same loops behind a check for no bytes. */
  method EncodeBytes(a: string, bytes: seq<Byte>) returns (result: string)
    requires |a| == 58
    ensures result == Encoded(a, bytes)
  {
    var digits := ReadBytes(bytes);
    var zeros := SpellZeros(a, bytes);
    ReadAll(bytes, 256, 58);
    result := SpellDown(a, zeros, digits);
  }

  /** First loop of the decoder: a character outside the alphabet stops it. */
  method ReadText(a: string, value: string) returns (r: Result<seq<Byte>, Fault>)
    requires IsAlphabet(a)
    ensures r.Ok? <==> Spells(a, value)
    ensures r.Ok? ==> r.value == Rep(BigEndian(Indexes(a, value), 58), 256)
    ensures r.Err? ==> r.error == BadCharacter
  {
    var bytes: seq<nat> := [0];
    ReadAll([], 58, 256);
    var k := 0;
    while k < |value|
      invariant 0 <= k <= |value| && Below(bytes, 256)
      invariant Spells(a, value[..k])
      invariant bytes == Rep(BigEndian(Indexes(a, value[..k]), 58), 256)
    {
      var index := IndexIn(a, value[k]);
      if index < 0 {
        return Err(BadCharacter);
      }
      ReadsText(a, value, k);
      bytes := Push(bytes, 58, index, 256);
      k := k + 1;
    }
    assert value[..k] == value;
    r := Ok(bytes);
  }

  lemma ReadsText(a: string, value: string, k: nat)
    requires IsAlphabet(a) && k < |value| && Spells(a, value[..k]) && value[k] in a
    ensures Spells(a, value[..k + 1])
    ensures MulAdd(Rep(BigEndian(Indexes(a, value[..k]), 58), 256), 58, IndexIn(a, value[k]), 256)
            == Rep(BigEndian(Indexes(a, value[..k + 1]), 58), 256)
  {
    var next := Indexes(a, value[..k + 1]);
    assert next[..k] == Indexes(a, value[..k]) && next[..k + 1] == next;
    Reads(next, k, 58, 256);
  }

  method CountLeading(a: string, value: string) returns (leading: nat)
    requires IsAlphabet(a) && Spells(a, value)
    ensures leading == LeadingZeros(Indexes(a, value))
  {
    FirstIsZero(a, value);
    leading := 0;
    while leading < |value| && value[leading] == a[0]
      invariant 0 <= leading <= LeadingZeros(Indexes(a, value))
    {
      leading := leading + 1;
    }
  }

  method DecodeText(a: string, value: string) returns (r: Result<seq<Byte>, Fault>)
    requires IsAlphabet(a)
    ensures r == Decoded(a, value)
  {
    var read := ReadText(a, value);
    match read {
      case Err(e) => r := Err(e);
      case Ok(bytes) =>
        var leading := CountLeading(a, value);
        var decoded := Laid(leading, bytes);
        assert decoded == Converted(Indexes(a, value), 58, 256);
        r := Ok(decoded);
    }
  }

  /** The last loop of the decoder: the bytes laid out from the end of a zeroed array. */
  method Laid(leading: nat, bytes: seq<Byte>) returns (r: seq<Byte>)
    ensures r == Zeros(leading) + Reverse(bytes)
  {
    var decoded := new Byte[leading + |bytes|](_ => 0);
    var i := 0;
    while i < |bytes|
      invariant 0 <= i <= |bytes|
      invariant forall j :: 0 <= j < decoded.Length - i ==> decoded[j] == 0
      invariant forall j :: decoded.Length - i <= j < decoded.Length
                            ==> decoded[j] == bytes[decoded.Length - 1 - j]
    {
      decoded[decoded.Length - 1 - i] := bytes[i];
      i := i + 1;
    }
    r := decoded[..];
  }

  function EncodedOrEmpty(bytes: seq<Byte>): string {
    if bytes == [] then "" else AlphabetIsOne(); Encoded(ALPHABET, bytes)
  }

  function DecodedOrEmpty(s: string): Result<seq<Byte>, Fault> {
    if s == "" then Ok([]) else AlphabetIsOne(); Decoded(ALPHABET, s)
  }

  method Base58btcEncode(bytes: seq<Byte>) returns (result: string)
    ensures result == EncodedOrEmpty(bytes)
  {
    if |bytes| == 0 {
      return "";
    }
    AlphabetIsOne();
    result := EncodeBytes(ALPHABET, bytes);
  }

  method Base58btcDecode(value: string) returns (r: Result<seq<Byte>, Fault>)
    ensures r == DecodedOrEmpty(value)
  {
    if |value| == 0 {
      return Ok([]);
    }
    AlphabetIsOne();
    r := DecodeText(ALPHABET, value);
  }

  /** With the empty input answered apart, only all-zero arrays gain characters. */
  lemma Base58RoundTrips(bytes: seq<Byte>)
    ensures DecodedOrEmpty(EncodedOrEmpty(bytes)) == Ok(bytes) <==> bytes == [] || !AllZero(bytes)
  {
    AlphabetIsOne();
    DecodeUndoesEncode(ALPHABET, bytes);
  }

  lemma Base58IsCanonical(s: string)
    requires DecodedOrEmpty(s).Ok?
    ensures EncodedOrEmpty(DecodedOrEmpty(s).value) == s
            <==> s == "" || exists i :: 0 <= i < |s| && s[i] != '1'
  {
    AlphabetIsOne();
    if s != "" {
      EncodeUndoesDecode(ALPHABET, s);
    }
  }

  // ---- Public keys ---------------------------------------------------------

  const ED25519_PREFIX: seq<Byte> := [0xed, 0x01]
  const DID_KEY := "did:key:"

  function Multibase(key: seq<Byte>): string {
    AlphabetIsOne();
    "z" + Encoded(ALPHABET, ED25519_PREFIX + key)
  }

  method PublicKeyToMultibase(key: seq<Byte>) returns (m: string)
    ensures m == Multibase(key)
  {
    AlphabetIsOne();
    var encoded := EncodeBytes(ALPHABET, ED25519_PREFIX + key);
    m := "z" + encoded;
  }

  /** What MultibaseToPublicKey answers: whatever follows two bytes, prefix unchecked. */
  function KeyOfMultibase(m: string): Result<seq<Byte>, Fault> {
    if m == "" || m[0] != 'z' then Err(NotBase58btc)
    else AlphabetIsOne(); match Decoded(ALPHABET, m[1..])
      case Err(e) => Err(e)
      case Ok(bytes) => Ok(if |bytes| < 2 then [] else bytes[2..])
  }

  method MultibaseToPublicKey(m: string) returns (r: Result<seq<Byte>, Fault>)
    ensures r == KeyOfMultibase(m)
  {
    if !("z" <= m) {
      return Err(NotBase58btc);
    }
    AlphabetIsOne();
    var decoded := DecodeText(ALPHABET, m[1..]);
    match decoded {
      case Err(e) => r := Err(e);
      case Ok(bytes) => r := Ok(if |bytes| < 2 then [] else bytes[2..]);
    }
  }

  /** The key a did:key names, `did` being any text the resolver was handed. */
  function KeyOfDid(did: string): Result<seq<Byte>, Fault>
    requires DID_KEY <= did
  {
    var fingerprint := did[|DID_KEY|..];
    if fingerprint == "" || fingerprint[0] != 'z' then Err(NotBase58btc)
    else match DecodedOrEmpty(fingerprint[1..])
      case Err(e) => Err(e)
      case Ok(bytes) =>
        if |bytes| != 34 || bytes[..2] != ED25519_PREFIX then Err(NotEd25519) else Ok(bytes[2..])
  }

  method ResolveDidKey(did: string) returns (r: Result<seq<Byte>, Fault>)
    requires DID_KEY <= did
    ensures r == KeyOfDid(did)
  {
    var fingerprint := did[|DID_KEY|..];
    if !("z" <= fingerprint) {
      return Err(NotBase58btc);
    }
    var decoded := Base58btcDecode(fingerprint[1..]);
    match decoded {
      case Err(e) => r := Err(e);
      case Ok(bytes) =>
        if |bytes| < 1 || bytes[0] != ED25519_PREFIX[0]
           || |bytes| < 2 || bytes[1] != ED25519_PREFIX[1] || |bytes| != 34 {
          r := Err(NotEd25519);
        } else {
          r := Ok(bytes[2..]);
        }
    }
  }

  /** A key of any length survives the multibase form; one of 32 bytes also survives
      as a did:key, and those are the only ones a resolver hands out. */
  lemma KeysSurvive(key: seq<Byte>)
    ensures KeyOfMultibase(Multibase(key)) == Ok(key)
    ensures KeyOfDid(DID_KEY + Multibase(key)) == (if |key| == 32 then Ok(key) else Err(NotEd25519))
  {
    AlphabetIsOne();
    var bytes := ED25519_PREFIX + key;
    assert bytes[0] != 0 && bytes[2..] == key && bytes[..2] == ED25519_PREFIX;
    DecodeUndoesEncode(ALPHABET, bytes);
    assert Multibase(key)[1..] == Encoded(ALPHABET, bytes);
    assert (DID_KEY + Multibase(key))[|DID_KEY|..] == Multibase(key);
  }

  lemma PrefixedTextIsCanonical(rest: string)
    requires |ALPHABET| == 58 && Decoded(ALPHABET, rest).Ok?
    requires ED25519_PREFIX <= Decoded(ALPHABET, rest).value
    ensures Encoded(ALPHABET, ED25519_PREFIX + Decoded(ALPHABET, rest).value[2..]) == rest
  {
    AlphabetIsOne();
    var bytes := Decoded(ALPHABET, rest).value;
    assert bytes[0] == ED25519_PREFIX[0] && bytes == ED25519_PREFIX + bytes[2..];
    EncodeUndoesDecode(ALPHABET, rest);
  }

  /** A did:key that resolves is the one form of its key: no two name the same key. */
  lemma DidKeyIsCanonical(did: string)
    requires DID_KEY <= did && KeyOfDid(did).Ok?
    ensures |KeyOfDid(did).value| == 32 && did == DID_KEY + Multibase(KeyOfDid(did).value)
  {
    AlphabetIsOne();
    var fingerprint := did[|DID_KEY|..];
    var rest := fingerprint[1..];
    assert fingerprint == "z" + rest && did == DID_KEY + fingerprint;
    PrefixedTextIsCanonical(rest);
  }

  /** So a did:key resolves to a key exactly when it is the text made of the key's 32 bytes
      behind the two of the Ed25519 prefix. */
  lemma DidKeyMeans(did: string, key: seq<Byte>)
    requires "did:key:" <= did
    ensures KeyOfDid(did) == Ok(key) <==>
            |key| == 32 && |ALPHABET| == 58 && did == "did:key:" + "z" + Encoded(ALPHABET, [0xed, 0x01] + key)
  {
    AlphabetIsOne();
    KeysSurvive(key);
    assert DID_KEY + Multibase(key) == "did:key:" + "z" + Encoded(ALPHABET, [0xed, 0x01] + key);
    if KeyOfDid(did) == Ok(key) {
      DidKeyIsCanonical(did);
    }
  }
}
