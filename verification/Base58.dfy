/** Base58 as bindings/python/hopper_svm/core.py writes it: through one big integer. */
module Base58 {
  import opened Common
  import opened Radix

  const ALPHABET: string :=
    "123456789" + "ABCDEFGHJKLM" + "NPQRSTUVWXYZ" + "abcdefghijk" + "mnopqrstuvwxyz"

  /** The alphabet, run by run: the digits but 0, the upper-case letters but I and O, the
      lower-case letters but l. */
  function Symbol(d: nat): char
    requires d < 58
  {
    if d < 9 then '1' + d as char
    else if d < 17 then 'A' + (d - 9) as char
    else if d < 22 then 'J' + (d - 17) as char
    else if d < 33 then 'P' + (d - 22) as char
    else if d < 44 then 'a' + (d - 33) as char
    else 'm' + (d - 44) as char
  }

  lemma SymbolsSpellTheAlphabet()
    ensures |ALPHABET| == 58
    ensures forall d :: 0 <= d < 58 ==> Symbol(d) == ALPHABET[d]
  {
  }

  /** The position of c in the alphabet, or 58 when it is not a base58 character. */
  function Index(c: char): (d: nat)
    ensures d <= 58
    ensures d < 58 ==> Symbol(d) == c
    ensures d == 58 ==> forall j :: 0 <= j < 58 ==> Symbol(j) != c
  {
    IndexFrom(c, 0)
  }

  function IndexFrom(c: char, i: nat): (d: nat)
    requires i <= 58
    ensures i <= d <= 58
    ensures d < 58 ==> Symbol(d) == c
    ensures d == 58 ==> forall j :: i <= j < 58 ==> Symbol(j) != c
    decreases 58 - i
  {
    if i == 58 then 58 else if Symbol(i) == c then i else IndexFrom(c, i + 1)
  }

  /** No symbol stands for two digits. */
  lemma IndexOfDigit(d: nat)
    requires d < 58
    ensures Index(Symbol(d)) == d
  {
    assert Symbol(Index(Symbol(d))) == Symbol(d);
  }

  predicate Valid(s: string) {
    forall i :: 0 <= i < |s| ==> Index(s[i]) < 58
  }

  function Indices(s: string): (ds: seq<nat>)
    ensures |ds| == |s| && forall i :: 0 <= i < |s| ==> ds[i] == Index(s[i])
  {
    seq(|s|, i requires 0 <= i < |s| => Index(s[i]))
  }

  function Chars(ds: seq<nat>): (s: string)
    requires IsDigits(58, ds)
    ensures |s| == |ds| && forall i :: 0 <= i < |ds| ==> s[i] == Symbol(ds[i])
  {
    seq(|ds|, i requires 0 <= i < |ds| => Symbol(ds[i]))
  }

  lemma CharsIndices(s: string)
    requires Valid(s)
    ensures IsDigits(58, Indices(s)) && Chars(Indices(s)) == s
  {
  }

  lemma IndicesChars(ds: seq<nat>)
    requires IsDigits(58, ds)
    ensures Valid(Chars(ds)) && Indices(Chars(ds)) == ds
  {
    forall i | 0 <= i < |ds| ensures Index(Chars(ds)[i]) == ds[i] { IndexOfDigit(ds[i]); }
  }

  /** The string of a byte string, and the bytes of a string. */
  function Encode(b: seq<byte>): string {
    ConvertDigits(256, 58, b);
    Chars(Convert(256, 58, b))
  }

  function Decode(s: string): Result<seq<byte>> {
    if Valid(s) then
      ConvertDigits(58, 256, Indices(s));
      Ok(AsBytes(Convert(58, 256, Indices(s))))
    else
      Err(BuiltinError)
  }

  function AsBytes(ds: seq<nat>): (b: seq<byte>)
    requires IsDigits(256, ds)
    ensures b == ds
  {
    seq(|ds|, i requires 0 <= i < |ds| => ds[i])
  }

  lemma ConvertDigits(from: nat, to: nat, s: seq<nat>)
    requires 2 <= to
    ensures IsDigits(to, Convert(from, to, s))
  {
    DigitsValue(to, Value(from, s));
  }

  /** Section 4 of draft-msporny-base58 undoes section 3, leading zero bytes included. */
  lemma DecodeEncode(b: seq<byte>)
    ensures Decode(Encode(b)) == Ok(b)
  {
    ConvertDigits(256, 58, b);
    IndicesChars(Convert(256, 58, b));
    ConvertInverse(256, 58, b);
  }

  /** Every string over the alphabet is the encoding of exactly what it decodes to. */
  lemma EncodeDecode(s: string)
    ensures Valid(s) <==> Decode(s).Ok?
    ensures Valid(s) ==> Encode(Decode(s).value) == s
  {
    if Valid(s) {
      CharsIndices(s);
      ConvertInverse(58, 256, Indices(s));
    }
  }

  function Numeral(n: nat): string {
    DigitsValue(58, n);
    Chars(Digits(58, n))
  }

  lemma NumeralStep(n: nat)
    requires n > 0
    ensures n / 58 < n && Numeral(n) == Numeral(n / 58) + [Symbol(n % 58)]
  {
    DivDecreases(n, 58);
    DigitsValue(58, n / 58);
  }

  lemma EncodeParts(b: seq<byte>, leading: nat)
    requires leading == LeadingZeros(b)
    ensures Encode(b) == seq(leading, _ => '1') + Numeral(Value(256, b))
  {
    ConvertDigits(256, 58, b);
  }

  /** `_base58_encode`: peel base-58 digits off the number, then prefix one '1' for
      every leading zero byte. */
  method PyEncode(b: seq<byte>) returns (out: string)
    ensures out == Encode(b)
  {
    if b == [] {
      return "";
    }
    out := PeelDigits(Value(256, b));
    var leading := CountPrefix(b, 0);
    LeadingZerosUnique(b, leading);
    EncodeParts(b, leading);
    out := seq(leading, _ => '1') + out;
  }

  method PeelDigits(number: nat) returns (out: string)
    ensures out == Numeral(number)
  {
    var n := number;
    out := "";
    ghost var target := Numeral(number);
    while n > 0
      invariant Numeral(n) + out == target
    {
      NumeralStep(n);
      var rem := n % 58;
      n, out := n / 58, [Symbol(rem)] + out;
    }
  }

  method CountPrefix<T(==)>(s: seq<T>, x: T) returns (leading: nat)
    ensures leading <= |s| && (forall i :: 0 <= i < leading ==> s[i] == x)
    ensures leading < |s| ==> s[leading] != x
  {
    leading := 0;
    while leading < |s| && s[leading] == x
      invariant leading <= |s| && forall i :: 0 <= i < leading ==> s[i] == x
    {
      leading := leading + 1;
    }
  }

  /** `_base58_decode`: accumulate the number left to right, failing at the first
      character outside the alphabet. */
  method PyDecode(s: string) returns (r: Result<seq<byte>>)
    ensures r == Decode(s)
  {
    if s == [] {
      return Ok([]);
    }
    var leading := CountPrefix(s, '1');
    var n: nat := 0;
    for i := 0 to |s|
      invariant Valid(s[..i])
      invariant n == Value(58, Indices(s[..i]))
    {
      var idx := Index(s[i]);
      if idx == 58 {
        return Err(BuiltinError);
      }
      assert Indices(s[..i + 1]) == Indices(s[..i]) + [idx];
      ValueSnoc(58, Indices(s[..i]), idx);
      n := n * 58 + idx;
    }
    assert s[..|s|] == s;
    OnesAreZeros(s, leading);
    ConvertDigits(58, 256, Indices(s));
    DigitsValue(256, n);
    r := Ok(seq(leading, _ => 0) + AsBytes(Digits(256, n)));
  }

  /** The leading '1' characters are exactly the leading zero digits. */
  lemma OnesAreZeros(s: string, leading: nat)
    requires leading <= |s| && (forall i :: 0 <= i < leading ==> s[i] == '1')
    requires leading < |s| ==> s[leading] != '1'
    ensures LeadingZeros(Indices(s)) == leading
  {
    IndexOfDigit(0);
    assert Symbol(0) == '1';
    LeadingZerosUnique(Indices(s), leading);
  }
}
