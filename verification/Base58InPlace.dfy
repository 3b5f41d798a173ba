/** Base58 as bindings/typescript/src/index.ts writes it: an array of digits, least
    significant first, multiplied and added to in place with a running carry. */
module Base58InPlace {
  import opened Common
  import opened Radix
  import opened Base58

  function Rev(s: seq<nat>): (r: seq<nat>)
    ensures |r| == |s| && forall i :: 0 <= i < |s| ==> r[i] == s[|s| - 1 - i]
  {
    if s == [] then [] else Rev(s[1..]) + [s[0]]
  }

  /** The digits a carry leaves behind when it is pushed out. */
  function Spill(base: nat, carry: nat): seq<nat>
    requires 2 <= base
  {
    if carry == 0 then [] else
      DivDecreases(carry, base);
      [carry % base] + Spill(base, carry / base)
  }

  /** The array after multiplying by mul and adding carry. */
  function MulAdd(mul: nat, base: nat, ds: seq<nat>, carry: nat): seq<nat>
    requires 2 <= base
  {
    if ds == [] then Spill(base, carry) else
      var t: nat := carry + ds[0] * mul;
      [t % base] + MulAdd(mul, base, ds[1..], t / base)
  }

  /** The number an array spells, least significant digit first. */
  function LeValue(base: nat, s: seq<nat>): nat {
    if s == [] then 0 else LeValue(base, s[1..]) * base + s[0]
  }

  lemma {:induction false} LeValueRev(base: nat, s: seq<nat>)
    ensures LeValue(base, s) == Value(base, Rev(s))
  {
    if s != [] {
      LeValueRev(base, s[1..]);
      ValueSnoc(base, Rev(s[1..]), s[0]);
      assert Rev(s) == Rev(s[1..]) + [s[0]];
    }
  }

  lemma LeValueCons(base: nat, d: nat, s: seq<nat>)
    ensures LeValue(base, [d] + s) == LeValue(base, s) * base + d
  {
  }

  lemma {:induction false} SpillValue(base: nat, carry: nat)
    requires 2 <= base
    ensures LeValue(base, Spill(base, carry)) == carry && IsDigits(base, Spill(base, carry))
    ensures carry > 0 ==> var s := Spill(base, carry); s != [] && s[|s| - 1] != 0
  {
    if carry > 0 {
      DivDecreases(carry, base);
      var q, r := DivModParts(base, carry);
      SpillValue(base, q);
      LeValueCons(base, r, Spill(base, q));
    }
  }

  lemma {:induction false} MulAddValue(mul: nat, base: nat, ds: seq<nat>, carry: nat)
    requires 2 <= base
    ensures LeValue(base, MulAdd(mul, base, ds, carry)) == LeValue(base, ds) * mul + carry
    ensures IsDigits(base, MulAdd(mul, base, ds, carry))
  {
    if ds == [] {
      SpillValue(base, carry);
    } else {
      var q, r := DivModParts(base, carry + ds[0] * mul);
      MulAddValue(mul, base, ds[1..], q);
      LeValueCons(base, r, MulAdd(mul, base, ds[1..], q));
      Regroup(LeValue(base, ds[1..]), mul, base, ds[0], carry, q, r);
    }
  }

  lemma CarryBound(mul: nat, base: nat, d: nat, carry: nat)
    requires 2 <= base && d < base && carry < mul
    ensures (carry + d * mul) / base < mul
  {
    var q, r := DivModParts(base, carry + d * mul);
    MulMono(d + 1, base, mul);
    assert q * base < base * mul;
    if mul <= q { MulMono(mul, q, base); }
  }

  /** The carry loop has done j digits of the array it will end in. */
  ghost predicate Carrying(mul: nat, base: nat, start: seq<nat>, target: seq<nat>, digits: seq<nat>, j: nat, carry: nat)
    requires 2 <= base
  {
    && j <= |digits| == |start|
    && carry < mul
    && digits[j..] == start[j..]
    && digits[..j] + MulAdd(mul, base, start[j..], carry) == target
  }

  lemma CarryStep(mul: nat, base: nat, start: seq<nat>, target: seq<nat>, digits: seq<nat>, j: nat, carry: nat)
    requires 2 <= base && IsDigits(base, start) && j < |digits|
    requires Carrying(mul, base, start, target, digits, j, carry)
    ensures var t := carry + digits[j] * mul;
      Carrying(mul, base, start, target, digits[j := t % base], j + 1, t / base)
  {
    assert start[j..][0] == digits[j..][0] == digits[j] == start[j];
    assert start[j..][1..] == start[j + 1..];
    var t := carry + digits[j] * mul;
    CarryBound(mul, base, digits[j], carry);
    assert digits[j := t % base][..j + 1] == digits[..j] + [t % base];
    assert forall i :: j + 1 <= i < |digits| ==> digits[i] == digits[j..][i - j];
  }

  lemma CarryDone(mul: nat, base: nat, start: seq<nat>, target: seq<nat>, digits: seq<nat>, carry: nat)
    requires 2 <= base && Carrying(mul, base, start, target, digits, |digits|, carry)
    ensures carry < mul && digits + Spill(base, carry) == target
  {
    assert digits[..|digits|] == digits && start[|digits|..] == [];
  }

  lemma SpillStep(base: nat, digits: seq<nat>, carry: nat)
    requires 2 <= base && carry > 0
    ensures carry / base < carry
    ensures digits + [carry % base] + Spill(base, carry / base) == digits + Spill(base, carry)
  {
    DivDecreases(carry, base);
  }

  lemma Regroup(v: nat, mul: nat, base: nat, d: nat, carry: nat, q: nat, r: nat)
    requires q * base + r == carry + d * mul
    ensures (v * mul + q) * base + r == (v * base + d) * mul + carry
  {
    assert (v * mul + q) * base == v * mul * base + q * base;
    assert (v * base + d) * mul == v * base * mul + d * mul;
    assert v * mul * base == v * base * mul;
  }

  /** The array is [0] or ends in a non-zero digit. */
  ghost predicate Normal(ds: seq<nat>) {
    ds == [0] || (ds != [] && ds[|ds| - 1] != 0)
  }

  lemma {:induction false} MulAddTop(mul: nat, base: nat, ds: seq<nat>, carry: nat)
    requires 2 <= base && 1 <= mul && ds != [] && ds[|ds| - 1] != 0
    ensures var out := MulAdd(mul, base, ds, carry); out != [] && out[|out| - 1] != 0
  {
    var t: nat := carry + ds[0] * mul;
    var q, r := DivModParts(base, t);
    if |ds| == 1 {
      MulMono(1, mul, ds[0]);
      SpillValue(base, q);
      assert MulAdd(mul, base, ds, carry) == [r] + Spill(base, q);
    } else {
      MulAddTop(mul, base, ds[1..], q);
    }
  }

  lemma MulAddNormal(mul: nat, base: nat, ds: seq<nat>, carry: nat)
    requires 2 <= base && 1 <= mul && Normal(ds)
    ensures Normal(MulAdd(mul, base, ds, carry))
  {
    if ds == [0] {
      var q, r := DivModParts(base, carry);
      SpillValue(base, q);
      assert MulAdd(mul, base, ds, carry) == [r] + Spill(base, q);
    } else {
      MulAddTop(mul, base, ds, carry);
    }
  }

  /** A normal array of a positive value is its shortest numeral, reversed. */
  lemma NormalIsDigits(base: nat, ds: seq<nat>)
    requires 2 <= base && IsDigits(base, ds) && Normal(ds)
    ensures LeValue(base, ds) == 0 <==> ds == [0]
    ensures ds != [0] ==> Rev(ds) == Digits(base, LeValue(base, ds))
  {
    if ds != [0] {
      LeValueRev(base, ds);
      ValueDigits(base, Rev(ds));
    }
  }

  lemma {:induction false} ValueOfZeros(base: nat, s: seq<nat>)
    requires 2 <= base
    ensures Value(base, s) == 0 <==> LeadingZeros(s) == |s|
  {
    if LeadingZeros(s) == |s| {
      assert s == Zeros(|s|) + [];
      ValueZerosPrefix(base, |s|, []);
    } else {
      var k := LeadingZeros(s);
      ValuePositive(base, s, k);
    }
  }

  lemma {:induction false} ValuePositive(base: nat, s: seq<nat>, k: nat)
    requires 1 <= base && k < |s| && s[k] != 0
    ensures Value(base, s) > 0
  {
    if k < |s| - 1 {
      ValuePositive(base, s[..|s| - 1], k);
      MulMono(1, base, Value(base, s[..|s| - 1]));
    }
  }

  /** The inputs on which the array form differs from the big-integer form. */
  predicate AllZero(bytes: seq<byte>) {
    bytes != [] && forall i :: 0 <= i < |bytes| ==> bytes[i] == 0
  }

  predicate AllOnes(str: string) {
    str != [] && forall i :: 0 <= i < |str| ==> str[i] == '1'
  }

  /** The array starts as [0], so an input of zeros only gets one symbol too many. */
  function ArrayEncode(bytes: seq<byte>): string {
    Encode(bytes) + if AllZero(bytes) then "1" else ""
  }

  function ArrayDecode(str: string): Result<seq<byte>> {
    var b :- Decode(str);
    Ok(b + if AllOnes(str) then [0] else [])
  }

  lemma OnesDecodeToZeros(str: string)
    requires AllOnes(str)
    ensures Decode(str) == Ok(Zeros(|str|))
  {
    IndexOfDigit(0);
    assert Symbol(0) == '1';
    var ds := Indices(str);
    LeadingZerosUnique(ds, |ds|);
    ValueOfZeros(58, ds);
    ConvertDigits(58, 256, ds);
    assert Convert(58, 256, ds) == Zeros(|str|);
  }

  lemma ZerosEncodeToOnes(b: seq<byte>)
    requires AllZero(b)
    ensures AllOnes(ArrayEncode(b)) && |ArrayEncode(b)| == |b| + 1
  {
    LeadingZerosUnique(b, |b|);
    ValueOfZeros(256, b);
    EncodeParts(b, |b|);
  }

  lemma OnesOnlyFromZeros(b: seq<byte>)
    requires AllOnes(Encode(b))
    ensures AllZero(b)
  {
    DecodeEncode(b);
    OnesDecodeToZeros(Encode(b));
  }

  /** The array pair is a round trip on exactly the byte strings that are not all zero. */
  lemma ArrayRoundTrip(b: seq<byte>)
    ensures ArrayDecode(ArrayEncode(b)) == Ok(b) <==> !AllZero(b)
  {
    if AllZero(b) {
      ZerosEncodeToOnes(b);
      OnesDecodeToZeros(ArrayEncode(b));
    } else {
      DecodeEncode(b);
      assert Encode(b) + "" == Encode(b) && b + [] == b;
      if AllOnes(Encode(b)) { OnesOnlyFromZeros(b); }
    }
  }

  /** `base58Encode`. Every intermediate number stays below 58 * 256,
      so JavaScript's 32-bit shifts are exact. */
  method TsEncode(bytes: seq<byte>) returns (out: string)
    ensures out == ArrayEncode(bytes)
  {
    if bytes == [] {
      return "";
    }
    var leading := CountPrefix(bytes, 0);
    LeadingZerosUnique(bytes, leading);
    var digits: seq<nat> := [0];
    for i := leading to |bytes|
      invariant IsDigits(58, digits) && Normal(digits)
      invariant LeValue(58, digits) == Value(256, bytes[leading..i])
    {
      digits := PushCarry(256, 58, digits, bytes[i]);
      AppendDigit(256, bytes, leading, i);
    }
    assert bytes[leading..|bytes|] == bytes[leading..];
    assert bytes == Zeros(leading) + bytes[leading..];
    ValueZerosPrefix(256, leading, bytes[leading..]);
    NormalIsDigits(58, digits);
    ValueOfZeros(256, bytes);
    EncodeParts(bytes, leading);
    out := seq(leading, _ => '1') + Chars(Rev(digits));
    if digits == [0] {
      assert Chars(Rev(digits)) == "1";
    }
  }

  /** One round of either outer loop: multiply the array by mul, add c and push what is
      left of the carry. Every intermediate number stays below mul * base. */
  method PushCarry(mul: nat, base: nat, start: seq<nat>, c: nat) returns (digits: seq<nat>)
    requires 2 <= base && 1 <= mul && c < mul && IsDigits(base, start) && Normal(start)
    ensures IsDigits(base, digits) && Normal(digits)
    ensures LeValue(base, digits) == LeValue(base, start) * mul + c
  {
    var carry: nat;
    digits, carry := CarryThrough(mul, base, start, c);
    ghost var target := digits + Spill(base, carry);
    while carry > 0
      invariant digits + Spill(base, carry) == target
    {
      SpillStep(base, digits, carry);
      digits := digits + [carry % base];
      carry := carry / base;
    }
    assert digits + [] == digits;
    MulAddValue(mul, base, start, c);
    MulAddNormal(mul, base, start, c);
  }

  method CarryThrough(mul: nat, base: nat, start: seq<nat>, c: nat) returns (digits: seq<nat>, carry: nat)
    requires 2 <= base && c < mul && IsDigits(base, start)
    ensures carry < mul
    ensures digits + Spill(base, carry) == MulAdd(mul, base, start, c)
  {
    ghost var target := MulAdd(mul, base, start, c);
    digits, carry := start, c;
    var j := 0;
    assert start[0..] == start;
    while j < |digits|
      invariant 0 <= j <= |digits| && Carrying(mul, base, start, target, digits, j, carry)
    {
      CarryStep(mul, base, start, target, digits, j, carry);
      carry := carry + digits[j] * mul;
      digits, carry, j := digits[j := carry % base], carry / base, j + 1;
    }
    CarryDone(mul, base, start, target, digits, carry);
  }

  lemma AppendDigit(base: nat, s: seq<nat>, from: nat, i: nat)
    requires from <= i < |s|
    ensures Value(base, s[from..i + 1]) == Value(base, s[from..i]) * base + s[i]
  {
    assert s[from..i + 1] == s[from..i] + [s[i]];
    ValueSnoc(base, s[from..i], s[i]);
  }

  /** The outer loop of `base58Decode` before character i. */
  ghost predicate Decoding(str: string, leading: nat, i: nat, bytes: seq<nat>) {
    && leading <= i <= |str| && Valid(str[..i])
    && IsDigits(256, bytes) && Normal(bytes)
    && LeValue(256, bytes) == Value(58, Indices(str)[leading..i])
  }

  lemma DecodingStarts(str: string, leading: nat)
    requires leading <= |str| && forall i :: 0 <= i < leading ==> str[i] == '1'
    ensures Decoding(str, leading, leading, [0])
  {
    IndexOfDigit(0);
    assert Symbol(0) == '1';
    assert Indices(str)[leading..leading] == [];
  }

  lemma DecodingStep(str: string, leading: nat, i: nat, bytes: seq<nat>, next: seq<nat>)
    requires Decoding(str, leading, i, bytes) && i < |str| && Index(str[i]) < 58
    requires IsDigits(256, next) && Normal(next)
    requires LeValue(256, next) == LeValue(256, bytes) * 58 + Index(str[i])
    ensures Decoding(str, leading, i + 1, next)
  {
    AppendDigit(58, Indices(str), leading, i);
  }

  lemma DecodedDigits(str: string, leading: nat, bytes: seq<nat>)
    requires Decoding(str, leading, |str|, bytes) && LeadingZeros(Indices(str)) == leading
    ensures Valid(str) && Value(58, Indices(str)) == LeValue(256, bytes)
    ensures bytes != [0] ==> Convert(58, 256, Indices(str)) == Zeros(leading) + Rev(bytes)
    ensures bytes == [0] ==> leading == |str| && Convert(58, 256, Indices(str)) == Zeros(leading)
  {
    var ds := Indices(str);
    assert str[..|str|] == str;
    assert ds[leading..|str|] == ds[leading..];
    assert ds == Zeros(leading) + ds[leading..];
    ValueZerosPrefix(58, leading, ds[leading..]);
    NormalIsDigits(256, bytes);
    ValueOfZeros(58, ds);
  }

  lemma ArrayIsDecoded(str: string, leading: nat, bytes: seq<nat>)
    requires Decoding(str, leading, |str|, bytes) && str != []
    requires forall i :: 0 <= i < leading ==> str[i] == '1'
    requires leading < |str| ==> str[leading] != '1'
    ensures ArrayDecode(str) == Ok(Zeros(leading) + AsBytes(Rev(bytes)))
  {
    OnesAreZeros(str, leading);
    DecodedDigits(str, leading, bytes);
    if bytes == [0] {
      assert AllOnes(str) && AsBytes(Rev(bytes)) == [0];
    } else {
      NormalIsDigits(256, bytes);
      ValueOfZeros(58, Indices(str));
      assert !AllOnes(str);
      assert Decode(str).value + [] == Zeros(leading) + AsBytes(Rev(bytes));
    }
  }

  /** `base58Decode`. A character outside the alphabet is an error wherever it stands. */
  method TsDecode(str: string) returns (r: Result<seq<byte>>)
    ensures r == ArrayDecode(str)
  {
    if str == [] {
      return Ok([]);
    }
    var leading := CountPrefix(str, '1');
    var bytes: seq<nat> := [0];
    DecodingStarts(str, leading);
    for i := leading to |str|
      invariant Decoding(str, leading, i, bytes)
    {
      var v := Index(str[i]);
      if v == 58 {
        assert !Valid(str);
        return Err(BuiltinError);
      }
      var next := PushCarry(58, 256, bytes, v);
      DecodingStep(str, leading, i, bytes, next);
      bytes := next;
    }
    ArrayIsDecoded(str, leading, bytes);
    r := Ok(Zeros(leading) + AsBytes(Rev(bytes)));
  }
}
